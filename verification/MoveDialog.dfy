// The move dialog: which items may become the new parent of the item being
// moved, and why none of them closes a loop.
module MoveDialog {
  import opened Basics
  import opened Chains

  datatype Item = Item(workspace: Id, id: Id, kind: string, archived: bool)

  datatype Relation = Relation(workspace: Id, source: Id, target: Id, kind: string, position: Option<int>)

  const PART_OF := "part_of"
  const ACTION := "action"

  /** Target of the first part_of relation out of x. */
  function FirstTarget(rels: seq<Relation>, ws: Id, x: Id): Option<Id> {
    if rels == [] then None
    else if rels[0].workspace == ws && rels[0].source == x && rels[0].kind == PART_OF then Some(rels[0].target)
    else FirstTarget(rels[1..], ws, x)
  }

  function FirstItem(items: seq<Item>, ws: Id, x: Id): Option<Item> {
    if items == [] then None
    else if items[0].workspace == ws && items[0].id == x then Some(items[0])
    else FirstItem(items[1..], ws, x)
  }

  function PartOfTarget(items: seq<Item>, rels: seq<Relation>, item: Item): Option<Item> {
    match FirstTarget(rels, item.workspace, item.id)
    case None => None
    case Some(t) => FirstItem(items, item.workspace, t)
  }

  lemma {:induction false} FirstItemIs(items: seq<Item>, ws: Id, x: Id)
    ensures match FirstItem(items, ws, x)
            case Some(i) => i in items && i.workspace == ws && i.id == x
            case None => forall i :: i in items ==> i.workspace != ws || i.id != x
  {
    if items != [] && !(items[0].workspace == ws && items[0].id == x) {
      FirstItemIs(items[1..], ws, x);
      assert items == [items[0]] + items[1..];
    }
  }

  /** Relation j of the store says that x is part of t. */
  ghost predicate SaysPartOf(rels: seq<Relation>, j: int, ws: Id, x: Id, t: Id) {
    0 <= j < |rels| && rels[j].workspace == ws && rels[j].source == x && rels[j].kind == "part_of" &&
      rels[j].target == t
  }

  /** No relation before j says that x is part of anything. */
  ghost predicate NoneBefore(rels: seq<Relation>, j: int, ws: Id, x: Id) {
    forall k, t :: k < j ==> !SaysPartOf(rels, k, ws, x, t)
  }

  /** How far the search for the first part_of relation out of x gets. */
  lemma {:induction false} FirstTargetAt(rels: seq<Relation>, ws: Id, x: Id) returns (j: nat)
    ensures j <= |rels| && NoneBefore(rels, j, ws, x)
    ensures match FirstTarget(rels, ws, x)
            case Some(t) => SaysPartOf(rels, j, ws, x, t)
            case None => j == |rels|
  {
    if rels == [] || (rels[0].workspace == ws && rels[0].source == x && rels[0].kind == "part_of") { return 0; }
    var i := FirstTargetAt(rels[1..], ws, x);
    j := i + 1;
    forall k, t | k < j ensures !SaysPartOf(rels, k, ws, x, t) {
      if k > 0 { assert !SaysPartOf(rels[1..], k - 1, ws, x, t); }
    }
  }

  /** The target found is that of the first stored part_of relation of the workspace out of x. */
  lemma {:induction false} FirstTargetIs(rels: seq<Relation>, ws: Id, x: Id)
    ensures forall t :: FirstTarget(rels, ws, x) == Some(t) <==>
              exists j :: SaysPartOf(rels, j, ws, x, t) && NoneBefore(rels, j, ws, x)
    ensures FirstTarget(rels, ws, x) == None <==> NoneBefore(rels, |rels|, ws, x)
  {
    var i := FirstTargetAt(rels, ws, x);
    forall j, t | SaysPartOf(rels, j, ws, x, t) && NoneBefore(rels, j, ws, x)
      ensures FirstTarget(rels, ws, x) == Some(t)
    {
      assert i == j;
    }
  }

  ghost function IdsIn(items: seq<Item>, ws: Id): set<Id> {
    set i | i in items && i.workspace == ws :: i.id
  }

  /** The part_of links of one workspace, as the screen reads them. */
  ghost function Links(items: seq<Item>, rels: seq<Relation>, ws: Id): Parents {
    map x | x in IdsIn(items, ws) && FirstTarget(rels, ws, x).Some? &&
      FirstItem(items, ws, FirstTarget(rels, ws, x).value).Some?
      :: FirstTarget(rels, ws, x).value
  }

  lemma {:induction false} LinkIsTarget(items: seq<Item>, rels: seq<Relation>, ws: Id, item: Item, t: Id)
    requires item in items && item.workspace == ws
    ensures (PartOfTarget(items, rels, item).Some? && PartOfTarget(items, rels, item).value.id == t) <==>
            item.id in Links(items, rels, ws) && Links(items, rels, ws)[item.id] == t
  {
    if FirstTarget(rels, ws, item.id).Some? { FirstItemIs(items, ws, FirstTarget(rels, ws, item.id).value); }
  }

  // ---- Collecting what lies under an item ----

  ghost function Descendants(p: Parents, x: Id): set<Id> {
    set y | y in p && Ancestor(p, x, y)
  }

  ghost predicate ChildrenIn(p: Parents, x: Id, d: set<Id>) {
    forall c :: c in p && p[c] == x ==> c in d
  }

  /** Everything added between two states of the set lies below x and brings its children along. */
  ghost predicate Collected(p: Parents, x: Id, before: set<Id>, after: set<Id>) {
    && before <= after <= p.Keys
    && ChildrenIn(p, x, after)
    && (forall y :: y in after - before ==> Ancestor(p, x, y) && ChildrenIn(p, y, after))
  }

  lemma {:induction false} ChildIsDescendant(p: Parents, x: Id, c: Id)
    requires c in p && p[c] == x
    ensures Ancestor(p, x, c)
  {
    assert Up(p, x, 0) == Some(x) && Up(p, c, 1) == Some(x);
  }

  lemma {:induction false} AncestorTrans(p: Parents, a: Id, b: Id, c: Id)
    requires Ancestor(p, a, b) && Ancestor(p, b, c)
    ensures Ancestor(p, a, c)
  {
    var i: nat :| i >= 1 && Up(p, b, i) == Some(a);
    var j: nat :| j >= 1 && Up(p, c, j) == Some(b);
    UpAdd(p, c, j, i);
  }

  lemma {:induction false} ClosedHoldsDescendants(p: Parents, x: Id, d: set<Id>, y: Id, k: nat)
    requires ChildrenIn(p, x, d) && (forall z :: z in d ==> ChildrenIn(p, z, d))
    requires k >= 1 && Up(p, y, k) == Some(x)
    ensures y in d
    decreases k
  {
    if k > 1 {
      ClosedHoldsDescendants(p, x, d, p[y], k - 1);
    } else {
      assert Up(p, y, 1) == Up(p, p[y], 0);
    }
  }

  /** Starting from nothing, what is collected under x is exactly what lies under x. */
  lemma {:induction false} CollectedIsDescendants(p: Parents, x: Id, d: set<Id>)
    requires Collected(p, x, {}, d)
    ensures d == Descendants(p, x)
  {
    assert d - {} == d;
    forall y | y in Descendants(p, x) ensures y in d {
      var k: nat :| k >= 1 && Up(p, y, k) == Some(x);
      ClosedHoldsDescendants(p, x, d, y, k);
    }
  }

  /** One more child and everything collected under it. */
  lemma {:induction false} ChildCollected(p: Parents, x: Id, before: set<Id>, d: set<Id>, c: Id, after: set<Id>)
    requires c in p && p[c] == x && c !in d
    requires before <= d <= p.Keys && (forall y :: y in d - before ==> Ancestor(p, x, y) && ChildrenIn(p, y, d))
    requires Collected(p, c, d + {c}, after)
    ensures forall y :: y in after - before ==> Ancestor(p, x, y) && ChildrenIn(p, y, after)
  {
    ChildIsDescendant(p, x, c);
    forall y | y in after - before ensures Ancestor(p, x, y) && ChildrenIn(p, y, after) {
      if y in d { assert y in d - before; }
      else if y != c {
        assert y in after - (d + {c});
        AncestorTrans(p, x, c, y);
      }
    }
  }

  class Dialog {
    const items: seq<Item>
    const rels: seq<Relation>
    const workspace: Id
    var descendants: set<Id>

    constructor (items: seq<Item>, rels: seq<Relation>, workspace: Id)
      ensures this.items == items && this.rels == rels && this.workspace == workspace && descendants == {}
    {
      this.items, this.rels, this.workspace, descendants := items, rels, workspace, {};
    }

    ghost function P(): Parents {
      Links(items, rels, workspace)
    }

    /** The ids hanging directly under x. */
    method ChildrenOf(x: Id) returns (kids: seq<Id>)
      ensures forall c :: c in kids <==> c in P() && P()[c] == x
    {
      kids := [];
      for i := 0 to |items|
        invariant forall c :: c in kids <==>
                    (exists j :: 0 <= j < i && items[j].workspace == workspace && items[j].id == c)
                    && c in P() && P()[c] == x
      {
        var item := items[i];
        if item.workspace == workspace {
          LinkIsTarget(items, rels, workspace, item, x);
          var target := PartOfTarget(items, rels, item);
          if target.Some? && target.value.id == x { kids := kids + [item.id]; }
        }
      }
      assert forall c :: c in P() ==> exists j ::
               0 <= j < |items| && items[j].workspace == workspace && items[j].id == c;
    }

    /** Recursive; ends on any data because an id is entered only once. */
    method Collect(x: Id)
      requires descendants <= P().Keys
      modifies this
      ensures Collected(P(), x, old(descendants), descendants)
      decreases P().Keys - descendants
    {
      var kids := ChildrenOf(x);
      for i := 0 to |kids|
        invariant old(descendants) <= descendants <= P().Keys
        invariant forall j :: 0 <= j < i ==> kids[j] in descendants
        invariant forall y :: y in descendants - old(descendants) ==>
                    Ancestor(P(), x, y) && ChildrenIn(P(), y, descendants)
      {
        var c := kids[i];
        assert c in kids;
        if c !in descendants {
          ghost var d := descendants;
          descendants := descendants + {c};
          Collect(c);
          ChildCollected(P(), x, old(descendants), d, c, descendants);
        }
      }
    }

    /** The parents offered for `moving`, in stored order. */
    method Offer(moving: Id, canEdit: Item -> bool) returns (parents: seq<Item>)
      modifies this
      ensures descendants == Descendants(P(), moving)
      ensures forall i :: i in parents <==> i in items && Offered(P(), workspace, moving, canEdit, i)
    {
      descendants := {};
      Collect(moving);
      CollectedIsDescendants(P(), moving, descendants);
      parents := [];
      for n := 0 to |items|
        invariant forall i :: i in parents <==>
                    (exists j :: 0 <= j < n && items[j] == i) && Offered(P(), workspace, moving, canEdit, i)
      {
        var i := items[n];
        if i.workspace == workspace && !i.archived && i.id != moving && i.kind != ACTION && i.id !in descendants &&
          canEdit(i) {
          parents := parents + [i];
        }
      }
    }
  }

  ghost predicate Offered(p: Parents, ws: Id, moving: Id, canEdit: Item -> bool, i: Item) {
    i.workspace == ws && !i.archived && i.id != moving && i.kind != ACTION && i.id !in Descendants(p, moving) &&
      canEdit(i)
  }

  // ---- Reparenting ----

  /** The links after moving m under q, or to the top. */
  function Reparented(p: Parents, m: Id, q: Option<Id>): Parents {
    if q.Some? then p[m := q.value] else p - {m}
  }

  /** A climb that gets to m after the move got there before it too. */
  lemma {:induction false} HitsBefore(p: Parents, m: Id, q: Id, y: Id, k: nat)
    requires Up(Reparented(p, m, Some(q)), y, k) == Some(m)
    ensures exists i: nat :: i <= k && Up(p, y, i) == Some(m)
    decreases k
  {
    if y == m {
      assert Up(p, y, 0) == Some(m);
    } else {
      HitsBefore(p, m, q, p[y], k - 1);
      var i: nat :| i <= k - 1 && Up(p, p[y], i) == Some(m);
      assert Up(p, y, i + 1) == Some(m);
    }
  }

  /** A climb that never leaves m is not changed by the move. */
  lemma {:induction false} SameClimb(p: Parents, m: Id, q: Option<Id>, y: Id, k: nat)
    requires forall i: nat {:trigger Up(Reparented(p, m, q), y, i)} :: i < k ==>
               Up(Reparented(p, m, q), y, i) != Some(m)
    ensures Up(Reparented(p, m, q), y, k) == Up(p, y, k)
    decreases k
  {
    var p' := Reparented(p, m, q);
    if k > 0 {
      assert Up(p', y, 0) == Some(y);
      if y in p {
        forall i: nat | i < k - 1 ensures Up(p', p[y], i) != Some(m) { assert Up(p', y, i + 1) == Up(p', p[y], i); }
        SameClimb(p, m, q, p[y], k - 1);
      }
    }
  }

  lemma {:induction false} Rotate(p: Parents, x: Id, i: nat, k: nat, m: Id)
    requires Up(p, x, k) == Some(x) && Up(p, x, i) == Some(m)
    ensures Up(p, m, k) == Some(m)
  {
    UpAdd(p, x, i, k);
    UpAdd(p, x, k, i);
  }

  lemma {:induction false} MovedIntoItself(p: Parents, m: Id, q: Id, k: nat)
    requires k >= 1 && Up(Reparented(p, m, Some(q)), m, k) == Some(m)
    ensures q == m || Ancestor(p, m, q)
  {
    HitsBefore(p, m, q, q, k - 1);
    var i: nat :| i <= k - 1 && Up(p, q, i) == Some(m);
  }

  lemma {:induction false} MoveKeepsAcyclic(p: Parents, m: Id, q: Option<Id>)
    requires Acyclic(p) && (q.Some? ==> q.value != m && !Ancestor(p, m, q.value))
    ensures Acyclic(Reparented(p, m, q))
  {
    var p' := Reparented(p, m, q);
    forall x ensures !Ancestor(p', x, x) {
      if Ancestor(p', x, x) {
        var k: nat :| k >= 1 && Up(p', x, k) == Some(x);
        if i: nat :| i < k && Up(p', x, i) == Some(m) {
          Rotate(p', x, i, k, m);
          if q.Some? { MovedIntoItself(p, m, q.value, k); }
        } else {
          SameClimb(p, m, q, x, k);
          assert Ancestor(p, x, x);
        }
      }
    }
  }

  lemma {:induction false} FirstHit(p: Parents, y: Id, m: Id, k: nat) returns (i: nat)
    requires Up(p, y, k) == Some(m)
    ensures i <= k && Up(p, y, i) == Some(m) && forall j: nat :: j < i ==> Up(p, y, j) != Some(m)
  {
    i := 0;
    while Up(p, y, i) != Some(m)
      invariant i <= k && forall j: nat :: j < i ==> Up(p, y, j) != Some(m)
      decreases k - i
    {
      i := i + 1;
    }
  }

  lemma {:induction false} SameClimbBack(p: Parents, m: Id, q: Option<Id>, y: Id, k: nat)
    requires forall i: nat {:trigger Up(p, y, i)} :: i < k ==> Up(p, y, i) != Some(m)
    ensures Up(Reparented(p, m, q), y, k) == Up(p, y, k)
    decreases k
  {
    if k > 0 {
      assert Up(p, y, 0) == Some(y);
      if y in p {
        forall i: nat | i < k - 1 ensures Up(p, p[y], i) != Some(m) { assert Up(p, y, i + 1) == Up(p, p[y], i); }
        SameClimbBack(p, m, q, p[y], k - 1);
      }
    }
  }

  lemma {:induction false} MovingUnderADescendantLoops(p: Parents, m: Id, q: Id)
    requires q == m || Ancestor(p, m, q)
    ensures !Acyclic(Reparented(p, m, Some(q)))
  {
    var p' := Reparented(p, m, Some(q));
    var k: nat := 0;
    if q != m { k :| k >= 1 && Up(p, q, k) == Some(m); } else { assert Up(p, q, 0) == Some(m); }
    var i := FirstHit(p, q, m, k);
    SameClimbBack(p, m, Some(q), q, i);
    assert Up(p', m, i + 1) == Up(p', q, i) == Some(m);
    assert Ancestor(p', m, m);
  }

  /** The plan stays free of loops exactly when the new parent is neither the moved item nor below it. */
  lemma {:induction false} MoveIsSafeExactlyOutsideTheSubtree(p: Parents, m: Id, q: Id)
    requires Acyclic(p)
    ensures Acyclic(Reparented(p, m, Some(q))) <==> q != m && !Ancestor(p, m, q)
  {
    if q == m || Ancestor(p, m, q) { MovingUnderADescendantLoops(p, m, q); }
    else { MoveKeepsAcyclic(p, m, Some(q)); }
  }

  /** Whichever offered parent is chosen, or none, the plan stays free of loops. */
  lemma {:induction false} OfferedParentsAreSafe(p: Parents, ws: Id, moving: Id, canEdit: Item -> bool, q: Option<Item>)
    requires Acyclic(p) && (q.Some? ==> Offered(p, ws, moving, canEdit, q.value))
    ensures Acyclic(Reparented(p, moving, if q.Some? then Some(q.value.id) else None))
  {
    if q.Some? { assert q.value.id !in Descendants(p, moving) && (q.value.id !in p ==> Up(p, q.value.id, 1) == None); }
    MoveKeepsAcyclic(p, moving, if q.Some? then Some(q.value.id) else None);
  }
}
