// The order of siblings, told from the stored relations, and what is read back
// once a new order has been written.
module ReorderStored {
  import opened Basics
  import opened MoveDialog
  import opened MoveRelations
  import opened Ordering
  import opened Reorder

  // ---- Which items are siblings, and in which order ----

  lemma {:induction false} TargetIsLink(items: seq<Item>, rels: seq<Relation>, e: Item, parent: Id)
    requires e in items
    ensures (PartOfTarget(items, rels, e).Some? && PartOfTarget(items, rels, e).value.id == parent) <==>
            && StoredIn(items, e.workspace, parent)
            && exists j :: SaysPartOf(rels, j, e.workspace, e.id, parent) && NoneBefore(rels, j, e.workspace, e.id)
  {
    LinkIsTarget(items, rels, e.workspace, e, parent);
    LinkIsFirstRelation(items, rels, e.workspace, e.id, parent);
    IdsAreStored(items, e.workspace, e.id);
  }

  /** The siblings under a parent are exactly the stored items of the five kinds, archived or not, whose first
      part_of relation leads to it. */
  lemma {:induction false} SiblingIs(items: seq<Item>, rels: seq<Relation>, ws: Id, parent: Id, e: Item)
    requires UniqueIn(items)
    ensures e in Siblings(items, rels, ws, parent, |items|) <==>
            && e in items && e.workspace == ws && StoredIn(items, ws, parent)
            && (e.kind == "outcome" || e.kind == "idea" || e.kind == "initiative" || e.kind == "milestone" ||
                e.kind == "action")
            && exists j :: SaysPartOf(rels, j, ws, e.id, parent) && NoneBefore(rels, j, ws, e.id)
  {
    SiblingsAre(items, rels, ws, parent, |items|);
    assert items[..|items|] == items;
    if e in items { TargetIsLink(items, rels, e, parent); }
  }

  /** Relation j is the first that says x is part of t. */
  ghost predicate FirstSaysSo(rels: seq<Relation>, j: int, ws: Id, x: Id, t: Id) {
    SaysPartOf(rels, j, ws, x, t) && forall k :: k < j ==> !SaysPartOf(rels, k, ws, x, t)
  }

  lemma {:induction false} FirstSaysSoLater(rels: seq<Relation>, ws: Id, x: Id, t: Id, j: int)
    requires rels != [] && !SaysPartOf(rels, 0, ws, x, t)
    ensures FirstSaysSo(rels, j + 1, ws, x, t) <==> FirstSaysSo(rels[1..], j, ws, x, t)
  {
    var rest := rels[1..];
    forall k ensures SaysPartOf(rest, k, ws, x, t) <==> k >= 0 && SaysPartOf(rels, k + 1, ws, x, t) {}
    if FirstSaysSo(rels, j + 1, ws, x, t) {
      forall k | k < j ensures !SaysPartOf(rest, k, ws, x, t) { assert !SaysPartOf(rels, k + 1, ws, x, t); }
    }
    if FirstSaysSo(rest, j, ws, x, t) {
      forall k | k < j + 1 ensures !SaysPartOf(rels, k, ws, x, t) {
        if k > 0 { assert !SaysPartOf(rest, k - 1, ws, x, t); }
      }
    }
  }

  /** A sibling's place is the position of the first relation that puts it under the parent, the largest safe
      integer where that has none. */
  lemma {:induction false} PositionIs(rels: seq<Relation>, ws: Id, x: Id, t: Id, j: int)
    requires FirstSaysSo(rels, j, ws, x, t)
    ensures StoredPosition(rels, ws, x, t) ==
            match rels[j].position case Some(p) => p case None => 9007199254740991
    decreases |rels|
  {
    if j > 0 {
      FirstSaysSoLater(rels, ws, x, t, j - 1);
      PositionIs(rels[1..], ws, x, t, j - 1);
    }
  }

  lemma {:induction false} IndexInIs(items: seq<Item>, i: nat)
    requires UniqueIn(items) && i < |items|
    ensures IndexIn(items, items[i].workspace, items[i].id) == i
  {
    if i > 0 { IndexInIs(items[1..], i - 1); }
  }

  /** a is listed above b: the smaller position first, then the item stored first. */
  ghost predicate ListedAbove(items: seq<Item>, rels: seq<Relation>, ws: Id, parent: Id, a: Item, b: Item) {
    exists i, j, m, n :: 0 <= i < |items| && 0 <= j < |items| && items[i] == a && items[j] == b &&
      FirstSaysSo(rels, m, ws, a.id, parent) && FirstSaysSo(rels, n, ws, b.id, parent) &&
      ComesFirst(rels[m].position, i, rels[n].position, j)
  }

  ghost predicate ComesFirst(p: Option<int>, i: int, q: Option<int>, j: int) {
    var a := match p case Some(v) => v case None => 9007199254740991;
    var b := match q case Some(v) => v case None => 9007199254740991;
    a < b || (a == b && i < j)
  }

  lemma {:induction false} SiblingSays(items: seq<Item>, rels: seq<Relation>, ws: Id, parent: Id, e: Item)
    returns (i: nat, j: nat)
    requires UniqueIn(items) && e in Siblings(items, rels, ws, parent, |items|)
    ensures i < |items| && items[i] == e && e.workspace == ws && IndexIn(items, ws, e.id) == i
    ensures FirstSaysSo(rels, j, ws, e.id, parent)
  {
    SiblingIs(items, rels, ws, parent, e);
    i :| i < |items| && items[i] == e;
    IndexInIs(items, i);
    j :| SaysPartOf(rels, j, ws, e.id, parent) && NoneBefore(rels, j, ws, e.id);
  }

  /** The handler's siblings stand in the order of their stored positions. */
  lemma {:induction false} SiblingsAreListedInOrder(items: seq<Item>, rels: seq<Relation>, ws: Id, parent: Id,
      siblings: seq<Item>, k: nat, l: nat)
    requires UniqueIn(items) && multiset(siblings) == multiset(Siblings(items, rels, ws, parent, |items|))
    requires Sorted(siblings, Place(items, rels, ws, parent)) && k < l < |siblings|
    ensures ListedAbove(items, rels, ws, parent, siblings[k], siblings[l])
  {
    var found := Siblings(items, rels, ws, parent, |items|);
    SiblingsAre(items, rels, ws, parent, |items|);
    RearrangedUnique(found, siblings);
    assert siblings[k] in found && siblings[l] in found;
    var i, m := SiblingSays(items, rels, ws, parent, siblings[k]);
    var j, n := SiblingSays(items, rels, ws, parent, siblings[l]);
    PositionIs(rels, ws, siblings[k].id, parent, m);
    PositionIs(rels, ws, siblings[l].id, parent, n);
    assert siblings[k].id != siblings[l].id;
    assert ComesFirst(rels[m].position, i, rels[n].position, j);
  }

  // ---- Writing a new order and reading it back ----

  predicate IsChildLink(r: Relation, ws: Id, x: Id, parent: Id) {
    r.workspace == ws && r.source == x && r.target == parent && r.kind == PART_OF
  }

  /** The first relation that puts x under the parent gets position p. */
  function Placed(rels: seq<Relation>, ws: Id, x: Id, parent: Id, p: int): seq<Relation> {
    if rels == [] then []
    else if IsChildLink(rels[0], ws, x, parent) then [rels[0].(position := Some(p))] + rels[1..]
    else [rels[0]] + Placed(rels[1..], ws, x, parent, p)
  }

  /** The first n ids of the order are placed one after the other. */
  function Written(rels: seq<Relation>, ws: Id, parent: Id, order: seq<Id>, n: nat): seq<Relation>
    requires n <= |order|
  {
    if n == 0 then rels else Placed(Written(rels, ws, parent, order, n - 1), ws, order[n - 1], parent, n - 1)
  }

  ghost predicate HasLink(rels: seq<Relation>, ws: Id, x: Id, parent: Id) {
    exists r :: r in rels && IsChildLink(r, ws, x, parent)
  }

  lemma {:induction false} PlacedTargets(rels: seq<Relation>, ws: Id, x: Id, parent: Id, p: int, v: Id, y: Id)
    ensures FirstTarget(Placed(rels, ws, x, parent, p), v, y) == FirstTarget(rels, v, y)
  {
    if rels != [] && !IsChildLink(rels[0], ws, x, parent) {
      PlacedTargets(rels[1..], ws, x, parent, p, v, y);
      assert Placed(rels, ws, x, parent, p)[1..] == Placed(rels[1..], ws, x, parent, p);
    }
  }

  lemma {:induction false} PlacedPosition(rels: seq<Relation>, ws: Id, x: Id, parent: Id, p: int, y: Id)
    ensures HasLink(Placed(rels, ws, x, parent, p), ws, y, parent) <==> HasLink(rels, ws, y, parent)
    ensures StoredPosition(Placed(rels, ws, x, parent, p), ws, y, parent) ==
            if y == x && HasLink(rels, ws, x, parent) then p else StoredPosition(rels, ws, y, parent)
  {
    if rels != [] {
      var r, rest := rels[0], rels[1..];
      LinkFirstOrLater(r, rest, ws, x, parent);
      LinkFirstOrLater(r, rest, ws, y, parent);
      assert rels == [r] + rest;
      if IsChildLink(r, ws, x, parent) {
        LinkFirstOrLater(r.(position := Some(p)), rest, ws, y, parent);
      } else {
        PlacedPosition(rest, ws, x, parent, p, y);
        LinkFirstOrLater(r, Placed(rest, ws, x, parent, p), ws, y, parent);
      }
    }
  }

  lemma {:induction false} LinkFirstOrLater(r: Relation, rest: seq<Relation>, ws: Id, x: Id, parent: Id)
    ensures HasLink([r] + rest, ws, x, parent) <==> IsChildLink(r, ws, x, parent) || HasLink(rest, ws, x, parent)
  {
    if HasLink(rest, ws, x, parent) {
      var q :| q in rest && IsChildLink(q, ws, x, parent);
      assert q in [r] + rest;
    }
    if IsChildLink(r, ws, x, parent) { assert r in [r] + rest; }
  }

  /** Writing an order moves nobody and gives each id its index. */
  lemma {:induction false} WrittenIs(rels: seq<Relation>, ws: Id, parent: Id, order: seq<Id>, n: nat)
    requires n <= |order| && NoDup(order) && forall x :: x in order ==> HasLink(rels, ws, x, parent)
    ensures var rels' := Written(rels, ws, parent, order, n);
            && (forall v, y :: FirstTarget(rels', v, y) == FirstTarget(rels, v, y))
            && (forall x :: x in order ==> HasLink(rels', ws, x, parent))
            && (forall k :: 0 <= k < n ==> StoredPosition(rels', ws, order[k], parent) == k)
  {
    if n > 0 {
      var before := Written(rels, ws, parent, order, n - 1);
      WrittenIs(rels, ws, parent, order, n - 1);
      forall v, y { PlacedTargets(before, ws, order[n - 1], parent, n - 1, v, y); }
      forall x | x in order ensures HasLink(Written(rels, ws, parent, order, n), ws, x, parent) {
        PlacedPosition(before, ws, order[n - 1], parent, n - 1, x);
      }
      forall k | 0 <= k < n ensures StoredPosition(Written(rels, ws, parent, order, n), ws, order[k], parent) == k {
        PlacedPosition(before, ws, order[n - 1], parent, n - 1, order[k]);
      }
    }
  }

  lemma {:induction false} SameSiblings(items: seq<Item>, rels: seq<Relation>, rels': seq<Relation>, ws: Id,
      parent: Id, n: nat)
    requires n <= |items| && forall v, y :: FirstTarget(rels', v, y) == FirstTarget(rels, v, y)
    ensures Siblings(items, rels', ws, parent, n) == Siblings(items, rels, ws, parent, n)
  {
    if n > 0 { SameSiblings(items, rels, rels', ws, parent, n - 1); }
  }

  /** The id at slot k of t stands at place f[k] of the order; places rise from slot to slot. */
  ghost predicate Rises(f: seq<nat>, n: nat) {
    |f| == n && (forall k :: 0 <= k < n ==> f[k] < n) && forall k, l :: 0 <= k < l < n ==> f[k] < f[l]
  }

  lemma {:induction false} RisesAtLeast(f: seq<nat>, n: nat, k: nat)
    requires Rises(f, n) && k < n
    ensures f[k] >= k
  {
    if k > 0 { RisesAtLeast(f, n, k - 1); }
  }

  lemma {:induction false} RisesAtMost(f: seq<nat>, n: nat, k: nat)
    requires Rises(f, n) && k < n
    ensures f[k] <= k
    decreases n - k
  {
    if k + 1 < n { RisesAtMost(f, n, k + 1); }
  }

  /** Sorting by places that are the indexes of an order gives the order. */
  lemma {:induction false} SortedByIndex(t: seq<Item>, u: seq<Item>, place: Item -> Placement)
    requires UniqueIds(u) && multiset(t) == multiset(u) && Sorted(t, place)
    requires forall k :: 0 <= k < |u| ==> place(u[k]).position == k
    ensures t == u
  {
    RearrangedUnique(u, t);
    assert |t| == |multiset(t)| == |multiset(u)| == |u|;
    forall k | 0 <= k < |t| ensures 0 <= place(t[k]).position < |u| && u[place(t[k]).position] == t[k] {
      assert t[k] in u;
      var j :| 0 <= j < |u| && u[j] == t[k];
    }
    var f: seq<nat> := seq(|t|, k requires 0 <= k < |t| => place(t[k]).position);
    forall k, l | 0 <= k < l < |t| ensures f[k] < f[l] {
      assert AtMost(place(t[k]), place(t[l])) && t[k].id != t[l].id;
    }
    forall k | 0 <= k < |t| ensures t[k] == u[k] {
      RisesAtLeast(f, |t|, k);
      RisesAtMost(f, |t|, k);
    }
  }

  lemma {:induction false} SiblingHasLink(items: seq<Item>, rels: seq<Relation>, ws: Id, parent: Id, e: Item)
    requires UniqueIn(items) && e in Siblings(items, rels, ws, parent, |items|)
    ensures HasLink(rels, ws, e.id, parent)
  {
    SiblingIs(items, rels, ws, parent, e);
    var j :| SaysPartOf(rels, j, ws, e.id, parent) && NoneBefore(rels, j, ws, e.id);
    assert rels[j] in rels && IsChildLink(rels[j], ws, e.id, parent);
  }

  /** Whatever arrangement of the siblings is written is what is read back: the same siblings, in that order. */
  lemma {:induction false} WrittenOrderIsReadBack(items: seq<Item>, rels: seq<Relation>, ws: Id, parent: Id,
      u: seq<Item>, t: seq<Item>)
    requires UniqueIn(items) && multiset(u) == multiset(Siblings(items, rels, ws, parent, |items|))
    requires var rels' := Written(rels, ws, parent, IdsOf(u), |u|);
             && multiset(t) == multiset(Siblings(items, rels', ws, parent, |items|))
             && Sorted(t, Place(items, rels', ws, parent))
    ensures t == u
  {
    var found, order := Siblings(items, rels, ws, parent, |items|), IdsOf(u);
    var rels' := Written(rels, ws, parent, order, |u|);
    SiblingsAre(items, rels, ws, parent, |items|);
    RearrangedUnique(found, u);
    assert NoDup(order);
    forall x | x in order ensures HasLink(rels, ws, x, parent) {
      var k :| 0 <= k < |order| && order[k] == x;
      assert u[k] in found;
      SiblingHasLink(items, rels, ws, parent, u[k]);
    }
    WrittenIs(rels, ws, parent, order, |u|);
    SameSiblings(items, rels, rels', ws, parent, |items|);
    forall k | 0 <= k < |u| ensures Place(items, rels', ws, parent)(u[k]).position == k { assert order[k] == u[k].id; }
    SortedByIndex(t, u, Place(items, rels', ws, parent));
  }

  lemma {:induction false} SwapIsRearranged<T>(s: seq<T>, i: nat, j: nat)
    requires i < |s| && j < |s|
    ensures multiset(Swapped(s, i, j)) == multiset(s)
  {
  }

  /** Moving an item up or down and reading the plan again shows the siblings with the two slots traded, and every
      sibling else where it was. */
  lemma {:induction false} MoveIsReadBack(items: seq<Item>, rels: seq<Relation>, ws: Id, parent: Id, s: seq<Item>,
      i: nat, delta: int, t: seq<Item>)
    requires UniqueIn(items) && multiset(s) == multiset(Siblings(items, rels, ws, parent, |items|))
    requires i < |s| && (delta == 1 || delta == -1) && SwapTarget(s, i, delta).Some?
    requires var rels' := Written(rels, ws, parent, NewOrder(s, i, delta).value, |s|);
             && multiset(t) == multiset(Siblings(items, rels', ws, parent, |items|))
             && Sorted(t, Place(items, rels', ws, parent))
    ensures var j := SwapTarget(s, i, delta).value;
            |t| == |s| && t[i] == s[j] && t[j] == s[i] && forall k :: 0 <= k < |s| && k != i && k != j ==> t[k] == s[k]
  {
    var j := SwapTarget(s, i, delta).value;
    SwapIsRearranged(s, i, j);
    WrittenOrderIsReadBack(items, rels, ws, parent, Swapped(s, i, j), t);
  }
}
