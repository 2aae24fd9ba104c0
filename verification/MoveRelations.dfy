// Moving an item, told from the stored part_of relations: which parents are
// offered, and that none of them closes a loop.
module MoveRelations {
  import opened Basics
  import opened Chains
  import opened MoveDialog

  ghost predicate StoredIn(items: seq<Item>, ws: Id, x: Id) {
    exists i :: 0 <= i < |items| && items[i].workspace == ws && items[i].id == x
  }

  /** Some relation says that x is part of y. */
  ghost predicate Says(rels: seq<Relation>, ws: Id, x: Id, y: Id) {
    exists j :: SaysPartOf(rels, j, ws, x, y)
  }

  /** So it is, and both items are stored in the workspace. */
  ghost predicate IsPartOf(items: seq<Item>, rels: seq<Relation>, ws: Id, x: Id, y: Id) {
    StoredIn(items, ws, x) && StoredIn(items, ws, y) && Says(rels, ws, x, y)
  }

  /** Every item is part of at most one other. */
  ghost predicate OneTargetEach(rels: seq<Relation>, ws: Id) {
    forall x, y, z {:trigger Says(rels, ws, x, y), Says(rels, ws, x, z)} ::
      Says(rels, ws, x, y) && Says(rels, ws, x, z) ==> y == z
  }

  /** Part of something that is part of something ... that is part of a. */
  ghost predicate LiesBelow(items: seq<Item>, rels: seq<Relation>, ws: Id, x: Id, a: Id) {
    exists chain :: LeadsUp(items, rels, ws, chain) && chain[0] == x && chain[|chain| - 1] == a
  }

  ghost predicate LeadsUp(items: seq<Item>, rels: seq<Relation>, ws: Id, chain: seq<Id>) {
    |chain| >= 2 && forall k {:trigger chain[k]} :: 0 <= k < |chain| - 1 ==>
      IsPartOf(items, rels, ws, chain[k], chain[k + 1])
  }

  ghost predicate HasNoLoop(items: seq<Item>, rels: seq<Relation>, ws: Id) {
    forall x :: !LiesBelow(items, rels, ws, x, x)
  }

  // ---- The links the screen reads ----

  lemma {:induction false} IdsAreStored(items: seq<Item>, ws: Id, x: Id)
    ensures x in IdsIn(items, ws) <==> StoredIn(items, ws, x)
  {
    if x in IdsIn(items, ws) {
      var item :| item in items && item.workspace == ws && item.id == x;
    }
    if i :| 0 <= i < |items| && items[i].workspace == ws && items[i].id == x { assert items[i] in items; }
  }

  lemma {:induction false} FoundIffStored(items: seq<Item>, ws: Id, x: Id)
    ensures FirstItem(items, ws, x).Some? <==> StoredIn(items, ws, x)
  {
    FirstItemIs(items, ws, x);
    if i :| 0 <= i < |items| && items[i].workspace == ws && items[i].id == x { assert items[i] in items; }
  }

  /** On any data the screen links x to t exactly when both are stored and the first part_of relation out of x
      leads to t. */
  lemma {:induction false} LinkIsFirstRelation(items: seq<Item>, rels: seq<Relation>, ws: Id, x: Id, t: Id)
    ensures (x in Links(items, rels, ws) && Links(items, rels, ws)[x] == t) <==>
            && StoredIn(items, ws, x) && StoredIn(items, ws, t)
            && exists j :: SaysPartOf(rels, j, ws, x, t) && NoneBefore(rels, j, ws, x)
  {
    IdsAreStored(items, ws, x);
    FoundIffStored(items, ws, t);
    FirstTargetIs(rels, ws, x);
  }

  /** Where each item is part of at most one other, the links are the relations. */
  lemma {:induction false} LinkIsPartOf(items: seq<Item>, rels: seq<Relation>, ws: Id, x: Id, t: Id)
    requires OneTargetEach(rels, ws)
    ensures (x in Links(items, rels, ws) && Links(items, rels, ws)[x] == t) <==> IsPartOf(items, rels, ws, x, t)
  {
    LinkIsFirstRelation(items, rels, ws, x, t);
    if IsPartOf(items, rels, ws, x, t) {
      var i := FirstTargetAt(rels, ws, x);
      var j :| SaysPartOf(rels, j, ws, x, t);
      assert i <= j;
      assert Says(rels, ws, x, rels[i].target);
    }
  }

  lemma {:induction false} ChainIsClimb(items: seq<Item>, rels: seq<Relation>, ws: Id, chain: seq<Id>)
    requires OneTargetEach(rels, ws) && LeadsUp(items, rels, ws, chain)
    ensures Up(Links(items, rels, ws), chain[0], |chain| - 1) == Some(chain[|chain| - 1])
    decreases |chain|
  {
    var p, rest := Links(items, rels, ws), chain[1..];
    LinkIsPartOf(items, rels, ws, chain[0], chain[1]);
    if |chain| > 2 {
      forall k | 0 <= k < |rest| - 1 ensures IsPartOf(items, rels, ws, rest[k], rest[k + 1]) {
        assert IsPartOf(items, rels, ws, chain[k + 1], chain[k + 1 + 1]);
      }
      ChainIsClimb(items, rels, ws, rest);
    } else {
      assert Up(p, chain[1], 0) == Some(chain[1]);
    }
  }

  lemma {:induction false} ClimbIsChain(items: seq<Item>, rels: seq<Relation>, ws: Id, x: Id, k: nat, a: Id)
    returns (chain: seq<Id>)
    requires OneTargetEach(rels, ws) && k >= 1 && Up(Links(items, rels, ws), x, k) == Some(a)
    ensures LeadsUp(items, rels, ws, chain) && chain[0] == x && chain[|chain| - 1] == a
    decreases k
  {
    var p := Links(items, rels, ws);
    LinkIsPartOf(items, rels, ws, x, p[x]);
    if k == 1 {
      assert Up(p, p[x], 0) == Some(p[x]);
      chain := [x, a];
    } else {
      var rest := ClimbIsChain(items, rels, ws, p[x], k - 1, a);
      chain := [x] + rest;
      forall i | 0 <= i < |chain| - 1 ensures IsPartOf(items, rels, ws, chain[i], chain[i + 1]) {
        if i > 0 { assert IsPartOf(items, rels, ws, rest[i - 1], rest[i - 1 + 1]); }
      }
    }
  }

  /** Below along the relations is above along the links. */
  lemma {:induction false} BelowIsAncestor(items: seq<Item>, rels: seq<Relation>, ws: Id, x: Id, a: Id)
    requires OneTargetEach(rels, ws)
    ensures LiesBelow(items, rels, ws, x, a) <==> Ancestor(Links(items, rels, ws), a, x)
  {
    if LiesBelow(items, rels, ws, x, a) {
      var chain :| LeadsUp(items, rels, ws, chain) && chain[0] == x && chain[|chain| - 1] == a;
      ChainIsClimb(items, rels, ws, chain);
    }
    if Ancestor(Links(items, rels, ws), a, x) {
      var k: nat :| k >= 1 && Up(Links(items, rels, ws), x, k) == Some(a);
      var chain := ClimbIsChain(items, rels, ws, x, k, a);
    }
  }

  lemma {:induction false} NoLoopIsAcyclic(items: seq<Item>, rels: seq<Relation>, ws: Id)
    requires OneTargetEach(rels, ws)
    ensures HasNoLoop(items, rels, ws) <==> Acyclic(Links(items, rels, ws))
  {
    forall x { BelowIsAncestor(items, rels, ws, x, x); }
  }

  // ---- What is offered, and what becomes of the relations ----

  /** Exactly the stored items of the workspace are offered that are not archived, no action, editable, not the
      item being moved and not below it. */
  lemma {:induction false} OfferedIs(items: seq<Item>, rels: seq<Relation>, ws: Id, moving: Id, canEdit: Item -> bool,
      i: Item)
    requires OneTargetEach(rels, ws)
    ensures Offered(Links(items, rels, ws), ws, moving, canEdit, i) <==>
            && i.workspace == ws && !i.archived && i.kind != "action" && canEdit(i)
            && i.id != moving && !LiesBelow(items, rels, ws, i.id, moving)
  {
    BelowIsAncestor(items, rels, ws, i.id, moving);
    if i.id !in Links(items, rels, ws) {
      forall k: nat | k >= 1 ensures Up(Links(items, rels, ws), i.id, k) != Some(moving) {}
    }
  }

  /** After the move m is part of q, or of nothing, and everything else of what it was. */
  ghost predicate MovedTo(rels: seq<Relation>, rels': seq<Relation>, ws: Id, m: Id, q: Option<Id>) {
    && (forall x, y :: x != m ==> (Says(rels', ws, x, y) <==> Says(rels, ws, x, y)))
    && (forall y :: Says(rels', ws, m, y) <==> q == Some(y))
  }

  lemma {:induction false} MoveKeepsOneTarget(rels: seq<Relation>, rels': seq<Relation>, ws: Id, m: Id, q: Option<Id>)
    requires OneTargetEach(rels, ws) && MovedTo(rels, rels', ws, m, q)
    ensures OneTargetEach(rels', ws)
  {
  }

  lemma {:induction false} MoveReparents(items: seq<Item>, rels: seq<Relation>, rels': seq<Relation>, ws: Id, m: Id,
      q: Option<Id>)
    requires OneTargetEach(rels, ws) && MovedTo(rels, rels', ws, m, q)
    requires StoredIn(items, ws, m) && (q.Some? ==> StoredIn(items, ws, q.value))
    ensures Links(items, rels', ws) == Reparented(Links(items, rels, ws), m, q)
  {
    var p, p', r := Links(items, rels, ws), Links(items, rels', ws), Reparented(Links(items, rels, ws), m, q);
    MoveKeepsOneTarget(rels, rels', ws, m, q);
    forall x | x in p' ensures x in r && r[x] == p'[x] {
      LinkIsPartOf(items, rels', ws, x, p'[x]);
      LinkIsPartOf(items, rels, ws, x, p'[x]);
    }
    forall x | x in r ensures x in p' && p'[x] == r[x] {
      LinkIsPartOf(items, rels, ws, x, r[x]);
      LinkIsPartOf(items, rels', ws, x, r[x]);
    }
  }

  /** In a plan without a loop a move leaves one exactly when the new parent is the item itself or lies below it. */
  lemma {:induction false} MoveLoopsExactlyBelow(items: seq<Item>, rels: seq<Relation>, rels': seq<Relation>, ws: Id,
      m: Id, q: Id)
    requires OneTargetEach(rels, ws) && HasNoLoop(items, rels, ws) && MovedTo(rels, rels', ws, m, Some(q))
    requires StoredIn(items, ws, m) && StoredIn(items, ws, q)
    ensures HasNoLoop(items, rels', ws) <==> q != m && !LiesBelow(items, rels, ws, q, m)
  {
    MoveKeepsOneTarget(rels, rels', ws, m, Some(q));
    MoveReparents(items, rels, rels', ws, m, Some(q));
    NoLoopIsAcyclic(items, rels, ws);
    NoLoopIsAcyclic(items, rels', ws);
    BelowIsAncestor(items, rels, ws, q, m);
    MoveIsSafeExactlyOutsideTheSubtree(Links(items, rels, ws), m, q);
  }

  /** Whichever offered parent is chosen, or none, the stored relations stay without a loop. */
  lemma {:induction false} OfferedMoveIsSafe(items: seq<Item>, rels: seq<Relation>, rels': seq<Relation>, ws: Id,
      m: Id, canEdit: Item -> bool, q: Option<Item>)
    requires OneTargetEach(rels, ws) && HasNoLoop(items, rels, ws) && StoredIn(items, ws, m)
    requires q.Some? ==> q.value in items && Offered(Links(items, rels, ws), ws, m, canEdit, q.value)
    requires MovedTo(rels, rels', ws, m, if q.Some? then Some(q.value.id) else None)
    ensures HasNoLoop(items, rels', ws)
  {
    var to := if q.Some? then Some(q.value.id) else None;
    if q.Some? { assert exists i :: 0 <= i < |items| && items[i] == q.value; }
    MoveKeepsOneTarget(rels, rels', ws, m, to);
    MoveReparents(items, rels, rels', ws, m, to);
    NoLoopIsAcyclic(items, rels, ws);
    NoLoopIsAcyclic(items, rels', ws);
    OfferedParentsAreSafe(Links(items, rels, ws), ws, m, canEdit, q);
  }

  // ---- The move itself ----

  predicate IsLinkOf(r: Relation, ws: Id, m: Id) {
    r.workspace == ws && r.source == m && r.kind == PART_OF
  }

  /** The relations once m is moved under q, or to the top: its first part_of relation is led elsewhere or removed,
      and one is added where it has none. */
  function Rewritten(rels: seq<Relation>, ws: Id, m: Id, q: Option<Id>): seq<Relation> {
    if rels == [] then (if q.Some? then [Relation(ws, m, q.value, PART_OF, None)] else [])
    else if IsLinkOf(rels[0], ws, m) then
      if q.Some? then [rels[0].(target := q.value)] + rels[1..] else rels[1..]
    else [rels[0]] + Rewritten(rels[1..], ws, m, q)
  }

  /** Every item is the source of at most one part_of relation. */
  ghost predicate OneLinkEach(rels: seq<Relation>, ws: Id) {
    forall i, j, x {:trigger IsLinkOf(rels[i], ws, x), IsLinkOf(rels[j], ws, x)} :: 0 <= i < j < |rels| ==>
      !(IsLinkOf(rels[i], ws, x) && IsLinkOf(rels[j], ws, x))
  }

  lemma {:induction false} SaysFirstOrLater(r: Relation, rest: seq<Relation>, ws: Id, x: Id, y: Id)
    ensures Says([r] + rest, ws, x, y) <==> (IsLinkOf(r, ws, x) && r.target == y) || Says(rest, ws, x, y)
  {
    var rels := [r] + rest;
    if j :| SaysPartOf(rels, j, ws, x, y) {
      if j > 0 { assert SaysPartOf(rest, j - 1, ws, x, y); }
    }
    if IsLinkOf(r, ws, x) && r.target == y { assert SaysPartOf(rels, 0, ws, x, y); }
    if j :| SaysPartOf(rest, j, ws, x, y) { assert SaysPartOf(rels, j + 1, ws, x, y); }
  }

  lemma {:induction false} RestHasNone(rels: seq<Relation>, ws: Id, m: Id, y: Id)
    requires OneLinkEach(rels, ws) && rels != [] && IsLinkOf(rels[0], ws, m)
    ensures !Says(rels[1..], ws, m, y)
  {
    forall j ensures !SaysPartOf(rels[1..], j, ws, m, y) {
      if SaysPartOf(rels[1..], j, ws, m, y) { assert IsLinkOf(rels[j + 1], ws, m); }
    }
  }

  lemma {:induction false} RewrittenSays(rels: seq<Relation>, ws: Id, m: Id, q: Option<Id>, x: Id, y: Id)
    requires OneLinkEach(rels, ws)
    ensures Says(Rewritten(rels, ws, m, q), ws, x, y) <==> if x == m then q == Some(y) else Says(rels, ws, x, y)
  {
    if rels == [] {
      if q.Some? {
        SaysFirstOrLater(Relation(ws, m, q.value, PART_OF, None), [], ws, x, y);
        assert Rewritten(rels, ws, m, q) == [Relation(ws, m, q.value, PART_OF, None)] + [];
      }
    } else {
      var rest := rels[1..];
      assert rels == [rels[0]] + rest;
      SaysFirstOrLater(rels[0], rest, ws, x, y);
      if IsLinkOf(rels[0], ws, m) {
        RestHasNone(rels, ws, m, y);
        if q.Some? { SaysFirstOrLater(rels[0].(target := q.value), rest, ws, x, y); }
      } else {
        assert OneLinkEach(rest, ws) by {
          forall i, j, a | 0 <= i < j < |rest| ensures !(IsLinkOf(rest[i], ws, a) && IsLinkOf(rest[j], ws, a)) {
            assert rest[i] == rels[i + 1] && rest[j] == rels[j + 1];
          }
        }
        RewrittenSays(rest, ws, m, q, x, y);
        SaysFirstOrLater(rels[0], Rewritten(rest, ws, m, q), ws, x, y);
      }
    }
  }

  lemma {:induction false} OneLinkIsOneTarget(rels: seq<Relation>, ws: Id)
    requires OneLinkEach(rels, ws)
    ensures OneTargetEach(rels, ws)
  {
    forall x, y, z | Says(rels, ws, x, y) && Says(rels, ws, x, z) ensures y == z {
      var i :| SaysPartOf(rels, i, ws, x, y);
      var j :| SaysPartOf(rels, j, ws, x, z);
      assert IsLinkOf(rels[i], ws, x) && IsLinkOf(rels[j], ws, x);
    }
  }

  /** Where every item has at most one part_of relation, moving to an offered parent, or to the top, rewrites the
      item's link and no other, and leaves the stored relations without a loop. */
  lemma {:induction false} MovingIsSafe(items: seq<Item>, rels: seq<Relation>, ws: Id, m: Id, canEdit: Item -> bool,
      q: Option<Item>)
    requires OneLinkEach(rels, ws) && HasNoLoop(items, rels, ws) && StoredIn(items, ws, m)
    requires q.Some? ==> q.value in items && Offered(Links(items, rels, ws), ws, m, canEdit, q.value)
    ensures var to := if q.Some? then Some(q.value.id) else None;
            var rels' := Rewritten(rels, ws, m, to);
            HasNoLoop(items, rels', ws) && MovedTo(rels, rels', ws, m, to)
  {
    var to := if q.Some? then Some(q.value.id) else None;
    var rels' := Rewritten(rels, ws, m, to);
    forall x, y { RewrittenSays(rels, ws, m, to, x, y); }
    assert MovedTo(rels, rels', ws, m, to);
    OneLinkIsOneTarget(rels, ws);
    OfferedMoveIsSafe(items, rels, rels', ws, m, canEdit, q);
  }
}
