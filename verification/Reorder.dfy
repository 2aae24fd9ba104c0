// Moving an item up or down among its siblings on the map, where archived
// siblings are hidden but keep their place in the stored order.
module Reorder {
  import opened Basics
  import opened MoveDialog
  import opened Ordering

  const MAX_SAFE_INTEGER: int := 0x1f_ffff_ffff_ffff
  const LISTED: set<string> := {"outcome", "idea", "initiative", "milestone", "action"}

  // ---- The visible siblings ----

  /** The unarchived ones among the first n. */
  function Visible(s: seq<Item>, n: nat): seq<Item>
    requires n <= |s|
  {
    if n == 0 then []
    else if s[n - 1].archived then Visible(s, n - 1)
    else Visible(s, n - 1) + [s[n - 1]]
  }

  /** The first unarchived slot met from j on, going one way. */
  function Nearest(s: seq<Item>, j: int, delta: int): (r: Option<nat>)
    requires delta == 1 || delta == -1
    ensures r.Some? ==> r.value < |s| && !s[r.value].archived
    decreases if delta == 1 then |s| - j else j + 1
  {
    if j < 0 || j >= |s| then None
    else if !s[j].archived then Some(j)
    else Nearest(s, j + delta, delta)
  }

  function Swapped<T>(s: seq<T>, i: nat, j: nat): seq<T>
    requires i < |s| && j < |s|
  {
    s[i := s[j]][j := s[i]]
  }

  /** Slot i trades places with the nearest visible one, if there is one. */
  function Moved(s: seq<Item>, i: nat, delta: int): (r: Option<seq<Item>>)
    requires i < |s| && (delta == 1 || delta == -1)
  {
    match Nearest(s, i + delta, delta)
    case None => None
    case Some(j) => Some(Swapped(s, i, j))
  }

  ghost predicate UniqueIds(s: seq<Item>) {
    forall i, j {:trigger s[i], s[j]} :: 0 <= i < j < |s| ==> s[i].id != s[j].id
  }

  lemma {:induction false} VisibleAt(s: seq<Item>, n: nat, j: nat)
    requires j < n <= |s| && !s[j].archived
    ensures |Visible(s, j)| < |Visible(s, n)| && Visible(s, n)[|Visible(s, j)|] == s[j]
    decreases n
  {
    if j < n - 1 { VisibleAt(s, n - 1, j); }
  }

  lemma {:induction false} VisibleFrom(s: seq<Item>, n: nat, v: nat) returns (j: nat)
    requires n <= |s| && v < |Visible(s, n)|
    ensures j < n && !s[j].archived && Visible(s, n)[v] == s[j] && |Visible(s, j)| == v
    decreases n
  {
    if !s[n - 1].archived && v == |Visible(s, n - 1)| { j := n - 1; }
    else { j := VisibleFrom(s, n - 1, v); }
  }

  /** Going down from j, archived slots add nothing to what was visible before them. */
  lemma {:induction false} NearestBelow(s: seq<Item>, j: nat)
    requires j <= |s|
    ensures match Nearest(s, j, 1)
            case None => |Visible(s, |s|)| == |Visible(s, j)|
            case Some(k) => j <= k && |Visible(s, k)| == |Visible(s, j)|
    decreases |s| - j
  {
    if j < |s| && s[j].archived { NearestBelow(s, j + 1); }
  }

  lemma {:induction false} NearestAbove(s: seq<Item>, j: nat)
    requires j <= |s|
    ensures match Nearest(s, j - 1, -1)
            case None => |Visible(s, j)| == 0
            case Some(k) => k < j && |Visible(s, k)| + 1 == |Visible(s, j)|
    decreases j
  {
    if j > 0 && s[j - 1].archived { NearestAbove(s, j - 1); }
  }

  /** The visible neighbour is the nearest unarchived slot. */
  lemma {:induction false} NeighbourIsNearest(s: seq<Item>, i: nat, delta: int)
    requires i < |s| && !s[i].archived && (delta == 1 || delta == -1)
    ensures var v := |Visible(s, i)| + delta;
            match Nearest(s, i + delta, delta)
            case None => !(0 <= v < |Visible(s, |s|)|)
            case Some(j) => 0 <= v < |Visible(s, |s|)| && Visible(s, |s|)[v] == s[j]
  {
    VisibleAt(s, |s|, i);
    if delta == 1 {
      assert |Visible(s, i + 1)| == |Visible(s, i)| + 1;
      NearestBelow(s, i + 1);
    } else {
      NearestAbove(s, i);
    }
    match Nearest(s, i + delta, delta)
    case None =>
    case Some(j) => VisibleAt(s, |s|, j);
  }

  // ---- The screen's own way to it ----

  function IndexOf(s: seq<Item>, x: Id): (r: int)
    ensures -1 <= r < |s|
  {
    if s == [] then -1
    else if s[0].id == x then 0
    else var k := IndexOf(s[1..], x); if k < 0 then -1 else k + 1
  }

  lemma {:induction false} IndexOfIs(s: seq<Item>, x: Id)
    ensures IndexOf(s, x) >= 0 ==> s[IndexOf(s, x)].id == x
    ensures IndexOf(s, x) < 0 ==> forall k :: 0 <= k < |s| ==> s[k].id != x
  {
    if s != [] && s[0].id != x { IndexOfIs(s[1..], x); }
  }

  lemma {:induction false} VisibleIndex(s: seq<Item>, i: nat)
    requires i < |s| && UniqueIds(s)
    ensures IndexOf(s, s[i].id) == i
    ensures IndexOf(Visible(s, |s|), s[i].id) == if s[i].archived then -1 else |Visible(s, i)|
  {
    IndexOfIs(s, s[i].id);
    var vs := Visible(s, |s|);
    IndexOfIs(vs, s[i].id);
    var v := IndexOf(vs, s[i].id);
    if v >= 0 {
      var j := VisibleFrom(s, |s|, v);
      assert j == i;
    } else if !s[i].archived {
      VisibleAt(s, |s|, i);
    }
  }

  /** The slot an item trades with. An archived item is not among the visible ones:
      moved up it stays, moved down it trades with the first visible one. */
  function SwapTarget(s: seq<Item>, i: nat, delta: int): (r: Option<nat>)
    requires i < |s| && (delta == 1 || delta == -1)
    ensures r.Some? ==> r.value < |s|
  {
    if !s[i].archived then Nearest(s, i + delta, delta)
    else if delta == -1 then None
    else Nearest(s, 0, 1)
  }

  /** Searching the visible list by id finds that slot. */
  lemma {:induction false} AdjacentIs(s: seq<Item>, i: nat, delta: int)
    requires i < |s| && UniqueIds(s) && (delta == 1 || delta == -1)
    ensures var vs := Visible(s, |s|);
            var v := IndexOf(vs, s[i].id) + delta;
            match SwapTarget(s, i, delta)
            case None => !(0 <= v < |vs|)
            case Some(j) => 0 <= v < |vs| && IndexOf(s, vs[v].id) == j
  {
    VisibleIndex(s, i);
    if !s[i].archived {
      NeighbourIsNearest(s, i, delta);
    } else if delta == 1 {
      NearestBelow(s, 0);
      if Nearest(s, 0, 1).Some? { VisibleAt(s, |s|, Nearest(s, 0, 1).value); }
    }
    if SwapTarget(s, i, delta).Some? { VisibleIndex(s, SwapTarget(s, i, delta).value); }
  }

  /** The siblings after the swap; None when there is nothing to trade with. */
  method SwapWithNeighbour(siblings: seq<Item>, x: Id, delta: int) returns (r: Option<seq<Item>>)
    requires (delta == 1 || delta == -1) && UniqueIds(siblings)
    ensures (forall k :: 0 <= k < |siblings| ==> siblings[k].id != x) ==> r == None
    ensures forall i :: 0 <= i < |siblings| && siblings[i].id == x ==>
              r == match SwapTarget(siblings, i, delta) case None => None case Some(j) => Some(Swapped(siblings, i, j))
  {
    var index := IndexOf(siblings, x);
    IndexOfIs(siblings, x);
    if index < 0 { return None; }
    AdjacentIs(siblings, index, delta);
    var visible := Visible(siblings, |siblings|);
    var v := IndexOf(visible, x) + delta;
    if !(0 <= v < |visible|) { return None; }
    var next := IndexOf(siblings, visible[v].id);
    var s := siblings;
    s := s[index := siblings[next]][next := siblings[index]];
    r := Some(s);
  }

  // ---- The siblings of an item, in stored order ----

  ghost predicate UniqueIn(items: seq<Item>) {
    forall i, j {:trigger items[i], items[j]} :: 0 <= i < j < |items| && items[i].workspace == items[j].workspace ==>
      items[i].id != items[j].id
  }

  predicate IsSibling(items: seq<Item>, rels: seq<Relation>, ws: Id, parent: Id, entry: Item) {
    && entry.workspace == ws && entry.kind in LISTED
    && PartOfTarget(items, rels, entry).Some? && PartOfTarget(items, rels, entry).value.id == parent
  }

  function Siblings(items: seq<Item>, rels: seq<Relation>, ws: Id, parent: Id, n: nat): seq<Item>
    requires n <= |items|
  {
    if n == 0 then []
    else if IsSibling(items, rels, ws, parent, items[n - 1])
      then Siblings(items, rels, ws, parent, n - 1) + [items[n - 1]]
    else Siblings(items, rels, ws, parent, n - 1)
  }

  function StoredPosition(rels: seq<Relation>, ws: Id, x: Id, parent: Id): int {
    if rels == [] then MAX_SAFE_INTEGER
    else if rels[0].workspace == ws && rels[0].source == x && rels[0].target == parent && rels[0].kind == PART_OF then
      (if rels[0].position.Some? then rels[0].position.value else MAX_SAFE_INTEGER)
    else StoredPosition(rels[1..], ws, x, parent)
  }

  function IndexIn(items: seq<Item>, ws: Id, x: Id): int {
    if items == [] then -1
    else if items[0].workspace == ws && items[0].id == x then 0
    else var k := IndexIn(items[1..], ws, x); if k < 0 then -1 else k + 1
  }

  function Place(items: seq<Item>, rels: seq<Relation>, ws: Id, parent: Id): Item -> Placement {
    (entry: Item) => Placement(StoredPosition(rels, ws, entry.id, parent), IndexIn(items, ws, entry.id), "")
  }

  lemma {:induction false} SiblingsAre(items: seq<Item>, rels: seq<Relation>, ws: Id, parent: Id, n: nat)
    requires n <= |items| && UniqueIn(items)
    ensures NoDup(Siblings(items, rels, ws, parent, n)) && UniqueIds(Siblings(items, rels, ws, parent, n))
    ensures forall e :: e in Siblings(items, rels, ws, parent, n) <==>
              e in items[..n] && IsSibling(items, rels, ws, parent, e)
  {
    if n > 0 {
      SiblingsAre(items, rels, ws, parent, n - 1);
      assert items[..n] == items[..n - 1] + [items[n - 1]];
      var before, last := Siblings(items, rels, ws, parent, n - 1), items[n - 1];
      forall k | 0 <= k < |before| ensures last.workspace == ws ==> before[k].id != last.id {
        assert before[k] in items[..n - 1];
        var m :| 0 <= m < n - 1 && items[m] == before[k];
      }
    }
  }

  lemma {:induction false} RearrangedUnique(a: seq<Item>, b: seq<Item>)
    requires UniqueIds(a) && multiset(a) == multiset(b)
    ensures UniqueIds(b) && forall e :: e in a <==> e in b
  {
    assert NoDup(a);
    PermutationKeeps(a, b);
    forall i, j | 0 <= i < j < |b| ensures b[i].id != b[j].id { assert b[i] in a && b[j] in a; }
  }

  function IdsOf(s: seq<Item>): (r: seq<Id>)
    ensures |r| == |s| && forall k :: 0 <= k < |s| ==> r[k] == s[k].id
  {
    seq(|s|, k requires 0 <= k < |s| => s[k].id)
  }

  /** The order sent after slot i traded places. */
  function NewOrder(s: seq<Item>, i: nat, delta: int): Option<seq<Id>>
    requires i < |s| && (delta == 1 || delta == -1)
  {
    match SwapTarget(s, i, delta)
    case None => None
    case Some(j) => Some(IdsOf(Swapped(s, i, j)))
  }

  /** The whole handler: who may, the siblings sorted, the swap, the order that is sent. */
  method ReorderTreeItem(items: seq<Item>, rels: seq<Relation>, item: Item, delta: int, canWrite: bool,
      canEdit: Item -> bool)
    returns (siblings: seq<Item>, order: Option<seq<Id>>)
    requires (delta == 1 || delta == -1) && UniqueIn(items) && item in items
    ensures var parent := PartOfTarget(items, rels, item);
            if !canWrite || parent == None || !canEdit(parent.value) then order == None
            else
              var p := parent.value.id;
              && multiset(siblings) == multiset(Siblings(items, rels, item.workspace, p, |items|)) &&
                 UniqueIds(siblings)
              && Sorted(siblings, Place(items, rels, item.workspace, p))
              && (item.kind !in LISTED ==> order == None)
              && (item.kind in LISTED ==>
                    exists i :: 0 <= i < |siblings| && siblings[i] == item && order == NewOrder(siblings, i, delta))
  {
    siblings, order := [], None;
    if !canWrite { return; }
    var parent := PartOfTarget(items, rels, item);
    if parent == None || !canEdit(parent.value) { return; }
    var ws, p := item.workspace, parent.value.id;
    var found := Siblings(items, rels, ws, p, |items|);
    var sorted := SortBy(found, Place(items, rels, ws, p));
    siblings := sorted;
    SiblingsAre(items, rels, ws, p, |items|);
    assert items[..|items|] == items;
    RearrangedUnique(found, sorted);
    var swapped := SwapWithNeighbour(sorted, item.id, delta);
    if item.kind in LISTED {
      assert item in sorted;
      ghost var i :| 0 <= i < |sorted| && sorted[i] == item;
    } else {
      forall k | 0 <= k < |sorted| ensures sorted[k].id != item.id { SameIdSameItem(items, sorted[k], item); }
    }
    if swapped.Some? { order := Some(IdsOf(swapped.value)); }
  }

  lemma {:induction false} SameIdSameItem(items: seq<Item>, a: Item, b: Item)
    requires UniqueIn(items) && a in items && b in items && a.workspace == b.workspace
    ensures a.id == b.id ==> a == b
  {
  }

  // ---- What a move does to the order ----

  /** Slots hide or show as before, so the search for a neighbour sees the same pattern. */
  lemma {:induction false} SamePattern(s: seq<Item>, t: seq<Item>, j: int, delta: int)
    requires delta == 1 || delta == -1
    requires |s| == |t| && forall k :: 0 <= k < |s| ==> s[k].archived == t[k].archived
    ensures Nearest(s, j, delta) == Nearest(t, j, delta)
    decreases if delta == 1 then |s| - j else j + 1
  {
    if 0 <= j < |s| && s[j].archived { SamePattern(s, t, j + delta, delta); }
  }

  lemma {:induction false} NearestIsMutual(s: seq<Item>, i: nat, j: int, delta: int)
    requires i < |s| && !s[i].archived && (delta == 1 || delta == -1)
    requires if delta == 1 then i < j else j < i
    requires forall k {:trigger s[k]} :: (if delta == 1 then i < k < j else j < k < i) && 0 <= k < |s| ==> s[k].archived
    requires Nearest(s, j, delta).Some?
    ensures var n := Nearest(s, j, delta).value;
            n != i && Nearest(s, n - delta, -delta) == Some(i)
    decreases if delta == 1 then |s| - j else j + 1
  {
    if s[j].archived { NearestIsMutual(s, i, j + delta, delta); }
    else { BackTo(s, i, j - delta, delta); }
  }

  lemma {:induction false} BackTo(s: seq<Item>, i: nat, k: int, delta: int)
    requires i < |s| && !s[i].archived && (delta == 1 || delta == -1)
    requires if delta == 1 then i <= k < |s| else 0 <= k <= i
    requires forall m {:trigger s[m]} :: (if delta == 1 then i < m <= k else k <= m < i) && 0 <= m < |s| ==>
               s[m].archived
    ensures Nearest(s, k, -delta) == Some(i)
    decreases if delta == 1 then k - i else i - k
  {
    if k != i { BackTo(s, i, k - delta, delta); }
  }

  /** The opposite move puts everything back. */
  lemma {:induction false} OppositeMoveRestores(s: seq<Item>, i: nat, delta: int)
    requires i < |s| && !s[i].archived && (delta == 1 || delta == -1) && Moved(s, i, delta).Some?
    ensures var j, t := Nearest(s, i + delta, delta).value, Moved(s, i, delta).value;
            t[j] == s[i] && Moved(t, j, -delta) == Some(s)
  {
    var j, t := Nearest(s, i + delta, delta).value, Moved(s, i, delta).value;
    NearestIsMutual(s, i, i + delta, delta);
    SamePattern(s, t, j - delta, -delta);
    assert Swapped(t, j, i) == s;
  }

  /** The new order is a rearrangement, and every archived sibling keeps its slot. */
  lemma {:induction false} MoveRearranges(s: seq<Item>, i: nat, delta: int)
    requires i < |s| && !s[i].archived && (delta == 1 || delta == -1) && Moved(s, i, delta).Some?
    ensures var t := Moved(s, i, delta).value;
            && multiset(t) == multiset(s) && |t| == |s|
            && forall k :: 0 <= k < |s| && s[k].archived ==> t[k] == s[k]
  {
  }

  lemma {:induction false} VisiblePatternCount(s: seq<Item>, t: seq<Item>, n: nat)
    requires |s| == |t| && n <= |s| && forall k :: 0 <= k < |s| ==> s[k].archived == t[k].archived
    ensures |Visible(s, n)| == |Visible(t, n)|
  {
    if n > 0 { VisiblePatternCount(s, t, n - 1); }
  }

  /** What is visible changes by swapping two neighbours, nothing else. */
  lemma {:induction false} VisibleOrderSwapsNeighbours(s: seq<Item>, i: nat, delta: int)
    requires i < |s| && !s[i].archived && (delta == 1 || delta == -1) && Moved(s, i, delta).Some?
    ensures var t, v := Moved(s, i, delta).value, |Visible(s, i)|;
            && 0 <= v < |Visible(s, |s|)| && 0 <= v + delta < |Visible(s, |s|)|
            && Visible(t, |t|) == Swapped(Visible(s, |s|), v, v + delta)
  {
    var j, t := Nearest(s, i + delta, delta).value, Moved(s, i, delta).value;
    var v := |Visible(s, i)|;
    VisibleAt(s, |s|, i);
    NeighbourIsNearest(s, i, delta);
    VisibleAt(s, |s|, j);
    VisiblePatternCount(s, t, |s|);
    NearestRank(s, i, delta);
    var vs, vt := Visible(s, |s|), Visible(t, |t|);
    forall u | 0 <= u < |vs| ensures vt[u] == Swapped(vs, v, v + delta)[u] {
      var k := VisibleFrom(s, |s|, u);
      VisiblePatternCount(s, t, k);
      VisibleAt(t, |t|, k);
      assert vt[u] == t[k];
      if k != i && k != j {
        RankIsInjective(s, k, i);
        RankIsInjective(s, k, j);
      }
    }
  }

  lemma {:induction false} NearestRank(s: seq<Item>, i: nat, delta: int)
    requires i < |s| && !s[i].archived && (delta == 1 || delta == -1) && Nearest(s, i + delta, delta).Some?
    ensures |Visible(s, Nearest(s, i + delta, delta).value)| == |Visible(s, i)| + delta
  {
    if delta == 1 { NearestBelow(s, i + 1); } else { NearestAbove(s, i); }
  }

  lemma {:induction false} RankIsInjective(s: seq<Item>, a: nat, b: nat)
    requires a < |s| && b < |s| && !s[a].archived && !s[b].archived && a != b
    ensures |Visible(s, a)| != |Visible(s, b)|
  {
    if a < b { VisibleAt(s, b, a); } else { VisibleAt(s, a, b); }
  }

  /** A trade leaves every archived sibling in its slot exactly when the moved item is not archived
      itself: an archived one, moved down, gives its slot away. */
  lemma {:induction false} HiddenSlotsKeptExactlyForVisible(s: seq<Item>, i: nat, delta: int)
    requires i < |s| && UniqueIds(s) && (delta == 1 || delta == -1) && SwapTarget(s, i, delta).Some?
    ensures var t := Swapped(s, i, SwapTarget(s, i, delta).value);
            (forall k :: 0 <= k < |s| && s[k].archived ==> t[k] == s[k]) <==> !s[i].archived
  {
  }
}
