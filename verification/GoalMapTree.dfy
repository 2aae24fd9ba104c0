// The tree the goal map draws: the plan contracted to the items in scope. An
// item hangs under its nearest ancestor that is shown, however many hidden
// items lie between.
module GoalMapTree {
  import opened Basics
  import opened Chains
  import opened GoalMap
  import opened Ordering
  import opened RootOrder
  import TreeLayout

  datatype Scope = Personal | Team | Organization

  datatype ItemKind = Outcome | Idea | GoalItem | Milestone | InitiativeItem | Action

  datatype MapItem = MapItem(id: Id, kind: ItemKind, scope: Scope, parentId: Option<Id>, position: Option<int>)

  const MAX_SAFE_INTEGER: int := 0x1f_ffff_ffff_ffff

  type ById = map<Id, MapItem>

  function CardKindOf(k: ItemKind): CardKind {
    if k == Outcome || k == Idea || k == GoalItem || k == Milestone then Goal else Initiative
  }

  /** The rows are stored under their own ids. */
  ghost predicate Keyed(byId: ById) {
    forall x :: x in byId ==> byId[x].id == x
  }

  /** Parent pointers of the source that lead to an item that exists. */
  ghost function Links(byId: ById): Parents {
    map x | x in byId && byId[x].parentId.Some? && byId[x].parentId.value in byId :: byId[x].parentId.value
  }

  // ---- Nearest shown ancestor ----

  ghost predicate NearestAt(p: Parents, shown: set<Id>, x: Id, a: Id, k: nat) {
    && k >= 1 && Up(p, x, k) == Some(a) && a in shown
    && forall j: nat :: 1 <= j < k && Up(p, x, j).Some? ==> Up(p, x, j).value !in shown
  }

  ghost predicate Nearest(p: Parents, shown: set<Id>, x: Id, a: Id) {
    exists k: nat :: NearestAt(p, shown, x, a, k)
  }

  ghost predicate NoneShownAbove(p: Parents, shown: set<Id>, x: Id) {
    forall a :: Ancestor(p, a, x) ==> a !in shown
  }

  lemma NearestIsUnique(p: Parents, shown: set<Id>, x: Id, a: Id, b: Id)
    requires Nearest(p, shown, x, a) && Nearest(p, shown, x, b)
    ensures a == b
  {
  }

  /** Either nothing above x is shown, or exactly one item is the nearest shown one. */
  lemma {:induction false} NearestExists(p: Parents, shown: set<Id>, x: Id, k: nat)
    requires k >= 1 && Up(p, x, k).Some? && Up(p, x, k).value in shown
    ensures exists a, i: nat :: i <= k && NearestAt(p, shown, x, a, i)
  {
    if j: nat :| 1 <= j < k && Up(p, x, j).Some? && Up(p, x, j).value in shown {
      NearestExists(p, shown, x, j);
    } else {
      assert NearestAt(p, shown, x, Up(p, x, k).value, k);
    }
  }

  ghost function NearestOf(p: Parents, shown: set<Id>, x: Id): (r: Option<Id>)
    ensures forall a :: r == Some(a) <==> Nearest(p, shown, x, a)
    ensures r == None <==> NoneShownAbove(p, shown, x)
  {
    if exists a :: Nearest(p, shown, x, a) then
      var a :| Nearest(p, shown, x, a);
      assert !NoneShownAbove(p, shown, x) by {
        var k: nat :| NearestAt(p, shown, x, a, k);
        assert Ancestor(p, a, x);
      }
      assert forall b :: Nearest(p, shown, x, b) ==> b == a by {
        forall b | Nearest(p, shown, x, b) ensures b == a { NearestIsUnique(p, shown, x, a, b); }
      }
      Some(a)
    else
      assert NoneShownAbove(p, shown, x) by {
        forall a | Ancestor(p, a, x) ensures a !in shown {
          var k: nat :| k >= 1 && Up(p, x, k) == Some(a);
          if a in shown {
            NearestExists(p, shown, x, k);
            var b, i: nat :| i <= k && NearestAt(p, shown, x, b, i);
            assert Nearest(p, shown, x, b);
          }
        }
      }
      None
  }

  /** The displayed parent pointers between shown items. */
  ghost function DisplayLinks(p: Parents, shown: set<Id>): Parents {
    map x | x in shown && NearestOf(p, shown, x).Some? :: NearestOf(p, shown, x).value
  }

  /** Once a climb revisits an item, it only ever meets items it has already passed. */
  lemma {:induction false} ClimbStaysInCycle(p: Parents, x: Id, k: nat, i: nat, m: nat)
    requires 1 <= i < k && Up(p, x, k).Some? && Up(p, x, k) == Up(p, x, i) && m >= 1
    ensures exists j: nat :: 1 <= j < k && Up(p, x, m) == Up(p, x, j)
    decreases m
  {
    if m >= k {
      ClimbStaysInCycle(p, x, k, i, m - 1);
      var j: nat :| 1 <= j < k && Up(p, x, m - 1) == Up(p, x, j);
      UpAdd(p, x, m - 1, 1);
      UpAdd(p, x, j, 1);
      assert Up(p, x, m) == Up(p, x, j + 1);
    }
  }

  function ParentRow(byId: ById, item: MapItem): Option<MapItem> {
    if item.parentId.Some? && item.parentId.value in byId then Some(byId[item.parentId.value]) else None
  }

  /** Climbs past hidden items; stops at a shown one, at the top, or on revisiting an item. */
  method DisplayParent(byId: ById, shown: set<Id>, item: MapItem) returns (r: Option<Id>)
    requires Keyed(byId) && item.id in byId && byId[item.id] == item
    ensures r == NearestOf(Links(byId), shown, item.id)
  {
    ghost var p, x := Links(byId), item.id;
    var seen: set<Id> := {};
    var current := ParentRow(byId, item);
    ghost var k: nat := 1;
    assert Up(p, x, 1) == if x in p then Some(p[x]) else None by {
      if x in p { assert Up(p, p[x], 0) == Some(p[x]); }
    }
    while current.Some? && current.value.id !in shown && current.value.id !in seen
      invariant k >= 1
      invariant current.Some? ==> current.value.id in byId && byId[current.value.id] == current.value
      invariant Up(p, x, k) == if current.Some? then Some(current.value.id) else None
      invariant forall y :: y in seen ==>
                  y in byId && y !in shown && exists j: nat :: 1 <= j < k && Up(p, x, j) == Some(y)
      invariant forall j: nat :: 1 <= j < k ==> Up(p, x, j).Some? && Up(p, x, j).value in seen
      decreases byId.Keys - seen
    {
      var y := current.value.id;
      seen := seen + {y};
      UpAdd(p, x, k, 1);
      assert Up(p, y, 1) == if y in p then Up(p, p[y], 0) else None;
      current := ParentRow(byId, current.value);
      assert Up(p, x, k) == Some(y);
      k := k + 1;
    }
    r := if current.Some? && current.value.id in shown then Some(current.value.id) else None;
    if r.Some? {
      assert NearestAt(p, shown, x, r.value, k);
    } else {
      forall a | Ancestor(p, a, x) ensures a !in shown {
        var m: nat :| m >= 1 && Up(p, x, m) == Some(a);
        if current.None? {
          if m >= k { UpDefinedBelow(p, x, k, m); }
        } else {
          var i: nat :| 1 <= i < k && Up(p, x, i) == Some(current.value.id);
          ClimbStaysInCycle(p, x, k, i, m);
        }
      }
    }
  }

  // ---- Contraction keeps ancestors ----

  /** One displayed link is a climb of one or more source links, and conversely
      every climb between shown items is a chain of displayed links. */
  lemma {:induction false} ClimbIsDisplayed(p: Parents, shown: set<Id>, a: Id, b: Id, k: nat)
    requires a in shown && b in shown && k >= 1 && Up(p, b, k) == Some(a)
    ensures Ancestor(DisplayLinks(p, shown), a, b)
    decreases k
  {
    var dp := DisplayLinks(p, shown);
    NearestExists(p, shown, b, k);
    var c, i: nat :| i <= k && NearestAt(p, shown, b, c, i);
    assert Nearest(p, shown, b, c) && dp[b] == c;
    assert Up(dp, b, 1) == Up(dp, c, 0);
    if i < k {
      UpAdd(p, b, i, k - i);
      ClimbIsDisplayed(p, shown, a, c, k - i);
      var m: nat :| m >= 1 && Up(dp, c, m) == Some(a);
      assert Up(dp, b, m + 1) == Some(a);
    }
  }

  lemma {:induction false} DisplayedIsClimb(p: Parents, shown: set<Id>, a: Id, b: Id, m: nat)
    requires m >= 1 && Up(DisplayLinks(p, shown), b, m) == Some(a)
    ensures Ancestor(p, a, b)
    decreases m
  {
    var dp := DisplayLinks(p, shown);
    var c := dp[b];
    assert Nearest(p, shown, b, c);
    var i: nat :| NearestAt(p, shown, b, c, i);
    if m > 1 {
      DisplayedIsClimb(p, shown, a, c, m - 1);
      var k: nat :| k >= 1 && Up(p, c, k) == Some(a);
      UpAdd(p, b, i, k);
      assert Up(p, b, i + k) == Some(a);
    } else {
      assert Up(dp, c, 0) == Some(a);
    }
  }

  /** For shown a and b: a is above b on the map exactly when it is above b in the plan. */
  lemma ContractionKeepsAncestors(p: Parents, shown: set<Id>, a: Id, b: Id)
    requires a in shown && b in shown
    ensures Ancestor(DisplayLinks(p, shown), a, b) <==> Ancestor(p, a, b)
  {
    var dp := DisplayLinks(p, shown);
    if Ancestor(p, a, b) {
      var k: nat :| k >= 1 && Up(p, b, k) == Some(a);
      ClimbIsDisplayed(p, shown, a, b, k);
    }
    if Ancestor(dp, a, b) {
      var m: nat :| m >= 1 && Up(dp, b, m) == Some(a);
      DisplayedIsClimb(p, shown, a, b, m);
    }
  }

  lemma ContractionIsAcyclic(p: Parents, shown: set<Id>)
    requires Acyclic(p)
    ensures Acyclic(DisplayLinks(p, shown))
  {
    var dp := DisplayLinks(p, shown);
    forall x | Ancestor(dp, x, x) ensures false {
      var m: nat :| m >= 1 && Up(dp, x, m) == Some(x);
      DisplayedIsClimb(p, shown, x, x, m);
    }
  }

  // ---- Building the displayed tree ----

  type Kids = map<Id, seq<Id>>

  /** Hanging an item under itself is not possible; such an item becomes a root. */
  function ParentIn(dp: Parents, x: Id): Option<Id> {
    if x in dp && dp[x] != x then Some(dp[x]) else None
  }

  /** Every item of `done` is listed exactly once: under its displayed parent, or as a root. */
  ghost predicate Listed(kids: Kids, roots: seq<Id>, dp: Parents, shown: set<Id>, done: set<Id>) {
    && kids.Keys == shown
    && (forall x {:trigger kids[x]} :: x in kids ==> NoDup(kids[x]))
    && (forall x, c {:trigger c in kids[x]} :: x in kids ==>
       (c in kids[x] <==> c in done && ParentIn(dp, c) == Some(x)))
    && NoDup(roots)
    && (forall r {:trigger r in roots} :: r in roots <==> r in done && ParentIn(dp, r) == None)
  }

  /** The finished tree: every shown item is listed exactly once. */
  ghost predicate Arranges(kids: Kids, roots: seq<Id>, dp: Parents, shown: set<Id>) {
    Listed(kids, roots, dp, shown, shown)
  }

  lemma ListedUnderParent(kids: Kids, roots: seq<Id>, dp: Parents, shown: set<Id>, done: set<Id>, x: Id, a: Id)
    requires Listed(kids, roots, dp, shown, done) && x !in done && ParentIn(dp, x) == Some(a) && a in shown
    ensures Listed(kids[a := kids[a] + [x]], roots, dp, shown, done + {x})
  {
    assert x !in kids[a];
    assert NoDup(kids[a] + [x]);
    assert forall c :: c in kids[a] + [x] <==> c in kids[a] || c == x;
  }

  lemma ListedAsRoot(kids: Kids, roots: seq<Id>, dp: Parents, shown: set<Id>, done: set<Id>, x: Id)
    requires Listed(kids, roots, dp, shown, done) && x !in done && ParentIn(dp, x) == None
    ensures Listed(kids, roots + [x], dp, shown, done + {x})
  {
    assert x !in roots;
    assert forall c :: c in roots + [x] <==> c in roots || c == x;
  }

  /** Sorting siblings and roots, by whatever order, keeps the arrangement. */
  lemma SortingKeepsArrangement(kids: Kids, roots: seq<Id>, kids': Kids, roots': seq<Id>, dp: Parents, shown: set<Id>)
    requires Arranges(kids, roots, dp, shown)
    requires kids'.Keys == kids.Keys && multiset(roots') == multiset(roots)
    requires forall x :: x in kids ==> multiset(kids'[x]) == multiset(kids[x])
    ensures Arranges(kids', roots', dp, shown)
  {
    PermutationKeeps(roots, roots');
    forall x | x in kids ensures NoDup(kids'[x]) && forall c :: c in kids'[x] <==> c in kids[x] {
      PermutationKeeps(kids[x], kids'[x]);
    }
  }

  ghost predicate UniqueIds(source: seq<MapItem>) {
    forall i, j :: 0 <= i < j < |source| ==> source[i].id != source[j].id
  }

  predicate InScope(item: MapItem, scope: Option<Scope>) {
    scope == None || Some(item.scope) == scope
  }

  function Matched(source: seq<MapItem>, scope: Option<Scope>): (ms: seq<MapItem>)
    ensures forall m :: m in ms <==> m in source && InScope(m, scope)
  {
    if source == [] then []
    else
      var rest := Matched(source[1..], scope);
      if InScope(source[0], scope) then [source[0]] + rest else rest
  }

  lemma {:induction false} MatchedAreUnique(source: seq<MapItem>, scope: Option<Scope>)
    requires UniqueIds(source)
    ensures UniqueIds(Matched(source, scope))
  {
    if source != [] {
      var rest := Matched(source[1..], scope);
      MatchedAreUnique(source[1..], scope);
      forall k | 0 <= k < |rest| ensures rest[k].id != source[0].id {
        assert rest[k] in source[1..];
      }
    }
  }

  function Rows(source: seq<MapItem>): ById {
    map x | x in set m | m in source :: m.id :: FindRow(source, x)
  }

  function FindRow(source: seq<MapItem>, x: Id): (m: MapItem)
    requires exists m :: m in source && m.id == x
    ensures m in source && m.id == x
  {
    if source[0].id == x then source[0] else FindRow(source[1..], x)
  }

  function ShownIds(source: seq<MapItem>, scope: Option<Scope>): set<Id> {
    set m | m in Matched(source, scope) :: m.id
  }

  method DisplayParents(byId: ById, shown: set<Id>, matched: seq<MapItem>) returns (parents: Parents)
    requires Keyed(byId)
    requires forall m :: m in matched ==> m.id in byId && byId[m.id] == m
    requires shown == set m | m in matched :: m.id
    ensures parents == DisplayLinks(Links(byId), shown)
  {
    ghost var p := Links(byId);
    parents := map[];
    var i := 0;
    while i < |matched|
      invariant 0 <= i <= |matched|
      invariant forall x :: x in parents ==> x in shown && NearestOf(p, shown, x) == Some(parents[x])
      invariant forall k :: 0 <= k < i && NearestOf(p, shown, matched[k].id).Some? ==> matched[k].id in parents
    {
      var item := matched[i];
      var above := DisplayParent(byId, shown, item);
      if above.Some? {
        parents := parents[item.id := above.value];
      }
      i := i + 1;
    }
  }

  /** Pushes each item under its displayed parent or among the roots, in order. */
  method Hang(parents: Parents, matched: seq<MapItem>, shown: set<Id>) returns (kids: Kids, roots: seq<Id>)
    requires UniqueIds(matched) && shown == set m | m in matched :: m.id
    requires forall x :: x in parents ==> parents[x] in shown
    ensures Arranges(kids, roots, parents, shown)
  {
    kids := map x | x in shown :: [];
    roots := [];
    ghost var done: set<Id> := {};
    var i := 0;
    while i < |matched|
      invariant 0 <= i <= |matched|
      invariant done == set m | m in matched[..i] :: m.id
      invariant Listed(kids, roots, parents, shown, done)
    {
      var x := matched[i].id;
      assert x !in done;
      var parent := ParentIn(parents, x);
      if parent.Some? {
        ListedUnderParent(kids, roots, parents, shown, done, x, parent.value);
        kids := kids[parent.value := kids[parent.value] + [x]];
      } else {
        ListedAsRoot(kids, roots, parents, shown, done, x);
        roots := roots + [x];
      }
      done := done + {x};
      assert matched[..i + 1] == matched[..i] + [matched[i]];
      i := i + 1;
    }
    assert matched[..i] == matched;
  }

  /** Where a sibling stands: its stored position, then the order it was read in. */
  function PlaceOf(byId: ById, index: map<Id, nat>): Id -> Placement {
    (x: Id) => Placement(if x in byId && byId[x].position.Some? then byId[x].position.value else MAX_SAFE_INTEGER,
                         if x in index then index[x] else 0, "")
  }

  ghost predicate Indexes(index: map<Id, nat>, matched: seq<MapItem>, n: nat)
    requires n <= |matched|
  {
    forall k :: 0 <= k < n ==> matched[k].id in index && index[matched[k].id] == k
  }

  method SourceIndexes(matched: seq<MapItem>) returns (index: map<Id, nat>)
    requires UniqueIds(matched)
    ensures Indexes(index, matched, |matched|)
  {
    index := map[];
    for i := 0 to |matched|
      invariant Indexes(index, matched, i)
    {
      index := index[matched[i].id := i];
    }
  }

  method SortSiblings(kids: Kids, place: Id -> Placement) returns (sorted: Kids)
    ensures sorted.Keys == kids.Keys
    ensures forall x :: x in kids ==> Sorted(sorted[x], place) && multiset(sorted[x]) == multiset(kids[x])
  {
    sorted := kids;
    var todo := kids.Keys;
    while todo != {}
      invariant todo <= kids.Keys == sorted.Keys
      invariant forall x :: x in kids && x !in todo ==>
                  Sorted(sorted[x], place) && multiset(sorted[x]) == multiset(kids[x])
      decreases |todo|
    {
      var x :| x in todo;
      var row := SortBy(kids[x], place);
      sorted, todo := sorted[x := row], todo - {x};
    }
  }

  /** How the roots are compared: those with a parent that is not shown by reading order, the others by place. */
  function RankingOf(source: seq<MapItem>, parents: Parents, index: map<Id, nat>): Ranking {
    var byId := Rows(source);
    Ranking(set x | x in byId && byId[x].parentId.Some? && x !in parents :: x, PlaceOf(byId, index))
  }

  lemma {:induction false} RootsAreReadApart(source: seq<MapItem>, scope: Option<Scope>, parents: Parents,
      index: map<Id, nat>, roots: seq<Id>)
    requires Indexes(index, Matched(source, scope), |Matched(source, scope)|)
    requires forall x :: x in roots ==> x in ShownIds(source, scope)
    ensures ReadApart(RankingOf(source, parents, index), roots)
  {
    var ms := Matched(source, scope);
    forall a, b | a in roots && b in roots && a != b ensures a in index && b in index && index[a] != index[b] {
      var k :| 0 <= k < |ms| && ms[k].id == a;
      var l :| 0 <= l < |ms| && ms[l].id == b;
    }
  }

  /** Filters the plan to a scope, finds each shown item's displayed parent, lists it
      under that parent or among the roots, and puts siblings and roots in order. */
  method BuildTree(source: seq<MapItem>, scope: Option<Scope>)
    returns (kids: Kids, roots: seq<Id>, parents: Parents, index: map<Id, nat>)
    requires UniqueIds(source)
    ensures parents == DisplayLinks(Links(Rows(source)), ShownIds(source, scope))
    ensures Arranges(kids, roots, parents, ShownIds(source, scope)) && ShownIds(source, scope) <= Rows(source).Keys
    ensures Indexes(index, Matched(source, scope), |Matched(source, scope)|)
    ensures forall x :: x in kids ==> Sorted(kids[x], PlaceOf(Rows(source), index))
    ensures Transitive(RankingOf(source, parents, index), roots) ==> Ranked(RankingOf(source, parents, index), roots)
  {
    var matched := Matched(source, scope);
    var byId := Rows(source);
    var shown := ShownIds(source, scope);
    MatchedAreUnique(source, scope);
    RowsCoverShown(source, scope);
    forall m | m in matched ensures m.id in byId && byId[m.id] == m {
      assert m in source;
    }
    parents := DisplayParents(byId, shown, matched);
    forall x | x in parents ensures parents[x] in shown {
      var k: nat :| NearestAt(Links(byId), shown, x, parents[x], k);
    }
    index := SourceIndexes(matched);
    var listed: Kids, tops: seq<Id>;
    listed, tops := Hang(parents, matched, shown);
    kids := SortSiblings(listed, PlaceOf(byId, index));
    RootsAreReadApart(source, scope, parents, index, tops);
    roots := SortRoots(RankingOf(source, parents, index), tops);
    PermutationKeeps(tops, roots);
    SortingKeepsArrangement(listed, tops, kids, roots, parents, shown);
  }

  // ---- The drawn forest ----

  /** Everything the displayed tree consists of, with each item's distance from its root. */
  datatype Forest = Forest(kids: Kids, roots: seq<Id>, dp: Parents, byId: ById, height: map<Id, nat>, bound: nat)
  {
    ghost predicate Valid() {
      && kids.Keys == height.Keys && height.Keys <= byId.Keys
      && (forall x {:trigger dp[x]} :: x in dp ==> x in height && dp[x] in height && height[x] == height[dp[x]] + 1)
      && (forall x {:trigger height[x]} :: x in height ==> height[x] <= bound && (x !in dp ==> height[x] == 0))
      && (forall x {:trigger kids[x]} :: x in kids ==> NoDup(kids[x]))
      && (forall x, c {:trigger c in kids[x]} :: x in kids ==> (c in kids[x] <==> c in dp && dp[c] == x))
      && NoDup(roots)
      && (forall r {:trigger r in roots} :: r in roots <==> r in height && r !in dp)
    }
  }

  /** The item with everything listed below it. */
  ghost function Unfold(f: Forest, x: Id): TreeItem
    requires f.Valid() && x in f.height
    decreases f.bound - f.height[x], 0
  {
    assert forall k :: 0 <= k < |f.kids[x]| ==> f.kids[x][k] in f.kids[x];
    TreeItem(x, CardKindOf(f.byId[x].kind), if x in f.dp then Some(f.dp[x]) else None,
             UnfoldRow(f, f.kids[x], f.height[x] + 1))
  }

  /** Items that stand at one height, each with everything listed below it. */
  ghost function UnfoldRow(f: Forest, xs: seq<Id>, h: nat): (ts: seq<TreeItem>)
    requires f.Valid() && forall k :: 0 <= k < |xs| ==> xs[k] in f.height && f.height[xs[k]] == h
    ensures |ts| == |xs|
    decreases f.bound - h, 1
  {
    seq(|xs|, k requires 0 <= k < |xs| => Unfold(f, xs[k]))
  }

  ghost function UnfoldRoots(f: Forest): seq<TreeItem>
    requires f.Valid()
  {
    RootsAreAtTop(f);
    UnfoldRow(f, f.roots, 0)
  }

  lemma RootsAreAtTop(f: Forest)
    requires f.Valid()
    ensures forall k :: 0 <= k < |f.roots| ==> f.roots[k] in f.height && f.height[f.roots[k]] == 0
  {
    assert forall k :: 0 <= k < |f.roots| ==> f.roots[k] in f.roots;
  }

  lemma UnfoldParts(f: Forest, x: Id)
    requires f.Valid() && x in f.height
    ensures |Unfold(f, x).children| == |f.kids[x]|
    ensures forall k :: 0 <= k < |f.kids[x]| ==>
              && f.kids[x][k] in f.height && f.height[f.kids[x][k]] == f.height[x] + 1
              && Unfold(f, x).children[k] == Unfold(f, f.kids[x][k]) && Unfold(f, x).children[k].parentId == Some(x)
  {
    forall k | 0 <= k < |f.kids[x]| ensures f.kids[x][k] in f.dp && f.dp[f.kids[x][k]] == x {
      assert f.kids[x][k] in f.kids[x];
    }
  }

  /** Every unfolded item knows the item it hangs under, as the drawing expects. */
  lemma {:induction false} UnfoldIsLinked(f: Forest, x: Id)
    requires f.Valid() && x in f.height
    ensures WellLinked(Unfold(f, x))
    decreases f.bound - f.height[x]
  {
    UnfoldParts(f, x);
    forall k | 0 <= k < |f.kids[x]| ensures WellLinked(Unfold(f, f.kids[x][k])) {
      UnfoldIsLinked(f, f.kids[x][k]);
    }
  }

  /** The drawing of a row of items at one height. */
  ghost function DrawnRow(f: Forest, closed: set<Id>, xs: seq<Id>, h: nat): (ts: seq<TreeLayout.Tree>)
    requires f.Valid() && forall k :: 0 <= k < |xs| ==> xs[k] in f.height && f.height[xs[k]] == h
    ensures ts == VisibleAll(UnfoldRow(f, xs, h), closed) && |ts| == |xs|
    ensures forall k :: 0 <= k < |xs| ==> ts[k] == DrawnItem(f, closed, xs[k])
  {
    VisibleAll(UnfoldRow(f, xs, h), closed)
  }

  ghost function DrawnItem(f: Forest, closed: set<Id>, x: Id): TreeLayout.Tree
    requires f.Valid() && x in f.height
  {
    Visible(Unfold(f, x), closed)
  }

  /** The items listed under x that are drawn. */
  ghost function OpenKids(f: Forest, closed: set<Id>, x: Id): seq<Id>
    requires f.Valid() && x in f.height
  {
    if x in closed then [] else f.kids[x]
  }

  lemma DrawnItemParts(f: Forest, closed: set<Id>, x: Id)
    requires f.Valid() && x in f.height
    ensures forall k :: 0 <= k < |f.kids[x]| ==> f.kids[x][k] in f.height && f.height[f.kids[x][k]] == f.height[x] + 1
    ensures DrawnItem(f, closed, x).id == x
    ensures DrawnItem(f, closed, x).children == DrawnRow(f, closed, OpenKids(f, closed, x), f.height[x] + 1)
  {
    UnfoldParts(f, x);
    assert ChildrenOf(Unfold(f, x), closed) == if x in closed then [] else Unfold(f, x).children;
  }

  // ---- What folding leaves visible ----

  /** k steps up from y stand on x, and nothing passed above y is folded, x included. */
  ghost predicate OpenClimb(p: Parents, closed: set<Id>, y: Id, k: nat, x: Id)
    decreases k
  {
    if k == 0 then x == y else y in p && p[y] !in closed && OpenClimb(p, closed, p[y], k - 1, x)
  }

  ghost predicate OpenBelow(p: Parents, closed: set<Id>, x: Id, y: Id) {
    exists k: nat :: OpenClimb(p, closed, y, k, x)
  }

  lemma {:induction false} OpenClimbIsUp(p: Parents, closed: set<Id>, y: Id, k: nat, x: Id)
    ensures OpenClimb(p, closed, y, k, x) ==> Up(p, y, k) == Some(x)
    ensures closed == {} && Up(p, y, k) == Some(x) ==> OpenClimb(p, closed, y, k, x)
    decreases k
  {
    if k > 0 && y in p { OpenClimbIsUp(p, closed, p[y], k - 1, x); }
  }

  lemma {:induction false} OpenClimbOn(p: Parents, closed: set<Id>, y: Id, k: nat, c: Id)
    requires OpenClimb(p, closed, y, k, c) && c in p && p[c] !in closed
    ensures OpenClimb(p, closed, y, k + 1, p[c])
    decreases k
  {
    if k > 0 { OpenClimbOn(p, closed, p[y], k - 1, c); }
  }

  lemma {:induction false} OpenClimbBack(p: Parents, closed: set<Id>, y: Id, k: nat, x: Id) returns (c: Id)
    requires OpenClimb(p, closed, y, k, x) && k > 0
    ensures c in p && p[c] == x && x !in closed && OpenClimb(p, closed, y, k - 1, c)
    decreases k
  {
    if k == 1 { c := y; } else { c := OpenClimbBack(p, closed, p[y], k - 1, x); }
  }

  lemma {:induction false} ClimbLowersHeight(f: Forest, y: Id, k: nat)
    requires f.Valid() && y in f.height && Up(f.dp, y, k).Some?
    ensures Up(f.dp, y, k).value in f.height && f.height[y] == f.height[Up(f.dp, y, k).value] + k
    decreases k
  {
    if k > 0 { ClimbLowersHeight(f, f.dp[y], k - 1); }
  }

  lemma {:induction false} OpenClimbLowersHeight(f: Forest, closed: set<Id>, y: Id, k: nat, x: Id)
    requires f.Valid() && y in f.height && OpenClimb(f.dp, closed, y, k, x)
    ensures x in f.height && f.height[y] == f.height[x] + k && Up(f.dp, y, k) == Some(x)
  {
    OpenClimbIsUp(f.dp, closed, y, k, x);
    ClimbLowersHeight(f, y, k);
  }

  /** Different items at the same height have nothing in common below them. */
  lemma LevelsAreDisjoint(f: Forest, closed: set<Id>, a: Id, b: Id, y: Id)
    requires f.Valid() && y in f.height && OpenBelow(f.dp, closed, a, y) && OpenBelow(f.dp, closed, b, y)
    requires a in f.height && b in f.height && f.height[a] == f.height[b]
    ensures a == b
  {
    var i: nat :| OpenClimb(f.dp, closed, y, i, a);
    var j: nat :| OpenClimb(f.dp, closed, y, j, b);
    OpenClimbLowersHeight(f, closed, y, i, a);
    OpenClimbLowersHeight(f, closed, y, j, b);
  }

  lemma BelowThroughChild(p: Parents, closed: set<Id>, x: Id, y: Id)
    ensures OpenBelow(p, closed, x, y) <==>
            y == x || (x !in closed && exists c :: c in p && p[c] == x && OpenBelow(p, closed, c, y))
  {
    if k: nat :| OpenClimb(p, closed, y, k, x) {
      if k > 0 {
        var c := OpenClimbBack(p, closed, y, k, x);
        assert OpenBelow(p, closed, c, y);
      }
    }
    if y == x { assert OpenClimb(p, closed, y, 0, x); }
    if c :| x !in closed && c in p && p[c] == x && OpenBelow(p, closed, c, y) {
      var k: nat :| OpenClimb(p, closed, y, k, c);
      OpenClimbOn(p, closed, y, k, c);
    }
  }

  /** The ids `ids` are, once each, the items at or below x that no folded item hides. */
  ghost predicate Covers(f: Forest, closed: set<Id>, ids: seq<Id>, x: Id) {
    NoDup(ids) && forall y :: y in ids <==> y in f.height && OpenBelow(f.dp, closed, x, y)
  }

  /** A row of subtrees of items at one height covers what lies below those items. */
  lemma RowCovers(f: Forest, closed: set<Id>, ks: seq<Id>, h: nat)
    requires f.Valid() && NoDup(ks)
    requires forall k :: 0 <= k < |ks| ==>
               ks[k] in f.height && f.height[ks[k]] == h &&
                 Covers(f, closed, TreeLayout.Ids(DrawnItem(f, closed, ks[k])), ks[k])
    ensures NoDup(TreeLayout.RowIds(DrawnRow(f, closed, ks, h), 0))
    ensures forall y :: y in TreeLayout.RowIds(DrawnRow(f, closed, ks, h), 0) <==>
              y in f.height && exists c :: c in ks && OpenBelow(f.dp, closed, c, y)
  {
    var ts := DrawnRow(f, closed, ks, h);
    forall j, k, y | 0 <= j < k < |ts| && y in TreeLayout.Ids(ts[j]) ensures y !in TreeLayout.Ids(ts[k]) {
      if y in TreeLayout.Ids(ts[k]) { LevelsAreDisjoint(f, closed, ks[j], ks[k], y); }
    }
    TreeLayout.RowIdsNoDup(ts, 0);
    forall y
      ensures y in TreeLayout.RowIds(ts, 0) <==> y in f.height && exists c :: c in ks && OpenBelow(f.dp, closed, c, y)
    {
      RowMember(f, closed, ks, h, y);
    }
  }

  lemma RowMember(f: Forest, closed: set<Id>, ks: seq<Id>, h: nat, y: Id)
    requires f.Valid()
    requires forall k :: 0 <= k < |ks| ==>
               ks[k] in f.height && f.height[ks[k]] == h &&
                 Covers(f, closed, TreeLayout.Ids(DrawnItem(f, closed, ks[k])), ks[k])
    ensures y in TreeLayout.RowIds(DrawnRow(f, closed, ks, h), 0) <==>
            y in f.height && exists c :: c in ks && OpenBelow(f.dp, closed, c, y)
  {
    var ts := DrawnRow(f, closed, ks, h);
    TreeLayout.RowIdsMembers(ts, 0, y);
    if k :| 0 <= k < |ts| && y in TreeLayout.Ids(ts[k]) {
      assert ks[k] in ks && ts[k] == DrawnItem(f, closed, ks[k]);
    }
    if c :| y in f.height && c in ks && OpenBelow(f.dp, closed, c, y) {
      var k :| 0 <= k < |ks| && ks[k] == c;
      assert ts[k] == DrawnItem(f, closed, ks[k]);
    }
  }

  /** Unfolding an item draws it and exactly the items displayed below it that no folded item hides, once each. */
  lemma {:induction false} UnfoldDrawsBelow(f: Forest, closed: set<Id>, x: Id)
    requires f.Valid() && x in f.height
    ensures Covers(f, closed, TreeLayout.Ids(DrawnItem(f, closed, x)), x)
    decreases f.bound - f.height[x]
  {
    var ks := OpenKids(f, closed, x);
    DrawnItemParts(f, closed, x);
    forall k | 0 <= k < |ks| ensures Covers(f, closed, TreeLayout.Ids(DrawnItem(f, closed, ks[k])), ks[k]) {
      UnfoldDrawsBelow(f, closed, ks[k]);
    }
    RowCovers(f, closed, ks, f.height[x] + 1);
    ItemCovers(f, closed, x, TreeLayout.RowIds(DrawnRow(f, closed, ks, f.height[x] + 1), 0));
  }

  lemma ItemCovers(f: Forest, closed: set<Id>, x: Id, below: seq<Id>)
    requires f.Valid() && x in f.height && NoDup(below)
    requires forall y :: y in below <==>
               y in f.height && exists c :: c in OpenKids(f, closed, x) && OpenBelow(f.dp, closed, c, y)
    ensures Covers(f, closed, [x] + below, x)
  {
    forall y ensures y in [x] + below <==> y in f.height && OpenBelow(f.dp, closed, x, y) {
      BelowThroughChild(f.dp, closed, x, y);
    }
    if x in below {
      var c :| c in OpenKids(f, closed, x) && OpenBelow(f.dp, closed, c, x);
      var n: nat :| OpenClimb(f.dp, closed, x, n, c);
      OpenClimbLowersHeight(f, closed, x, n, c);
    }
  }

  lemma RootRowCovers(f: Forest, closed: set<Id>)
    requires f.Valid()
    ensures forall k :: 0 <= k < |f.roots| ==> f.roots[k] in f.height && f.height[f.roots[k]] == 0
    ensures var ids := TreeLayout.RowIds(DrawnRow(f, closed, f.roots, 0), 0);
            NoDup(ids) && forall y :: y in ids <==>
              y in f.height && exists r :: r in f.roots && OpenBelow(f.dp, closed, r, y)
  {
    RootsAreAtTop(f);
    forall k | 0 <= k < |f.roots|
      ensures Covers(f, closed, TreeLayout.Ids(DrawnItem(f, closed, f.roots[k])), f.roots[k])
    {
      UnfoldDrawsBelow(f, closed, f.roots[k]);
    }
    RowCovers(f, closed, f.roots, 0);
  }

  /** No item displayed above y is folded. */
  ghost predicate NoneFoldedAbove(dp: Parents, closed: set<Id>, y: Id) {
    forall a :: a in closed ==> !Ancestor(dp, a, y)
  }

  lemma {:induction false} NothingFoldedOnTheWay(p: Parents, closed: set<Id>, y: Id, k: nat, x: Id, i: nat)
    requires OpenClimb(p, closed, y, k, x) && 1 <= i <= k
    ensures Up(p, y, i).Some? && Up(p, y, i).value !in closed
    decreases k
  {
    if i > 1 { NothingFoldedOnTheWay(p, closed, p[y], k - 1, x, i - 1); } else { assert Up(p, y, 1) == Some(p[y]); }
  }

  lemma {:induction false} NoneFoldedStep(dp: Parents, closed: set<Id>, y: Id)
    requires y in dp
    ensures NoneFoldedAbove(dp, closed, y) ==> dp[y] !in closed && NoneFoldedAbove(dp, closed, dp[y])
  {
    assert Up(dp, y, 1) == Some(dp[y]);
    assert Ancestor(dp, dp[y], y);
    forall a | Ancestor(dp, a, dp[y]) ensures Ancestor(dp, a, y) {
      var k: nat :| k >= 1 && Up(dp, dp[y], k) == Some(a);
      assert Up(dp, y, k + 1) == Some(a);
    }
  }

  lemma {:induction false} RootAbove(f: Forest, closed: set<Id>, y: Id)
    requires f.Valid() && y in f.height && NoneFoldedAbove(f.dp, closed, y)
    ensures exists r :: r in f.roots && OpenBelow(f.dp, closed, r, y)
    decreases f.height[y]
  {
    if y in f.dp {
      NoneFoldedStep(f.dp, closed, y);
      RootAbove(f, closed, f.dp[y]);
      var r :| r in f.roots && OpenBelow(f.dp, closed, r, f.dp[y]);
      var k: nat :| OpenClimb(f.dp, closed, f.dp[y], k, r);
      assert OpenClimb(f.dp, closed, y, k + 1, r);
    } else {
      assert y in f.roots && OpenClimb(f.dp, closed, y, 0, y);
    }
  }

  lemma {:induction false} BelowARootIsOpen(f: Forest, closed: set<Id>, y: Id, r: Id)
    requires f.Valid() && r in f.roots && OpenBelow(f.dp, closed, r, y)
    ensures NoneFoldedAbove(f.dp, closed, y)
  {
    var k: nat :| OpenClimb(f.dp, closed, y, k, r);
    OpenClimbIsUp(f.dp, closed, y, k, r);
    forall a | Ancestor(f.dp, a, y) ensures a !in closed {
      var i: nat :| i >= 1 && Up(f.dp, y, i) == Some(a);
      if i > k { UpDefinedBelow(f.dp, y, k, i); }
      NothingFoldedOnTheWay(f.dp, closed, y, k, r, i);
    }
  }

  /** Whatever is folded, the drawing holds once each exactly the shown items that no folded item is displayed above. */
  lemma EveryOpenItemOnce(f: Forest, closed: set<Id>)
    requires f.Valid()
    ensures var ids := TreeLayout.RowIds(VisibleAll(UnfoldRoots(f), closed), 0);
            NoDup(ids) && forall y :: y in ids <==> y in f.height && NoneFoldedAbove(f.dp, closed, y)
  {
    RootRowCovers(f, closed);
    forall y | y in f.height
      ensures (exists r :: r in f.roots && OpenBelow(f.dp, closed, r, y)) <==> NoneFoldedAbove(f.dp, closed, y)
    {
      if r :| r in f.roots && OpenBelow(f.dp, closed, r, y) { BelowARootIsOpen(f, closed, y, r); }
      if NoneFoldedAbove(f.dp, closed, y) { RootAbove(f, closed, y); }
    }
  }

  /** Every shown item is placed exactly once. */
  lemma EveryShownItemOnce(f: Forest)
    requires f.Valid()
    ensures var ids := TreeLayout.RowIds(VisibleAll(UnfoldRoots(f), {}), 0);
            NoDup(ids) && forall y :: y in ids <==> y in f.height
  {
    EveryOpenItemOnce(f, {});
  }

  /** For every set of folded ids the cards are, one each, exactly those of the shown items that no folded item is
      displayed above. */
  lemma {:induction false} EveryOpenItemHasOneCard(f: Forest, closed: set<Id>)
    requires f.Valid()
    ensures var ns := MapNodes(UnfoldRoots(f), closed);
            && (forall i, j {:trigger ns[i], ns[j]} :: 0 <= i < j < |ns| ==> ns[i].card.id != ns[j].card.id)
            && (forall y :: y in f.height && NoneFoldedAbove(f.dp, closed, y) <==>
               exists k :: 0 <= k < |ns| && ns[k].card.id == y)
  {
    var ts := VisibleAll(UnfoldRoots(f), closed);
    var ids := TreeLayout.RowIds(ts, 0);
    TreeLayout.OneCardPerRowNode(ts, 0, 0, 0, GAP);
    EveryOpenItemOnce(f, closed);
    var ns := MapNodes(UnfoldRoots(f), closed);
    assert forall k :: 0 <= k < |ns| ==> ns[k].card.id == ids[k];
    forall y | y in ids ensures exists k :: 0 <= k < |ns| && ns[k].card.id == y {
      var k :| 0 <= k < |ids| && ids[k] == y;
      assert ns[k].card.id == y;
    }
  }

  /** Distances from the roots of an acyclic display. */
  ghost function Heights(dp: Parents, shown: set<Id>): (h: map<Id, nat>)
    requires Acyclic(dp) && forall x :: x in dp ==> x in shown && dp[x] in shown
    ensures h.Keys == shown && HeightsFit(dp, h, |dp|)
  {
    var h := map x | x in shown :: Height(dp, x);
    assert HeightsFit(dp, h, |dp|) by {
      forall x | x in dp ensures h[x] == h[dp[x]] + 1 { HeightStep(dp, x); }
      forall x | x in shown && x !in dp ensures h[x] == 0 { HeightIsUnique(dp, x, 0); }
    }
    h
  }

  ghost predicate HeightsFit(dp: Parents, h: map<Id, nat>, bound: nat) {
    && (forall x {:trigger dp[x]} :: x in dp ==> x in h && dp[x] in h && h[x] == h[dp[x]] + 1)
    && (forall x {:trigger h[x]} :: x in h ==> h[x] <= bound && (x !in dp ==> h[x] == 0))
  }

  lemma ArrangementIsForest(kids: Kids, roots: seq<Id>, dp: Parents, byId: ById, shown: set<Id>, h: map<Id, nat>)
    requires shown <= byId.Keys && Arranges(kids, roots, dp, shown) && h.Keys == shown && HeightsFit(dp, h, |dp|)
    ensures Forest(kids, roots, dp, byId, h, |dp|).Valid()
  {
  }

  lemma RowsCoverShown(source: seq<MapItem>, scope: Option<Scope>)
    ensures ShownIds(source, scope) <= Rows(source).Keys
  {
  }

  lemma DisplayLinksStayShown(p: Parents, shown: set<Id>)
    ensures forall x :: x in DisplayLinks(p, shown) ==> x in shown && DisplayLinks(p, shown)[x] in shown
  {
  }

  /** The forest an arrangement of the displayed links describes. */
  ghost function DisplayForest(p: Parents, byId: ById, shown: set<Id>, kids: Kids, roots: seq<Id>): (f: Forest)
    requires Acyclic(p) && shown <= byId.Keys && Arranges(kids, roots, DisplayLinks(p, shown), shown)
    ensures f.Valid() && f.dp == DisplayLinks(p, shown) && f.height.Keys == shown
  {
    var dp := DisplayLinks(p, shown);
    ContractionIsAcyclic(p, shown);
    DisplayLinksStayShown(p, shown);
    var h := Heights(dp, shown);
    ArrangementIsForest(kids, roots, dp, byId, shown, h);
    Forest(kids, roots, dp, byId, h, |dp|)
  }

  lemma RootsAreLinked(f: Forest)
    requires f.Valid()
    ensures forall r :: r in UnfoldRoots(f) ==> WellLinked(r)
  {
    forall r | r in UnfoldRoots(f) ensures WellLinked(r) {
      var k :| 0 <= k < |f.roots| && UnfoldRoots(f)[k] == r;
      assert f.roots[k] in f.roots;
      UnfoldIsLinked(f, f.roots[k]);
    }
  }

  /** Filtering an acyclic plan to a scope: the tree that is built, in any sibling
      order, draws every shown item exactly once, is well linked for drawing, and
      puts a above b exactly when a is above b in the plan. */
  lemma FilteredMapIsAContraction(p: Parents, byId: ById, shown: set<Id>, kids: Kids, roots: seq<Id>)
    requires Acyclic(p) && shown <= byId.Keys && Arranges(kids, roots, DisplayLinks(p, shown), shown)
    ensures var f := DisplayForest(p, byId, shown, kids, roots);
            var ids := TreeLayout.RowIds(VisibleAll(UnfoldRoots(f), {}), 0);
            && (forall r :: r in UnfoldRoots(f) ==> WellLinked(r))
            && NoDup(ids) && (forall y :: y in ids <==> y in shown)
            && (forall a, b :: a in shown && b in shown ==>
                  (a != b && b in TreeLayout.Ids(DrawnItem(f, {}, a)) <==> Ancestor(p, a, b)))
  {
    var f := DisplayForest(p, byId, shown, kids, roots);
    RootsAreLinked(f);
    EveryShownItemOnce(f);
    forall a, b | a in shown && b in shown
      ensures a != b && b in TreeLayout.Ids(DrawnItem(f, {}, a)) <==> Ancestor(p, a, b)
    {
      DrawnBelowIsAncestor(p, shown, f, a, b);
    }
  }

  lemma DrawnBelowIsAncestor(p: Parents, shown: set<Id>, f: Forest, a: Id, b: Id)
    requires f.Valid() && f.dp == DisplayLinks(p, shown) && f.height.Keys == shown && a in shown && b in shown
    ensures a != b && b in TreeLayout.Ids(DrawnItem(f, {}, a)) <==> Ancestor(p, a, b)
  {
    UnfoldDrawsBelow(f, {}, a);
    ContractionKeepsAncestors(p, shown, a, b);
    StrictlyBelow(f, a, b);
  }

  lemma StrictlyBelow(f: Forest, a: Id, b: Id)
    requires f.Valid() && b in f.height
    ensures a != b && OpenBelow(f.dp, {}, a, b) <==> Ancestor(f.dp, a, b)
  {
    if Ancestor(f.dp, a, b) {
      var k: nat :| k >= 1 && Up(f.dp, b, k) == Some(a);
      ClimbLowersHeight(f, b, k);
      OpenClimbIsUp(f.dp, {}, b, k, a);
    }
    if OpenBelow(f.dp, {}, a, b) && a != b {
      var k: nat :| OpenClimb(f.dp, {}, b, k, a);
      OpenClimbIsUp(f.dp, {}, b, k, a);
      assert k >= 1;
    }
  }

  /** On the filtered map of an acyclic plan, whatever is folded, an item has a card exactly when it is shown and no
      shown item above it in the plan is folded, however many hidden items lie between. */
  lemma {:induction false} FoldedMapShows(p: Parents, byId: ById, shown: set<Id>, kids: Kids, roots: seq<Id>,
      closed: set<Id>, y: Id)
    requires Acyclic(p) && shown <= byId.Keys && Arranges(kids, roots, DisplayLinks(p, shown), shown)
    ensures var ns := MapNodes(UnfoldRoots(DisplayForest(p, byId, shown, kids, roots)), closed);
            (exists k :: 0 <= k < |ns| && ns[k].card.id == y) <==>
            y in shown && forall a :: a in shown && a in closed ==> !Ancestor(p, a, y)
  {
    var f := DisplayForest(p, byId, shown, kids, roots);
    EveryOpenItemHasOneCard(f, closed);
    if y in shown {
      forall a ensures Ancestor(f.dp, a, y) <==> a in shown && Ancestor(p, a, y) {
        if a in shown { ContractionKeepsAncestors(p, shown, a, y); }
        else if Ancestor(f.dp, a, y) {
          var k: nat :| k >= 1 && Up(f.dp, y, k) == Some(a);
          ClimbLowersHeight(f, y, k);
        }
      }
    }
  }

  // ---- Told from the stored items ----

  /** Item i of the source is x, and the map is filtered to a scope it belongs to. */
  ghost predicate ShownAt(source: seq<MapItem>, scope: Option<Scope>, i: int, x: Id) {
    0 <= i < |source| && source[i].id == x && (scope.Some? ==> source[i].scope == scope.value)
  }

  lemma {:induction false} ShownIsInScope(source: seq<MapItem>, scope: Option<Scope>, x: Id)
    ensures x in ShownIds(source, scope) <==> exists i :: ShownAt(source, scope, i, x)
  {
    if x in ShownIds(source, scope) {
      var m :| m in Matched(source, scope) && m.id == x;
      var i :| 0 <= i < |source| && source[i] == m;
      assert ShownAt(source, scope, i, x);
    }
    if i :| ShownAt(source, scope, i, x) { assert source[i] in Matched(source, scope); }
  }

  lemma {:induction false} RowIs(source: seq<MapItem>, i: nat)
    requires UniqueIds(source) && i < |source|
    ensures source[i].id in Rows(source) && Rows(source)[source[i].id] == source[i]
  {
    assert source[i] in source;
    var m := Rows(source)[source[i].id];
    var j :| 0 <= j < |source| && source[j] == m;
    assert i == j;
  }

  /** Item i is x and names item j, which is a, as its parent. */
  ghost predicate SaysUnder(source: seq<MapItem>, i: int, j: int, x: Id, a: Id) {
    0 <= i < |source| && 0 <= j < |source| && source[i].id == x && source[j].id == a && source[i].parentId == Some(a)
  }

  /** The links are those the stored items give as their parent, where the parent is stored too. */
  lemma {:induction false} LinkIsStored(source: seq<MapItem>, x: Id, a: Id)
    requires UniqueIds(source)
    ensures (x in Links(Rows(source)) && Links(Rows(source))[x] == a) <==> exists i, j :: SaysUnder(source, i, j, x, a)
  {
    if x in Links(Rows(source)) && Links(Rows(source))[x] == a {
      var i :| 0 <= i < |source| && source[i] == Rows(source)[x];
      var j :| 0 <= j < |source| && source[j] == Rows(source)[a];
      assert SaysUnder(source, i, j, x, a);
    }
    if i, j :| SaysUnder(source, i, j, x, a) {
      RowIs(source, i);
      RowIs(source, j);
    }
  }

  /** Filtering keeps the order items are stored in. */
  lemma {:induction false} MatchedKeepsOrder(source: seq<MapItem>, scope: Option<Scope>, k: nat, l: nat)
    returns (i: nat, j: nat)
    requires k < l < |Matched(source, scope)|
    ensures i < j < |source| && source[i] == Matched(source, scope)[k] && source[j] == Matched(source, scope)[l]
  {
    var rest := Matched(source[1..], scope);
    if !InScope(source[0], scope) {
      i, j := MatchedKeepsOrder(source[1..], scope, k, l);
      i, j := i + 1, j + 1;
    } else if k == 0 {
      assert rest[l - 1] in rest;
      i := 0;
      j :| 1 <= j < |source| && source[j] == rest[l - 1];
    } else {
      i, j := MatchedKeepsOrder(source[1..], scope, k - 1, l - 1);
      i, j := i + 1, j + 1;
    }
  }

  /** a is shown to the left of b: the smaller stored position first, none counting as the largest safe integer, and
      at equal positions the item stored first. */
  ghost predicate ShownLeftOf(source: seq<MapItem>, a: Id, b: Id) {
    exists i, j :: LeftAt(source, i, j, a, b)
  }

  ghost predicate LeftAt(source: seq<MapItem>, i: int, j: int, a: Id, b: Id) {
    && 0 <= i < |source| && 0 <= j < |source| && source[i].id == a && source[j].id == b
    && var p := match source[i].position case Some(v) => v case None => 9007199254740991;
       var q := match source[j].position case Some(v) => v case None => 9007199254740991;
       p < q || (p == q && i < j)
  }

  /** The reading order of two shown items is the order they are stored in. */
  lemma {:induction false} IndexIsOrder(source: seq<MapItem>, scope: Option<Scope>, index: map<Id, nat>, a: Id, b: Id)
    returns (i: nat, j: nat)
    requires Indexes(index, Matched(source, scope), |Matched(source, scope)|)
    requires a in ShownIds(source, scope) && b in ShownIds(source, scope) && a != b
    ensures i < |source| && j < |source| && source[i].id == a && source[j].id == b
    ensures a in index && b in index && index[a] != index[b] && (index[a] < index[b] <==> i < j)
  {
    var ms := Matched(source, scope);
    var k :| 0 <= k < |ms| && ms[k].id == a;
    var l :| 0 <= l < |ms| && ms[l].id == b;
    if k < l { i, j := MatchedKeepsOrder(source, scope, k, l); }
    else { j, i := MatchedKeepsOrder(source, scope, l, k); }
  }

  lemma {:induction false} PlacedIsShownLeft(source: seq<MapItem>, scope: Option<Scope>, index: map<Id, nat>, a: Id,
      b: Id) returns (i: nat, j: nat)
    requires UniqueIds(source) && Indexes(index, Matched(source, scope), |Matched(source, scope)|)
    requires a in ShownIds(source, scope) && b in ShownIds(source, scope) && a != b
    ensures i < |source| && j < |source| && source[i].id == a && source[j].id == b
    ensures AtMost(PlaceOf(Rows(source), index)(a), PlaceOf(Rows(source), index)(b)) ==> LeftAt(source, i, j, a, b)
    ensures PlaceOf(Rows(source), index)(a).order < PlaceOf(Rows(source), index)(b).order <==> i < j
  {
    i, j := IndexIsOrder(source, scope, index, a, b);
    RowIs(source, i);
    RowIs(source, j);
  }

  /** In the tree that is built, siblings stand in the order of their stored positions. */
  lemma {:induction false} SiblingsStandInOrder(source: seq<MapItem>, scope: Option<Scope>, kids: Kids,
      roots: seq<Id>, index: map<Id, nat>, x: Id, k: nat, l: nat)
    requires UniqueIds(source) && x in kids && k < l < |kids[x]|
    requires Arranges(kids, roots, DisplayLinks(Links(Rows(source)), ShownIds(source, scope)), ShownIds(source, scope))
    requires Indexes(index, Matched(source, scope), |Matched(source, scope)|)
    requires forall y :: y in kids ==> Sorted(kids[y], PlaceOf(Rows(source), index))
    ensures ShownLeftOf(source, kids[x][k], kids[x][l])
  {
    assert kids[x][k] in kids[x] && kids[x][l] in kids[x];
    var i, j := PlacedIsShownLeft(source, scope, index, kids[x][k], kids[x][l]);
    assert LeftAt(source, i, j, kids[x][k], kids[x][l]);
  }

  /** Item i has a parent, and nothing above it is shown. */
  ghost predicate HangsUnderHidden(source: seq<MapItem>, shown: set<Id>, i: int)
    requires 0 <= i < |source|
  {
    source[i].parentId.Some? && NoneShownAbove(Links(Rows(source)), shown, source[i].id)
  }

  ghost predicate RootLeftAt(source: seq<MapItem>, shown: set<Id>, i: int, j: int, a: Id, b: Id) {
    && 0 <= i < |source| && 0 <= j < |source| && source[i].id == a && source[j].id == b
    && if HangsUnderHidden(source, shown, i) || HangsUnderHidden(source, shown, j) then i < j
       else LeftAt(source, i, j, a, b)
  }

  lemma {:induction false} PromotedIs(source: seq<MapItem>, shown: set<Id>, parents: Parents, index: map<Id, nat>,
      i: nat)
    requires UniqueIds(source) && i < |source| && source[i].id in shown
    requires parents == DisplayLinks(Links(Rows(source)), shown)
    ensures source[i].id in RankingOf(source, parents, index).promoted <==> HangsUnderHidden(source, shown, i)
  {
    RowIs(source, i);
  }

  lemma {:induction false} RankedIsLeft(source: seq<MapItem>, scope: Option<Scope>, parents: Parents,
      index: map<Id, nat>, a: Id, b: Id) returns (i: nat, j: nat)
    requires UniqueIds(source) && Indexes(index, Matched(source, scope), |Matched(source, scope)|)
    requires parents == DisplayLinks(Links(Rows(source)), ShownIds(source, scope))
    requires a in ShownIds(source, scope) && b in ShownIds(source, scope) && a != b
    requires Before(RankingOf(source, parents, index), a, b)
    ensures RootLeftAt(source, ShownIds(source, scope), i, j, a, b)
  {
    i, j := PlacedIsShownLeft(source, scope, index, a, b);
    PromotedIs(source, ShownIds(source, scope), parents, index, i);
    PromotedIs(source, ShownIds(source, scope), parents, index, j);
  }

  /** Roots stand in the order of their stored positions; one whose parent is hidden stands by the order items are
      stored in. That holds exactly when it can: see RootOrder.RootsAreOrderedUnless. */
  lemma {:induction false} RootsStandInOrder(source: seq<MapItem>, scope: Option<Scope>, kids: Kids,
      roots: seq<Id>, parents: Parents, index: map<Id, nat>, k: nat, l: nat) returns (i: nat, j: nat)
    requires UniqueIds(source) && k < l < |roots|
    requires parents == DisplayLinks(Links(Rows(source)), ShownIds(source, scope))
    requires Arranges(kids, roots, parents, ShownIds(source, scope))
    requires Indexes(index, Matched(source, scope), |Matched(source, scope)|)
    requires Ranked(RankingOf(source, parents, index), roots)
    ensures RootLeftAt(source, ShownIds(source, scope), i, j, roots[k], roots[l])
  {
    assert roots[k] in roots && roots[l] in roots;
    i, j := RankedIsLeft(source, scope, parents, index, roots[k], roots[l]);
  }

  // ---- The size of each card ----

  /** Goals of every kind are drawn 184 wide, everything else 136. */
  ghost function WidthFor(byId: ById): Id -> nat {
    (x: Id) => if x in byId && (byId[x].kind == InitiativeItem || byId[x].kind == Action) then 136 else 184
  }

  lemma {:induction false} UnfoldIsSized(f: Forest, closed: set<Id>, x: Id)
    requires f.Valid() && x in f.height
    ensures TreeLayout.Sized(DrawnItem(f, closed, x), WidthFor(f.byId), 62)
    decreases f.bound - f.height[x]
  {
    var kids, h := OpenKids(f, closed, x), f.height[x] + 1;
    DrawnItemParts(f, closed, x);
    var ts := DrawnRow(f, closed, kids, h);
    forall t | t in ts ensures TreeLayout.Sized(t, WidthFor(f.byId), 62) {
      var k :| 0 <= k < |ts| && ts[k] == t;
      UnfoldIsSized(f, closed, kids[k]);
    }
  }

  /** Every card is 62 high, and 184 wide for an outcome, an idea, a goal or a milestone, 136 wide otherwise. */
  lemma {:induction false} CardsAreSized(f: Forest, closed: set<Id>, k: nat)
    requires f.Valid() && k < |MapNodes(UnfoldRoots(f), closed)|
    ensures var c := MapNodes(UnfoldRoots(f), closed)[k].card;
            c.height == 62 && c.width == WidthFor(f.byId)(c.id)
  {
    RootsAreAtTop(f);
    var ts := DrawnRow(f, closed, f.roots, 0);
    forall t | t in ts ensures TreeLayout.Sized(t, WidthFor(f.byId), 62) {
      var i :| 0 <= i < |ts| && ts[i] == t;
      UnfoldIsSized(f, closed, f.roots[i]);
    }
    TreeLayout.RowKeepsSizes(ts, 0, 0, 0, GAP, WidthFor(f.byId), 62);
    var cs := TreeLayout.RowCards(ts, 0, 0, 0, GAP);
    assert cs[k] in cs;
  }
}
