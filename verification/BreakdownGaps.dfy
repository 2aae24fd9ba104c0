// Where a plan is not finished: goals with nothing under them, goals broken
// down only into more goals, and waits on things that are gone.
module BreakdownGaps {
  import opened Basics
  import opened Traversal
  import opened Ordering
  import opened Breakdown
  import opened BreakdownTree

  const GOALISH: set<string> := {"outcome", "initiative", "milestone", "idea"}
  const ACTION := "action"
  const DEPENDS_ON := "depends_on"

  predicate IsAction(items: map<Id, Item>, x: Id) {
    x in items && items[x].kind == ACTION
  }

  /** An action lies below x, however deep. */
  ghost predicate HasActionBelow(s: Structure, x: Id) {
    exists y, k: nat :: k >= 1 && Reaches(LiveGraph(s), x, y, k) && IsAction(s.items, y)
  }

  // ---- The search ----

  ghost predicate IsBelow(s: Structure, x: Id, y: Id) {
    y in s.items && exists k: nat :: Reaches(LiveGraph(s), x, y, k)
  }

  ghost predicate AllBelow(s: Structure, x: Id, ys: seq<Id>) {
    forall i {:trigger ys[i]} :: 0 <= i < |ys| ==> IsBelow(s, x, ys[i])
  }

  /** Items looked at have no action directly below them, and their children are looked at or waiting. */
  ghost predicate Searched(s: Structure, seen: set<Id>, todo: seq<Id>) {
    forall z, c {:trigger c in LiveChildren(s, z)} :: z in seen && c in LiveChildren(s, z) ==>
      !IsAction(s.items, c) && (c in seen || c in todo)
  }

  ghost predicate NoActionIn(s: Structure, kids: seq<Id>) {
    forall c {:trigger c in kids} :: c in kids ==> !IsAction(s.items, c)
  }

  lemma {:induction false} NothingBelowSearched(s: Structure, x: Id, seen: set<Id>, y: Id, k: nat)
    requires x in seen && seen <= s.items.Keys && Searched(s, seen, []) && Reaches(LiveGraph(s), x, y, k)
    ensures y in seen && (k >= 1 ==> !IsAction(s.items, y))
    decreases k
  {
    if k > 0 {
      var z :| z in LiveGraph(s) && y in LiveGraph(s)[z] && Reaches(LiveGraph(s), x, z, k - 1);
      NothingBelowSearched(s, x, seen, z, k - 1);
      assert y in LiveChildren(s, z);
    }
  }

  lemma {:induction false} ChildIsBelow(s: Structure, x: Id, z: Id, c: Id)
    requires IsBelow(s, x, z) && c in LiveChildren(s, z)
    ensures IsBelow(s, x, c) && exists k: nat :: k >= 1 && Reaches(LiveGraph(s), x, c, k)
  {
    var k: nat :| Reaches(LiveGraph(s), x, z, k);
    assert c in LiveGraph(s)[z];
    assert Reaches(LiveGraph(s), x, c, k + 1);
  }

  lemma {:induction false} ChildrenAreBelow(s: Structure, x: Id, node: Id, rest: seq<Id>)
    requires AllBelow(s, x, rest) && IsBelow(s, x, node)
    ensures AllBelow(s, x, rest + LiveChildren(s, node))
  {
    var kids := LiveChildren(s, node);
    forall i | 0 <= i < |kids| ensures IsBelow(s, x, kids[i]) { ChildIsBelow(s, x, node, kids[i]); }
  }

  lemma {:induction false} LookedAt(s: Structure, seen: set<Id>, rest: seq<Id>, node: Id)
    requires Searched(s, seen, rest + [node]) && NoActionIn(s, LiveChildren(s, node))
    ensures Searched(s, seen + {node}, rest + LiveChildren(s, node))
  {
  }

  /** Depth-first; ends on any edges because no item is looked at twice. */
  method ReachesAnAction(s: Structure, x: Id) returns (found: bool)
    requires x in s.items
    ensures found <==> HasActionBelow(s, x)
  {
    var todo := [x];
    var seen: set<Id> := {};
    assert Reaches(LiveGraph(s), x, x, 0);
    while todo != []
      invariant seen <= s.items.Keys
      invariant x in seen || x in todo
      invariant AllBelow(s, x, todo)
      invariant Searched(s, seen, todo)
      decreases s.items.Keys - seen, |todo|
    {
      var node := todo[|todo| - 1];
      ghost var rest := todo[..|todo| - 1];
      assert todo == rest + [node];
      assert IsBelow(s, x, node);
      todo := todo[..|todo| - 1];
      if node in seen { continue; }
      seen := seen + {node};
      var kids := LiveChildren(s, node);
      for i := 0 to |kids|
        invariant todo == rest + kids[..i]
        invariant NoActionIn(s, kids[..i])
      {
        if IsAction(s.items, kids[i]) {
          ChildIsBelow(s, x, node, kids[i]);
          return true;
        }
        todo := todo + [kids[i]];
        assert kids[..i + 1] == kids[..i] + [kids[i]];
      }
      assert kids[..|kids|] == kids;
      ChildrenAreBelow(s, x, node, rest);
      LookedAt(s, seen - {node}, rest, node);
      assert (seen - {node}) + {node} == seen;
    }
    forall y, k: nat | k >= 1 && Reaches(LiveGraph(s), x, y, k) ensures !IsAction(s.items, y) {
      NothingBelowSearched(s, x, seen, y, k);
    }
    return false;
  }

  // ---- The report ----

  datatype GapKind = NotBrokenDown | NoActionBeneath | DanglingDependency(target: Id)

  datatype Gap = Gap(item: Id, kind: GapKind)

  predicate IsGoal(s: Structure, x: Id) {
    Live(s.items, x) && s.items[x].kind in GOALISH
  }

  predicate IsNotBrokenDown(s: Structure, x: Id) {
    IsGoal(s, x) && LiveChildren(s, x) == []
  }

  ghost predicate HasNoActionBeneath(s: Structure, x: Id) {
    IsGoal(s, x) && LiveChildren(s, x) != [] && !HasActionBelow(s, x)
  }

  ghost predicate Dangles(s: Structure, x: Id, target: Id) {
    && Live(s.items, x) && !Live(s.items, target)
    && exists i :: 0 <= i < |s.other| && DependsOn(s.other[i], x, target)
  }

  predicate DependsOn(r: Relation, x: Id, target: Id) {
    r.kind == DEPENDS_ON && r.source == x && r.target == target
  }

  ghost predicate ShouldReport(s: Structure, gap: Gap) {
    match gap.kind
    case NotBrokenDown => IsNotBrokenDown(s, gap.item)
    case NoActionBeneath => HasNoActionBeneath(s, gap.item)
    case DanglingDependency(t) => Dangles(s, gap.item, t)
  }

  /** The dependencies of x that lead to nothing, in stored order. */
  method DanglingFrom(s: Structure, x: Id) returns (found: seq<Gap>)
    requires Live(s.items, x)
    ensures forall gap :: gap in found <==> gap.item == x && gap.kind.DanglingDependency? && ShouldReport(s, gap)
  {
    found := [];
    for i := 0 to |s.other|
      invariant forall gap :: gap in found <==>
                  && gap.item == x && gap.kind.DanglingDependency? && !Live(s.items, gap.kind.target)
                  && exists j :: 0 <= j < i && DependsOn(s.other[j], x, gap.kind.target)
    {
      var r := s.other[i];
      if r.kind == DEPENDS_ON && r.source == x && !Live(s.items, r.target) {
        found := found + [Gap(x, DanglingDependency(r.target))];
      }
    }
  }

  /** The gaps of one item. */
  method GapsOf(s: Structure, x: Id) returns (found: seq<Gap>)
    requires Live(s.items, x)
    ensures forall gap :: gap in found <==> gap.item == x && ShouldReport(s, gap)
  {
    var goal: seq<Gap> := [];
    var kids := LiveChildren(s, x);
    if s.items[x].kind in GOALISH {
      if kids == [] {
        goal := [Gap(x, NotBrokenDown)];
      } else {
        var reaches := ReachesAnAction(s, x);
        if !reaches { goal := [Gap(x, NoActionBeneath)]; }
      }
    }
    var dangling := DanglingFrom(s, x);
    found := goal + dangling;
  }

  // ---- The gaps, told from the stored items and relations ----

  ghost predicate Stored(items: seq<Item>, x: Id) {
    exists i :: 0 <= i < |items| && items[i].id == x && !items[i].archived
  }

  ghost predicate StoredGoal(items: seq<Item>, x: Id) {
    exists i :: 0 <= i < |items| && items[i].id == x && !items[i].archived &&
      (items[i].kind == "outcome" || items[i].kind == "initiative" || items[i].kind == "milestone" ||
       items[i].kind == "idea")
  }

  ghost predicate StoredAction(items: seq<Item>, x: Id) {
    exists i :: 0 <= i < |items| && items[i].id == x && !items[i].archived && items[i].kind == "action"
  }

  ghost predicate Related(rs: seq<Relation>, kind: string, x: Id, y: Id) {
    exists i :: 0 <= i < |rs| && rs[i].kind == kind && rs[i].source == x && rs[i].target == y
  }

  lemma {:induction false} OthersMember(rs: seq<Relation>, n: nat, r: Relation)
    requires n <= |rs|
    ensures r in Others(rs, n) <==> exists i :: 0 <= i < n && rs[i] == r && r.kind != PART_OF
  {
    if n > 0 { OthersMember(rs, n - 1, r); }
  }

  lemma {:induction false} WaitsInRelations(s: Structure, items: seq<Item>, rs: seq<Relation>, x: Id, y: Id)
    requires IsStructure(s, items, rs)
    ensures (exists i :: 0 <= i < |s.other| && DependsOn(s.other[i], x, y)) <==> Related(rs, "depends_on", x, y)
  {
    if i :| 0 <= i < |s.other| && DependsOn(s.other[i], x, y) {
      OthersMember(rs, |rs|, s.other[i]);
    }
    if i :| 0 <= i < |rs| && rs[i].kind == "depends_on" && rs[i].source == x && rs[i].target == y {
      OthersMember(rs, |rs|, rs[i]);
      var j :| 0 <= j < |s.other| && s.other[j] == rs[i];
      assert DependsOn(s.other[j], x, y);
    }
  }

  lemma {:induction false} LiveIsStored(s: Structure, items: seq<Item>, rs: seq<Relation>, x: Id)
    requires IsStructure(s, items, rs)
    ensures Live(s.items, x) <==> Stored(items, x)
    ensures IsGoal(s, x) <==> StoredGoal(items, x)
  {
  }

  lemma {:induction false} ReachedIsLive(s: Structure, x: Id, z: Id, k: nat)
    requires k >= 1 && Reaches(LiveGraph(s), x, z, k)
    ensures Live(s.items, z)
  {
    var y :| y in LiveGraph(s) && z in LiveGraph(s)[y] && Reaches(LiveGraph(s), x, y, k - 1);
    assert z in LiveChildren(s, y);
  }

  /** Below means along part_of relations from unarchived items: see LiveChildIsRelated. */
  ghost predicate ActionStoredBelow(s: Structure, items: seq<Item>, x: Id) {
    exists z, k: nat :: k >= 1 && Reaches(LiveGraph(s), x, z, k) && StoredAction(items, z)
  }

  lemma {:induction false} ActionBelowIsStored(s: Structure, items: seq<Item>, rs: seq<Relation>, x: Id)
    requires IsStructure(s, items, rs)
    ensures HasActionBelow(s, x) <==> ActionStoredBelow(s, items, x)
  {
    forall z, k: nat | k >= 1 && Reaches(LiveGraph(s), x, z, k)
      ensures IsAction(s.items, z) <==> StoredAction(items, z)
    {
      ReachedIsLive(s, x, z, k);
    }
  }

  /** On any plan an item is read under x exactly when it is unarchived and a part_of relation leads from it to x. */
  lemma {:induction false} LiveChildIsRelated(s: Structure, items: seq<Item>, rs: seq<Relation>, x: Id, c: Id)
    requires IsStructure(s, items, rs)
    ensures c in LiveChildren(s, x) <==> Stored(items, c) && Related(rs, "part_of", c, x)
  {
    LiveIsStored(s, items, rs, c);
    LiveChildrenInRelations(s, items, rs, x, c);
    if i :| PartOfAt(rs, i, c, x) { assert rs[i].kind == "part_of" && rs[i].source == c; }
    if i :| 0 <= i < |rs| && rs[i].kind == "part_of" && rs[i].source == c && rs[i].target == x {
      assert PartOfAt(rs, i, c, x);
    }
  }

  ghost predicate ChildStored(items: seq<Item>, rs: seq<Relation>, x: Id) {
    exists c :: Stored(items, c) && Related(rs, "part_of", c, x)
  }

  /** What is reported: an unarchived goal into which no part_of relation leads from an unarchived item; one into
      which some do, but below which no action lies; and an unarchived item's wait for something not stored or
      archived. */
  lemma {:induction false} GapsInRelations(s: Structure, items: seq<Item>, rs: seq<Relation>, x: Id, y: Id)
    requires IsStructure(s, items, rs)
    ensures ShouldReport(s, Gap(x, NotBrokenDown)) <==> StoredGoal(items, x) && !ChildStored(items, rs, x)
    ensures ShouldReport(s, Gap(x, NoActionBeneath)) <==>
            StoredGoal(items, x) && ChildStored(items, rs, x) && !ActionStoredBelow(s, items, x)
    ensures ShouldReport(s, Gap(x, DanglingDependency(y))) <==>
            Stored(items, x) && Related(rs, "depends_on", x, y) && !Stored(items, y)
  {
    LiveIsStored(s, items, rs, x);
    LiveIsStored(s, items, rs, y);
    forall c { LiveChildIsRelated(s, items, rs, x, c); }
    if LiveChildren(s, x) != [] { assert LiveChildren(s, x)[0] in LiveChildren(s, x); }
    ActionBelowIsStored(s, items, rs, x);
    WaitsInRelations(s, items, rs, x, y);
  }

  /** What kind of gap it is called. */
  function NameOf(kind: GapKind): string {
    match kind
    case NotBrokenDown => "not_broken_down"
    case NoActionBeneath => "no_action_beneath"
    case DanglingDependency(_) => "dangling_dependency"
  }

  /** Which of the three names comes first, letter by letter. */
  function RankOf(kind: GapKind): int {
    match kind case DanglingDependency(_) => 0 case NoActionBeneath => 1 case NotBrokenDown => 2
  }

  lemma {:induction false} LetterDecides(a: string, b: string)
    requires a != "" && b != "" && a[0] < b[0]
    ensures StringAtMost(a, b) && !StringAtMost(b, a)
  {
  }

  lemma {:induction false} ThirdLetterDecides(a: string, b: string)
    requires |a| > 2 && |b| > 2 && a[0] == b[0] && a[1] == b[1] && a[2] < b[2]
    ensures StringAtMost(a, b) && !StringAtMost(b, a)
  {
    LetterDecides(a[1..][1..], b[1..][1..]);
    assert a[1..][0] == b[1..][0];
  }

  lemma {:induction false} RankIsByName(a: GapKind, b: GapKind)
    ensures StringAtMost(NameOf(a), NameOf(b)) <==> RankOf(a) <= RankOf(b)
  {
    var p, q := NameOf(a), NameOf(b);
    if RankOf(a) == RankOf(b) { StringOrder(p, p, p); }
    else if RankOf(a) == 0 { LetterDecides(p, q); }
    else if RankOf(b) == 0 { LetterDecides(q, p); }
    else if RankOf(a) == 1 { ThirdLetterDecides(p, q); }
    else { ThirdLetterDecides(q, p); }
  }

  function InReport(gap: Gap): Placement {
    Placement(RankOf(gap.kind), 0, gap.item)
  }

  /** a stands before b in a report: by the names of their kinds, then by item id. */
  ghost predicate StandsBefore(a: Gap, b: Gap) {
    StringAtMost(NameOf(a.kind), NameOf(b.kind)) && (NameOf(a.kind) == NameOf(b.kind) ==> StringAtMost(a.item, b.item))
  }

  lemma {:induction false} SortedReport(found: seq<Gap>, i: nat, j: nat)
    requires Sorted(found, InReport) && i < j < |found|
    ensures StandsBefore(found[i], found[j])
  {
    var a, b := found[i], found[j];
    assert AtMost(InReport(a), InReport(b));
    RankIsByName(a.kind, b.kind);
    RankIsByName(b.kind, a.kind);
  }

  /** The report names exactly the gaps there are, in order. */
  method Gaps(s: Structure) returns (found: seq<Gap>)
    ensures forall gap :: gap in found <==> ShouldReport(s, gap)
    ensures forall i, j :: 0 <= i < j < |found| ==> StandsBefore(found[i], found[j])
  {
    var unsorted := AllGaps(s);
    found := SortBy(unsorted, InReport);
    forall gap ensures gap in found <==> gap in unsorted {
      assert gap in multiset(found) <==> gap in multiset(unsorted);
    }
    forall i, j | 0 <= i < j < |found| ensures StandsBefore(found[i], found[j]) { SortedReport(found, i, j); }
  }

  method AllGaps(s: Structure) returns (found: seq<Gap>)
    ensures forall gap :: gap in found <==> ShouldReport(s, gap)
  {
    found := [];
    var todo := s.items.Keys;
    while todo != {}
      invariant todo <= s.items.Keys
      invariant forall gap :: gap in found <==> gap.item in s.items && gap.item !in todo && ShouldReport(s, gap)
      decreases |todo|
    {
      var x :| x in todo;
      todo := todo - {x};
      if s.items[x].archived { continue; }
      var more := GapsOf(s, x);
      found := found + more;
    }
  }

  // ---- What the report means ----

  /** No item is below itself. */
  ghost predicate NoLoops(s: Structure) {
    forall x, k: nat :: k >= 1 ==> !Reaches(LiveGraph(s), x, x, k)
  }

  /** Every item is an action or a goal of one of the four kinds. */
  ghost predicate FiveKinds(s: Structure) {
    forall x :: x in s.items ==> s.items[x].kind == ACTION || s.items[x].kind in GOALISH
  }

  lemma {:induction false} ReachAdd(g: Graph, x: Id, y: Id, z: Id, i: nat, j: nat)
    requires Reaches(g, x, y, i) && Reaches(g, y, z, j)
    ensures Reaches(g, x, z, i + j)
    decreases j
  {
    if j > 0 {
      var w :| w in g && z in g[w] && Reaches(g, y, w, j - 1);
      ReachAdd(g, x, y, w, i, j - 1);
    }
  }

  ghost predicate LeadTo(s: Structure, passed: set<Id>, at: Id) {
    forall a {:trigger a in passed} :: a in passed ==> StrictlyAbove(s, a, at)
  }

  ghost predicate StrictlyAbove(s: Structure, a: Id, at: Id) {
    exists i: nat :: i >= 1 && Reaches(LiveGraph(s), a, at, i)
  }

  lemma {:induction false} OneStep(s: Structure, at: Id, c: Id)
    requires at in s.items && c in LiveChildren(s, at)
    ensures Reaches(LiveGraph(s), at, c, 1)
  {
    assert c in LiveGraph(s)[at] && Reaches(LiveGraph(s), at, at, 0);
  }

  lemma {:induction false} PassedLeadsOn(s: Structure, passed: set<Id>, at: Id, c: Id)
    requires LeadTo(s, passed, at) && at in s.items && c in LiveChildren(s, at)
    ensures LeadTo(s, passed + {at}, c)
  {
    OneStep(s, at, c);
    forall a | a in passed + {at} ensures StrictlyAbove(s, a, c) {
      if a in passed {
        var i: nat :| i >= 1 && Reaches(LiveGraph(s), a, at, i);
        ReachAdd(LiveGraph(s), a, at, c, i, 1);
      }
    }
  }

  /** x reaches no cycle: nothing at or below it is below itself. */
  ghost predicate Settled(s: Structure, x: Id) {
    forall y, i: nat, k: nat {:trigger Reaches(LiveGraph(s), x, y, i), Reaches(LiveGraph(s), y, y, k)} ::
      k >= 1 && Reaches(LiveGraph(s), x, y, i) ==> !Reaches(LiveGraph(s), y, y, k)
  }

  lemma {:induction false} SettledBelow(s: Structure, x: Id, y: Id, n: nat)
    requires Settled(s, x) && Reaches(LiveGraph(s), x, y, n)
    ensures Settled(s, y)
  {
    forall z, i: nat, k: nat | k >= 1 && Reaches(LiveGraph(s), y, z, i) ensures !Reaches(LiveGraph(s), z, z, k) {
      ReachAdd(LiveGraph(s), x, y, z, n, i);
    }
  }

  /** A goal no action lies below. */
  ghost predicate Unstarted(s: Structure, x: Id) {
    IsGoal(s, x) && !HasActionBelow(s, x)
  }

  /** Everything below an unstarted goal is one too. */
  lemma {:induction false} UnstartedBelow(s: Structure, x: Id, y: Id, n: nat)
    requires FiveKinds(s) && Unstarted(s, x) && Reaches(LiveGraph(s), x, y, n)
    ensures Unstarted(s, y)
  {
    forall z, k: nat | k >= 1 && Reaches(LiveGraph(s), y, z, k) ensures !IsAction(s.items, z) {
      ReachAdd(LiveGraph(s), x, y, z, n, k);
    }
    if n > 0 {
      var z :| z in LiveGraph(s) && y in LiveGraph(s)[z] && Reaches(LiveGraph(s), x, z, n - 1);
      assert y in LiveChildren(s, z) && Live(s.items, y);
    }
  }

  /** Walking down from an unstarted goal that reaches no cycle, away from `passed`, ends at a goal with nothing
      under it. */
  lemma {:induction false} DescentEnds(s: Structure, at: Id, passed: set<Id>) returns (y: Id, k: nat)
    requires FiveKinds(s) && Unstarted(s, at) && Settled(s, at)
    requires passed <= s.items.Keys && LeadTo(s, passed, at)
    ensures Reaches(LiveGraph(s), at, y, k) && IsNotBrokenDown(s, y)
    decreases s.items.Keys - passed
  {
    assert Reaches(LiveGraph(s), at, at, 0);
    assert at !in passed by {
      assert !StrictlyAbove(s, at, at);
    }
    if LiveChildren(s, at) == [] { return at, 0; }
    var c := LiveChildren(s, at)[0];
    OneStep(s, at, c);
    PassedLeadsOn(s, passed, at, c);
    UnstartedBelow(s, at, c, 1);
    SettledBelow(s, at, c, 1);
    y, k := DescentEnds(s, c, passed + {at});
    ReachAdd(LiveGraph(s), at, c, y, 1, k);
    k := 1 + k;
  }

  lemma {:induction false} EmptyIsSettled(s: Structure, y: Id)
    requires IsNotBrokenDown(s, y)
    ensures Settled(s, y) && !HasActionBelow(s, y)
  {
    forall z, i: nat | Reaches(LiveGraph(s), y, z, i) ensures i == 0 {
      if i > 0 { FirstStep(s, y, z, i); }
    }
  }

  /** z is x or lies below it. */
  ghost predicate AtOrBelow(s: Structure, x: Id, z: Id) {
    exists i: nat :: Reaches(LiveGraph(s), x, z, i)
  }

  /** On any plan of the five kinds, a goal no action lies below has an empty goal at or below it exactly when
      something at or below it reaches no cycle. */
  lemma {:induction false} EmptyGoalExactlyWhenSettled(s: Structure, x: Id)
    requires FiveKinds(s) && Unstarted(s, x)
    ensures (exists y :: AtOrBelow(s, x, y) && IsNotBrokenDown(s, y)) <==>
              (exists z :: AtOrBelow(s, x, z) && Settled(s, z))
  {
    if y :| AtOrBelow(s, x, y) && IsNotBrokenDown(s, y) { EmptyIsSettled(s, y); }
    if z :| AtOrBelow(s, x, z) && Settled(s, z) {
      var i: nat :| Reaches(LiveGraph(s), x, z, i);
      UnstartedBelow(s, x, z, i);
      var y, k := DescentEnds(s, z, {});
      ReachAdd(LiveGraph(s), x, z, y, i, k);
      assert AtOrBelow(s, x, y);
    }
  }

  /** On an acyclic plan of the five kinds, what is broken down but leads to no action
      has, somewhere below it, a live goal with nothing under it. */
  lemma {:induction false} UnstartablePlansHaveAnEmptyGoal(s: Structure, x: Id) returns (y: Id, k: nat)
    requires NoLoops(s) && FiveKinds(s) && HasNoActionBeneath(s, x)
    ensures k >= 1 && Reaches(LiveGraph(s), x, y, k) && IsNotBrokenDown(s, y)
  {
    y, k := DescentEnds(s, x, {});
  }

  ghost predicate NoneIsEmpty(s: Structure) {
    forall x :: !IsNotBrokenDown(s, x)
  }

  ghost predicate Startable(s: Structure) {
    forall x :: IsGoal(s, x) ==> HasActionBelow(s, x)
  }

  /** Neither gap is reported exactly when every live goal reaches an action. */
  lemma {:induction false} NoGapMeansStartable(s: Structure)
    ensures NoneIsEmpty(s) && (forall x :: !HasNoActionBeneath(s, x)) <==> Startable(s)
  {
    forall x | IsNotBrokenDown(s, x) ensures !HasActionBelow(s, x) {
      if HasActionBelow(s, x) {
        var y, k: nat :| k >= 1 && Reaches(LiveGraph(s), x, y, k) && IsAction(s.items, y);
        FirstStep(s, x, y, k);
      }
    }
    if NoneIsEmpty(s) && (forall x :: !HasNoActionBeneath(s, x)) {
      forall x | IsGoal(s, x) ensures HasActionBelow(s, x) {
        assert !IsNotBrokenDown(s, x) && !HasNoActionBeneath(s, x);
      }
    }
  }

  /** Something at or below an unstarted goal reaches no cycle. */
  ghost predicate SomethingSettles(s: Structure) {
    exists x, z :: Unstarted(s, x) && AtOrBelow(s, x, z) && Settled(s, z)
  }

  /** On any plan of the five kinds, "no goal is empty" tells whether every goal can be started exactly when every goal
      can be, or something at or below one that cannot reaches no cycle: only cycles everywhere hide the gap. */
  lemma {:induction false} EmptyGoalsTellAll(s: Structure)
    requires FiveKinds(s)
    ensures (NoneIsEmpty(s) <==> Startable(s)) <==> (Startable(s) || SomethingSettles(s))
    ensures NoLoops(s) ==> (NoneIsEmpty(s) <==> Startable(s))
  {
    NoGapMeansStartable(s);
    if x, z :| Unstarted(s, x) && AtOrBelow(s, x, z) && Settled(s, z) { EmptyGoalExactlyWhenSettled(s, x); }
    if y :| IsNotBrokenDown(s, y) {
      EmptyIsSettled(s, y);
      assert Reaches(LiveGraph(s), y, y, 0);
      assert Unstarted(s, y) && AtOrBelow(s, y, y);
    }
    if NoLoops(s) && !Startable(s) {
      var x :| IsGoal(s, x) && !HasActionBelow(s, x);
      assert Reaches(LiveGraph(s), x, x, 0);
      assert Unstarted(s, x) && AtOrBelow(s, x, x) && Settled(s, x);
    }
  }

  lemma {:induction false} FirstStep(s: Structure, x: Id, y: Id, k: nat)
    requires k >= 1 && Reaches(LiveGraph(s), x, y, k)
    ensures LiveChildren(s, x) != []
    decreases k
  {
    var z :| z in LiveGraph(s) && y in LiveGraph(s)[z] && Reaches(LiveGraph(s), x, z, k - 1);
    if k > 1 { FirstStep(s, x, z, k - 1); }
  }

  /** Two goals under each other reach no action, and no goal is empty. */
  lemma {:induction false} LoopHidesTheEmptyGoal() returns (s: Structure)
    ensures FiveKinds(s) && HasNoActionBeneath(s, "a") && forall x :: !IsNotBrokenDown(s, x)
  {
    var up, down := Relation("1", PART_OF, "a", "b", None), Relation("2", PART_OF, "b", "a", None);
    s := Structure(map["a" := Item("a", "outcome", false), "b" := Item("b", "idea", false)],
                   map["b" := [up], "a" := [down]], map["a" := up, "b" := down], []);
    assert LiveSources(s.items, [down], 1) == LiveSources(s.items, [down], 0) + ["b"];
    assert LiveSources(s.items, [up], 1) == LiveSources(s.items, [up], 0) + ["a"];
    assert LiveChildren(s, "a") == ["b"] && LiveChildren(s, "b") == ["a"];
  }
}
