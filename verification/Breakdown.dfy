// The structural edges of a workspace, indexed both ways, and the reads that
// walk them: down under a budget, and up to the top.
module Breakdown {
  import opened Basics
  import opened Chains
  import opened Ordering
  import opened Traversal

  datatype Item = Item(id: Id, kind: string, archived: bool)

  datatype Relation = Relation(id: Id, kind: string, source: Id, target: Id, position: Option<int>)

  /** parent: child id to its part_of edge upward; children: parent id to its
      children's part_of edges in display order; other: everything else. */
  datatype Structure = Structure(
    items: map<Id, Item>, children: map<Id, seq<Relation>>, parent: map<Id, Relation>, other: seq<Relation>)

  const PART_OF := "part_of"
  const I64_MAX: int := 0x7fff_ffff_ffff_ffff
  const USIZE_MAX: int := 0xffff_ffff_ffff_ffff

  // ---- Where a child sits among its siblings ----

  function PlacementOf(r: Relation, order: map<Id, nat>): Placement {
    Placement(if r.position.Some? then r.position.value else I64_MAX,
              if r.source in order then order[r.source] else USIZE_MAX,
              r.id)
  }

  ghost predicate InDisplayOrder(edges: seq<Relation>, order: map<Id, nat>) {
    Sorted(edges, r => PlacementOf(r, order))
  }

  // ---- Indexing the relations ----

  /** part_of edges into t among the first n relations, in stored order. */
  ghost function EdgesInto(rs: seq<Relation>, n: nat, t: Id): seq<Relation>
    requires n <= |rs|
  {
    if n == 0 then []
    else if rs[n - 1].kind == PART_OF && rs[n - 1].target == t then EdgesInto(rs, n - 1, t) + [rs[n - 1]]
    else EdgesInto(rs, n - 1, t)
  }

  /** The last part_of edge out of x among the first n relations. */
  ghost function EdgeUp(rs: seq<Relation>, n: nat, x: Id): Option<Relation>
    requires n <= |rs|
  {
    if n == 0 then None
    else if rs[n - 1].kind == PART_OF && rs[n - 1].source == x then Some(rs[n - 1])
    else EdgeUp(rs, n - 1, x)
  }

  ghost function Others(rs: seq<Relation>, n: nat): seq<Relation>
    requires n <= |rs|
  {
    if n == 0 then []
    else if rs[n - 1].kind == PART_OF then Others(rs, n - 1)
    else Others(rs, n - 1) + [rs[n - 1]]
  }

  ghost predicate UniqueItems(items: seq<Item>) {
    forall i, j :: 0 <= i < j < |items| ==> items[i].id != items[j].id
  }

  ghost predicate IndexesItems(byId: map<Id, Item>, items: seq<Item>, n: nat)
    requires n <= |items|
  {
    && (forall i :: 0 <= i < n ==> items[i].id in byId && byId[items[i].id] == items[i])
    && (forall x :: x in byId ==> exists i :: 0 <= i < n && items[i].id == x)
  }

  ghost predicate IndexesUp(parent: map<Id, Relation>, rs: seq<Relation>, n: nat)
    requires n <= |rs|
  {
    forall x :: EdgeUp(rs, n, x) == if x in parent then Some(parent[x]) else None
  }

  ghost predicate IndexesDown(children: map<Id, seq<Relation>>, rs: seq<Relation>, n: nat)
    requires n <= |rs|
  {
    forall t :: EdgesInto(rs, n, t) == if t in children then children[t] else []
  }

  ghost predicate IndexesOrder(order: map<Id, nat>, items: seq<Item>, n: nat)
    requires n <= |items|
  {
    && (forall i :: 0 <= i < n ==> items[i].id in order && order[items[i].id] == i)
    && (forall x :: x in order ==> exists i :: 0 <= i < n && items[i].id == x)
  }

  /** What the index of a workspace is: every edge kept once, siblings in display order. */
  ghost predicate IsStructure(s: Structure, items: seq<Item>, rs: seq<Relation>) {
    && IndexesItems(s.items, items, |items|)
    && IndexesUp(s.parent, rs, |rs|)
    && s.other == Others(rs, |rs|)
    && exists order :: IndexesOrder(order, items, |items|) && ArrangesDown(s.children, rs, order)
  }

  ghost predicate ArrangesDown(children: map<Id, seq<Relation>>, rs: seq<Relation>, order: map<Id, nat>) {
    && (forall t :: t in children ==>
          InDisplayOrder(children[t], order) && multiset(children[t]) == multiset(EdgesInto(rs, |rs|, t)))
    && (forall t :: t !in children ==> EdgesInto(rs, |rs|, t) == [])
  }

  method IndexItems(items: seq<Item>) returns (byId: map<Id, Item>, order: map<Id, nat>)
    requires UniqueItems(items)
    ensures IndexesItems(byId, items, |items|) && IndexesOrder(order, items, |items|)
  {
    byId, order := map[], map[];
    for i := 0 to |items|
      invariant IndexesItems(byId, items, i) && IndexesOrder(order, items, i)
    {
      byId, order := byId[items[i].id := items[i]], order[items[i].id := i];
    }
  }

  method IndexRelations(rs: seq<Relation>)
    returns (children: map<Id, seq<Relation>>, parent: map<Id, Relation>, other: seq<Relation>)
    ensures IndexesDown(children, rs, |rs|) && IndexesUp(parent, rs, |rs|) && other == Others(rs, |rs|)
  {
    children, parent, other := map[], map[], [];
    for i := 0 to |rs|
      invariant IndexesDown(children, rs, i) && IndexesUp(parent, rs, i) && other == Others(rs, i)
    {
      var r := rs[i];
      if r.kind == PART_OF {
        parent := parent[r.source := r];
        var known := if r.target in children then children[r.target] else [];
        assert known == EdgesInto(rs, i, r.target);
        children := children[r.target := known + [r]];
      } else {
        other := other + [r];
      }
    }
  }

  method ArrangeChildren(children: map<Id, seq<Relation>>, order: map<Id, nat>) returns (sorted: map<Id, seq<Relation>>)
    ensures sorted.Keys == children.Keys
    ensures forall t :: t in children ==>
              InDisplayOrder(sorted[t], order) && multiset(sorted[t]) == multiset(children[t])
  {
    sorted := children;
    var todo := children.Keys;
    while todo != {}
      invariant todo <= children.Keys == sorted.Keys
      invariant forall t :: t in children && t !in todo ==>
                  InDisplayOrder(sorted[t], order) && multiset(sorted[t]) == multiset(children[t])
      decreases |todo|
    {
      var t :| t in todo;
      var edges := SortBy(children[t], r => PlacementOf(r, order));
      sorted, todo := sorted[t := edges], todo - {t};
    }
  }

  method BuildStructure(items: seq<Item>, rs: seq<Relation>) returns (s: Structure)
    requires UniqueItems(items)
    ensures IsStructure(s, items, rs)
  {
    var byId, order := IndexItems(items);
    var children, parent, other := IndexRelations(rs);
    var sorted := ArrangeChildren(children, order);
    s := Structure(byId, sorted, parent, other);
    assert ArrangesDown(s.children, rs, order);
  }

  // ---- Live children ----

  predicate Live(items: map<Id, Item>, x: Id) {
    x in items && !items[x].archived
  }

  /** Sources of the first n edges that exist and are not archived. */
  function LiveSources(items: map<Id, Item>, edges: seq<Relation>, n: nat): (xs: seq<Id>)
    requires n <= |edges|
    ensures forall k :: 0 <= k < |xs| ==> Live(items, xs[k])
  {
    if n == 0 then []
    else if Live(items, edges[n - 1].source) then LiveSources(items, edges, n - 1) + [edges[n - 1].source]
    else LiveSources(items, edges, n - 1)
  }

  function LiveChildren(s: Structure, x: Id): (xs: seq<Id>)
    ensures forall k :: 0 <= k < |xs| ==> Live(s.items, xs[k])
  {
    if x in s.children then LiveSources(s.items, s.children[x], |s.children[x]|) else []
  }

  /** The graph every downward read walks. */
  function LiveGraph(s: Structure): (g: Graph) {
    map x | x in s.items :: LiveChildren(s, x)
  }

  lemma LiveGraphIsClosed(s: Structure)
    ensures Closed(LiveGraph(s))
  {
  }

  // ---- Downward, under a budget ----

  /** One node of the answer. */
  datatype Node = Node(id: Id, depth: nat, parentId: Option<Id>, childCount: nat, loadedChildren: nat, hasMore: bool)

  function ParentOf(s: Structure, x: Id): Option<Id> {
    if x in s.parent then Some(s.parent[x].target) else None
  }

  function NodeOf(s: Structure, r: Row): Node {
    Node(r.id, r.level, ParentOf(s, r.id), r.childCount, r.loaded, r.loaded < r.childCount)
  }

  function NodesOf(s: Structure, rows: seq<Row>): (ns: seq<Node>)
    ensures |ns| == |rows| && forall k :: 0 <= k < |rows| ==> ns[k] == NodeOf(s, rows[k])
  {
    seq(|rows|, k requires 0 <= k < |rows| => NodeOf(s, rows[k]))
  }

  function Clamp(x: Option<nat>, default: nat, low: nat, high: nat): (v: nat)
    requires low <= default <= high
    ensures low <= v <= high && (x == None ==> v == default)
    ensures forall u: nat :: x == Some(u) ==>
              (low <= u <= high ==> v == u) && (u < low ==> v == low) && (u > high ==> v == high)
  {
    var v := if x.Some? then x.value else default;
    if v < low then low else if v > high then high else v
  }

  datatype Reading = Missing | Answer(nodes: seq<Node>, depth: nat, limit: nat, truncated: bool)

  /** Queues children until the budget is used up, if this node is expanded at all. */
  method QueueChildren(kids: seq<Id>, level: nat, expand: bool, used: nat, limit: nat, queue0: seq<Entry>,
      truncated0: bool)
    returns (queue: seq<Entry>, loaded: nat, truncated: bool)
    ensures loaded == if expand then Room(|kids|, used + |queue0|, limit) else 0
    ensures loaded <= |kids| && queue == queue0 + Tag(kids[..loaded], level)
    ensures truncated == (truncated0 || (expand && loaded < |kids|))
  {
    queue, loaded, truncated := queue0, 0, truncated0;
    assert queue == queue0 + Tag(kids[..0], level);
    if expand {
      while loaded < |kids|
        invariant loaded <= |kids| && (loaded > 0 ==> used + |queue0| + loaded <= limit)
        invariant queue == queue0 + Tag(kids[..loaded], level)
        invariant truncated == truncated0
      {
        if used + |queue| >= limit {
          truncated := true;
          break;
        }
        queue := queue + [Entry(kids[loaded], level)];
        loaded := loaded + 1;
        assert Tag(kids[..loaded], level) == Tag(kids[..loaded - 1], level) + [Entry(kids[loaded - 1], level)];
      }
    }
  }

  /** The queue, the seen set and the answer of the loop, seen as one reading in progress. */
  ghost predicate Tracks(s: Structure, w: Walk, queue: seq<Entry>, seen: set<Id>, nodes: seq<Node>, truncated: bool) {
    w.next <= |w.log| && queue == w.log[w.next..] && seen == w.seen && nodes == NodesOf(s, w.rows) &&
      truncated == w.truncated
  }

  /** The finished reading, as Traversal describes it. */
  ghost function ReadingOf(s: Structure, root: Id, depth: nat, limit: nat): Walk
    requires root in s.items
  {
    LiveGraphIsClosed(s);
    Run(LiveGraph(s), depth, limit, Start(root))
  }

  /** Finishing the reading w gives `goal`. */
  ghost predicate Leads(s: Structure, depth: nat, limit: nat, w: Walk, goal: Walk) {
    LiveGraphIsClosed(s);
    Ready(LiveGraph(s), w) && Run(LiveGraph(s), depth, limit, w) == goal
  }

  ghost function Unseen(s: Structure, w: Walk): nat {
    |s.items.Keys - w.seen|
  }

  lemma {:induction false} LeadsOn(s: Structure, depth: nat, limit: nat, w: Walk, goal: Walk) returns (w': Walk)
    requires Leads(s, depth, limit, w, goal) && !w.stopped && w.next < |w.log|
    ensures Closed(LiveGraph(s)) && w' == Step(LiveGraph(s), depth, limit, w) && Leads(s, depth, limit, w', goal)
    ensures Unseen(s, w') < Unseen(s, w) || (w'.seen == w.seen && Waiting(w') < Waiting(w))
  {
    LiveGraphIsClosed(s);
    assert LiveGraph(s).Keys == s.items.Keys;
    StepIsSmaller(LiveGraph(s), depth, limit, w);
    w' := Step(LiveGraph(s), depth, limit, w);
  }

  /** An entry seen before is dropped. */
  lemma {:induction false} Skipping(s: Structure, depth: nat, limit: nat, goal: Walk, w: Walk,
      queue: seq<Entry>, seen: set<Id>, nodes: seq<Node>, truncated: bool) returns (w': Walk)
    requires Leads(s, depth, limit, w, goal) && !w.stopped
    requires Tracks(s, w, queue, seen, nodes, truncated) && queue != [] && queue[0].id in seen
    ensures Leads(s, depth, limit, w', goal) && !w'.stopped
    ensures Tracks(s, w', queue[1..], seen, nodes, truncated)
    ensures Unseen(s, w') <= Unseen(s, w)
  {
    assert queue[0] == w.log[w.next];
    w' := LeadsOn(s, depth, limit, w, goal);
    assert w.log[w.next..][1..] == w.log[w.next + 1..];
  }

  lemma {:induction false} BehindTheFirst(log: seq<Entry>, next: nat, more: seq<Entry>)
    requires next < |log|
    ensures (log + more)[next + 1..] == log[next..][1..] + more
  {
  }

  lemma {:induction false} NodesGrow(s: Structure, rows: seq<Row>, r: Row)
    ensures NodesOf(s, rows + [r]) == NodesOf(s, rows) + [NodeOf(s, r)]
  {
  }

  /** Taking an entry, part by part. */
  lemma {:induction false} TakenStep(s: Structure, depth: nat, limit: nat, w: Walk, e: Entry, kids: seq<Id>,
      loaded: nat)
    requires Closed(LiveGraph(s)) && Ready(LiveGraph(s), w) && w.next < |w.log|
    requires w.log[w.next] == e && e.id !in w.seen && kids == LiveChildren(s, e.id)
    requires loaded == if e.level < depth && |w.rows| < limit then Room(|kids|, |w.rows| + Waiting(w) - 1, limit) else 0
    ensures loaded <= |kids|
    ensures var log := w.log + Tag(kids[..loaded], e.level + 1);
            var stop := |w.rows| + 1 >= limit && w.next + 1 < |log|;
            var cut := (e.level < depth && |w.rows| < limit) && loaded < |kids|;
            Step(LiveGraph(s), depth, limit, w) ==
            Walk(log, w.next + 1, w.seen + {e.id}, w.rows + [Row(e.id, e.level, |kids|, loaded)],
                 w.truncated || cut || stop, stop)
  {
  }

  /** The loop's variables after taking an entry are those of the reading after it. */
  lemma {:induction false} TakenTracks(s: Structure, w: Walk, queue: seq<Entry>, seen: set<Id>, nodes: seq<Node>,
      truncated: bool, e: Entry, more: seq<Entry>, childCount: nat, loaded: nat, cut: bool, stop: bool)
    requires Tracks(s, w, queue, seen, nodes, truncated) && queue != []
    ensures var row := Row(e.id, e.level, childCount, loaded);
            Tracks(s, Walk(w.log + more, w.next + 1, w.seen + {e.id}, w.rows + [row], cut, stop),
                   queue[1..] + more, seen + {e.id},
                   nodes + [Node(e.id, e.level, ParentOf(s, e.id), childCount, loaded, loaded < childCount)], cut)
  {
    BehindTheFirst(w.log, w.next, more);
    NodesGrow(s, w.rows, Row(e.id, e.level, childCount, loaded));
  }

  lemma {:induction false} FewerUnseen(s: Structure, w: Walk, w': Walk, x: Id)
    requires w'.seen == w.seen + {x} && x !in w.seen && (Unseen(s, w') < Unseen(s, w) || w'.seen == w.seen)
    ensures Unseen(s, w') < Unseen(s, w)
  {
    assert x in w'.seen;
  }

  /** Any other entry becomes a node, and its children are queued as far as they fit. */
  lemma {:induction false} Taking(s: Structure, depth: nat, limit: nat, goal: Walk, w: Walk,
      queue: seq<Entry>, seen: set<Id>, nodes: seq<Node>, truncated: bool, e: Entry, kids: seq<Id>,
      queue': seq<Entry>, loaded: nat, cut: bool, stop: bool) returns (w': Walk)
    requires Leads(s, depth, limit, w, goal) && !w.stopped
    requires Tracks(s, w, queue, seen, nodes, truncated)
    requires queue != [] && queue[0] == e && e.id !in seen && kids == LiveChildren(s, e.id)
    requires loaded == if e.level < depth && |nodes| < limit then Room(|kids|, |nodes| + |queue[1..]|, limit) else 0
    requires loaded <= |kids| && queue' == queue[1..] + Tag(kids[..loaded], e.level + 1)
    requires cut == (truncated || ((e.level < depth && |nodes| < limit) && loaded < |kids|))
    requires stop == (|nodes| + 1 >= limit && queue' != [])
    ensures Leads(s, depth, limit, w', goal) && w'.stopped == stop
    ensures Tracks(s, w', queue', seen + {e.id},
                   nodes + [Node(e.id, e.level, ParentOf(s, e.id), |kids|, loaded, loaded < |kids|)], cut || stop)
    ensures Unseen(s, w') < Unseen(s, w)
  {
    assert e == w.log[w.next];
    w' := LeadsOn(s, depth, limit, w, goal);
    TakenStep(s, depth, limit, w, e, kids, loaded);
    TakenTracks(s, w, queue, seen, nodes, truncated, e, Tag(kids[..loaded], e.level + 1), |kids|, loaded,
                cut || stop, stop);
    FewerUnseen(s, w, w', e.id);
  }

  lemma {:induction false} Starting(s: Structure, root: Id, depth: nat, limit: nat) returns (w: Walk)
    requires root in s.items
    ensures w == Start(root) && Leads(s, depth, limit, w, ReadingOf(s, root, depth, limit))
    ensures Tracks(s, w, [Entry(root, 0)], {}, [], false)
  {
    w := Start(root);
  }

  lemma {:induction false} Finished(s: Structure, depth: nat, limit: nat, goal: Walk, w: Walk,
      queue: seq<Entry>, seen: set<Id>, nodes: seq<Node>, truncated: bool)
    requires Leads(s, depth, limit, w, goal) && Tracks(s, w, queue, seen, nodes, truncated)
    requires w.stopped || queue == []
    ensures nodes == NodesOf(s, goal.rows) && truncated == goal.truncated
  {
  }

  /** The loop of the read: the queue is read from the front until it is empty or the budget is used up. */
  method ReadDown(s: Structure, root: Id, depth: nat, limit: nat, ghost goal: Walk)
    returns (nodes: seq<Node>, truncated: bool)
    requires root in s.items && goal == ReadingOf(s, root, depth, limit)
    ensures nodes == NodesOf(s, goal.rows) && truncated == goal.truncated
  {
    nodes, truncated := [], false;
    var queue := [Entry(root, 0)];
    var seen := {};
    ghost var w := Starting(s, root, depth, limit);
    while queue != []
      invariant Leads(s, depth, limit, w, goal) && !w.stopped
      invariant Tracks(s, w, queue, seen, nodes, truncated)
      decreases Unseen(s, w), |queue|
    {
      ghost var before, cut := queue, truncated;
      var e := queue[0];
      queue := queue[1..];
      if e.id in seen {
        w := Skipping(s, depth, limit, goal, w, before, seen, nodes, truncated);
        continue;
      }
      var kids, loaded := LiveChildren(s, e.id), 0;
      queue, loaded, truncated :=
        QueueChildren(kids, e.level + 1, e.level < depth && |nodes| < limit, |nodes|, limit, queue, truncated);
      ghost var stop := |nodes| + 1 >= limit && queue != [];
      w := Taking(s, depth, limit, goal, w, before, seen, nodes, cut, e, kids, queue, loaded, truncated, stop);
      seen := seen + {e.id};
      nodes := nodes + [Node(e.id, e.level, ParentOf(s, e.id), |kids|, loaded, loaded < |kids|)];
      if |nodes| >= limit && queue != [] {
        truncated := true;
        break;
      }
    }
    Finished(s, depth, limit, goal, w, queue, seen, nodes, truncated);
  }

  method Subtree(s: Structure, root: Id, depthParam: Option<nat>, limitParam: Option<nat>) returns (r: Reading)
    ensures root !in s.items ==> r == Missing
    ensures root in s.items ==>
              var depth, limit := Clamp(depthParam, 2, 1, 20), Clamp(limitParam, 200, 1, 500);
              var w := ReadingOf(s, root, depth, limit);
              r == Answer(NodesOf(s, w.rows), depth, limit, w.truncated)
    ensures r.Answer? ==> 1 <= r.depth <= 20 && 1 <= r.limit <= 500
    ensures r.Answer? && depthParam == None ==> r.depth == 2
    ensures r.Answer? && limitParam == None ==> r.limit == 200
    ensures r.Answer? && depthParam.Some? && 1 <= depthParam.value <= 20 ==> r.depth == depthParam.value
    ensures r.Answer? && limitParam.Some? && 1 <= limitParam.value <= 500 ==> r.limit == limitParam.value
  {
    var depth := Clamp(depthParam, 2, 1, 20);
    var limit := Clamp(limitParam, 200, 1, 500);
    if root !in s.items { return Missing; }
    var nodes, truncated := ReadDown(s, root, depth, limit, ReadingOf(s, root, depth, limit));
    r := Answer(nodes, depth, limit, truncated);
  }

  // ---- Upward, to whatever sits at the top ----

  /** The part_of links upward. */
  ghost function PartOf(s: Structure): Parents {
    map x | x in s.parent :: s.parent[x].target
  }

  datatype AncestryStep = AncestryStep(id: Id, childId: Id, relationId: Id)

  /** m climbing steps from x, each named with the item below it. */
  ghost predicate Climbed(s: Structure, x: Id, chain: seq<AncestryStep>) {
    forall j {:trigger chain[j]} :: 0 <= j < |chain| ==>
      ClimbStep(s, x, j, chain[j])
  }

  ghost predicate ClimbStep(s: Structure, x: Id, j: nat, step: AncestryStep) {
    && Up(PartOf(s), x, j) == Some(step.childId) && step.childId in s.parent
    && step.id == s.parent[step.childId].target && step.id in s.items
    && step.relationId == s.parent[step.childId].id
  }

  /** The item the climb stands on after the whole chain. */
  function Standing(x: Id, chain: seq<AncestryStep>): Id {
    if chain == [] then x else chain[|chain| - 1].id
  }

  /** No item is left twice. */
  ghost predicate LeavesEachOnce(chain: seq<AncestryStep>) {
    forall i, j :: 0 <= i < j < |chain| ==> chain[i].childId != chain[j].childId
  }

  /** Why a climb ends: nothing above, nothing stored above, or back where it already was. */
  ghost predicate ClimbEnds(s: Structure, x: Id, chain: seq<AncestryStep>) {
    var c := Standing(x, chain);
    || c !in s.parent
    || (exists j :: 0 <= j < |chain| && chain[j].childId == c)
    || s.parent[c].target !in s.items
  }

  function Reversed<T>(s: seq<T>): (r: seq<T>)
    ensures |r| == |s| && forall k :: 0 <= k < |s| ==> r[k] == s[|s| - 1 - k]
  {
    seq(|s|, k requires 0 <= k < |s| => s[|s| - 1 - k])
  }

  lemma {:induction false} StandingIsUp(s: Structure, x: Id, chain: seq<AncestryStep>)
    requires Climbed(s, x, chain)
    ensures Up(PartOf(s), x, |chain|) == Some(Standing(x, chain))
  {
    if chain != [] {
      var j := |chain| - 1;
      assert ClimbStep(s, x, j, chain[j]);
      UpAdd(PartOf(s), x, j, 1);
      assert Up(PartOf(s), chain[j].childId, 1) == Some(chain[j].id);
    }
  }

  /** The climb of at most |parent| steps, and where it stops. */
  method Climb(s: Structure, x: Id) returns (chain: seq<AncestryStep>)
    ensures Climbed(s, x, chain) && LeavesEachOnce(chain) && ClimbEnds(s, x, chain)
  {
    chain := [];
    var cursor := x;
    var seen: set<Id> := {};
    while cursor in s.parent
      invariant Climbed(s, x, chain) && LeavesEachOnce(chain)
      invariant cursor == Standing(x, chain)
      invariant seen <= s.parent.Keys
      invariant forall c :: c in seen <==> exists j :: 0 <= j < |chain| && chain[j].childId == c
      decreases s.parent.Keys - seen
    {
      if cursor in seen { break; }
      var edge := s.parent[cursor];
      if edge.target !in s.items { break; }
      StandingIsUp(s, x, chain);
      seen := seen + {cursor};
      ghost var before := chain;
      chain := chain + [AncestryStep(edge.target, cursor, edge.id)];
      assert chain[|before|].childId == cursor;
      assert forall j :: 0 <= j < |before| ==> chain[j] == before[j];
      cursor := edge.target;
    }
  }

  datatype AncestryReading = NoItem | Ancestors(chain: seq<AncestryStep>, topLevel: bool)

  method Ancestry(s: Structure, x: Id) returns (r: AncestryReading)
    ensures x !in s.items ==> r == NoItem
    ensures x in s.items ==>
              && r.Ancestors? && (r.topLevel <==> r.chain == [])
              && var up := Reversed(r.chain);
                 Climbed(s, x, up) && LeavesEachOnce(up) && ClimbEnds(s, x, up)
  {
    if x !in s.items { return NoItem; }
    var chain := Climb(s, x);
    r := Ancestors(Reversed(chain), |chain| == 0);
    assert Reversed(Reversed(chain)) == chain;
  }
}
