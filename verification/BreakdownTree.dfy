// On a plan where every item is part of at most one other, the two reads of a
// workspace, down from an item and up to the top, describe the same tree.
module BreakdownTree {
  import opened Basics
  import opened Chains
  import opened Traversal
  import opened LevelOrder
  import opened ForestWalk
  import opened Breakdown

  // ---- Any plan, cycles and shared children included ----

  /** What `Subtree` answers on any edges: at most `limit` nodes, none twice, depths in
      order, each the length of a walk through live children; and when nothing was cut,
      exactly the items at distance at most `depth`, each with its shortest distance. */
  lemma {:induction false} SubtreeOfAnyPlan(s: Structure, root: Id, depth: nat, limit: nat, w: Walk, nodes: seq<Node>)
    requires root in s.items && limit >= 1
    requires w == ReadingOf(s, root, depth, limit) && nodes == NodesOf(s, w.rows)
    ensures |nodes| <= limit
    ensures forall i, j :: 0 <= i < j < |nodes| ==> nodes[i].id != nodes[j].id && nodes[i].depth <= nodes[j].depth
    ensures forall k :: 0 <= k < |nodes| ==>
              nodes[k].depth <= depth && Reaches(LiveGraph(s), root, nodes[k].id, nodes[k].depth)
    ensures !w.truncated ==> forall y, d: nat ::
              (exists k :: 0 <= k < |nodes| && nodes[k].id == y && nodes[k].depth == d) <==>
                d <= depth && Distance(LiveGraph(s), root, y, d)
  {
    LiveGraphIsClosed(s);
    ReadingIsExact(LiveGraph(s), root, depth, limit);
    assert forall k {:trigger nodes[k]} {:trigger w.rows[k]} :: 0 <= k < |nodes| ==>
             nodes[k].id == w.rows[k].id && nodes[k].depth == w.rows[k].level;
  }

  // ---- A plan that is a forest ----

  /** Every item is the source of at most one part_of edge. */
  ghost predicate OneParentEach(rs: seq<Relation>) {
    forall i, j {:trigger rs[i], rs[j]} :: 0 <= i < j < |rs| && rs[i].kind == PART_OF && rs[j].kind == PART_OF ==>
      rs[i].source != rs[j].source
  }

  /** Both ends of every part_of edge exist. */
  ghost predicate EndsExist(s: Structure, rs: seq<Relation>) {
    forall i {:trigger rs[i]} :: 0 <= i < |rs| && rs[i].kind == PART_OF ==>
      rs[i].source in s.items && rs[i].target in s.items
  }

  ghost predicate ForestPlan(s: Structure, items: seq<Item>, rs: seq<Relation>) {
    IsStructure(s, items, rs) && OneParentEach(rs) && EndsExist(s, rs) && Acyclic(PartOf(s))
  }

  ghost function LiveIds(s: Structure): set<Id> {
    set x | x in s.items && !s.items[x].archived
  }

  ghost predicate PartOfAt(rs: seq<Relation>, i: int, c: Id, t: Id) {
    0 <= i < |rs| && rs[i].kind == PART_OF && rs[i].source == c && rs[i].target == t
  }

  lemma {:induction false} EdgesIntoMember(rs: seq<Relation>, n: nat, t: Id, r: Relation)
    requires n <= |rs|
    ensures r in EdgesInto(rs, n, t) <==> exists i :: 0 <= i < n && rs[i] == r && r.kind == PART_OF && r.target == t
  {
    if n > 0 { EdgesIntoMember(rs, n - 1, t, r); }
  }

  ghost predicate DistinctSources(es: seq<Relation>) {
    forall i, j :: 0 <= i < j < |es| ==> es[i].source != es[j].source
  }

  lemma {:induction false} EdgesIntoDistinct(rs: seq<Relation>, n: nat, t: Id)
    requires n <= |rs| && OneParentEach(rs)
    ensures DistinctSources(EdgesInto(rs, n, t))
  {
    if n > 0 {
      EdgesIntoDistinct(rs, n - 1, t);
      var before := EdgesInto(rs, n - 1, t);
      forall k | 0 <= k < |before| ensures rs[n - 1].kind == PART_OF ==> before[k].source != rs[n - 1].source {
        assert before[k] in before;
        EdgesIntoMember(rs, n - 1, t, before[k]);
      }
    }
  }

  lemma {:induction false} RearrangedSources(a: seq<Relation>, b: seq<Relation>)
    requires multiset(a) == multiset(b) && DistinctSources(b)
    ensures DistinctSources(a) && forall r :: r in a <==> r in b
  {
    assert NoDup(b);
    PermutationKeeps(b, a);
    forall i, j | 0 <= i < j < |a| ensures a[i].source != a[j].source {
      assert a[i] in b && a[j] in b;
    }
  }

  lemma {:induction false} EdgeUpIsLast(rs: seq<Relation>, n: nat, c: Id)
    requires n <= |rs|
    ensures match EdgeUp(rs, n, c)
            case Some(r) =>
              exists i :: 0 <= i < n && rs[i] == r && r.kind == PART_OF && r.source == c &&
                forall j :: i < j < n && rs[j].kind == PART_OF ==> rs[j].source != c
            case None => forall i :: 0 <= i < n && rs[i].kind == PART_OF ==> rs[i].source != c
  {
    if n > 0 { EdgeUpIsLast(rs, n - 1, c); }
  }

  /** With at most one parent each, the upward index holds exactly the stored edges. */
  lemma {:induction false} UpwardIndex(s: Structure, items: seq<Item>, rs: seq<Relation>, c: Id, t: Id)
    requires IsStructure(s, items, rs) && OneParentEach(rs)
    ensures (c in PartOf(s) && PartOf(s)[c] == t) <==> exists i :: PartOfAt(rs, i, c, t)
  {
    EdgeUpIsLast(rs, |rs|, c);
    if c in s.parent {
      var i :| 0 <= i < |rs| && rs[i] == s.parent[c] && rs[i].kind == PART_OF && rs[i].source == c;
      assert PartOfAt(rs, i, c, s.parent[c].target);
    }
  }

  ghost predicate HasSource(es: seq<Relation>, c: Id) {
    exists k :: 0 <= k < |es| && es[k].source == c
  }

  /** So does the downward index. */
  lemma {:induction false} DownwardIndex(s: Structure, items: seq<Item>, rs: seq<Relation>, t: Id)
    requires IsStructure(s, items, rs) && OneParentEach(rs) && t in s.children
    ensures DistinctSources(s.children[t])
    ensures forall c :: HasSource(s.children[t], c) <==> exists i :: PartOfAt(rs, i, c, t)
  {
    var es := s.children[t];
    EdgesIntoDistinct(rs, |rs|, t);
    RearrangedSources(es, EdgesInto(rs, |rs|, t));
    forall c ensures HasSource(es, c) <==> exists i :: PartOfAt(rs, i, c, t) {
      if k :| 0 <= k < |es| && es[k].source == c {
        EdgesIntoMember(rs, |rs|, t, es[k]);
        var i :| 0 <= i < |rs| && rs[i] == es[k];
        assert PartOfAt(rs, i, c, t);
      }
      if i :| PartOfAt(rs, i, c, t) {
        EdgesIntoMember(rs, |rs|, t, rs[i]);
        assert rs[i] in es;
      }
    }
  }

  lemma {:induction false} LiveSourcesMember(items: map<Id, Item>, es: seq<Relation>, n: nat, c: Id)
    requires n <= |es|
    ensures c in LiveSources(items, es, n) <==> Live(items, c) && exists k :: 0 <= k < n && es[k].source == c
  {
    if n > 0 { LiveSourcesMember(items, es, n - 1, c); }
  }

  lemma {:induction false} LiveSourcesDistinct(items: map<Id, Item>, es: seq<Relation>, n: nat)
    requires n <= |es| && DistinctSources(es)
    ensures NoDup(LiveSources(items, es, n))
  {
    if n > 0 {
      LiveSourcesDistinct(items, es, n - 1);
      LiveSourcesMember(items, es, n - 1, es[n - 1].source);
    }
  }

  lemma {:induction false} LiveChildIs(s: Structure, items: seq<Item>, rs: seq<Relation>, t: Id, c: Id)
    requires IsStructure(s, items, rs) && OneParentEach(rs)
    ensures c in LiveChildren(s, t) <==> Live(s.items, c) && c in PartOf(s) && PartOf(s)[c] == t
  {
    UpwardIndex(s, items, rs, c, t);
    if t in s.children {
      DownwardIndex(s, items, rs, t);
      LiveSourcesMember(s.items, s.children[t], |s.children[t]|, c);
      assert HasSource(s.children[t], c) <==> exists i :: PartOfAt(rs, i, c, t);
    } else if i :| PartOfAt(rs, i, c, t) {
      EdgesIntoMember(rs, |rs|, t, rs[i]);
    }
  }

  /** The children read under an item are exactly its live ones, once each. */
  lemma {:induction false} LiveChildrenAre(s: Structure, items: seq<Item>, rs: seq<Relation>, t: Id)
    requires IsStructure(s, items, rs) && OneParentEach(rs)
    ensures NoDup(LiveChildren(s, t))
    ensures forall c :: c in LiveChildren(s, t) <==> Live(s.items, c) && c in PartOf(s) && PartOf(s)[c] == t
  {
    forall c { LiveChildIs(s, items, rs, t, c); }
    if t in s.children {
      DownwardIndex(s, items, rs, t);
      LiveSourcesDistinct(s.items, s.children[t], |s.children[t]|);
    }
  }

  lemma {:induction false} PlanIsForest(s: Structure, items: seq<Item>, rs: seq<Relation>)
    requires IsStructure(s, items, rs) && OneParentEach(rs) && EndsExist(s, rs)
    ensures ForestGraph(LiveGraph(s), PartOf(s), LiveIds(s))
  {
    var g, p, live := LiveGraph(s), PartOf(s), LiveIds(s);
    forall x | x in g ensures NoDup(g[x]) && forall c :: c in g[x] <==> c in live && c in p && p[c] == x {
      LiveChildrenAre(s, items, rs, x);
    }
    forall c | c in p ensures p[c] in g {
      UpwardIndex(s, items, rs, c, p[c]);
    }
  }

  /** On any plan: c is read under t exactly when c is stored and not archived and a part_of edge leads from c
      to t. */
  lemma {:induction false} LiveChildrenInRelations(s: Structure, items: seq<Item>, rs: seq<Relation>, t: Id, c: Id)
    requires IsStructure(s, items, rs)
    ensures c in LiveChildren(s, t) <==> Live(s.items, c) && exists i :: PartOfAt(rs, i, c, t)
  {
    var into := EdgesInto(rs, |rs|, t);
    if t in s.children {
      var es := s.children[t];
      LiveSourcesMember(s.items, es, |es|, c);
      if k :| 0 <= k < |es| && es[k].source == c {
        assert es[k] in multiset(into);
        EdgesIntoMember(rs, |rs|, t, es[k]);
        var i :| 0 <= i < |rs| && rs[i] == es[k];
        assert PartOfAt(rs, i, c, t);
      }
    }
    if i :| PartOfAt(rs, i, c, t) {
      EdgesIntoMember(rs, |rs|, t, rs[i]);
      assert rs[i] in multiset(into);
      assert rs[i] in s.children[t];
    }
  }

  // ---- Down: the answer is the beginning of the level-order walk ----

  /** The T live descendants of root within the depth, root included, level by level. */
  ghost function Plan(s: Structure, root: Id, depth: nat): seq<Entry> {
    Walked(LiveGraph(s), depth, root)
  }

  lemma {:induction false} RowsOfForest(s: Structure, items: seq<Item>, rs: seq<Relation>, root: Id, depth: nat,
      limit: nat, w: Walk)
    requires ForestPlan(s, items, rs) && root in s.items && limit >= 1 && w == ReadingOf(s, root, depth, limit)
    ensures var all := Plan(s, root, depth);
            && |w.rows| == Min(limit, |all|)
            && (forall k :: 0 <= k < |w.rows| ==> w.rows[k].id == all[k].id && w.rows[k].level == all[k].level)
            && (w.truncated <==> |all| > limit)
            && LoadedSum(w.rows) == |w.rows| - 1 + (if w.truncated then 1 else 0)
  {
    LiveGraphIsClosed(s);
    PlanIsForest(s, items, rs);
    ForestReadingIsPrefix(LiveGraph(s), PartOf(s), LiveIds(s), root, depth, limit);
  }

  ghost function LoadedChildren(nodes: seq<Node>): nat {
    if nodes == [] then 0 else LoadedChildren(nodes[..|nodes| - 1]) + nodes[|nodes| - 1].loadedChildren
  }

  lemma {:induction false} LoadedChildrenAre(s: Structure, rows: seq<Row>)
    ensures LoadedChildren(NodesOf(s, rows)) == LoadedSum(rows)
    decreases |rows|
  {
    if rows != [] {
      var n := |rows| - 1;
      LoadedChildrenAre(s, rows[..n]);
      assert NodesOf(s, rows)[..n] == NodesOf(s, rows[..n]);
    }
  }

  /** What `Subtree` answers on a forest, for every root, depth and limit: the first
      min(limit, T) of the T entries of the walk, marked truncated exactly when T > limit,
      with loaded_children adding up to every node but the root, plus one when cut. */
  lemma {:induction false} SubtreeOfForest(s: Structure, items: seq<Item>, rs: seq<Relation>, root: Id, depth: nat,
      limit: nat, w: Walk, nodes: seq<Node>)
    requires ForestPlan(s, items, rs) && root in s.items && limit >= 1
    requires w == ReadingOf(s, root, depth, limit) && nodes == NodesOf(s, w.rows)
    ensures var all := Plan(s, root, depth);
            && |nodes| == Min(limit, |all|)
            && (forall k :: 0 <= k < |nodes| ==> nodes[k].id == all[k].id && nodes[k].depth == all[k].level)
            && (w.truncated <==> |all| > limit)
            && LoadedChildren(nodes) == |nodes| - 1 + (if w.truncated then 1 else 0)
  {
    RowsOfForest(s, items, rs, root, depth, limit, w);
    LoadedChildrenAre(s, w.rows);
  }

  /** The walk holds each live descendant within the depth, at its distance, and nothing else. */
  lemma {:induction false} PlanIsDescendants(s: Structure, items: seq<Item>, rs: seq<Relation>, root: Id, depth: nat,
      e: Entry)
    requires ForestPlan(s, items, rs) && root in s.items
    ensures Distinct(Plan(s, root, depth))
    ensures e in Plan(s, root, depth) <==>
            e.level <= depth && Up(PartOf(s), e.id, e.level) == Some(root) &&
              LiveBelow(PartOf(s), LiveIds(s), e.id, e.level)
  {
    var g, p, live := LiveGraph(s), PartOf(s), LiveIds(s);
    PlanIsForest(s, items, rs);
    WalkIsDistinct(g, p, live, depth, root);
    WalkMember(g, depth, root, e);
    DownIsUp(g, p, live, root, e.id, e.level);
    LiveClimbIsUp(p, live, e.id, e.level, root);
  }

  /** In the walk every entry but the first comes after its parent's. */
  lemma {:induction false} EntryComesAfterItsParent(s: Structure, items: seq<Item>, rs: seq<Relation>, root: Id,
      depth: nat, k: nat) returns (j: nat)
    requires ForestPlan(s, items, rs) && root in s.items && 0 < k < |Plan(s, root, depth)|
    ensures j < k && Plan(s, root, depth)[k].level > 0 && Plan(s, root, depth)[k].id in PartOf(s)
    ensures Plan(s, root, depth)[j] == Entry(PartOf(s)[Plan(s, root, depth)[k].id], Plan(s, root, depth)[k].level - 1)
  {
    var all := Plan(s, root, depth);
    var e := all[k];
    assert e in all && Up(PartOf(s), e.id, 0) == Some(e.id);
    PlanIsDescendants(s, items, rs, root, depth, e);
    WalkIsOrdered(LiveGraph(s), depth, root);
    RootIsFirst(s, root, depth);
    assert all[0].id != all[k].id;
    ParentIsListed(s, items, rs, root, depth, e.id, e.level);
    j :| 0 <= j < |all| && all[j] == Entry(PartOf(s)[e.id], e.level - 1);
  }

  /** Every node of the answer but the root names as its parent a node that comes before it,
      one level up: the answer can be put together again from front to back. */
  lemma {:induction false} NodesHangUnderEarlierOnes(s: Structure, items: seq<Item>, rs: seq<Relation>, root: Id,
      depth: nat, limit: nat, w: Walk, nodes: seq<Node>, k: nat) returns (j: nat)
    requires ForestPlan(s, items, rs) && root in s.items && limit >= 1
    requires w == ReadingOf(s, root, depth, limit) && nodes == NodesOf(s, w.rows) && 0 < k < |nodes|
    ensures j < k && nodes[k].parentId == Some(nodes[j].id) && nodes[k].depth == nodes[j].depth + 1
  {
    SubtreeOfForest(s, items, rs, root, depth, limit, w, nodes);
    j := EntryComesAfterItsParent(s, items, rs, root, depth, k);
  }

  lemma {:induction false} RootIsFirst(s: Structure, root: Id, depth: nat)
    ensures |Plan(s, root, depth)| > 0 && Plan(s, root, depth)[0] == Entry(root, 0)
  {
    var g := LiveGraph(s);
    WalkFeedsItself(g, depth, root);
    FedGrows(g, depth, [Entry(root, 0)], Plan(s, root, depth), 0, |Plan(s, root, depth)|);
  }

  lemma {:induction false} ParentIsListed(s: Structure, items: seq<Item>, rs: seq<Relation>, root: Id, depth: nat,
      x: Id, d: nat)
    requires ForestPlan(s, items, rs) && root in s.items && d > 0 && Entry(x, d) in Plan(s, root, depth)
    ensures x in PartOf(s) && Entry(PartOf(s)[x], d - 1) in Plan(s, root, depth)
  {
    var p, live := PartOf(s), LiveIds(s);
    PlanIsDescendants(s, items, rs, root, depth, Entry(x, d));
    UpDefinedBelow(p, x, 0, d);
    assert x in p;
    LiveBelowStep(p, live, x, d);
    PlanIsDescendants(s, items, rs, root, depth, Entry(p[x], d - 1));
  }

  /** Some live child of x is not among the nodes. */
  ghost predicate Lacks(s: Structure, nodes: seq<Node>, x: Id) {
    exists c :: c in LiveChildren(s, x) && forall j :: 0 <= j < |nodes| ==> nodes[j].id != c
  }

  lemma {:induction false} LacksIs(s: Structure, rows: seq<Row>, r: Row)
    requires r.id in s.items
    ensures Lacks(s, NodesOf(s, rows), r.id) <==> LacksChild(LiveGraph(s), rows, r)
  {
    var nodes := NodesOf(s, rows);
    assert forall j {:trigger nodes[j]} {:trigger rows[j]} :: 0 <= j < |rows| ==> nodes[j].id == rows[j].id;
    assert LiveGraph(s)[r.id] == LiveChildren(s, r.id);
  }

  /** The walk's first entry left out of the answer is the last live child of x. */
  ghost predicate CutBeforeLastChild(s: Structure, root: Id, depth: nat, limit: nat, x: Id) {
    var all, kids := Plan(s, root, depth), LiveChildren(s, x);
    |all| > limit && kids != [] && all[limit].id == kids[|kids| - 1]
  }

  lemma {:induction false} RowTells(s: Structure, items: seq<Item>, rs: seq<Relation>, root: Id, depth: nat, limit: nat,
      w: Walk, k: nat)
    requires ForestPlan(s, items, rs) && root in s.items && limit >= 1
    requires w == ReadingOf(s, root, depth, limit) && k < |w.rows|
    ensures Tells(LiveGraph(s), w, Plan(s, root, depth), limit, w.rows[k])
  {
    LiveGraphIsClosed(s);
    PlanIsForest(s, items, rs);
    RowsTellTheTruthBut(LiveGraph(s), PartOf(s), LiveIds(s), root, depth, limit, k);
  }

  /** What a node says about its children, against the answer it is in. */
  ghost predicate NodeTells(s: Structure, nodes: seq<Node>, truncated: bool, cutBeforeLast: bool, n: Node) {
    && n.childCount == |LiveChildren(s, n.id)|
    && (n.hasMore ==> Lacks(s, nodes, n.id))
    && (!n.hasMore && Lacks(s, nodes, n.id) <==> truncated && cutBeforeLast)
    && (!truncated ==> (n.hasMore <==> Lacks(s, nodes, n.id)))
  }

  lemma {:induction false} RowTellsAsNode(s: Structure, root: Id, depth: nat, limit: nat, w: Walk, k: nat)
    requires k < |w.rows| && Tells(LiveGraph(s), w, Plan(s, root, depth), limit, w.rows[k])
    ensures var r := w.rows[k];
            NodeTells(s, NodesOf(s, w.rows), w.truncated, CutBeforeLastChild(s, root, depth, limit, r.id), NodeOf(s, r))
  {
    LacksIs(s, w.rows, w.rows[k]);
  }

  /** Whether a node has more children than the answer carries: has_more_children is never wrong when it says so;
      when it does not, a live child is missing all the same exactly when the answer was cut right before that
      node's last child. So it is exact whenever nothing was cut. */
  lemma {:induction false} HasMoreIsRightBut(s: Structure, items: seq<Item>, rs: seq<Relation>, root: Id, depth: nat,
      limit: nat, w: Walk, nodes: seq<Node>, k: nat)
    requires ForestPlan(s, items, rs) && root in s.items && limit >= 1
    requires w == ReadingOf(s, root, depth, limit) && nodes == NodesOf(s, w.rows) && k < |nodes|
    ensures NodeTells(s, nodes, w.truncated, CutBeforeLastChild(s, root, depth, limit, nodes[k].id), nodes[k])
  {
    RowTells(s, items, rs, root, depth, limit, w, k);
    RowTellsAsNode(s, root, depth, limit, w, k);
    assert nodes[k] == NodeOf(s, w.rows[k]);
  }

  /** A cut can drop a child that was counted as loaded: with room for one node, a root with one
      child is answered alone, its child neither listed nor announced, though the answer says it was cut. */
  lemma {:induction false} DroppedChildIsNotAnnounced() returns (s: Structure)
    ensures "a" in s.items && LiveChildren(s, "a") == ["b"]
    ensures var w := ReadingOf(s, "a", 2, 1);
            w.truncated && NodesOf(s, w.rows) == [Node("a", 0, None, 1, 1, false)]
  {
    var up := Relation("1", PART_OF, "b", "a", None);
    var items := map["a" := Item("a", "outcome", false), "b" := Item("b", "action", false)];
    s := Structure(items, map["a" := [up]], map["b" := up], []);
    assert LiveSources(s.items, [up], 1) == LiveSources(s.items, [up], 0) + ["b"];
    var g, w := LiveGraph(s), Start("a");
    LiveGraphIsClosed(s);
    assert g["a"] == ["b"] && Loaded(g, 2, 1, w) == 1;
    var w' := Step(g, 2, 1, w);
    assert |w'.log| == 2 && w'.stopped && w'.truncated;
    assert w'.rows == [Row("a", 0, 1, 1)];
    assert Run(g, 2, 1, w) == Run(g, 2, 1, w') == w';
  }

  // ---- Up: the chain to the top ----

  ghost predicate ReadUp(s: Structure, x: Id, up: seq<AncestryStep>) {
    Climbed(s, x, up) && LeavesEachOnce(up) && ClimbEnds(s, x, up)
  }

  lemma {:induction false} ClimbDoesNotReturn(s: Structure, x: Id, up: seq<AncestryStep>, j: nat)
    requires ReadUp(s, x, up) && Acyclic(PartOf(s)) && j < |up|
    ensures up[j].childId != Standing(x, up)
  {
    StandingIsUp(s, x, up);
    assert ClimbStep(s, x, j, up[j]);
    if up[j].childId == Standing(x, up) { LoopAt(PartOf(s), x, j, |up|, Standing(x, up)); }
  }

  /** On a forest the chain climbs link by link to an item with no parent, as high as the plan is. */
  lemma {:induction false} AncestryReachesTheTop(s: Structure, items: seq<Item>, rs: seq<Relation>, x: Id,
      up: seq<AncestryStep>)
    requires ForestPlan(s, items, rs) && ReadUp(s, x, up)
    ensures |up| == Height(PartOf(s), x)
    ensures Standing(x, up) !in PartOf(s)
    ensures forall j :: 0 <= j < |up| ==> up[j].childId == (if j == 0 then x else up[j - 1].id)
    ensures forall j :: 0 <= j < |up| ==> Up(PartOf(s), x, j + 1) == Some(up[j].id)
  {
    var p, c := PartOf(s), Standing(x, up);
    StandingIsUp(s, x, up);
    if c in p {
      UpwardIndex(s, items, rs, c, p[c]);
      forall j: nat | j < |up| ensures up[j].childId != c { ClimbDoesNotReturn(s, x, up, j); }
    }
    HeightIsUnique(p, x, |up|);
    forall j | 0 <= j < |up|
      ensures up[j].childId == (if j == 0 then x else up[j - 1].id) && Up(p, x, j + 1) == Some(up[j].id)
    {
      assert ClimbStep(s, x, j, up[j]);
      UpAdd(p, x, j, 1);
      assert Up(p, up[j].childId, 1) == Some(up[j].id);
      if j > 0 {
        assert ClimbStep(s, x, j - 1, up[j - 1]);
        UpAdd(p, x, j - 1, 1);
        assert Up(p, up[j - 1].childId, 1) == Some(up[j - 1].id);
      }
    }
  }

  /** x is at depth d of an untruncated `Subtree` of root exactly when root is the d-th
      entry of `Ancestry` of x, and x and everything strictly between are not archived. */
  lemma {:induction false} DownAndUpReadTheSame(s: Structure, items: seq<Item>, rs: seq<Relation>, root: Id,
      depth: nat, limit: nat, x: Id, d: nat, up: seq<AncestryStep>)
    requires ForestPlan(s, items, rs) && root in s.items && limit >= 1 && ReadUp(s, x, up)
    requires !ReadingOf(s, root, depth, limit).truncated && d >= 1
    ensures var nodes := NodesOf(s, ReadingOf(s, root, depth, limit).rows);
            (exists k :: 0 <= k < |nodes| && nodes[k].id == x && nodes[k].depth == d) <==>
            && d <= depth && d <= |up| && up[d - 1].id == root
            && Live(s.items, x) && forall j :: 0 <= j < d - 1 ==> Live(s.items, up[j].id)
  {
    var g, p, live, w := LiveGraph(s), PartOf(s), LiveIds(s), ReadingOf(s, root, depth, limit);
    LiveGraphIsClosed(s);
    PlanIsForest(s, items, rs);
    AncestryReachesTheTop(s, items, rs, x, up);
    DownAndUpAgree(g, p, live, root, depth, limit, x, d);
    assert Up(p, x, 0) == Some(x);
    if Up(p, x, d).Some? { UpIsWithin(p, x, d); }
    if d <= |up| { LiveBelowIs(s, x, d, up); }
    NodeForRow(s, w.rows, x, d);
  }

  lemma {:induction false} NodeForRow(s: Structure, rows: seq<Row>, x: Id, d: nat)
    ensures var nodes := NodesOf(s, rows);
            (exists k :: 0 <= k < |nodes| && nodes[k].id == x && nodes[k].depth == d) <==>
            (exists k :: 0 <= k < |rows| && rows[k].id == x && rows[k].level == d)
  {
    var nodes := NodesOf(s, rows);
    if k :| 0 <= k < |nodes| && nodes[k].id == x && nodes[k].depth == d {
      assert rows[k].id == x && rows[k].level == d;
    }
    if k :| 0 <= k < |rows| && rows[k].id == x && rows[k].level == d { assert nodes[k].id == x && nodes[k].depth == d; }
  }

  lemma {:induction false} UpIsWithin(p: Parents, x: Id, d: nat)
    requires Acyclic(p) && Up(p, x, d).Some?
    ensures d <= Height(p, x)
  {
    if d > Height(p, x) { UpDefinedBelow(p, x, Height(p, x), d); }
  }

  lemma {:induction false} LiveBelowIs(s: Structure, x: Id, d: nat, up: seq<AncestryStep>)
    requires 1 <= d <= |up| && forall j :: 0 <= j < |up| ==> Up(PartOf(s), x, j + 1) == Some(up[j].id)
    ensures LiveBelow(PartOf(s), LiveIds(s), x, d) <==>
            Live(s.items, x) && forall j :: 0 <= j < d - 1 ==> Live(s.items, up[j].id)
  {
    var p, live := PartOf(s), LiveIds(s);
    assert Up(p, x, 0) == Some(x);
    if LiveBelow(p, live, x, d) {
      forall j | 0 <= j < d - 1 ensures Live(s.items, up[j].id) { assert Up(p, x, j + 1) == Some(up[j].id); }
    }
    if Live(s.items, x) && forall j :: 0 <= j < d - 1 ==> Live(s.items, up[j].id) {
      forall j: nat | j < d ensures Up(p, x, j).Some? && Up(p, x, j).value in live {
        if j > 0 { assert Up(p, x, (j - 1) + 1) == Some(up[j - 1].id); }
      }
    }
  }

  // ---- A chain that runs into a cycle ----

  /** Nothing below the top of a chain lies on a cycle. */
  lemma {:induction false} TopEndsCycles(p: Parents, a: Id, q: nat, k: nat, t: Id)
    requires q >= 1 && Up(p, a, q) == Some(a) && t !in p
    ensures Up(p, a, k) != Some(t)
    decreases k
  {
    if k < q { UpDefinedBelow(p, a, k, q); }
    else {
      UpAdd(p, a, q, k - q);
      TopEndsCycles(p, a, q, k - q, t);
    }
  }

  /** A climb that returns to a later item than x never returns to x. */
  lemma {:induction false} NeverBackToStart(p: Parents, x: Id, j: nat, m: nat, q: nat)
    requires 1 <= j < m && Up(p, x, j).Some? && Up(p, x, j) == Up(p, x, m)
    requires forall i: nat :: 1 <= i < m ==> Up(p, x, i) != Some(x)
    requires q >= 1
    ensures Up(p, x, q) != Some(x)
    decreases q
  {
    if q > m {
      UpAdd(p, x, m, q - m);
      UpAdd(p, x, j, q - m);
      NeverBackToStart(p, x, j, m, j + (q - m));
    }
  }

  lemma {:induction false} ChainLinks(s: Structure, x: Id, up: seq<AncestryStep>, j: nat)
    requires Climbed(s, x, up) && j < |up|
    ensures Up(PartOf(s), x, j) == Some(up[j].childId) && Up(PartOf(s), x, j + 1) == Some(up[j].id)
    ensures up[j].childId in s.parent && (j + 1 < |up| ==> up[j].id == up[j + 1].childId)
  {
    assert ClimbStep(s, x, j, up[j]);
    UpAdd(PartOf(s), x, j, 1);
    assert Up(PartOf(s), up[j].childId, 1) == Some(up[j].id);
    if j + 1 < |up| { assert ClimbStep(s, x, j + 1, up[j + 1]); }
  }

  ghost predicate NamesTwice(up: seq<AncestryStep>) {
    exists i, j :: 0 <= i < j < |up| && up[i].id == up[j].id
  }

  ghost predicate CycleAbove(p: Parents, x: Id) {
    exists a :: Ancestor(p, a, x) && Ancestor(p, a, a)
  }

  lemma {:induction false} NamesOnce(s: Structure, x: Id, up: seq<AncestryStep>)
    requires Climbed(s, x, up) && LeavesEachOnce(up)
    requires forall j :: 1 <= j < |up| ==> up[j].childId != Standing(x, up)
    ensures !NamesTwice(up)
  {
    forall i, j | 0 <= i < j < |up| ensures up[i].id != up[j].id {
      ChainLinks(s, x, up, i);
      ChainLinks(s, x, up, j);
      assert up[i + 1].childId == up[i].id;
      if j + 1 < |up| { assert up[j + 1].childId == up[j].id; }
    }
  }

  lemma {:induction false} ToppedChain(s: Structure, x: Id, up: seq<AncestryStep>)
    requires ReadUp(s, x, up) && Standing(x, up) !in s.parent
    ensures !NamesTwice(up) && !CycleAbove(PartOf(s), x)
  {
    var p, c := PartOf(s), Standing(x, up);
    forall j | 1 <= j < |up| ensures up[j].childId != c { ChainLinks(s, x, up, j); }
    NamesOnce(s, x, up);
    StandingIsUp(s, x, up);
    if CycleAbove(p, x) {
      var a :| Ancestor(p, a, x) && Ancestor(p, a, a);
      var i: nat :| i >= 1 && Up(p, x, i) == Some(a);
      var q: nat :| q >= 1 && Up(p, a, q) == Some(a);
      if i > |up| { UpDefinedBelow(p, x, |up|, i); }
      UpAdd(p, x, i, |up| - i);
      TopEndsCycles(p, a, q, |up| - i, c);
    }
  }

  lemma {:induction false} ReturnedChain(s: Structure, x: Id, up: seq<AncestryStep>, j: nat)
    requires ReadUp(s, x, up) && j < |up| && up[j].childId == Standing(x, up)
    ensures NamesTwice(up) <==> j >= 1
    ensures Ancestor(PartOf(s), x, x) <==> j == 0
    ensures CycleAbove(PartOf(s), x)
  {
    var p, c, m := PartOf(s), Standing(x, up), |up|;
    StandingIsUp(s, x, up);
    ChainLinks(s, x, up, j);
    LoopAt(p, x, j, m, c);
    assert Ancestor(p, c, x);
    if j == 0 {
      NamesOnce(s, x, up);
    } else {
      ChainLinks(s, x, up, j - 1);
      assert up[j - 1].id == up[m - 1].id;
      forall i: nat | 1 <= i < m ensures Up(p, x, i) != Some(x) {
        ChainLinks(s, x, up, 0);
        ChainLinks(s, x, up, i);
      }
      forall q: nat | q >= 1 ensures Up(p, x, q) != Some(x) { NeverBackToStart(p, x, j, m, q); }
    }
  }

  lemma {:induction false} LassoWhereAllIsStored(s: Structure, x: Id, up: seq<AncestryStep>)
    requires ReadUp(s, x, up) && (forall c :: c in s.parent ==> s.parent[c].target in s.items)
    ensures NamesTwice(up) <==> !Ancestor(PartOf(s), x, x) && CycleAbove(PartOf(s), x)
  {
    var c := Standing(x, up);
    if c !in s.parent {
      ToppedChain(s, x, up);
    } else {
      var j :| 0 <= j < |up| && up[j].childId == c;
      ReturnedChain(s, x, up, j);
    }
  }

  /** The links upward that lead to a stored item: the others are not followed. */
  ghost function StoredLinks(s: Structure): map<Id, Relation> {
    map x | x in s.parent && s.parent[x].target in s.items :: s.parent[x]
  }

  lemma {:induction false} ClimbsStoredLinks(s: Structure, x: Id, up: seq<AncestryStep>, n: nat)
    requires Climbed(s, x, up) && n <= |up|
    ensures var t := s.(parent := StoredLinks(s));
            Up(PartOf(t), x, n) == Up(PartOf(s), x, n) && Climbed(t, x, up[..n])
  {
    var t := s.(parent := StoredLinks(s));
    if n > 0 {
      ClimbsStoredLinks(s, x, up, n - 1);
      assert ClimbStep(s, x, n - 1, up[n - 1]);
      UpAdd(PartOf(s), x, n - 1, 1);
      UpAdd(PartOf(t), x, n - 1, 1);
      var c := up[n - 1].childId;
      assert Up(PartOf(s), c, 1) == Some(up[n - 1].id) == Up(PartOf(t), c, 1);
      forall j | 0 <= j < n ensures ClimbStep(t, x, j, up[..n][j]) {
        if j < n - 1 { assert up[..n - 1][j] == up[j]; }
      }
    }
  }

  /** On any data the chain names an item twice exactly when, along the links that lead to stored items, x lies on
      no cycle but something above it does. */
  lemma {:induction false} ChainRepeatsOnlyOnALasso(s: Structure, x: Id, up: seq<AncestryStep>)
    requires ReadUp(s, x, up)
    ensures var p := PartOf(s.(parent := StoredLinks(s)));
            NamesTwice(up) <==> !Ancestor(p, x, x) && CycleAbove(p, x)
  {
    ClimbsStoredLinks(s, x, up, |up|);
    assert up[..|up|] == up;
    LassoWhereAllIsStored(s.(parent := StoredLinks(s)), x, up);
  }
}
