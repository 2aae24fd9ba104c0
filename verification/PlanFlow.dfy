// The plan drawing embedded in a chat host: the same geometry, computed with a
// table of widths that is written once and read back while placing.
module PlanFlow {
  import opened Basics
  import opened TreeLayout

  const NODE_WIDTH: nat := 196
  const NODE_HEIGHT: nat := 82
  const HORIZONTAL_GAP: nat := 28
  const VERTICAL_GAP: nat := 48

  datatype PlanNode = PlanNode(id: Id, children: seq<PlanNode>)

  type Widths = map<Id, int>

  function ChildrenOf(node: PlanNode, closed: set<Id>): (kids: seq<PlanNode>)
    ensures kids == node.children || kids == node.children[..0]
  {
    if node.id in closed then node.children[..0] else node.children
  }

  /** The drawn part of a plan: every card has the same size. */
  function Visible(node: PlanNode, closed: set<Id>): Tree
    decreases node, 1
  {
    Node(node.id, NODE_WIDTH, NODE_HEIGHT, VisibleAll(ChildrenOf(node, closed), closed))
  }

  function VisibleAll(nodes: seq<PlanNode>, closed: set<Id>): seq<Tree>
    decreases nodes, 0
  {
    seq(|nodes|, k requires 0 <= k < |nodes| => Visible(nodes[k], closed))
  }

  function WidthOr(w: Widths, id: Id): int {
    if id in w then w[id] else NODE_WIDTH
  }

  /** Gaps between n siblings; none when there are no siblings at all. */
  function SiblingGaps(n: nat): int {
    Max(0, n - 1) * HORIZONTAL_GAP
  }

  // ---- What the table holds after measuring ----

  function CacheTree(w: Widths, t: Tree): Widths
    decreases t, 1, 0
  {
    CacheRow(w, t.children, 0)[t.id := Measure(t, HORIZONTAL_GAP)]
  }

  function CacheRow(w: Widths, ts: seq<Tree>, i: nat): Widths
    requires i <= |ts|
    decreases ts, 0, |ts| - i
  {
    if i == |ts| then w else CacheRow(CacheTree(w, ts[i]), ts, i + 1)
  }

  /** The table gives every node of the tree the width of its own strip. */
  ghost predicate Exact(w: Widths, t: Tree)
    decreases t
  {
    && t.id in w && w[t.id] == Measure(t, HORIZONTAL_GAP)
    && forall k :: 0 <= k < |t.children| ==> Exact(w, t.children[k])
  }

  ghost predicate Agree(w: Widths, w': Widths, x: Id) {
    (x in w <==> x in w') && (x in w ==> w'[x] == w[x])
  }

  lemma {:induction false} CacheTreeKeeps(w: Widths, t: Tree, x: Id)
    requires x !in Ids(t)
    ensures Agree(w, CacheTree(w, t), x)
    decreases t, 1, 0
  {
    CacheRowKeeps(w, t.children, 0, x);
  }

  lemma {:induction false} CacheRowKeeps(w: Widths, ts: seq<Tree>, i: nat, x: Id)
    requires i <= |ts| && x !in RowIds(ts, i)
    ensures Agree(w, CacheRow(w, ts, i), x)
    decreases ts, 0, |ts| - i
  {
    if i < |ts| {
      CacheTreeKeeps(w, ts[i], x);
      CacheRowKeeps(CacheTree(w, ts[i]), ts, i + 1, x);
    }
  }

  lemma {:induction false} ExactIsLocal(w: Widths, w': Widths, t: Tree)
    requires Exact(w, t) && forall x :: x in Ids(t) ==> Agree(w, w', x)
    ensures Exact(w', t)
    decreases t
  {
    assert t.id in Ids(t);
    forall k | 0 <= k < |t.children| ensures Exact(w', t.children[k]) {
      RowIdsContain(t.children, 0, k);
      ExactIsLocal(w, w', t.children[k]);
    }
  }

  lemma {:induction false} RowIdsContain(ts: seq<Tree>, i: nat, k: nat)
    requires i <= k < |ts|
    ensures forall x :: x in Ids(ts[k]) ==> x in RowIds(ts, i)
    decreases k - i
  {
    if i < k { RowIdsContain(ts, i + 1, k); }
  }

  lemma NoDupParts(a: seq<Id>, b: seq<Id>)
    requires NoDup(a + b)
    ensures NoDup(a) && NoDup(b) && forall x :: x in a ==> x !in b
  {
    var s := a + b;
    assert forall i :: 0 <= i < |a| ==> s[i] == a[i];
    assert forall i :: 0 <= i < |b| ==> s[|a| + i] == b[i];
  }

  /** When ids are unique, measuring fills the table exactly. */
  lemma {:induction false} MeasuringIsExact(w: Widths, t: Tree)
    requires NoDup(Ids(t))
    ensures Exact(CacheTree(w, t), t)
    decreases t, 1, 0
  {
    NoDupParts([t.id], RowIds(t.children, 0));
    RowMeasuringIsExact(w, t.children, 0);
    var w1 := CacheRow(w, t.children, 0);
    forall k | 0 <= k < |t.children| ensures Exact(CacheTree(w, t), t.children[k]) {
      RowIdsContain(t.children, 0, k);
      assert t.id in [t.id];
      ExactIsLocal(w1, CacheTree(w, t), t.children[k]);
    }
  }

  lemma {:induction false} RowMeasuringIsExact(w: Widths, ts: seq<Tree>, i: nat)
    requires i <= |ts| && NoDup(RowIds(ts, i))
    ensures forall k :: i <= k < |ts| ==> Exact(CacheRow(w, ts, i), ts[k])
    decreases ts, 0, |ts| - i
  {
    if i < |ts| {
      NoDupParts(Ids(ts[i]), RowIds(ts, i + 1));
      MeasuringIsExact(w, ts[i]);
      var w1 := CacheTree(w, ts[i]);
      RowMeasuringIsExact(w1, ts, i + 1);
      forall x | x in Ids(ts[i]) ensures Agree(w1, CacheRow(w1, ts, i + 1), x) {
        CacheRowKeeps(w1, ts, i + 1, x);
      }
      ExactIsLocal(w1, CacheRow(w, ts, i), ts[i]);
    }
  }

  // ---- What placing pushes, read from the table ----

  /** A node as it is pushed: its card, and the top of its row. */
  datatype FlowNode = FlowNode(card: Card, y: int)

  datatype Graph = Graph(nodes: seq<FlowNode>, edges: seq<Edge>)

  /** Every row is as high as every other. */
  function OnRows(cs: seq<Card>): (ns: seq<FlowNode>)
    ensures |ns| == |cs|
    ensures forall i :: 0 <= i < |cs| ==> ns[i] == FlowNode(cs[i], cs[i].depth * (NODE_HEIGHT + VERTICAL_GAP))
  {
    seq(|cs|, i requires 0 <= i < |cs| => FlowNode(cs[i], cs[i].depth * (NODE_HEIGHT + VERTICAL_GAP)))
  }

  lemma OnRowsAppend(a: seq<Card>, b: seq<Card>)
    ensures OnRows(a + b) == OnRows(a) + OnRows(b)
  {
  }

  function AddNode(g: Graph, id: Id, left2: int, depth: nat, parent: Option<Id>, w: Widths): Graph {
    var card := Card(id, left2 + WidthOr(w, id) - NODE_WIDTH, NODE_WIDTH, NODE_HEIGHT, depth);
    Graph(g.nodes + [FlowNode(card, depth * (NODE_HEIGHT + VERTICAL_GAP))],
          if parent.Some? then g.edges + [Edge(parent.value, id)] else g.edges)
  }

  function SumWidths(nodes: seq<PlanNode>, i: nat, w: Widths): int
    requires i <= |nodes|
    decreases |nodes| - i
  {
    if i == |nodes| then 0 else WidthOr(w, nodes[i].id) + SumWidths(nodes, i + 1, w)
  }

  function AfterNode2(node: PlanNode, left2: int, w: Widths): int {
    left2 + 2 * (WidthOr(w, node.id) + HORIZONTAL_GAP)
  }

  function FirstBelow2(node: PlanNode, left2: int, closed: set<Id>, w: Widths): int {
    var kids := ChildrenOf(node, closed);
    left2 + WidthOr(w, node.id) - (SumWidths(kids, 0, w) + SiblingGaps(|kids|))
  }

  function AddSubtree(g: Graph, node: PlanNode, left2: int, depth: nat, parent: Option<Id>, closed: set<Id>,
      w: Widths): Graph
    decreases node, 1, 0
  {
    AddRow(AddNode(g, node.id, left2, depth, parent, w),
           ChildrenOf(node, closed), 0, FirstBelow2(node, left2, closed, w), depth + 1, Some(node.id), closed, w)
  }

  function AddRow(g: Graph, nodes: seq<PlanNode>, i: nat, left2: int, depth: nat, parent: Option<Id>,
      closed: set<Id>, w: Widths): Graph
    requires i <= |nodes|
    decreases nodes, 0, |nodes| - i
  {
    if i == |nodes| then g
    else AddRow(AddSubtree(g, nodes[i], left2, depth, parent, closed, w),
                nodes, i + 1, AfterNode2(nodes[i], left2, w), depth, parent, closed, w)
  }

  lemma {:induction false} SumWidthsIsTotal(nodes: seq<PlanNode>, i: nat, closed: set<Id>, w: Widths)
    requires i <= |nodes|
    requires forall k :: 0 <= k < |nodes| ==> Exact(w, VisibleAll(nodes, closed)[k])
    ensures SumWidths(nodes, i, w) == Total(VisibleAll(nodes, closed), i, HORIZONTAL_GAP)
    decreases |nodes| - i
  {
    if i < |nodes| {
      assert Exact(w, VisibleAll(nodes, closed)[i]);
      SumWidthsIsTotal(nodes, i + 1, closed, w);
    }
  }

  /** Read from an exact table, placing draws the shared geometry. */
  lemma {:induction false} SubtreeFromTable(g: Graph, node: PlanNode, left2: int, depth: nat, parent: Option<Id>,
      closed: set<Id>, w: Widths)
    requires Exact(w, Visible(node, closed))
    ensures var t := Visible(node, closed);
            AddSubtree(g, node, left2, depth, parent, closed, w)
            == Graph(g.nodes + OnRows(Cards(t, left2, depth, HORIZONTAL_GAP)), g.edges + Edges(t, parent))
    decreases node, 1, 0
  {
    var t := Visible(node, closed);
    var kids := ChildrenOf(node, closed);
    assert t.children == VisibleAll(kids, closed);
    forall k | 0 <= k < |kids| ensures Exact(w, VisibleAll(kids, closed)[k]) {
      assert Exact(w, t.children[k]);
    }
    SumWidthsIsTotal(kids, 0, closed, w);
    var first := FirstBelow2(node, left2, closed, w);
    var card := [CardOf(t, left2, depth, HORIZONTAL_GAP)];
    var g1 := AddNode(g, node.id, left2, depth, parent, w);
    var link := if parent.Some? then [Edge(parent.value, t.id)] else [];
    assert g1.nodes == g.nodes + OnRows(card) && g1.edges == g.edges + link;
    RowFromTable(g1, kids, 0, first, depth + 1, Some(node.id), closed, w);
    Joined(g, card, RowCards(t.children, 0, first, depth + 1, HORIZONTAL_GAP), link,
      RowEdges(t.children, 0, Some(t.id)));
    if kids != [] {
      assert first == FirstChild2(t, left2, HORIZONTAL_GAP);
    }
  }

  lemma {:induction false} RowFromTable(g: Graph, nodes: seq<PlanNode>, i: nat, left2: int, depth: nat,
      parent: Option<Id>, closed: set<Id>, w: Widths)
    requires i <= |nodes|
    requires forall k :: 0 <= k < |nodes| ==> Exact(w, VisibleAll(nodes, closed)[k])
    ensures var ts := VisibleAll(nodes, closed);
            AddRow(g, nodes, i, left2, depth, parent, closed, w)
            == Graph(g.nodes + OnRows(RowCards(ts, i, left2, depth, HORIZONTAL_GAP)), g.edges + RowEdges(ts, i, parent))
    decreases nodes, 0, |nodes| - i
  {
    var ts := VisibleAll(nodes, closed);
    if i < |nodes| {
      var t, next := ts[i], AfterNode2(nodes[i], left2, w);
      assert Exact(w, t) && t == Visible(nodes[i], closed) && next == NextSibling2(t, left2, HORIZONTAL_GAP);
      SubtreeFromTable(g, nodes[i], left2, depth, parent, closed, w);
      var g1 := AddSubtree(g, nodes[i], left2, depth, parent, closed, w);
      RowFromTable(g1, nodes, i + 1, next, depth, parent, closed, w);
      Joined(g, Cards(t, left2, depth, HORIZONTAL_GAP), RowCards(ts, i + 1, next, depth, HORIZONTAL_GAP),
             Edges(t, parent), RowEdges(ts, i + 1, parent));
    }
  }

  /** Pushing some cards and links and then others is pushing them all. */
  lemma {:induction false} Joined(g: Graph, a: seq<Card>, b: seq<Card>, es: seq<Edge>, fs: seq<Edge>)
    ensures (g.nodes + OnRows(a)) + OnRows(b) == g.nodes + OnRows(a + b)
    ensures (g.edges + es) + fs == g.edges + (es + fs)
  {
    OnRowsAppend(a, b);
    ConcatAssoc(g.nodes, OnRows(a), OnRows(b));
    ConcatAssoc(g.edges, es, fs);
  }

  /** The drawing the table produces. */
  function FlowGraph(roots: seq<PlanNode>, closed: set<Id>): Graph {
    AddRow(Graph([], []), roots, 0, 0, 0, None, closed, CacheRow(map[], VisibleAll(roots, closed), 0))
  }

  /** With unique ids the cached drawing is the uncached recursive one, and the fallback width is never read. */
  lemma CacheMatchesRecursion(roots: seq<PlanNode>, closed: set<Id>)
    requires NoDup(RowIds(VisibleAll(roots, closed), 0))
    ensures var ts := VisibleAll(roots, closed);
            && FlowGraph(roots, closed) == Graph(OnRows(RowCards(ts, 0, 0, 0, HORIZONTAL_GAP)), RowEdges(ts, 0, None))
            && forall x :: x in RowIds(ts, 0) ==> x in CacheRow(map[], ts, 0)
  {
    var ts := VisibleAll(roots, closed);
    RowMeasuringIsExact(map[], ts, 0);
    RowFromTable(Graph([], []), roots, 0, 0, 0, None, closed, CacheRow(map[], ts, 0));
    TableCoversRow(map[], ts, 0);
  }

  lemma {:induction false} TableCoversTree(w: Widths, t: Tree)
    ensures forall x :: x in Ids(t) || x in w ==> x in CacheTree(w, t)
    decreases t, 1, 0
  {
    TableCoversRow(w, t.children, 0);
  }

  lemma {:induction false} TableCoversRow(w: Widths, ts: seq<Tree>, i: nat)
    requires i <= |ts|
    ensures forall x :: x in RowIds(ts, i) || x in w ==> x in CacheRow(w, ts, i)
    decreases ts, 0, |ts| - i
  {
    if i < |ts| {
      TableCoversTree(w, ts[i]);
      TableCoversRow(CacheTree(w, ts[i]), ts, i + 1);
    }
  }

  /** Clear of each other: side by side on one row, or on rows that do not touch. */
  ghost predicate Clear(a: FlowNode, b: FlowNode) {
    if a.card.depth == b.card.depth then a.y == b.y && LeftOf(a.card, b.card, HORIZONTAL_GAP)
    else if a.card.depth < b.card.depth then a.y + NODE_HEIGHT + VERTICAL_GAP <= b.y
    else b.y + NODE_HEIGHT + VERTICAL_GAP <= a.y
  }

  /** With unique ids no two nodes come closer than the gaps. */
  lemma FlowIsClear(roots: seq<PlanNode>, closed: set<Id>, i: nat, j: nat)
    requires NoDup(RowIds(VisibleAll(roots, closed), 0))
    requires i < j < |FlowGraph(roots, closed).nodes|
    ensures Clear(FlowGraph(roots, closed).nodes[i], FlowGraph(roots, closed).nodes[j])
  {
    CacheMatchesRecursion(roots, closed);
    RowApart(VisibleAll(roots, closed), 0, 0, 0, HORIZONTAL_GAP);
  }

  /** Every visible id except those of the trees' own roots. */
  ghost function NonRootIds(ts: seq<Tree>, i: nat): seq<Id>
    requires i <= |ts|
    decreases |ts| - i
  {
    if i == |ts| then [] else RowIds(ts[i].children, 0) + NonRootIds(ts, i + 1)
  }

  lemma {:induction false} TargetsOfRoots(ts: seq<Tree>, i: nat)
    requires i <= |ts|
    ensures Targets(RowEdges(ts, i, None)) == NonRootIds(ts, i)
    decreases |ts| - i
  {
    if i < |ts| {
      OneEdgePerChild(ts[i], None);
      TargetsOfRoots(ts, i + 1);
      TargetsConcat(Edges(ts[i], None), RowEdges(ts, i + 1, None));
    }
  }

  lemma {:induction false} TargetsConcat(a: seq<Edge>, b: seq<Edge>)
    ensures Targets(a + b) == Targets(a) + Targets(b)
  {
  }

  ghost predicate IsRoot(ts: seq<Tree>, i: nat, x: Id) {
    exists k :: i <= k < |ts| && ts[k].id == x
  }

  lemma {:induction false} NonRootsAre(ts: seq<Tree>, i: nat)
    requires i <= |ts| && NoDup(RowIds(ts, i))
    ensures NoDup(NonRootIds(ts, i)) && |NonRootIds(ts, i)| == |RowIds(ts, i)| - (|ts| - i)
    ensures forall x :: x in NonRootIds(ts, i) <==> x in RowIds(ts, i) && !IsRoot(ts, i, x)
    decreases |ts| - i
  {
    if i < |ts| {
      NoDupParts(Ids(ts[i]), RowIds(ts, i + 1));
      NoDupParts([ts[i].id], RowIds(ts[i].children, 0));
      NonRootsAre(ts, i + 1);
      NoDupAppend(RowIds(ts[i].children, 0), NonRootIds(ts, i + 1));
      forall x ensures x in NonRootIds(ts, i) <==> x in RowIds(ts, i) && !IsRoot(ts, i, x) {
        RootStep(ts, i, x);
        RootsAreInTheRow(ts, i + 1, x);
        var below, rest := RowIds(ts[i].children, 0), NonRootIds(ts, i + 1);
        assert x in below + rest <==> x in below || x in rest;
        assert x in Ids(ts[i]) <==> x == ts[i].id || x in below;
        assert x in Ids(ts[i]) + RowIds(ts, i + 1) <==> x in Ids(ts[i]) || x in RowIds(ts, i + 1);
      }
    }
  }

  lemma {:induction false} RootStep(ts: seq<Tree>, i: nat, x: Id)
    requires i < |ts|
    ensures IsRoot(ts, i, x) <==> ts[i].id == x || IsRoot(ts, i + 1, x)
  {
  }

  lemma {:induction false} RootsAreInTheRow(ts: seq<Tree>, i: nat, x: Id)
    requires i <= |ts|
    ensures IsRoot(ts, i, x) ==> x in RowIds(ts, i)
  {
    if k :| i <= k < |ts| && ts[k].id == x {
      RowIdsContain(ts, i, k);
      assert x in Ids(ts[k]);
    }
  }

  ghost function NodeIds(ns: seq<FlowNode>): seq<Id> {
    seq(|ns|, i requires 0 <= i < |ns| => ns[i].card.id)
  }

  /** There is one card per visible node, and exactly one link to each that is not a root. */
  lemma {:induction false} OneLinkPerNonRoot(roots: seq<PlanNode>, closed: set<Id>)
    requires NoDup(RowIds(VisibleAll(roots, closed), 0))
    ensures var g, ts := FlowGraph(roots, closed), VisibleAll(roots, closed);
            && NodeIds(g.nodes) == RowIds(ts, 0)
            && |g.edges| == |g.nodes| - |roots|
            && NoDup(Targets(g.edges))
            && forall x :: x in Targets(g.edges) <==> x in RowIds(ts, 0) && !IsRoot(ts, 0, x)
  {
    var ts := VisibleAll(roots, closed);
    CacheMatchesRecursion(roots, closed);
    OneCardPerRowNode(ts, 0, 0, 0, HORIZONTAL_GAP);
    assert NodeIds(OnRows(RowCards(ts, 0, 0, 0, HORIZONTAL_GAP))) == CardIds(RowCards(ts, 0, 0, 0, HORIZONTAL_GAP));
    TargetsOfRoots(ts, 0);
    NonRootsAre(ts, 0);
  }

  /** y is the node or lies below it, and nothing above y in it is folded. */
  ghost predicate OpenTo(node: PlanNode, closed: set<Id>, y: Id)
    decreases node
  {
    || node.id == y
    || (node.id !in closed && exists k :: 0 <= k < |node.children| && OpenTo(node.children[k], closed, y))
  }

  lemma {:induction false} VisibleIsOpen(node: PlanNode, closed: set<Id>, y: Id)
    ensures y in Ids(Visible(node, closed)) <==> OpenTo(node, closed, y)
    decreases node
  {
    var kids := ChildrenOf(node, closed);
    var ts := VisibleAll(kids, closed);
    RowIdsMembers(ts, 0, y);
    forall k | 0 <= k < |kids| ensures y in Ids(ts[k]) <==> OpenTo(kids[k], closed, y) {
      VisibleIsOpen(kids[k], closed, y);
    }
    assert y in Ids(Visible(node, closed)) <==> y == node.id || y in RowIds(ts, 0);
    if node.id !in closed && OpenTo(node, closed, y) && y != node.id {
      var k :| 0 <= k < |node.children| && OpenTo(node.children[k], closed, y);
      assert y in Ids(ts[k]);
    }
  }

  /** Exactly the nodes nothing folded lies above have a card. */
  lemma {:induction false} CardExactlyWhenOpen(roots: seq<PlanNode>, closed: set<Id>, y: Id)
    requires NoDup(RowIds(VisibleAll(roots, closed), 0))
    ensures (exists k :: 0 <= k < |FlowGraph(roots, closed).nodes| && FlowGraph(roots, closed).nodes[k].card.id == y)
            <==> exists r :: 0 <= r < |roots| && OpenTo(roots[r], closed, y)
  {
    var g, ts := FlowGraph(roots, closed), VisibleAll(roots, closed);
    OneLinkPerNonRoot(roots, closed);
    RowIdsMembers(ts, 0, y);
    forall r | 0 <= r < |roots| ensures y in Ids(ts[r]) <==> OpenTo(roots[r], closed, y) {
      VisibleIsOpen(roots[r], closed, y);
    }
    NodeIdsMember(g.nodes, y);
    if r :| 0 <= r < |roots| && OpenTo(roots[r], closed, y) { assert y in Ids(ts[r]); }
  }

  lemma {:induction false} NodeIdsMember(ns: seq<FlowNode>, y: Id)
    ensures y in NodeIds(ns) <==> exists k :: 0 <= k < |ns| && ns[k].card.id == y
  {
    if k :| 0 <= k < |ns| && ns[k].card.id == y { assert NodeIds(ns)[k] == y; }
  }

  lemma {:induction false} VisibleIsSized(node: PlanNode, closed: set<Id>)
    ensures Sized(Visible(node, closed), _ => 196, 82)
    decreases node
  {
    var kids := ChildrenOf(node, closed);
    var ts := VisibleAll(kids, closed);
    forall t | t in ts ensures Sized(t, _ => 196, 82) {
      var k :| 0 <= k < |ts| && ts[k] == t;
      VisibleIsSized(kids[k], closed);
    }
  }

  /** Every card is 196 by 82, on a row 130 below the one above. */
  lemma {:induction false} CardsStandOnRows(roots: seq<PlanNode>, closed: set<Id>, k: nat)
    requires NoDup(RowIds(VisibleAll(roots, closed), 0)) && k < |FlowGraph(roots, closed).nodes|
    ensures var n := FlowGraph(roots, closed).nodes[k];
            n.card.width == 196 && n.card.height == 82 && n.y == 130 * n.card.depth
  {
    var ts := VisibleAll(roots, closed);
    CacheMatchesRecursion(roots, closed);
    forall t | t in ts ensures Sized(t, _ => 196, 82) {
      var i :| 0 <= i < |ts| && ts[i] == t;
      VisibleIsSized(roots[i], closed);
    }
    var cs := RowCards(ts, 0, 0, 0, HORIZONTAL_GAP);
    RowKeepsSizes(ts, 0, 0, 0, HORIZONTAL_GAP, _ => 196, 82);
    assert cs[k] in cs && FlowGraph(roots, closed).nodes[k].card == cs[k];
  }

  /** The arrays and the width table one call of the builder fills. */
  class FlowBuilder {
    var nodes: seq<FlowNode>
    var edges: seq<Edge>
    var widths: Widths
    const closed: set<Id>

    constructor (closed: set<Id>)
      ensures this.closed == closed && nodes == [] && edges == [] && widths == map[]
    {
      this.closed := closed;
      nodes, edges, widths := [], [], map[];
    }

    method MeasureNode(node: PlanNode) returns (width: int)
      modifies this`widths
      ensures width == Measure(Visible(node, closed), HORIZONTAL_GAP)
      ensures widths == CacheTree(old(widths), Visible(node, closed))
      decreases node, 1
    {
      var kids := ChildrenOf(node, closed);
      ghost var t := Visible(node, closed);
      assert t.children == VisibleAll(kids, closed);
      var childrenWidth := MeasureRow(kids);
      width := Max(NODE_WIDTH, childrenWidth + SiblingGaps(|kids|));
      widths := widths[node.id := width];
    }

    method MeasureRow(items: seq<PlanNode>) returns (total: int)
      modifies this`widths
      ensures total == Total(VisibleAll(items, closed), 0, HORIZONTAL_GAP)
      ensures widths == CacheRow(old(widths), VisibleAll(items, closed), 0)
      decreases items, 0
    {
      ghost var ts := VisibleAll(items, closed);
      ghost var filled := CacheRow(widths, ts, 0);
      total := 0;
      var i := 0;
      while i < |items|
        invariant 0 <= i <= |items|
        invariant total + Total(ts, i, HORIZONTAL_GAP) == Total(ts, 0, HORIZONTAL_GAP)
        invariant CacheRow(widths, ts, i) == filled
      {
        assert ts[i] == Visible(items[i], closed);
        var width := MeasureNode(items[i]);
        total := total + width;
        i := i + 1;
      }
    }

    method Place(node: PlanNode, left2: int, depth: nat, parent: Option<Id>)
      modifies this`nodes, this`edges
      ensures Graph(nodes, edges) == AddSubtree(Graph(old(nodes), old(edges)), node, left2, depth, parent, closed,
              widths)
      decreases node, 1
    {
      var width := WidthOr(widths, node.id);
      var kids := ChildrenOf(node, closed);
      var card := Card(node.id, left2 + width - NODE_WIDTH, NODE_WIDTH, NODE_HEIGHT, depth);
      nodes := nodes + [FlowNode(card, depth * (NODE_HEIGHT + VERTICAL_GAP))];
      if parent.Some? {
        edges := edges + [Edge(parent.value, node.id)];
      }
      var childrenWidth := 0;
      var i := 0;
      while i < |kids|
        invariant 0 <= i <= |kids|
        invariant childrenWidth + SumWidths(kids, i, widths) == SumWidths(kids, 0, widths)
      {
        childrenWidth := childrenWidth + WidthOr(widths, kids[i].id);
        i := i + 1;
      }
      PlaceRow(kids, left2 + width - (childrenWidth + SiblingGaps(|kids|)), depth + 1, Some(node.id));
    }

    method PlaceRow(items: seq<PlanNode>, left2: int, depth: nat, parent: Option<Id>)
      modifies this`nodes, this`edges
      ensures Graph(nodes, edges) == AddRow(Graph(old(nodes), old(edges)), items, 0, left2, depth, parent, closed,
              widths)
      decreases items, 0
    {
      ghost var drawn := AddRow(Graph(nodes, edges), items, 0, left2, depth, parent, closed, widths);
      var cursor := left2;
      var i := 0;
      while i < |items|
        invariant 0 <= i <= |items|
        invariant AddRow(Graph(nodes, edges), items, i, cursor, depth, parent, closed, widths) == drawn
      {
        Place(items[i], cursor, depth, parent);
        cursor := AfterNode2(items[i], cursor, widths);
        i := i + 1;
      }
    }

    /** Measures every root, then places every root. */
    method Build(roots: seq<PlanNode>)
      requires nodes == [] && edges == [] && widths == map[]
      modifies this
      ensures Graph(nodes, edges) == FlowGraph(roots, closed)
    {
      var _ := MeasureRow(roots);
      PlaceRow(roots, 0, 0, None);
    }
  }
}
