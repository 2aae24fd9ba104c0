// The goal map's drawing: row heights, row positions, and one card and one
// link per visible item.
module GoalMap {
  import opened Basics
  import opened TreeLayout

  const GAP: nat := 22

  datatype CardKind = Goal | Initiative

  /** An item of the displayed tree; `parentId` is its displayed parent. */
  datatype TreeItem = TreeItem(id: Id, kind: CardKind, parentId: Option<Id>, children: seq<TreeItem>)

  datatype Size = Size(width: nat, height: nat)

  function NodeSize(item: TreeItem): Size {
    if item.kind == Goal then Size(184, 62) else Size(136, 62)
  }

  function ChildrenOf(item: TreeItem, closed: set<Id>): (kids: seq<TreeItem>)
    ensures forall k :: k in kids ==> k in item.children
  {
    if item.id in closed then [] else item.children
  }

  /** The part of the tree that is drawn when the ids in `closed` are folded. */
  function Visible(item: TreeItem, closed: set<Id>): Tree
    decreases item, 1
  {
    var kids := ChildrenOf(item, closed);
    assert kids == item.children || kids == item.children[..0];
    Node(item.id, NodeSize(item).width, NodeSize(item).height, VisibleAll(kids, closed))
  }

  function VisibleAll(items: seq<TreeItem>, closed: set<Id>): seq<Tree>
    decreases items, 0
  {
    seq(|items|, k requires 0 <= k < |items| => Visible(items[k], closed))
  }

  /** Width of an item's strip, summed over the children that are not folded away. */
  function MeasureItem(item: TreeItem, closed: set<Id>): int
    decreases item, 1, 0
  {
    var own := NodeSize(item).width;
    var kids := ChildrenOf(item, closed);
    assert kids == item.children || kids == item.children[..0];
    if kids == [] then own else Max(own, SumMeasures(kids, 0, closed) + GAP * (|kids| - 1))
  }

  /** Sum of the strips of the siblings from index i on. */
  function SumMeasures(items: seq<TreeItem>, i: nat, closed: set<Id>): int
    requires i <= |items|
    decreases items, 0, |items| - i
  {
    if i == |items| then 0 else MeasureItem(items[i], closed) + SumMeasures(items, i + 1, closed)
  }

  /** Where the first child of an item starts. */
  function FirstBelow2(item: TreeItem, left2: int, closed: set<Id>): int {
    var kids := ChildrenOf(item, closed);
    left2 + MeasureItem(item, closed) - (SumMeasures(kids, 0, closed) + GAP * (|kids| - 1))
  }

  /** Where the sibling after `item` starts. */
  function AfterItem2(item: TreeItem, left2: int, closed: set<Id>): int {
    left2 + 2 * (MeasureItem(item, closed) + GAP)
  }

  /** The map measures exactly the strips of the visible tree. */
  lemma {:induction false} MeasuresTheVisible(item: TreeItem, closed: set<Id>)
    ensures MeasureItem(item, closed) == Measure(Visible(item, closed), GAP)
    decreases item, 1, 0
  {
    var kids := ChildrenOf(item, closed);
    assert kids == item.children || kids == item.children[..0];
    MeasuresTheVisibleRow(kids, 0, closed);
  }

  lemma {:induction false} MeasuresTheVisibleRow(items: seq<TreeItem>, i: nat, closed: set<Id>)
    requires i <= |items|
    ensures SumMeasures(items, i, closed) == Total(VisibleAll(items, closed), i, GAP)
    decreases items, 0, |items| - i
  {
    if i < |items| {
      MeasuresTheVisible(items[i], closed);
      MeasuresTheVisibleRow(items, i + 1, closed);
    }
  }

  /** Children know the item they are displayed under. */
  ghost predicate WellLinked(item: TreeItem)
    decreases item
  {
    forall c :: c in item.children ==> c.parentId == Some(item.id) && WellLinked(c)
  }

  // ---- Row heights and row positions ----

  type Heights = map<nat, nat>

  datatype Cell = Cell(depth: nat, height: nat)

  function Cells(t: Tree, depth: nat): seq<Cell>
    decreases t, 1, 0
  {
    [Cell(depth, t.height)] + RowCells(t.children, 0, depth + 1)
  }

  function RowCells(ts: seq<Tree>, i: nat, depth: nat): seq<Cell>
    requires i <= |ts|
    decreases ts, 0, |ts| - i
  {
    if i == |ts| then [] else Cells(ts[i], depth) + RowCells(ts, i + 1, depth)
  }

  function HeightOr(m: Heights, d: nat, default: nat): nat {
    if d in m then m[d] else default
  }

  function RaiseTo(m: Heights, c: Cell): Heights {
    m[c.depth := Max(HeightOr(m, c.depth, 0), c.height)]
  }

  function Raise(m: Heights, cells: seq<Cell>): Heights
    decreases |cells|
  {
    if cells == [] then m else Raise(RaiseTo(m, cells[0]), cells[1..])
  }

  function RowY(m: Heights, depth: nat): int {
    if depth == 0 then 8
    else RowY(m, depth - 1) + HeightOr(m, depth - 1, 70) + (if depth - 1 == 0 then 45 else 38)
  }

  lemma {:induction false} RaiseAppend(m: Heights, a: seq<Cell>, b: seq<Cell>)
    ensures Raise(m, a + b) == Raise(Raise(m, a), b)
    decreases |a|
  {
    if a == [] {
      assert a + b == b;
    } else {
      assert (a + b)[1..] == a[1..] + b;
      RaiseAppend(RaiseTo(m, a[0]), a[1..], b);
    }
  }

  /** The measured height of a row is the tallest card on it. */
  lemma {:induction false} RaiseIsMaximum(m: Heights, cells: seq<Cell>, d: nat)
    ensures var r := Raise(m, cells);
            && (d in r <==> d in m || exists i :: 0 <= i < |cells| && cells[i].depth == d)
            && (d in m ==> m[d] <= r[d])
            && (forall i :: 0 <= i < |cells| && cells[i].depth == d ==> cells[i].height <= r[d])
            && (d in r ==> (d in m && r[d] == m[d]) || exists i :: 0 <= i < |cells| && cells[i] == Cell(d, r[d]))
    decreases |cells|
  {
    if cells != [] {
      RaiseIsMaximum(RaiseTo(m, cells[0]), cells[1..], d);
      assert cells == [cells[0]] + cells[1..];
      var r := Raise(m, cells);
      if i :| 0 <= i < |cells[1..]| && cells[1..][i].depth == d { assert cells[i + 1].depth == d; }
      if i :| d in r && 0 <= i < |cells[1..]| && cells[1..][i] == Cell(d, r[d]) {
        assert cells[i + 1] == Cell(d, r[d]);
      }
      assert d in r && d !in m && cells[0].depth == d && r[d] == cells[0].height ==> cells[0] == Cell(d, r[d]);
    }
  }

  /** Each row starts at least 38 below the bottom of any card that fits a row above. */
  lemma {:induction false} RowsDoNotTouch(m: Heights, d: nat, e: nat)
    requires d < e && d in m
    ensures RowY(m, d) + m[d] + 38 <= RowY(m, e)
    decreases e
  {
    if d < e - 1 { RowsDoNotTouch(m, d, e - 1); }
  }

  lemma {:induction false} CellsOfCards(t: Tree, left2: int, depth: nat)
    ensures CellsOf(Cards(t, left2, depth, GAP)) == Cells(t, depth)
    decreases t, 1, 0
  {
    CellsOfRow(t.children, 0, FirstChild2(t, left2, GAP), depth + 1);
  }

  lemma {:induction false} CellsOfRow(ts: seq<Tree>, i: nat, left2: int, depth: nat)
    requires i <= |ts|
    ensures CellsOf(RowCards(ts, i, left2, depth, GAP)) == RowCells(ts, i, depth)
    decreases ts, 0, |ts| - i
  {
    if i < |ts| {
      CellsOfCards(ts[i], left2, depth);
      CellsOfRow(ts, i + 1, NextSibling2(ts[i], left2, GAP), depth);
    }
  }

  function CellsOf(cs: seq<Card>): (cells: seq<Cell>)
    ensures |cells| == |cs|
    ensures forall i :: 0 <= i < |cs| ==> cells[i] == Cell(cs[i].depth, cs[i].height)
  {
    seq(|cs|, i requires 0 <= i < |cs| => Cell(cs[i].depth, cs[i].height))
  }

  // ---- The drawing ----

  /** A card with the top of the row it stands on. */
  datatype MapNode = MapNode(card: Card, y: int)

  function Drawn(cs: seq<Card>, m: Heights): (ns: seq<MapNode>)
    ensures |ns| == |cs|
    ensures forall i :: 0 <= i < |cs| ==> ns[i] == MapNode(cs[i], RowY(m, cs[i].depth))
  {
    seq(|cs|, i requires 0 <= i < |cs| => MapNode(cs[i], RowY(m, cs[i].depth)))
  }

  function MapHeights(tree: seq<TreeItem>, closed: set<Id>): Heights {
    Raise(map[], RowCells(VisibleAll(tree, closed), 0, 0))
  }

  function MapNodes(tree: seq<TreeItem>, closed: set<Id>): seq<MapNode> {
    Drawn(RowCards(VisibleAll(tree, closed), 0, 0, 0, GAP), MapHeights(tree, closed))
  }

  /** Beside each other with the gap between them, or on rows at least 38 apart. */
  ghost predicate ClearOf(a: MapNode, b: MapNode) {
    || (a.card.depth == b.card.depth && (LeftOf(a.card, b.card, GAP) || LeftOf(b.card, a.card, GAP)))
    || a.y + a.card.height + 38 <= b.y
    || b.y + b.card.height + 38 <= a.y
  }

  /** For every forest and every set of folded ids, no two placed cards overlap. */
  lemma NoTwoCardsOverlap(tree: seq<TreeItem>, closed: set<Id>, i: nat, j: nat)
    requires i < |MapNodes(tree, closed)| && j < |MapNodes(tree, closed)| && i != j
    ensures ClearOf(MapNodes(tree, closed)[i], MapNodes(tree, closed)[j])
  {
    var ts := VisibleAll(tree, closed);
    var cards := RowCards(ts, 0, 0, 0, GAP);
    RowApart(ts, 0, 0, 0, GAP);
    CellsOfRow(ts, 0, 0, 0);
    RaiseIsMaximum(map[], CellsOf(cards), cards[i].depth);
    RaiseIsMaximum(map[], CellsOf(cards), cards[j].depth);
    if cards[i].depth < cards[j].depth {
      RowsDoNotTouch(MapHeights(tree, closed), cards[i].depth, cards[j].depth);
    } else if cards[j].depth < cards[i].depth {
      RowsDoNotTouch(MapHeights(tree, closed), cards[j].depth, cards[i].depth);
    }
  }

  /** The fallback height 70 is never read: every row above a card has been measured. */
  lemma EveryRowAboveIsMeasured(tree: seq<TreeItem>, closed: set<Id>, i: nat, d: nat)
    requires i < |MapNodes(tree, closed)| && d <= MapNodes(tree, closed)[i].card.depth
    ensures d in MapHeights(tree, closed)
  {
    var ts := VisibleAll(tree, closed);
    var cards := RowCards(ts, 0, 0, 0, GAP);
    RowRowsAreFilled(ts, 0, 0, 0, GAP, cards[i], d);
    var e :| e in cards && e.depth == d;
    var k :| 0 <= k < |cards| && cards[k] == e;
    CellsOfRow(ts, 0, 0, 0);
    RaiseIsMaximum(map[], CellsOf(cards), d);
    assert CellsOf(cards)[k].depth == d;
  }

  /** The tallest card of the row above stands exactly 45 above the second row, 38 above any later one. */
  ghost predicate StandsUnder(ns: seq<MapNode>, j: nat)
    requires j < |ns|
  {
    var d, gap := ns[j].card.depth - 1, if ns[j].card.depth == 1 then 45 else 38;
    && (exists i :: 0 <= i < |ns| && ns[i].card.depth == d && ns[i].y + ns[i].card.height + gap == ns[j].y)
    && (forall i :: 0 <= i < |ns| && ns[i].card.depth == d ==> ns[i].y + ns[i].card.height + gap <= ns[j].y)
  }

  /** Rows are packed: the first starts at 8, and each later one as close under the row above as its gap allows. */
  lemma {:induction false} RowsArePacked(tree: seq<TreeItem>, closed: set<Id>, j: nat)
    requires j < |MapNodes(tree, closed)|
    ensures var ns := MapNodes(tree, closed);
            if ns[j].card.depth == 0 then ns[j].y == 8 else StandsUnder(ns, j)
  {
    var ns, cards, m := MapNodes(tree, closed), RowCards(VisibleAll(tree, closed), 0, 0, 0, GAP),
      MapHeights(tree, closed);
    if ns[j].card.depth > 0 {
      var d := ns[j].card.depth - 1;
      EveryRowAboveIsMeasured(tree, closed, j, d);
      CellsOfRow(VisibleAll(tree, closed), 0, 0, 0);
      RaiseIsMaximum(map[], CellsOf(cards), d);
      var i :| 0 <= i < |CellsOf(cards)| && CellsOf(cards)[i] == Cell(d, m[d]);
      assert ns[i].card.depth == d && ns[i].y == RowY(m, d) && ns[i].card.height == m[d];
      assert RowY(m, d + 1) == RowY(m, d) + m[d] + (if d == 0 then 45 else 38);
      forall k | 0 <= k < |ns| && ns[k].card.depth == d ensures ns[k].y == ns[i].y && ns[k].card.height <= m[d] {
        assert CellsOf(cards)[k].depth == d;
      }
    }
  }

  /** The arrays and the height table one rendering fills. */
  class MapDrawing {
    var nodes: seq<MapNode>
    var edges: seq<Edge>
    var depthHeights: Heights
    const closed: set<Id>

    constructor (closed: set<Id>)
      ensures this.closed == closed && nodes == [] && edges == [] && depthHeights == map[]
    {
      this.closed := closed;
      nodes, edges, depthHeights := [], [], map[];
    }

    method MeasureDepth(items: seq<TreeItem>, depth: nat)
      modifies this`depthHeights
      ensures depthHeights == Raise(old(depthHeights), RowCells(VisibleAll(items, closed), 0, depth))
      decreases items
    {
      ghost var ts := VisibleAll(items, closed);
      var i := 0;
      while i < |items|
        invariant 0 <= i <= |items|
        invariant Raise(depthHeights, RowCells(ts, i, depth)) == Raise(old(depthHeights), RowCells(ts, 0, depth))
      {
        var item := items[i];
        var kids := ChildrenOf(item, closed);
        assert kids == item.children || kids == item.children[..0];
        RaiseSubtree(depthHeights, ts, i, depth);
        assert ts[i] == Visible(item, closed) && ts[i].children == VisibleAll(kids, closed);
        depthHeights := depthHeights[depth := Max(HeightOr(depthHeights, depth, 0), NodeSize(item).height)];
        MeasureDepth(kids, depth + 1);
        i := i + 1;
      }
    }

    method RowTop(depth: nat) returns (y: int)
      ensures y == RowY(depthHeights, depth)
    {
      y := 8;
      var current := 0;
      while current < depth
        invariant 0 <= current <= depth
        invariant y == RowY(depthHeights, current)
      {
        var height := HeightOr(depthHeights, current, 70);
        y := y + height + (if current == 0 then 45 else 38);
        current := current + 1;
      }
    }

    /** Pushes the card and link of one item, then those below it. */
    method Place(item: TreeItem, left2: int, depth: nat)
      requires WellLinked(item)
      modifies this`nodes, this`edges
      ensures Drawing(nodes, edges)
              == AddSubtree(Drawing(old(nodes), old(edges)), item, left2, depth, closed, depthHeights)
      decreases item, 1
    {
      var width := MeasureItem(item, closed);
      var kids := ChildrenOf(item, closed);
      var size := NodeSize(item);
      var y := RowTop(depth);
      nodes := nodes + [MapNode(Card(item.id, left2 + width - size.width, size.width, size.height, depth), y)];
      if item.parentId.Some? && depth > 0 {
        edges := edges + [Edge(item.parentId.value, item.id)];
      }
      var childrenWidth := SumMeasures(kids, 0, closed) + GAP * (|kids| - 1);
      assert kids == item.children || kids == item.children[..0];
      PlaceRow(kids, left2 + width - childrenWidth, depth + 1);
    }

    /** Places siblings one after the other, advancing the cursor past each strip. */
    method PlaceRow(items: seq<TreeItem>, left2: int, depth: nat)
      requires forall r :: r in items ==> WellLinked(r)
      modifies this`nodes, this`edges
      ensures Drawing(nodes, edges)
              == AddRow(Drawing(old(nodes), old(edges)), items, 0, left2, depth, closed, depthHeights)
      decreases items, 0
    {
      var cursor := left2;
      ghost var drawn := AddRow(Drawing(nodes, edges), items, 0, left2, depth, closed, depthHeights);
      var i := 0;
      while i < |items|
        invariant 0 <= i <= |items|
        invariant AddRow(Drawing(nodes, edges), items, i, cursor, depth, closed, depthHeights) == drawn
      {
        var child := items[i];
        Place(child, cursor, depth);
        cursor := AfterItem2(child, cursor, closed);
        i := i + 1;
      }
    }

    method Draw(tree: seq<TreeItem>)
      requires forall r :: r in tree ==> WellLinked(r)
      requires nodes == [] && edges == [] && depthHeights == map[]
      modifies this
      ensures nodes == MapNodes(tree, closed)
      ensures edges == RowEdges(VisibleAll(tree, closed), 0, None)
    {
      MeasureDepth(tree, 0);
      PlaceRow(tree, 0, 0);
      RowDrawing(Drawing([], []), tree, 0, 0, 0, closed, depthHeights, None);
    }
  }

  // ---- The drawing, card by card in the order it is produced ----

  datatype Drawing = Drawing(nodes: seq<MapNode>, edges: seq<Edge>)

  function AddItem(d: Drawing, item: TreeItem, left2: int, depth: nat, closed: set<Id>, m: Heights): Drawing {
    var size := NodeSize(item);
    var card := Card(item.id, left2 + MeasureItem(item, closed) - size.width, size.width, size.height, depth);
    Drawing(
      d.nodes + [MapNode(card, RowY(m, depth))],
      if item.parentId.Some? && depth > 0 then d.edges + [Edge(item.parentId.value, item.id)] else d.edges)
  }

  function AddSubtree(d: Drawing, item: TreeItem, left2: int, depth: nat, closed: set<Id>, m: Heights): Drawing
    decreases item, 1, 0
  {
    var kids := ChildrenOf(item, closed);
    assert kids == item.children || kids == item.children[..0];
    AddRow(AddItem(d, item, left2, depth, closed, m), kids, 0, FirstBelow2(item, left2, closed), depth + 1, closed, m)
  }

  /** Adds the siblings from index i on, the first of them starting at `left2`. */
  function AddRow(d: Drawing, items: seq<TreeItem>, i: nat, left2: int, depth: nat, closed: set<Id>,
      m: Heights): Drawing
    requires i <= |items|
    decreases items, 0, |items| - i
  {
    if i == |items| then d
    else AddRow(AddSubtree(d, items[i], left2, depth, closed, m),
                items, i + 1, AfterItem2(items[i], left2, closed), depth, closed, m)
  }

  lemma ItemDrawing(d: Drawing, item: TreeItem, left2: int, depth: nat, closed: set<Id>, m: Heights, parent: Option<Id>)
    requires parent == if depth > 0 then item.parentId else None
    ensures var t := Visible(item, closed);
            var link := if parent.Some? then [Edge(parent.value, t.id)] else [];
            AddItem(d, item, left2, depth, closed, m)
            == Drawing(d.nodes + Drawn([CardOf(t, left2, depth, GAP)], m), d.edges + link)
  {
    MeasuresTheVisible(item, closed);
    var t := Visible(item, closed);
    assert Drawn([CardOf(t, left2, depth, GAP)], m) == [MapNode(CardOf(t, left2, depth, GAP), RowY(m, depth))];
    assert d.edges + [] == d.edges;
  }

  lemma {:induction false} FirstBelowIs(item: TreeItem, left2: int, closed: set<Id>)
    ensures FirstBelow2(item, left2, closed) == FirstChild2(Visible(item, closed), left2, GAP)
  {
    MeasuresTheVisible(item, closed);
    MeasuresTheVisibleRow(ChildrenOf(item, closed), 0, closed);
  }

  /** Drawing some cards and links and then others is drawing them all. */
  lemma {:induction false} Spliced(d: Drawing, a: seq<Card>, b: seq<Card>, es: seq<Edge>, fs: seq<Edge>, m: Heights)
    ensures (d.nodes + Drawn(a, m)) + Drawn(b, m) == d.nodes + Drawn(a + b, m)
    ensures (d.edges + es) + fs == d.edges + (es + fs)
  {
    DrawnAppend(a, b, m);
    ConcatAssoc(d.nodes, Drawn(a, m), Drawn(b, m));
    ConcatAssoc(d.edges, es, fs);
  }

  /** The pushes of one subtree are its cards and links in the shared geometry. */
  lemma {:induction false} SubtreeDrawing(d: Drawing, item: TreeItem, left2: int, depth: nat, closed: set<Id>,
      m: Heights, parent: Option<Id>)
    requires WellLinked(item) && parent == if depth > 0 then item.parentId else None
    ensures var t := Visible(item, closed);
            AddSubtree(d, item, left2, depth, closed, m)
            == Drawing(d.nodes + Drawn(Cards(t, left2, depth, GAP), m), d.edges + Edges(t, parent))
    decreases item, 1, 0
  {
    var t, kids, first := Visible(item, closed), ChildrenOf(item, closed), FirstBelow2(item, left2, closed);
    assert kids == item.children || kids == item.children[..0];
    ItemDrawing(d, item, left2, depth, closed, m, parent);
    FirstBelowIs(item, left2, closed);
    var link := if parent.Some? then [Edge(parent.value, t.id)] else [];
    RowDrawing(AddItem(d, item, left2, depth, closed, m), kids, 0, first, depth + 1, closed, m, Some(item.id));
    Spliced(d, [CardOf(t, left2, depth, GAP)], RowCards(t.children, 0, first, depth + 1, GAP), link,
      RowEdges(t.children, 0, Some(t.id)), m);
  }

  lemma {:induction false} RowDrawing(d: Drawing, items: seq<TreeItem>, i: nat, left2: int, depth: nat,
      closed: set<Id>, m: Heights, parent: Option<Id>)
    requires i <= |items|
    requires forall r :: r in items ==> WellLinked(r) && parent == if depth > 0 then r.parentId else None
    ensures var ts := VisibleAll(items, closed);
            AddRow(d, items, i, left2, depth, closed, m)
            == Drawing(d.nodes + Drawn(RowCards(ts, i, left2, depth, GAP), m), d.edges + RowEdges(ts, i, parent))
    decreases items, 0, |items| - i
  {
    var ts := VisibleAll(items, closed);
    if i == |items| {
      assert Drawn([], m) == [];
    } else {
      var t, next := ts[i], AfterItem2(items[i], left2, closed);
      MeasuresTheVisible(items[i], closed);
      assert next == NextSibling2(t, left2, GAP);
      SubtreeDrawing(d, items[i], left2, depth, closed, m, parent);
      RowDrawing(AddSubtree(d, items[i], left2, depth, closed, m), items, i + 1, next, depth, closed, m, parent);
      Spliced(d, Cards(t, left2, depth, GAP), RowCards(ts, i + 1, next, depth, GAP), Edges(t, parent),
        RowEdges(ts, i + 1, parent), m);
    }
  }

  lemma DrawnAppend(a: seq<Card>, b: seq<Card>, m: Heights)
    ensures Drawn(a + b, m) == Drawn(a, m) + Drawn(b, m)
  {
  }

  lemma RaiseSubtree(m: Heights, ts: seq<Tree>, i: nat, depth: nat)
    requires i < |ts|
    ensures Raise(m, RowCells(ts, i, depth))
            == Raise(Raise(RaiseTo(m, Cell(depth, ts[i].height)), RowCells(ts[i].children, 0, depth + 1)),
              RowCells(ts, i + 1, depth))
  {
    var c, below := Cell(depth, ts[i].height), RowCells(ts[i].children, 0, depth + 1);
    RaiseAppend(m, Cells(ts[i], depth), RowCells(ts, i + 1, depth));
    assert ([c] + below)[1..] == below;
  }
}
