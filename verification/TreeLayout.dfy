// The geometry both plan drawings share: every card is centred over the strip
// its visible children need, and siblings stand `gap` apart.
//
// All widths are whole pixels and coordinates are halved differences of them,
// so x is kept here in half pixels (`x2 == 2 * x`), which is exact.
//
// Functions over a row of siblings take the index of the first one they cover.
module TreeLayout {
  import opened Basics

  /** A tree as it is drawn: folded branches already have no children. */
  datatype Tree = Node(id: Id, width: nat, height: nat, children: seq<Tree>)

  datatype Card = Card(id: Id, x2: int, width: nat, height: nat, depth: nat)

  datatype Edge = Edge(source: Id, target: Id)

  function Max(a: int, b: int): int { if a < b then b else a }

  /** The gaps between n siblings; the row without siblings has "minus one gap". */
  function Gaps(n: nat, gap: int): int {
    gap * (n - 1)
  }

  /** Width of the strip a subtree occupies. */
  function Measure(t: Tree, gap: nat): nat
    decreases t, 1, 0
  {
    if t.children == [] then t.width else Max(t.width, Total(t.children, 0, gap) + Gaps(|t.children|, gap))
  }

  /** Sum of the subtree widths from index i on. */
  function Total(ts: seq<Tree>, i: nat, gap: nat): nat
    requires i <= |ts|
    decreases ts, 0, |ts| - i
  {
    if i == |ts| then 0 else Measure(ts[i], gap) + Total(ts, i + 1, gap)
  }

  /** Widths of the siblings from index i on and the gaps between them. */
  function StripWidth(ts: seq<Tree>, i: nat, gap: nat): int
    requires i <= |ts|
  {
    Total(ts, i, gap) + Gaps(|ts| - i, gap)
  }

  lemma {:induction false} OneGapLess(n: nat, gap: int)
    requires n > 0
    ensures Gaps(n, gap) == if n > 1 then gap + Gaps(n - 1, gap) else 0
  {
  }

  /** One gap behind each sibling but the last. */
  lemma {:induction false} StripStep(ts: seq<Tree>, i: nat, gap: nat)
    requires i < |ts|
    ensures StripWidth(ts, i, gap) == Measure(ts[i], gap) +
            (if i + 1 < |ts| then gap + StripWidth(ts, i + 1, gap) else 0)
  {
    OneGapLess(|ts| - i, gap);
    assert Total(ts, i, gap) == Measure(ts[i], gap) + Total(ts, i + 1, gap);
    if i + 1 == |ts| { assert Total(ts, i + 1, gap) == 0; }
  }

  function CardOf(t: Tree, left2: int, depth: nat, gap: nat): Card {
    Card(t.id, left2 + Measure(t, gap) - t.width, t.width, t.height, depth)
  }

  /** Where the first child starts. */
  function FirstChild2(t: Tree, left2: int, gap: nat): int {
    left2 + Measure(t, gap) - StripWidth(t.children, 0, gap)
  }

  /** Where the sibling after `t` starts. */
  function NextSibling2(t: Tree, left2: int, gap: nat): int {
    left2 + 2 * (Measure(t, gap) + gap)
  }

  /** The cards of one subtree, in the order they are drawn. */
  function Cards(t: Tree, left2: int, depth: nat, gap: nat): seq<Card>
    decreases t, 1, 0
  {
    [CardOf(t, left2, depth, gap)] + RowCards(t.children, 0, FirstChild2(t, left2, gap), depth + 1, gap)
  }

  /** The cards of the siblings from index i on, the first of them starting at `left2`. */
  function RowCards(ts: seq<Tree>, i: nat, left2: int, depth: nat, gap: nat): seq<Card>
    requires i <= |ts|
    decreases ts, 0, |ts| - i
  {
    if i == |ts| then []
    else Cards(ts[i], left2, depth, gap) + RowCards(ts, i + 1, NextSibling2(ts[i], left2, gap), depth, gap)
  }

  /** Every drawn link, from a card to its tree parent. */
  function Edges(t: Tree, parent: Option<Id>): seq<Edge>
    decreases t, 1, 0
  {
    (if parent.Some? then [Edge(parent.value, t.id)] else []) + RowEdges(t.children, 0, Some(t.id))
  }

  function RowEdges(ts: seq<Tree>, i: nat, parent: Option<Id>): seq<Edge>
    requires i <= |ts|
    decreases ts, 0, |ts| - i
  {
    if i == |ts| then [] else Edges(ts[i], parent) + RowEdges(ts, i + 1, parent)
  }

  // ---- No two cards of a drawing overlap ----

  ghost predicate Within(c: Card, left2: int, right2: int) {
    left2 <= c.x2 && c.x2 + 2 * c.width <= right2
  }

  /** `a` stands on the same row to the left of `b`, at least `gap` away. */
  ghost predicate LeftOf(a: Card, b: Card, gap: nat) {
    a.x2 + 2 * a.width + 2 * gap <= b.x2
  }

  ghost predicate RowsApart(cs: seq<Card>, gap: nat) {
    forall i, j :: 0 <= i < j < |cs| && cs[i].depth == cs[j].depth ==> LeftOf(cs[i], cs[j], gap)
  }

  ghost predicate AllWithin(cs: seq<Card>, left2: int, right2: int, depth: nat) {
    forall c :: c in cs ==> Within(c, left2, right2) && c.depth >= depth
  }

  lemma {:induction false} StripCoversFirst(ts: seq<Tree>, i: nat, gap: nat)
    requires i < |ts|
    ensures StripWidth(ts, i, gap) >= Measure(ts[i], gap)
    decreases |ts| - i
  {
    StripStep(ts, i, gap);
    if i + 1 < |ts| { StripCoversFirst(ts, i + 1, gap); }
  }

  /** Each subtree stays inside [left, left + Measure]. */
  lemma {:induction false} SubtreeInside(t: Tree, left2: int, depth: nat, gap: nat)
    ensures AllWithin(Cards(t, left2, depth, gap), left2, left2 + 2 * Measure(t, gap), depth)
    decreases t, 1, 0
  {
    if t.children == [] {
      assert Cards(t, left2, depth, gap) == [CardOf(t, left2, depth, gap)];
    } else {
      RowInside(t.children, 0, FirstChild2(t, left2, gap), depth + 1, gap);
    }
  }

  /** Each row stays inside its strip. */
  lemma {:induction false} RowInside(ts: seq<Tree>, i: nat, left2: int, depth: nat, gap: nat)
    requires i < |ts|
    ensures AllWithin(RowCards(ts, i, left2, depth, gap), left2, left2 + 2 * StripWidth(ts, i, gap), depth)
    decreases ts, 0, |ts| - i
  {
    SubtreeInside(ts[i], left2, depth, gap);
    StripCoversFirst(ts, i, gap);
    if i + 1 < |ts| {
      RowInside(ts, i + 1, NextSibling2(ts[i], left2, gap), depth, gap);
    } else {
      assert RowCards(ts, i, left2, depth, gap) == Cards(ts[i], left2, depth, gap);
    }
  }

  /** On every row of a subtree's drawing, later cards stand further right by the gap. */
  lemma {:induction false} SubtreeApart(t: Tree, left2: int, depth: nat, gap: nat)
    ensures RowsApart(Cards(t, left2, depth, gap), gap)
    decreases t, 1, 0
  {
    if t.children != [] {
      var below := RowCards(t.children, 0, FirstChild2(t, left2, gap), depth + 1, gap);
      RowApart(t.children, 0, FirstChild2(t, left2, gap), depth + 1, gap);
      RowInside(t.children, 0, FirstChild2(t, left2, gap), depth + 1, gap);
      var all := Cards(t, left2, depth, gap);
      assert forall k :: 0 < k < |all| ==> all[k] == below[k - 1] && all[k] in below;
    }
  }

  lemma {:induction false} RowApart(ts: seq<Tree>, i: nat, left2: int, depth: nat, gap: nat)
    requires i <= |ts|
    ensures RowsApart(RowCards(ts, i, left2, depth, gap), gap)
    decreases ts, 0, |ts| - i
  {
    if i < |ts| {
      var next2 := NextSibling2(ts[i], left2, gap);
      SubtreeApart(ts[i], left2, depth, gap);
      SubtreeInside(ts[i], left2, depth, gap);
      RowApart(ts, i + 1, next2, depth, gap);
      if i + 1 < |ts| {
        RowInside(ts, i + 1, next2, depth, gap);
      }
      SideBySide(Cards(ts[i], left2, depth, gap), RowCards(ts, i + 1, next2, depth, gap), next2 - 2 * gap, next2, gap);
    }
  }

  lemma SideBySide(a: seq<Card>, b: seq<Card>, right2: int, left2: int, gap: nat)
    requires RowsApart(a, gap) && RowsApart(b, gap) && right2 + 2 * gap <= left2
    requires forall c :: c in a ==> c.x2 + 2 * c.width <= right2
    requires forall c :: c in b ==> left2 <= c.x2
    ensures RowsApart(a + b, gap)
  {
    assert forall k :: 0 <= k < |a| ==> a[k] in a;
    assert forall k :: 0 <= k < |b| ==> b[k] in b;
  }

  // ---- Identity of the cards ----

  function Ids(t: Tree): seq<Id>
    decreases t, 1, 0
  {
    [t.id] + RowIds(t.children, 0)
  }

  function RowIds(ts: seq<Tree>, i: nat): seq<Id>
    requires i <= |ts|
    decreases ts, 0, |ts| - i
  {
    if i == |ts| then [] else Ids(ts[i]) + RowIds(ts, i + 1)
  }

  lemma {:induction false} RowIdsMembers(ts: seq<Tree>, i: nat, y: Id)
    requires i <= |ts|
    ensures y in RowIds(ts, i) <==> exists k :: i <= k < |ts| && y in Ids(ts[k])
    decreases |ts| - i
  {
    if i < |ts| {
      RowIdsMembers(ts, i + 1, y);
      var first, rest := Ids(ts[i]), RowIds(ts, i + 1);
      assert RowIds(ts, i) == first + rest;
      assert y in first + rest <==> y in first || y in rest;
    }
  }

  /** Subtrees without repeats and without common nodes make a row without repeats. */
  lemma {:induction false} RowIdsNoDup(ts: seq<Tree>, i: nat)
    requires i <= |ts|
    requires forall k :: 0 <= k < |ts| ==> NoDup(Ids(ts[k]))
    requires forall j, k, y :: 0 <= j < k < |ts| && y in Ids(ts[j]) ==> y !in Ids(ts[k])
    ensures NoDup(RowIds(ts, i))
    decreases |ts| - i
  {
    if i < |ts| {
      RowIdsNoDup(ts, i + 1);
      forall y | y in Ids(ts[i]) ensures y !in RowIds(ts, i + 1) { RowIdsMembers(ts, i + 1, y); }
      NoDupAppend(Ids(ts[i]), RowIds(ts, i + 1));
    }
  }

  function CardIds(cs: seq<Card>): (ids: seq<Id>)
    ensures |ids| == |cs|
    ensures forall i :: 0 <= i < |cs| ==> ids[i] == cs[i].id
  {
    seq(|cs|, i requires 0 <= i < |cs| => cs[i].id)
  }

  function Targets(es: seq<Edge>): (ids: seq<Id>)
    ensures |ids| == |es|
    ensures forall i :: 0 <= i < |es| ==> ids[i] == es[i].target
  {
    seq(|es|, i requires 0 <= i < |es| => es[i].target)
  }

  /** One card per node, in preorder. */
  lemma {:induction false} OneCardPerNode(t: Tree, left2: int, depth: nat, gap: nat)
    ensures CardIds(Cards(t, left2, depth, gap)) == Ids(t)
    decreases t, 1, 0
  {
    OneCardPerRowNode(t.children, 0, FirstChild2(t, left2, gap), depth + 1, gap);
  }

  lemma {:induction false} OneCardPerRowNode(ts: seq<Tree>, i: nat, left2: int, depth: nat, gap: nat)
    requires i <= |ts|
    ensures CardIds(RowCards(ts, i, left2, depth, gap)) == RowIds(ts, i)
    decreases ts, 0, |ts| - i
  {
    if i < |ts| {
      OneCardPerNode(ts[i], left2, depth, gap);
      OneCardPerRowNode(ts, i + 1, NextSibling2(ts[i], left2, gap), depth, gap);
    }
  }

  /** One link per node below `parent`: the links point at the nodes, in preorder. */
  lemma {:induction false} OneEdgePerChild(t: Tree, parent: Option<Id>)
    ensures Targets(Edges(t, parent)) == if parent.Some? then Ids(t) else RowIds(t.children, 0)
    decreases t, 1, 0
  {
    OneEdgePerRowChild(t.children, 0, Some(t.id));
  }

  lemma {:induction false} OneEdgePerRowChild(ts: seq<Tree>, i: nat, parent: Option<Id>)
    requires i <= |ts| && parent.Some?
    ensures Targets(RowEdges(ts, i, parent)) == RowIds(ts, i)
    decreases ts, 0, |ts| - i
  {
    if i < |ts| {
      OneEdgePerChild(ts[i], parent);
      OneEdgePerRowChild(ts, i + 1, parent);
    }
  }

  /** `b` hangs directly under `a` somewhere in the tree. */
  ghost predicate Linked(t: Tree, a: Id, b: Id)
    decreases t
  {
    exists k :: 0 <= k < |t.children| && ((a == t.id && b == t.children[k].id) || Linked(t.children[k], a, b))
  }

  /** The drawn links are exactly the parent-child pairs of the tree. */
  lemma {:induction false} EdgesAreTheLinks(t: Tree, parent: Option<Id>, a: Id, b: Id)
    ensures Edge(a, b) in Edges(t, parent) <==> ((parent == Some(a) && b == t.id) || Linked(t, a, b))
    decreases t, 1, 0
  {
    RowEdgesAreTheLinks(t.children, 0, Some(t.id), a, b);
  }

  lemma {:induction false} RowEdgesAreTheLinks(ts: seq<Tree>, i: nat, parent: Option<Id>, a: Id, b: Id)
    requires i <= |ts|
    ensures Edge(a, b) in RowEdges(ts, i, parent) <==>
            exists k :: i <= k < |ts| && ((parent == Some(a) && b == ts[k].id) || Linked(ts[k], a, b))
    decreases ts, 0, |ts| - i
  {
    if i < |ts| {
      EdgesAreTheLinks(ts[i], parent, a, b);
      RowEdgesAreTheLinks(ts, i + 1, parent, a, b);
    }
  }

  // ---- Rows ----

  /** Some card is drawn on every row above a drawn card. */
  lemma {:induction false} RowsAreFilled(t: Tree, left2: int, depth: nat, gap: nat, c: Card, d: nat)
    requires c in Cards(t, left2, depth, gap) && depth <= d <= c.depth
    ensures exists e :: e in Cards(t, left2, depth, gap) && e.depth == d
    decreases t, 1, 0
  {
    if d == depth {
      assert CardOf(t, left2, depth, gap) in Cards(t, left2, depth, gap);
    } else {
      RowRowsAreFilled(t.children, 0, FirstChild2(t, left2, gap), depth + 1, gap, c, d);
    }
  }

  lemma {:induction false} RowRowsAreFilled(ts: seq<Tree>, i: nat, left2: int, depth: nat, gap: nat, c: Card, d: nat)
    requires i <= |ts| && c in RowCards(ts, i, left2, depth, gap) && depth <= d <= c.depth
    ensures exists e :: e in RowCards(ts, i, left2, depth, gap) && e.depth == d
    decreases ts, 0, |ts| - i
  {
    if c in Cards(ts[i], left2, depth, gap) {
      RowsAreFilled(ts[i], left2, depth, gap, c, d);
    } else {
      RowRowsAreFilled(ts, i + 1, NextSibling2(ts[i], left2, gap), depth, gap, c, d);
    }
  }

  // ---- Every card is centred, and nothing is spread wider than the gaps ----

  ghost predicate TouchesLeft(cs: seq<Card>, left2: int) {
    exists c :: c in cs && c.x2 == left2
  }

  ghost predicate TouchesRight(cs: seq<Card>, right2: int) {
    exists c :: c in cs && c.x2 + 2 * c.width == right2
  }

  /** The cards reach exactly from left to right. */
  ghost predicate Spans(cs: seq<Card>, left2: int, right2: int) {
    && (forall c :: c in cs ==> Within(c, left2, right2))
    && TouchesLeft(cs, left2) && TouchesRight(cs, right2)
  }

  lemma {:induction false} OneSpan(cs: seq<Card>, l: int, r: int, l': int, r': int)
    requires Spans(cs, l, r) && Spans(cs, l', r')
    ensures l == l' && r == r'
  {
  }

  /** The card on top of its children's cards spans what the wider of the two spans. */
  lemma {:induction false} TopSpans(c: Card, below: seq<Card>, l: int, r: int, cl: int, cr: int)
    requires Spans(below, cl, cr) && l <= cl && cr <= r && Within(c, l, r)
    requires (c.x2 == l && c.x2 + 2 * c.width == r) || (cl == l && cr == r)
    ensures Spans([c] + below, l, r)
  {
    var cs := [c] + below;
    assert cs[0] == c && forall d :: d in below ==> d in cs;
  }

  lemma {:induction false} SpansSideBySide(a: seq<Card>, b: seq<Card>, l: int, m: int, n: int, r: int)
    requires Spans(a, l, m) && Spans(b, n, r) && m <= r && l <= n
    ensures Spans(a + b, l, r)
  {
    assert forall c :: c in a + b <==> c in a || c in b;
  }

  /** A subtree's cards reach exactly from one end of its strip to the other. */
  lemma {:induction false} SubtreeSpans(t: Tree, left2: int, depth: nat, gap: nat)
    ensures Spans(Cards(t, left2, depth, gap), left2, left2 + 2 * Measure(t, gap))
    decreases t, 1, 0
  {
    var c, m := CardOf(t, left2, depth, gap), Measure(t, gap);
    if t.children == [] {
      assert Cards(t, left2, depth, gap) == [c];
      assert c in [c];
    } else {
      var first, width := FirstChild2(t, left2, gap), StripWidth(t.children, 0, gap);
      RowSpans(t.children, 0, first, depth + 1, gap);
      TopSpans(c, RowCards(t.children, 0, first, depth + 1, gap), left2, left2 + 2 * m, first, first + 2 * width);
    }
  }

  lemma {:induction false} RowSpans(ts: seq<Tree>, i: nat, left2: int, depth: nat, gap: nat)
    requires i < |ts|
    ensures Spans(RowCards(ts, i, left2, depth, gap), left2, left2 + 2 * StripWidth(ts, i, gap))
    decreases ts, 0, |ts| - i
  {
    var next2, m := NextSibling2(ts[i], left2, gap), Measure(ts[i], gap);
    SubtreeSpans(ts[i], left2, depth, gap);
    StripStep(ts, i, gap);
    if i + 1 < |ts| {
      RowSpans(ts, i + 1, next2, depth, gap);
      StripCoversFirst(ts, i + 1, gap);
      SpansSideBySide(Cards(ts[i], left2, depth, gap), RowCards(ts, i + 1, next2, depth, gap),
        left2, left2 + 2 * m, next2, next2 + 2 * StripWidth(ts, i + 1, gap));
    } else {
      assert RowCards(ts, i, left2, depth, gap) == Cards(ts[i], left2, depth, gap);
    }
  }

  /** The first card of a subtree is its top, of the size asked for; it stands midway over all the cards below it,
      however far those reach. */
  lemma {:induction false} CardIsCentred(t: Tree, left2: int, depth: nat, gap: nat, l: int, r: int)
    requires t.children != [] && Spans(Cards(t, left2, depth, gap)[1..], l, r)
    ensures var c := Cards(t, left2, depth, gap)[0];
            && c.id == t.id && c.width == t.width && c.height == t.height && c.depth == depth
            && 2 * (c.x2 + c.width) == l + r
  {
    var first := FirstChild2(t, left2, gap);
    var below := RowCards(t.children, 0, first, depth + 1, gap);
    RowSpans(t.children, 0, first, depth + 1, gap);
    assert Cards(t, left2, depth, gap)[1..] == below;
    OneSpan(below, l, r, first, first + 2 * StripWidth(t.children, 0, gap));
  }

  /** Two siblings' subtrees that follow each other stand exactly the gap apart; the first starts where the row
      does. */
  lemma {:induction false} SiblingsStandGapApart(ts: seq<Tree>, i: nat, left2: int, depth: nat, gap: nat, l: int,
      m: int, n: int, r: int)
    requires i + 1 < |ts| && Spans(Cards(ts[i], left2, depth, gap), l, m)
    requires Spans(RowCards(ts, i, left2, depth, gap)[|Cards(ts[i], left2, depth, gap)|..], n, r)
    ensures l == left2 && n == m + 2 * gap
  {
    var next2 := NextSibling2(ts[i], left2, gap);
    var rest := RowCards(ts, i + 1, next2, depth, gap);
    assert RowCards(ts, i, left2, depth, gap)[|Cards(ts[i], left2, depth, gap)|..] == rest;
    SubtreeSpans(ts[i], left2, depth, gap);
    RowSpans(ts, i + 1, next2, depth, gap);
    OneSpan(Cards(ts[i], left2, depth, gap), l, m, left2, left2 + 2 * Measure(ts[i], gap));
    OneSpan(rest, n, r, next2, next2 + 2 * StripWidth(ts, i + 1, gap));
  }

  // ---- The size of each card ----

  /** Every node of the tree has the size `width` and `height` give its id. */
  ghost predicate Sized(t: Tree, width: Id -> nat, height: nat)
    decreases t
  {
    t.width == width(t.id) && t.height == height && forall c :: c in t.children ==> Sized(c, width, height)
  }

  lemma {:induction false} CardsKeepSizes(t: Tree, left2: int, depth: nat, gap: nat, width: Id -> nat, height: nat)
    requires Sized(t, width, height)
    ensures forall c :: c in Cards(t, left2, depth, gap) ==> c.width == width(c.id) && c.height == height
    decreases t, 1, 0
  {
    RowKeepsSizes(t.children, 0, FirstChild2(t, left2, gap), depth + 1, gap, width, height);
  }

  lemma {:induction false} RowKeepsSizes(ts: seq<Tree>, i: nat, left2: int, depth: nat, gap: nat, width: Id -> nat,
      height: nat)
    requires i <= |ts| && forall t :: t in ts ==> Sized(t, width, height)
    ensures forall c :: c in RowCards(ts, i, left2, depth, gap) ==> c.width == width(c.id) && c.height == height
    decreases ts, 0, |ts| - i
  {
    if i < |ts| {
      CardsKeepSizes(ts[i], left2, depth, gap, width, height);
      RowKeepsSizes(ts, i + 1, NextSibling2(ts[i], left2, gap), depth, gap, width, height);
    }
  }
}
