// In which order an answer lists siblings, and which of them a budget that runs out leaves behind.
module BreakdownOrder {
  import opened Basics
  import opened Ordering
  import opened Chains
  import opened Traversal
  import opened LevelOrder
  import opened ForestWalk
  import opened Breakdown
  import opened BreakdownTree

  // ---- Which of two siblings is shown first ----

  ghost predicate ReadBefore(items: seq<Item>, x: Id, y: Id) {
    exists i, j :: 0 <= i < j < |items| && items[i].id == x && items[j].id == y
  }

  /** The smaller position first, a link nobody placed counting as the largest 64-bit number; at equal positions
      the item stored first. */
  ghost predicate ShownBefore(items: seq<Item>, a: Relation, b: Relation) {
    var p := match a.position case Some(v) => v case None => 9223372036854775807;
    var q := match b.position case Some(v) => v case None => 9223372036854775807;
    p < q || (p == q && ReadBefore(items, a.source, b.source))
  }

  lemma {:induction false} ShownOnce(items: seq<Item>, order: map<Id, nat>, a: Relation, b: Relation)
    requires IndexesOrder(order, items, |items|) && a.source in order && b.source in order && a.source != b.source
    ensures AtMost(PlacementOf(a, order), PlacementOf(b, order)) <==> ShownBefore(items, a, b)
    ensures ShownBefore(items, a, b) <==> !ShownBefore(items, b, a)
  {
    var i :| 0 <= i < |items| && items[i].id == a.source;
    var j :| 0 <= j < |items| && items[j].id == b.source;
    assert ReadBefore(items, a.source, b.source) <==> i < j;
    assert ReadBefore(items, b.source, a.source) <==> j < i;
  }

  // ---- The children read under an item stand in that order ----

  lemma {:induction false} LiveSourcesFrom(items: map<Id, Item>, es: seq<Relation>, n: nat, i: nat) returns (e: nat)
    requires n <= |es| && i < |LiveSources(items, es, n)|
    ensures e < n && es[e].source == LiveSources(items, es, n)[i]
  {
    if i < |LiveSources(items, es, n - 1)| { e := LiveSourcesFrom(items, es, n - 1, i); } else { e := n - 1; }
  }

  lemma {:induction false} LiveSourcesKeepOrder(items: map<Id, Item>, es: seq<Relation>, n: nat, i: nat, j: nat)
    returns (e: nat, f: nat)
    requires n <= |es| && i < j < |LiveSources(items, es, n)|
    ensures e < f < n && es[e].source == LiveSources(items, es, n)[i] && es[f].source == LiveSources(items, es, n)[j]
  {
    if j < |LiveSources(items, es, n - 1)| {
      e, f := LiveSourcesKeepOrder(items, es, n - 1, i, j);
    } else {
      e := LiveSourcesFrom(items, es, n - 1, i);
      f := n - 1;
    }
  }

  /** The edge a child is listed by is its edge upward. */
  lemma {:induction false} EdgeIsTheEdgeUp(s: Structure, items: seq<Item>, rs: seq<Relation>, t: Id, e: nat)
    requires IsStructure(s, items, rs) && OneParentEach(rs) && t in s.children && e < |s.children[t]|
    ensures s.children[t][e].source in s.parent && s.parent[s.children[t][e].source] == s.children[t][e]
  {
    var r := s.children[t][e];
    RearrangedMember(s.children[t], EdgesInto(rs, |rs|, t), r);
    EdgesIntoMember(rs, |rs|, t, r);
    EdgeUpIsLast(rs, |rs|, r.source);
    var i :| 0 <= i < |rs| && rs[i] == r;
    var j :| 0 <= j < |rs| && rs[j] == s.parent[r.source] && rs[j].kind == PART_OF && rs[j].source == r.source;
    assert i == j;
  }

  lemma {:induction false} RearrangedMember(a: seq<Relation>, b: seq<Relation>, r: Relation)
    requires multiset(a) == multiset(b)
    ensures r in a <==> r in b
  {
    assert r in multiset(a) <==> r in multiset(b);
  }

  lemma {:induction false} ChildrenAreInOrder(s: Structure, items: seq<Item>, rs: seq<Relation>, t: Id, i: nat, j: nat)
    requires IsStructure(s, items, rs) && OneParentEach(rs) && i < j < |LiveChildren(s, t)|
    ensures var a, b := LiveChildren(s, t)[i], LiveChildren(s, t)[j];
            a in s.parent && b in s.parent && ShownBefore(items, s.parent[a], s.parent[b])
  {
    var es := s.children[t];
    var order :| IndexesOrder(order, items, |items|) && ArrangesDown(s.children, rs, order);
    var e, f := LiveSourcesKeepOrder(s.items, es, |es|, i, j);
    EdgeIsTheEdgeUp(s, items, rs, t, e);
    EdgeIsTheEdgeUp(s, items, rs, t, f);
    DownwardIndex(s, items, rs, t);
    assert InDisplayOrder(es, order);
    assert AtMost(PlacementOf(es[e], order), PlacementOf(es[f], order));
    assert Live(s.items, es[e].source) && Live(s.items, es[f].source);
    ShownOnce(items, order, es[e], es[f]);
  }

  // ---- Where the children of a row stand in a reading ----

  /** The row an entry was queued by, and which of its children it is. */
  lemma {:induction false} RowBehind(g: Graph, p: Parents, live: set<Id>, root: Id, depth: nat, limit: nat, w: Walk,
      all: seq<Entry>, k: nat) returns (m: nat, i: nat)
    requires ForestWalk.Finished(g, p, live, root, depth, limit, w, all) && 0 < k < |w.rows|
    ensures m < |w.rows| && i < w.rows[m].loaded <= |g[w.rows[m].id]|
    ensures w.rows[m].id in g && g[w.rows[m].id][i] == w.rows[k].id
    ensures w.rows[k].id in p && p[w.rows[k].id] == w.rows[m].id
    ensures k == |Sent(g, [Entry(root, 0)], w.rows, m)| + i
  {
    var head := [Entry(root, 0)];
    m, i := SentFrom(g, head, w.rows, |w.rows|, k);
    assert g[w.rows[m].id][i] in g[w.rows[m].id];
    SentAt(g, head, w.rows, |w.rows|, m, i);
    var k' := |Sent(g, head, w.rows, m)| + i;
    assert w.log[k'] == w.log[k] && all[k'] == w.log[k'] && all[k] == w.log[k];
  }

  lemma {:induction false} OneRowEach(w: Walk, all: seq<Entry>, m: nat, n: nat)
    requires RowsAre(w) && w.log <= all && Distinct(all) && m < |w.rows| && n < |w.rows|
    requires w.rows[m].id == w.rows[n].id
    ensures m == n
  {
    assert all[m] == w.log[m] && all[n] == w.log[n];
  }

  /** Among the children of one item, the rows up to k hold those up to the one that row k is. */
  lemma {:induction false} EarlierRows(g: Graph, p: Parents, live: set<Id>, root: Id, depth: nat, limit: nat, w: Walk,
      all: seq<Entry>, m: nat, i: nat, k: nat, i': nat)
    requires ForestWalk.Finished(g, p, live, root, depth, limit, w, all) && m < |w.rows| && 0 < k < |w.rows|
    requires w.rows[m].id in g && i < w.rows[m].loaded <= |g[w.rows[m].id]| && i' < |g[w.rows[m].id]|
    requires k == |Sent(g, [Entry(root, 0)], w.rows, m)| + i
    requires root !in g[w.rows[m].id]
    ensures (exists j :: 0 <= j < k && w.rows[j].id == g[w.rows[m].id][i']) <==> i' < i
  {
    var head, start, x := [Entry(root, 0)], |Sent(g, [Entry(root, 0)], w.rows, m)|, w.rows[m].id;
    if i' < i {
      SentAt(g, head, w.rows, |w.rows|, m, i');
      assert w.rows[start + i'].id == w.log[start + i'].id;
    }
    if j :| 0 <= j < k && w.rows[j].id == g[x][i'] {
      assert g[x][i'] in g[x];
      SentOfRoot(g, head, w.rows, |w.rows|);
      assert w.log[0] == head[0] && w.rows[0].id == w.log[0].id;
      var m', i'' := RowBehind(g, p, live, root, depth, limit, w, all, j);
      OneRowEach(w, all, m, m');
      assert g[x][i''] == g[x][i'];
    }
  }

  // ---- The answer ----

  /** On a forest, whatever the budget: of the live siblings of a listed node, those listed before it are exactly
      those shown before it. So siblings come in display order, and a budget that runs out never takes one and
      leaves out another that is shown before it. */
  lemma {:induction false} SiblingsComeInDisplayOrder(s: Structure, items: seq<Item>, rs: seq<Relation>, root: Id,
      depth: nat, limit: nat, w: Walk, nodes: seq<Node>, k: nat, c: Id)
    requires ForestPlan(s, items, rs) && root in s.items && limit >= 1
    requires w == ReadingOf(s, root, depth, limit) && nodes == NodesOf(s, w.rows) && 0 < k < |nodes|
    requires Live(s.items, c) && c in s.parent && c != nodes[k].id && nodes[k].parentId == Some(s.parent[c].target)
    ensures (exists j :: 0 <= j < k && nodes[j].id == c) <==> ShownBefore(items, s.parent[c], s.parent[nodes[k].id])
  {
    var g, p, live, all := LiveGraph(s), PartOf(s), LiveIds(s), Plan(s, root, depth);
    LiveGraphIsClosed(s);
    PlanIsForest(s, items, rs);
    ReadingFinishes(g, p, live, root, depth, limit);
    var m, i := RowBehind(g, p, live, root, depth, limit, w, all, k);
    var x := w.rows[m].id;
    RowsDoNotHoldTheRoot(g, p, live, root, depth, limit, m);
    assert c in g[x] && g[x] == LiveChildren(s, x);
    var i' :| 0 <= i' < |g[x]| && g[x][i'] == c;
    EarlierRows(g, p, live, root, depth, limit, w, all, m, i, k, i');
    SameRows(s, w.rows, k, c);
    SiblingsShown(s, items, rs, x, i', i);
  }

  lemma {:induction false} SameRows(s: Structure, rows: seq<Row>, k: nat, c: Id)
    requires k <= |rows|
    ensures (exists j :: 0 <= j < k && NodesOf(s, rows)[j].id == c) <==> (exists j :: 0 <= j < k && rows[j].id == c)
  {
    var nodes := NodesOf(s, rows);
    if j :| 0 <= j < k && nodes[j].id == c { assert rows[j].id == c; }
    if j :| 0 <= j < k && rows[j].id == c { assert nodes[j].id == c; }
  }

  lemma {:induction false} SiblingsShown(s: Structure, items: seq<Item>, rs: seq<Relation>, x: Id, i: nat, j: nat)
    requires IsStructure(s, items, rs) && OneParentEach(rs) && i < |LiveChildren(s, x)| && j < |LiveChildren(s, x)|
    requires i != j
    ensures var a, b := LiveChildren(s, x)[i], LiveChildren(s, x)[j];
            a in s.parent && b in s.parent && (i < j <==> ShownBefore(items, s.parent[a], s.parent[b]))
  {
    var a, b := LiveChildren(s, x)[i], LiveChildren(s, x)[j];
    if i < j { ChildrenAreInOrder(s, items, rs, x, i, j); } else { ChildrenAreInOrder(s, items, rs, x, j, i); }
    LiveChildrenAre(s, items, rs, x);
    var order :| IndexesOrder(order, items, |items|) && ArrangesDown(s.children, rs, order);
    EdgeUpIsLast(rs, |rs|, a);
    EdgeUpIsLast(rs, |rs|, b);
    ShownOnce(items, order, s.parent[a], s.parent[b]);
  }

  /** What loaded_children counts: the i-th child of a node is listed exactly when it is among the first
      loaded_children of them and is not the one entry a cut drops. */
  lemma {:induction false} LoadedChildrenAreListed(s: Structure, items: seq<Item>, rs: seq<Relation>, root: Id,
      depth: nat, limit: nat, w: Walk, nodes: seq<Node>, k: nat, i: nat)
    requires ForestPlan(s, items, rs) && root in s.items && limit >= 1
    requires w == ReadingOf(s, root, depth, limit) && nodes == NodesOf(s, w.rows)
    requires k < |nodes| && i < |LiveChildren(s, nodes[k].id)|
    ensures var c, all := LiveChildren(s, nodes[k].id)[i], Plan(s, root, depth);
            (exists j :: 0 <= j < |nodes| && nodes[j].id == c) <==>
            i < nodes[k].loadedChildren && !(|all| > limit && all[limit].id == c)
  {
    var g, p, live, all := LiveGraph(s), PartOf(s), LiveIds(s), Plan(s, root, depth);
    LiveGraphIsClosed(s);
    PlanIsForest(s, items, rs);
    ReadingFinishes(g, p, live, root, depth, limit);
    RowsOfForest(s, items, rs, root, depth, limit, w);
    RowTells(s, items, rs, root, depth, limit, w, k);
    RowsDoNotHoldTheRoot(g, p, live, root, depth, limit, k);
    ChildIsListed(g, p, live, root, depth, limit, w, all, k, i);
    SameRows(s, w.rows, |w.rows|, g[w.rows[k].id][i]);
  }

  /** A row that is a child of row k is one of those it loaded, and not the one dropped by a cut. */
  lemma {:induction false} ListedWasLoaded(g: Graph, p: Parents, live: set<Id>, root: Id, depth: nat, limit: nat,
      w: Walk, all: seq<Entry>, k: nat, i: nat, j: nat)
    requires ForestWalk.Finished(g, p, live, root, depth, limit, w, all) && k < |w.rows| && w.rows[k].id in g
    requires i < |g[w.rows[k].id]| && 0 < j < |w.rows|
    requires w.rows[j].id == g[w.rows[k].id][i]
    ensures i < w.rows[k].loaded
  {
    var x := w.rows[k].id;
    assert g[x][i] in g[x];
    var m, i' := RowBehind(g, p, live, root, depth, limit, w, all, j);
    OneRowEach(w, all, k, m);
    assert g[x][i'] == g[x][i];
  }

  lemma {:induction false} ListedIsNotDropped(g: Graph, p: Parents, live: set<Id>, root: Id, depth: nat, limit: nat,
      w: Walk, all: seq<Entry>, j: nat)
    requires ForestWalk.Finished(g, p, live, root, depth, limit, w, all) && j < |w.rows|
    requires w.truncated <==> |all| > limit
    ensures !(|all| > limit && all[limit].id == w.rows[j].id)
  {
    if |all| > limit { assert all[j] == w.log[j] && all[limit] == w.log[limit] && w.rows[j].id == w.log[j].id; }
  }

  lemma {:induction false} LoadedIsListed(g: Graph, w: Walk, all: seq<Entry>, root: Id, limit: nat, k: nat, i: nat)
    requires Sends(g, [Entry(root, 0)], w) && RowsAre(w) && w.log <= all && CutIs(limit, w)
    requires w.truncated <==> |all| > limit
    requires k < |w.rows| && i < w.rows[k].loaded && !(|all| > limit && all[limit].id == g[w.rows[k].id][i])
    ensures Listed(w.rows, g[w.rows[k].id][i])
  {
    var head := [Entry(root, 0)];
    SentAt(g, head, w.rows, |w.rows|, k, i);
    var j := |Sent(g, head, w.rows, k)| + i;
    assert w.log[j].id == g[w.rows[k].id][i] && all[j] == w.log[j];
    assert w.rows[j].id == w.log[j].id;
  }

  lemma {:induction false} ChildIsListed(g: Graph, p: Parents, live: set<Id>, root: Id, depth: nat, limit: nat,
      w: Walk, all: seq<Entry>, k: nat, i: nat)
    requires ForestWalk.Finished(g, p, live, root, depth, limit, w, all) && k < |w.rows| && w.rows[k].id in g
    requires i < |g[w.rows[k].id]| && root !in g[w.rows[k].id] && (w.truncated <==> |all| > limit)
    ensures Listed(w.rows, g[w.rows[k].id][i]) <==>
            i < w.rows[k].loaded && !(|all| > limit && all[limit].id == g[w.rows[k].id][i])
  {
    var x := w.rows[k].id;
    var c := g[x][i];
    assert c in g[x];
    if j :| 0 <= j < |w.rows| && w.rows[j].id == c {
      SentOfRoot(g, [Entry(root, 0)], w.rows, |w.rows|);
      assert w.log[0].id == root && w.rows[0].id == w.log[0].id;
      assert j > 0;
      ListedWasLoaded(g, p, live, root, depth, limit, w, all, k, i, j);
      ListedIsNotDropped(g, p, live, root, depth, limit, w, all, j);
    }
    if i < w.rows[k].loaded && !(|all| > limit && all[limit].id == c) {
      LoadedIsListed(g, w, all, root, limit, k, i);
    }
  }
}
