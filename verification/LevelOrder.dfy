// The unbudgeted level-order walk of a child graph, and the budgeted reading
// as a beginning of it whenever no item occurs in the walk twice.
module LevelOrder {
  import opened Basics
  import opened Traversal

  function ChildIds(g: Graph, x: Id): seq<Id> {
    if x in g then g[x] else []
  }

  /** The children the reading may queue for e. */
  function Feed(g: Graph, depth: nat, e: Entry): seq<Entry> {
    if e.level < depth then Tag(ChildIds(g, e.id), e.level + 1) else []
  }

  /** `head`, then the children of the first n entries of es. */
  function Fed(g: Graph, depth: nat, head: seq<Entry>, es: seq<Entry>, n: nat): seq<Entry>
    requires n <= |es|
  {
    if n == 0 then head else Fed(g, depth, head, es, n - 1) + Feed(g, depth, es[n - 1])
  }

  /** The k-th level: the children of the level above, left to right. */
  function Level(g: Graph, depth: nat, root: Id, k: nat): seq<Entry> {
    if k == 0 then [Entry(root, 0)] else
      var above := Level(g, depth, root, k - 1);
      Fed(g, depth, [], above, |above|)
  }

  /** The levels from the root down to one below the depth, where nothing is left. */
  function Levels(g: Graph, depth: nat, root: Id): (levels: seq<seq<Entry>>)
    ensures |levels| == depth + 2 && forall k :: 0 <= k < |levels| ==> levels[k] == Level(g, depth, root, k)
  {
    seq(depth + 2, k requires 0 <= k => Level(g, depth, root, k))
  }

  /** The first n levels, one after another. */
  function Flat(levels: seq<seq<Entry>>, n: nat): seq<Entry>
    requires n <= |levels|
  {
    if n == 0 then [] else Flat(levels, n - 1) + levels[n - 1]
  }

  /** The walk: every level within the depth. */
  function Walked(g: Graph, depth: nat, root: Id): seq<Entry> {
    Flat(Levels(g, depth, root), depth + 1)
  }

  // ---- The walk feeds itself: after the root come its own entries' children ----

  lemma {:induction false} FedOfPrefix(g: Graph, depth: nat, head: seq<Entry>, a: seq<Entry>, b: seq<Entry>, n: nat)
    requires n <= |a| && a <= b
    ensures Fed(g, depth, head, a, n) == Fed(g, depth, head, b, n)
  {
    if n > 0 {
      FedOfPrefix(g, depth, head, a, b, n - 1);
      assert a[n - 1] == b[n - 1];
    }
  }

  lemma {:induction false} FedGrows(g: Graph, depth: nat, head: seq<Entry>, es: seq<Entry>, n: nat, m: nat)
    requires n <= m <= |es|
    ensures Fed(g, depth, head, es, n) <= Fed(g, depth, head, es, m)
  {
    if n < m { FedGrows(g, depth, head, es, n, m - 1); }
  }

  lemma {:induction false} FedSplit(g: Graph, depth: nat, head: seq<Entry>, a: seq<Entry>, b: seq<Entry>, m: nat)
    requires m <= |b|
    ensures Fed(g, depth, head, a + b, |a| + m) == Fed(g, depth, Fed(g, depth, head, a, |a|), b, m)
  {
    if m == 0 {
      FedOfPrefix(g, depth, head, a, a + b, |a|);
    } else {
      FedSplit(g, depth, head, a, b, m - 1);
      assert (a + b)[|a| + m - 1] == b[m - 1];
    }
  }

  lemma {:induction false} FedFromHead(g: Graph, depth: nat, head: seq<Entry>, es: seq<Entry>, n: nat)
    requires n <= |es|
    ensures Fed(g, depth, head, es, n) == head + Fed(g, depth, [], es, n)
  {
    if n > 0 {
      FedFromHead(g, depth, head, es, n - 1);
      ConcatAssoc(head, Fed(g, depth, [], es, n - 1), Feed(g, depth, es[n - 1]));
    }
  }

  lemma {:induction false} LevelAdded(g: Graph, depth: nat, head: seq<Entry>, above: seq<Entry>, last: seq<Entry>)
    ensures Fed(g, depth, head, above + last, |above + last|) ==
            Fed(g, depth, head, above, |above|) + Fed(g, depth, [], last, |last|)
  {
    FedSplit(g, depth, head, above, last, |last|);
    FedFromHead(g, depth, Fed(g, depth, head, above, |above|), last, |last|);
  }

  /** Each level feeds the next. */
  ghost predicate Chained(g: Graph, depth: nat, levels: seq<seq<Entry>>) {
    forall k {:trigger levels[k]} :: 0 <= k < |levels| - 1 ==>
      Fed(g, depth, [], levels[k], |levels[k]|) == levels[k + 1]
  }

  /** Feeding one level more adds the next. */
  lemma {:induction false} FeedStep(g: Graph, depth: nat, head: seq<Entry>, above: seq<Entry>, last: seq<Entry>,
      walk: seq<Entry>, next: seq<Entry>, longer: seq<Entry>)
    requires Fed(g, depth, head, above, |above|) == walk && Fed(g, depth, [], last, |last|) == next
    requires walk == above + last && longer == walk + next
    ensures Fed(g, depth, head, walk, |walk|) == longer
  {
    LevelAdded(g, depth, head, above, last);
  }

  /** Feeding the first n levels gives the root and one level more. */
  lemma {:induction false} LevelsFeedNext(g: Graph, depth: nat, levels: seq<seq<Entry>>, n: nat)
    requires Chained(g, depth, levels) && n < |levels|
    ensures Fed(g, depth, levels[0], Flat(levels, n), |Flat(levels, n)|) == Flat(levels, n + 1)
  {
    if n == 0 {
      assert Flat(levels, 1) == [] + levels[0];
    } else {
      LevelsFeedNext(g, depth, levels, n - 1);
      FeedStep(g, depth, levels[0], Flat(levels, n - 1), levels[n - 1], Flat(levels, n), levels[n],
        Flat(levels, n + 1));
    }
  }

  lemma {:induction false} LevelsAreChained(g: Graph, depth: nat, root: Id)
    ensures Chained(g, depth, Levels(g, depth, root)) && Levels(g, depth, root)[0] == [Entry(root, 0)]
  {
    var levels := Levels(g, depth, root);
    forall k | 0 <= k < |levels| - 1 ensures Fed(g, depth, [], levels[k], |levels[k]|) == levels[k + 1] {
      assert levels[k] == Level(g, depth, root, k) && levels[k + 1] == Level(g, depth, root, k + 1);
    }
  }

  // ---- What stands on each level ----

  lemma {:induction false} FedFrom(g: Graph, depth: nat, es: seq<Entry>, n: nat, e: Entry) returns (i: nat)
    requires n <= |es| && e in Fed(g, depth, [], es, n)
    ensures i < n && es[i].level < depth && e.level == es[i].level + 1 && es[i].id in g && e.id in g[es[i].id]
  {
    if e in Feed(g, depth, es[n - 1]) { i := n - 1; } else { i := FedFrom(g, depth, es, n - 1, e); }
  }

  lemma {:induction false} FedIn(g: Graph, depth: nat, es: seq<Entry>, n: nat, i: nat, e: Entry)
    requires i < n <= |es| && es[i].level < depth && e.level == es[i].level + 1 && es[i].id in g && e.id in g[es[i].id]
    ensures e in Fed(g, depth, [], es, n)
  {
    if i < n - 1 {
      FedIn(g, depth, es, n - 1, i, e);
    } else {
      var j :| 0 <= j < |g[es[i].id]| && g[es[i].id][j] == e.id;
      assert Feed(g, depth, es[i])[j] == e;
    }
  }

  lemma {:induction false} LevelIsReached(g: Graph, depth: nat, root: Id, k: nat, e: Entry)
    requires e in Level(g, depth, root, k)
    ensures e.level == k <= depth && Reaches(g, root, e.id, k)
    decreases k
  {
    if k > 0 {
      var above := Level(g, depth, root, k - 1);
      var i := FedFrom(g, depth, above, |above|, e);
      LevelIsReached(g, depth, root, k - 1, above[i]);
    }
  }

  lemma {:induction false} ReachedIsInLevel(g: Graph, depth: nat, root: Id, k: nat, x: Id)
    requires k <= depth && Reaches(g, root, x, k)
    ensures Entry(x, k) in Level(g, depth, root, k)
    decreases k
  {
    if k == 0 {
      assert Level(g, depth, root, 0)[0] == Entry(x, 0);
    } else {
      var z :| z in g && x in g[z] && Reaches(g, root, z, k - 1);
      var above := Level(g, depth, root, k - 1);
      ReachedIsInLevel(g, depth, root, k - 1, z);
      var i :| 0 <= i < |above| && above[i] == Entry(z, k - 1);
      FedIn(g, depth, above, |above|, i, Entry(x, k));
    }
  }

  /** Every entry stands on its own level. */
  ghost predicate OnLevels(levels: seq<seq<Entry>>) {
    forall k: nat, i: nat {:trigger levels[k][i]} :: k < |levels| && i < |levels[k]| ==> levels[k][i].level == k
  }

  lemma {:induction false} LevelsAreLevel(g: Graph, depth: nat, root: Id)
    ensures OnLevels(Levels(g, depth, root)) && Levels(g, depth, root)[depth + 1] == []
  {
    var levels: seq<seq<Entry>> := Levels(g, depth, root);
    forall k: nat, i: nat | k < |levels| && i < |levels[k]| ensures levels[k][i].level == k {
      LevelIsReached(g, depth, root, k, levels[k][i]);
    }
    if levels[depth + 1] != [] { LevelIsReached(g, depth, root, depth + 1, levels[depth + 1][0]); }
  }

  /** The walk is complete: the root and all its own entries' children. */
  lemma {:induction false} WalkFeedsItself(g: Graph, depth: nat, root: Id)
    ensures var es := Walked(g, depth, root);
            Fed(g, depth, [Entry(root, 0)], es, |es|) == es
  {
    var levels := Levels(g, depth, root);
    LevelsAreChained(g, depth, root);
    LevelsAreLevel(g, depth, root);
    LevelsFeedNext(g, depth, levels, depth + 1);
    assert Flat(levels, depth + 1) + [] == Flat(levels, depth + 1);
  }

  ghost predicate NoneBelow(es: seq<Entry>, k: nat) {
    forall i {:trigger es[i]} :: 0 <= i < |es| ==> es[i].level <= k
  }

  lemma {:induction false} FlatIsOrdered(levels: seq<seq<Entry>>, n: nat)
    requires OnLevels(levels) && n <= |levels|
    ensures Ordered(Flat(levels, n)) && (n > 0 ==> NoneBelow(Flat(levels, n), n - 1)) &&
            (n == 0 ==> Flat(levels, n) == [])
  {
    if n > 0 { FlatIsOrdered(levels, n - 1); }
  }

  /** The walk goes level by level. */
  lemma {:induction false} WalkIsOrdered(g: Graph, depth: nat, root: Id)
    ensures Ordered(Walked(g, depth, root))
  {
    LevelsAreLevel(g, depth, root);
    FlatIsOrdered(Levels(g, depth, root), depth + 1);
  }

  // ---- The reading follows the walk ----

  /** No item occurs twice. */
  ghost predicate Distinct(es: seq<Entry>) {
    forall i, j {:trigger es[i], es[j]} :: 0 <= i < j < |es| ==> es[i].id != es[j].id
  }

  ghost function LoadedSum(rows: seq<Row>): nat {
    if rows == [] then 0 else LoadedSum(rows[..|rows| - 1]) + rows[|rows| - 1].loaded
  }

  /** One row for each entry taken, in order. */
  ghost predicate RowsAre(w: Walk) {
    && |w.rows| == w.next <= |w.log|
    && (forall k {:trigger w.rows[k]} :: 0 <= k < |w.rows| ==>
       w.rows[k].id == w.log[k].id && w.rows[k].level == w.log[k].level)
    && (forall x :: x in w.seen <==> Listed(w.rows, x))
  }

  /** The log is a beginning of the walk, with every child of a taken entry unless something was cut. */
  ghost predicate LogIs(g: Graph, root: Id, depth: nat, w: Walk, all: seq<Entry>) {
    && w.next <= |w.log| && w.log <= all
    && (!w.truncated ==> w.log == Fed(g, depth, [Entry(root, 0)], w.log, w.next))
  }

  /** One entry more than the limit is queued exactly when something was or will be cut. */
  ghost predicate BudgetIs(limit: nat, w: Walk) {
    && |w.rows| <= limit && |w.log| <= limit + 1
    && (w.truncated ==> |w.log| == limit + 1)
    && (w.stopped ==> w.truncated && |w.rows| == limit)
    && (!w.stopped ==> |w.rows| < limit || w.next == |w.log|)
    && LoadedSum(w.rows) + 1 == |w.log|
  }

  lemma {:induction false} NextIsFresh(w: Walk, all: seq<Entry>)
    requires RowsAre(w) && w.log <= all && Distinct(all) && w.next < |w.log|
    ensures w.log[w.next].id !in w.seen
  {
  }

  lemma {:induction false} RowsStep(g: Graph, depth: nat, limit: nat, w: Walk)
    requires Closed(g) && Ready(g, w) && RowsAre(w) && w.next < |w.log| && w.log[w.next].id !in w.seen
    ensures RowsAre(Step(g, depth, limit, w))
  {
    var e, w' := w.log[w.next], Step(g, depth, limit, w);
    var r := Row(e.id, e.level, |g[e.id]|, Loaded(g, depth, limit, w));
    assert w'.rows == w.rows + [r];
    forall x ensures x in w'.seen <==> Listed(w'.rows, x) { ListedGrows(w.rows, r, x); }
  }

  lemma {:induction false} BudgetStep(g: Graph, depth: nat, limit: nat, w: Walk)
    requires Closed(g) && Ready(g, w) && RowsAre(w) && w.next < |w.log| && w.log[w.next].id !in w.seen
    requires BudgetIs(limit, w) && !w.stopped
    ensures BudgetIs(limit, Step(g, depth, limit, w))
  {
  }

  /** The next entry's children come next in the walk. */
  lemma {:induction false} FeedIsNext(g: Graph, depth: nat, head: seq<Entry>, log: seq<Entry>, next: nat,
      all: seq<Entry>)
    requires next < |log| && log <= all
    ensures Fed(g, depth, head, log, next) + Feed(g, depth, log[next]) <= Fed(g, depth, head, all, |all|)
  {
    FedOfPrefix(g, depth, head, log, all, next + 1);
    FedGrows(g, depth, head, all, next + 1, |all|);
  }

  /** Queueing some of them keeps the log a beginning of the walk. */
  lemma {:induction false} QueueStep(g: Graph, depth: nat, head: seq<Entry>, log: seq<Entry>, next: nat,
      all: seq<Entry>, more: seq<Entry>)
    requires next < |log| && log <= all && all == Fed(g, depth, head, all, |all|)
    requires log == Fed(g, depth, head, log, next) && more <= Feed(g, depth, log[next])
    ensures log + more <= all
  {
    FeedIsNext(g, depth, head, log, next, all);
    PrefixOfTail(log, more, Feed(g, depth, log[next]));
    PrefixTrans(log + more, log + Feed(g, depth, log[next]), all);
  }

  /** Queueing all of them leaves no child of a taken entry out. */
  lemma {:induction false} FullStep(g: Graph, depth: nat, head: seq<Entry>, log: seq<Entry>, next: nat,
      log': seq<Entry>)
    requires next < |log| && log == Fed(g, depth, head, log, next) && log' == log + Feed(g, depth, log[next])
    ensures log' == Fed(g, depth, head, log', next + 1)
  {
    FedOfPrefix(g, depth, head, log, log', next + 1);
  }

  /** What one turn leaves in the log. */
  lemma {:induction false} StepLog(g: Graph, depth: nat, limit: nat, w: Walk)
    requires Closed(g) && Ready(g, w) && RowsAre(w) && w.next < |w.log| && w.log[w.next].id !in w.seen
    requires BudgetIs(limit, w) && !w.stopped
    ensures var e, n, w' := w.log[w.next], Loaded(g, depth, limit, w), Step(g, depth, limit, w);
            && w'.next == w.next + 1 && w'.log == w.log + Tag(g[e.id][..n], e.level + 1)
            && (w.truncated ==> n == 0 && w'.truncated)
            && Tag(g[e.id][..n], e.level + 1) <= Feed(g, depth, e)
            && (!w'.truncated ==> Tag(g[e.id][..n], e.level + 1) == Feed(g, depth, e))
  {
    var e, n := w.log[w.next], Loaded(g, depth, limit, w);
    if n == |g[e.id]| { assert g[e.id][..n] == g[e.id]; }
  }

  lemma {:induction false} LogStep(g: Graph, root: Id, depth: nat, limit: nat, w: Walk, all: seq<Entry>)
    requires Closed(g) && Ready(g, w) && RowsAre(w) && w.next < |w.log| && w.log[w.next].id !in w.seen
    requires LogIs(g, root, depth, w, all) && BudgetIs(limit, w) && !w.stopped
    requires all == Fed(g, depth, [Entry(root, 0)], all, |all|)
    ensures LogIs(g, root, depth, Step(g, depth, limit, w), all)
  {
    var e := w.log[w.next];
    var more := Tag(g[e.id][..Loaded(g, depth, limit, w)], e.level + 1);
    StepLog(g, depth, limit, w);
    if w.truncated {
      assert w.log + more == w.log;
    } else {
      QueueStep(g, depth, [Entry(root, 0)], w.log, w.next, all, more);
      if more == Feed(g, depth, e) { FullStep(g, depth, [Entry(root, 0)], w.log, w.next, w.log + more); }
    }
  }

  lemma {:induction false} RunFollows(g: Graph, root: Id, depth: nat, limit: nat, w: Walk, all: seq<Entry>)
    requires Closed(g) && Ready(g, w) && RowsAre(w) && LogIs(g, root, depth, w, all) && BudgetIs(limit, w)
    requires Distinct(all) && all == Fed(g, depth, [Entry(root, 0)], all, |all|)
    ensures var w' := Run(g, depth, limit, w);
            && RowsAre(w') && LogIs(g, root, depth, w', all) && BudgetIs(limit, w')
            && (w'.stopped || w'.next == |w'.log|)
    decreases |g.Keys - w.seen|, Waiting(w)
  {
    if !w.stopped && w.next < |w.log| {
      NextIsFresh(w, all);
      RowsStep(g, depth, limit, w);
      BudgetStep(g, depth, limit, w);
      LogStep(g, root, depth, limit, w, all);
      StepIsSmaller(g, depth, limit, w);
      RunFollows(g, root, depth, limit, Step(g, depth, limit, w), all);
    }
  }

  // ---- A beginning that lacks no child is the whole walk ----

  lemma {:induction false} FeedIsDeeper(g: Graph, depth: nat, es: seq<Entry>, m: nat, n: nat)
    requires m <= |es| && (forall k {:trigger es[k]} :: 0 <= k < |es| ==> es[k].level >= n)
    ensures forall k {:trigger Fed(g, depth, [], es, m)[k]} ::
              0 <= k < |Fed(g, depth, [], es, m)| ==> Fed(g, depth, [], es, m)[k].level >= n + 1
  {
    if m > 0 { FeedIsDeeper(g, depth, es, m - 1, n); }
  }

  lemma {:induction false} SelfFedIsDeep(g: Graph, depth: nat, es: seq<Entry>, n: nat)
    requires es == Fed(g, depth, [], es, |es|)
    ensures forall k {:trigger es[k]} :: 0 <= k < |es| ==> es[k].level >= n
  {
    if n > 0 {
      SelfFedIsDeep(g, depth, es, n - 1);
      FeedIsDeeper(g, depth, es, |es|, n - 1);
    }
  }

  lemma {:induction false} NothingLeft(g: Graph, depth: nat, head: seq<Entry>, log: seq<Entry>, all: seq<Entry>)
    requires log <= all && all == Fed(g, depth, head, all, |all|) && log == Fed(g, depth, head, log, |log|)
    ensures log == all
  {
    var rest := all[|log|..];
    assert log + rest == all;
    LevelAdded(g, depth, head, log, rest);
    SameTail(log, rest, Fed(g, depth, [], rest, |rest|));
    if rest != [] {
      SelfFedIsDeep(g, depth, rest, rest[0].level + 1);
    }
  }

  lemma {:induction false} ReadingFollowsWalk(g: Graph, root: Id, depth: nat, limit: nat)
    requires Closed(g) && root in g && limit >= 1 && Distinct(Walked(g, depth, root))
    ensures var w := Run(g, depth, limit, Start(root));
            var all := Walked(g, depth, root);
            && RowsAre(w) && LogIs(g, root, depth, w, all) && BudgetIs(limit, w)
            && (w.stopped || w.next == |w.log|) && (!w.truncated ==> w.log == all)
  {
    var head, all := [Entry(root, 0)], Walked(g, depth, root);
    WalkFeedsItself(g, depth, root);
    FedGrows(g, depth, head, all, 0, |all|);
    RunFollows(g, root, depth, limit, Start(root), all);
    var w := Run(g, depth, limit, Start(root));
    if !w.truncated { NothingLeft(g, depth, head, w.log, all); }
  }

  /** When no item occurs twice in the walk: the rows are its first min(limit, T)
      entries, the reading is truncated exactly when T > limit, and the children
      counted as loaded are the rows but the root, and one more when it was cut. */
  lemma {:induction false} ReadingIsPrefix(g: Graph, root: Id, depth: nat, limit: nat)
    requires Closed(g) && root in g && limit >= 1 && Distinct(Walked(g, depth, root))
    ensures var w := Run(g, depth, limit, Start(root));
            var all := Walked(g, depth, root);
            && |w.rows| == Min(limit, |all|)
            && (forall k :: 0 <= k < |w.rows| ==> w.rows[k].id == all[k].id && w.rows[k].level == all[k].level)
            && (w.truncated <==> |all| > limit)
            && LoadedSum(w.rows) == |w.rows| - 1 + (if w.truncated then 1 else 0)
  {
    ReadingFollowsWalk(g, root, depth, limit);
  }

  // ---- Where each queued entry comes from ----

  /** Rows tell the number of children there are and how many of them were queued. */
  ghost predicate FromGraph(g: Graph, rows: seq<Row>) {
    forall k {:trigger rows[k]} :: 0 <= k < |rows| ==>
      rows[k].id in g && rows[k].loaded <= rows[k].childCount == |g[rows[k].id]|
  }

  /** `head`, then the loaded children of the first n rows. */
  ghost function Sent(g: Graph, head: seq<Entry>, rows: seq<Row>, n: nat): seq<Entry>
    requires FromGraph(g, rows) && n <= |rows|
  {
    if n == 0 then head else
      var r := rows[n - 1];
      Sent(g, head, rows, n - 1) + Tag(g[r.id][..r.loaded], r.level + 1)
  }

  lemma {:induction false} SentOfPrefix(g: Graph, head: seq<Entry>, a: seq<Row>, b: seq<Row>, n: nat)
    requires FromGraph(g, a) && FromGraph(g, b) && a <= b && n <= |a|
    ensures Sent(g, head, a, n) == Sent(g, head, b, n)
  {
    if n > 0 {
      SentOfPrefix(g, head, a, b, n - 1);
      assert a[n - 1] == b[n - 1];
    }
  }

  ghost predicate Sends(g: Graph, head: seq<Entry>, w: Walk) {
    FromGraph(g, w.rows) && w.log == Sent(g, head, w.rows, |w.rows|)
  }

  lemma {:induction false} SendsStep(g: Graph, depth: nat, limit: nat, head: seq<Entry>, w: Walk)
    requires Closed(g) && Ready(g, w) && w.next < |w.log| && Sends(g, head, w)
    ensures Sends(g, head, Step(g, depth, limit, w))
  {
    var e, w' := w.log[w.next], Step(g, depth, limit, w);
    if e.id !in w.seen {
      assert w'.rows[|w.rows|] == Row(e.id, e.level, |g[e.id]|, Loaded(g, depth, limit, w));
      SentOfPrefix(g, head, w.rows, w'.rows, |w.rows|);
    }
  }

  /** On any graph the queue ever held the root and, row after row, the children counted as loaded. */
  lemma {:induction false} ReadingSends(g: Graph, depth: nat, limit: nat, head: seq<Entry>, w: Walk)
    requires Closed(g) && Ready(g, w) && Sends(g, head, w)
    ensures Sends(g, head, Run(g, depth, limit, w))
    decreases |g.Keys - w.seen|, Waiting(w)
  {
    if !w.stopped && w.next < |w.log| {
      SendsStep(g, depth, limit, head, w);
      StepIsSmaller(g, depth, limit, w);
      ReadingSends(g, depth, limit, head, Step(g, depth, limit, w));
    }
  }

  /** Where the i-th child of row k is queued. */
  lemma {:induction false} SentAt(g: Graph, head: seq<Entry>, rows: seq<Row>, n: nat, k: nat, i: nat)
    requires FromGraph(g, rows) && k < n <= |rows| && i < rows[k].loaded
    ensures |Sent(g, head, rows, k)| + i < |Sent(g, head, rows, n)|
    ensures Sent(g, head, rows, n)[|Sent(g, head, rows, k)| + i] == Entry(g[rows[k].id][i], rows[k].level + 1)
  {
    if k < n - 1 { SentAt(g, head, rows, n - 1, k, i); }
  }

  /** The loaded children of row k stand in the log side by side. */
  lemma {:induction false} LoadedSpan(g: Graph, head: seq<Entry>, w: Walk, k: nat) returns (start: nat)
    requires Sends(g, head, w) && k < |w.rows|
    ensures start + w.rows[k].loaded <= |w.log|
    ensures forall i: nat {:trigger g[w.rows[k].id][i]} :: i < w.rows[k].loaded ==>
              w.log[start + i].id == g[w.rows[k].id][i]
  {
    start := |Sent(g, head, w.rows, k)|;
    SentIsLonger(g, head, w.rows, |w.rows|, k);
    forall i: nat | i < w.rows[k].loaded ensures w.log[start + i].id == g[w.rows[k].id][i] {
      SentAt(g, head, w.rows, |w.rows|, k, i);
    }
  }

  lemma {:induction false} SentIsLonger(g: Graph, head: seq<Entry>, rows: seq<Row>, n: nat, k: nat)
    requires FromGraph(g, rows) && k < n <= |rows|
    ensures |Sent(g, head, rows, k)| + rows[k].loaded <= |Sent(g, head, rows, n)|
  {
    if k < n - 1 { SentIsLonger(g, head, rows, n - 1, k); }
  }

  /** Every entry behind the head is a loaded child of some row. */
  lemma {:induction false} SentFrom(g: Graph, head: seq<Entry>, rows: seq<Row>, n: nat, j: nat) returns (k: nat, i: nat)
    requires FromGraph(g, rows) && n <= |rows| && |head| <= j < |Sent(g, head, rows, n)|
    ensures k < n && i < rows[k].loaded && Sent(g, head, rows, n)[j] == Entry(g[rows[k].id][i], rows[k].level + 1)
  {
    var before := Sent(g, head, rows, n - 1);
    if j < |before| {
      k, i := SentFrom(g, head, rows, n - 1, j);
    } else {
      k, i := n - 1, j - |before|;
    }
  }
}
