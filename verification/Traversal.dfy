// Breadth-first reading of a child graph under a depth and a row budget, and
// what such a reading returns: shortest distances on any graph, and on a
// forest exactly the beginning of the level-order walk.
module Traversal {
  import opened Basics
  import opened Chains

  /** The child ids of every item, in display order. */
  type Graph = map<Id, seq<Id>>

  ghost predicate Closed(g: Graph) {
    forall x, k {:trigger g[x][k]} :: x in g && 0 <= k < |g[x]| ==> g[x][k] in g
  }

  datatype Entry = Entry(id: Id, level: nat)

  /** One returned row: `loaded` of the item's `childCount` children were queued. */
  datatype Row = Row(id: Id, level: nat, childCount: nat, loaded: nat)

  /** `log` holds every entry ever queued; those from `next` on are still waiting. */
  datatype Walk = Walk(log: seq<Entry>, next: nat, seen: set<Id>, rows: seq<Row>, truncated: bool, stopped: bool)

  function Min(a: int, b: int): int { if a < b then a else b }

  function Tag(ids: seq<Id>, level: nat): (es: seq<Entry>)
    ensures |es| == |ids|
    ensures forall k :: 0 <= k < |ids| ==> es[k] == Entry(ids[k], level)
  {
    seq(|ids|, k requires 0 <= k < |ids| => Entry(ids[k], level))
  }

  /** How many of n children fit, `used` rows and waiting entries being taken. */
  function Room(n: nat, used: nat, limit: nat): nat {
    if used >= limit then 0 else Min(n, limit - used)
  }

  predicate Ready(g: Graph, w: Walk) {
    w.next <= |w.log| && w.seen <= g.Keys && forall k :: 0 <= k < |w.log| ==> w.log[k].id in g
  }

  function Waiting(w: Walk): nat
    requires w.next <= |w.log|
  {
    |w.log| - w.next
  }

  function Loaded(g: Graph, depth: nat, limit: nat, w: Walk): nat
    requires Ready(g, w) && w.next < |w.log|
  {
    var e := w.log[w.next];
    if e.level < depth && |w.rows| < limit then Room(|g[e.id]|, |w.rows| + Waiting(w) - 1, limit) else 0
  }

  /** One turn of the loop: take the first waiting entry. */
  function Step(g: Graph, depth: nat, limit: nat, w: Walk): (w': Walk)
    requires Closed(g) && Ready(g, w) && w.next < |w.log|
    ensures Ready(g, w')
  {
    var e := w.log[w.next];
    if e.id in w.seen then w.(next := w.next + 1)
    else
      var kids := g[e.id];
      var n := Loaded(g, depth, limit, w);
      var log := w.log + Tag(kids[..n], e.level + 1);
      var rows := w.rows + [Row(e.id, e.level, |kids|, n)];
      var stop := |rows| >= limit && w.next + 1 < |log|;
      var cut := e.level < depth && |w.rows| < limit && n < |kids|;
      Walk(log, w.next + 1, w.seen + {e.id}, rows, w.truncated || cut || stop, stop)
  }

  function Run(g: Graph, depth: nat, limit: nat, w: Walk): (w': Walk)
    requires Closed(g) && Ready(g, w)
    ensures Ready(g, w')
    decreases |g.Keys - w.seen|, Waiting(w)
  {
    if w.stopped || w.next == |w.log| then w
    else
      StepIsSmaller(g, depth, limit, w);
      Run(g, depth, limit, Step(g, depth, limit, w))
  }

  lemma {:induction false} StepIsSmaller(g: Graph, depth: nat, limit: nat, w: Walk)
    requires Closed(g) && Ready(g, w) && w.next < |w.log|
    ensures var w' := Step(g, depth, limit, w);
            |g.Keys - w'.seen| < |g.Keys - w.seen| || (w'.seen == w.seen && Waiting(w') < Waiting(w))
  {
  }

  function Start(root: Id): Walk {
    Walk([Entry(root, 0)], 0, {}, [], false, false)
  }

  // ---- Distances ----

  /** y is reached from x by a walk of exactly k links. */
  ghost predicate Reaches(g: Graph, x: Id, y: Id, k: nat)
    decreases k
  {
    if k == 0 then x == y else exists z :: z in g && y in g[z] && Reaches(g, x, z, k - 1)
  }

  ghost predicate Distance(g: Graph, x: Id, y: Id, d: nat) {
    Reaches(g, x, y, d) && forall j: nat :: j < d ==> !Reaches(g, x, y, j)
  }

  ghost predicate Listed(rows: seq<Row>, x: Id) {
    exists k :: 0 <= k < |rows| && rows[k].id == x
  }

  ghost predicate Queued(log: seq<Entry>, x: Id, level: nat) {
    exists k :: 0 <= k < |log| && log[k] == Entry(x, level)
  }

  // ---- What every reading keeps ----

  /** Queued entries are real walks within the depth. */
  ghost predicate Real(g: Graph, root: Id, depth: nat, log: seq<Entry>) {
    forall k {:trigger log[k]} :: 0 <= k < |log| ==> Reaches(g, root, log[k].id, log[k].level) && log[k].level <= depth
  }

  /** Shallow entries are queued first. */
  ghost predicate Ordered(log: seq<Entry>) {
    forall i, j {:trigger log[i], log[j]} :: 0 <= i < j < |log| ==> log[i].level <= log[j].level
  }

  ghost predicate LogSound(g: Graph, root: Id, depth: nat, log: seq<Entry>) {
    Real(g, root, depth, log) && Ordered(log)
  }

  /** Waiting entries span at most two levels. */
  ghost predicate Narrow(log: seq<Entry>, next: nat) {
    next < |log| ==> forall k {:trigger log[k]} :: 0 <= k < |log| ==> log[k].level <= log[next].level + 1
  }

  /** Rows are the first occurrences of the entries taken so far. */
  ghost predicate RowsSound(w: Walk) {
    && (forall x :: x in w.seen <==> Listed(w.rows, x))
    && (forall k {:trigger w.log[k]} :: 0 <= k < w.next <= |w.log| ==> w.log[k].id in w.seen)
    && (forall k {:trigger w.rows[k]} :: 0 <= k < |w.rows| ==> QueuedBefore(w, w.rows[k]))
    && (forall i, j {:trigger w.rows[i], w.rows[j]} :: 0 <= i < j < |w.rows| ==>
          w.rows[i].id != w.rows[j].id && w.rows[i].level <= w.rows[j].level)
  }

  ghost predicate QueuedBefore(w: Walk, r: Row) {
    exists j :: 0 <= j < w.next <= |w.log| && w.log[j] == Entry(r.id, r.level)
  }

  /** The budget is kept, and stopping early is always reported. */
  ghost predicate Budgeted(limit: nat, w: Walk) {
    && |w.rows| <= limit
    && (!w.stopped && w.next < |w.log| ==> |w.rows| < limit)
    && (w.stopped ==> w.truncated)
  }

  ghost predicate Sound(g: Graph, root: Id, depth: nat, limit: nat, w: Walk) {
    && Ready(g, w) && LogSound(g, root, depth, w.log) && Narrow(w.log, w.next) && RowsSound(w) && Budgeted(limit, w)
  }

  lemma {:induction false} RealGrows(g: Graph, root: Id, depth: nat, log: seq<Entry>, next: nat, n: nat)
    requires Closed(g) && Real(g, root, depth, log) && next < |log| && log[next].id in g && n <= |g[log[next].id]|
    requires n > 0 ==> log[next].level < depth
    ensures Real(g, root, depth, log + Tag(g[log[next].id][..n], log[next].level + 1))
  {
  }

  lemma {:induction false} OrderGrows(log: seq<Entry>, next: nat, more: seq<Entry>)
    requires Ordered(log) && Narrow(log, next) && next < |log|
    requires forall k {:trigger more[k]} :: 0 <= k < |more| ==> more[k].level == log[next].level + 1
    ensures Ordered(log + more) && Narrow(log + more, next + 1)
  {
  }

  lemma {:induction false} ListedGrows(rows: seq<Row>, r: Row, x: Id)
    ensures Listed(rows + [r], x) <==> Listed(rows, x) || x == r.id
  {
    var rows' := rows + [r];
    if k :| 0 <= k < |rows| && rows[k].id == x { assert rows'[k].id == x; }
    if x == r.id { assert rows'[|rows|].id == x; }
    if k :| 0 <= k < |rows'| && rows'[k].id == x { if k < |rows| { assert rows[k].id == x; } }
  }

  lemma {:induction false} QueuedBeforeGrows(w: Walk, w': Walk, r: Row)
    requires QueuedBefore(w, r) && w.log <= w'.log && w.next <= w'.next <= |w'.log|
    ensures QueuedBefore(w', r)
  {
  }

  lemma {:induction false} NewRowIsLast(w: Walk, r: Row, i: nat)
    requires RowsSound(w) && Ordered(w.log) && w.next < |w.log| && w.log[w.next] == Entry(r.id, r.level) &&
             r.id !in w.seen
    requires i < |w.rows|
    ensures w.rows[i].id != r.id && w.rows[i].level <= r.level
  {
  }

  lemma {:induction false} RowsGrow(w: Walk, w': Walk, r: Row)
    requires RowsSound(w) && Ordered(w.log) && w.next < |w.log| && w.log[w.next] == Entry(r.id, r.level) &&
             r.id !in w.seen
    requires w.log <= w'.log && w'.next == w.next + 1 && w'.seen == w.seen + {r.id} && w'.rows == w.rows + [r]
    ensures RowsSound(w')
  {
    forall x ensures x in w'.seen <==> Listed(w'.rows, x) { ListedGrows(w.rows, r, x); }
    assert QueuedBefore(w', r) by { assert w'.log[w.next] == w.log[w.next]; }
    forall k | 0 <= k < |w.rows| ensures QueuedBefore(w', w.rows[k]) { QueuedBeforeGrows(w, w', w.rows[k]); }
    forall i | 0 <= i < |w.rows| ensures w.rows[i].id != r.id && w.rows[i].level <= r.level { NewRowIsLast(w, r, i); }
    forall k | 0 <= k < w'.next ensures w'.log[k].id in w'.seen { assert w'.log[k] == w.log[k]; }
  }

  lemma {:induction false} SkipKeepsRows(w: Walk, w': Walk)
    requires RowsSound(w) && w.next < |w.log| && w.log[w.next].id in w.seen && w' == w.(next := w.next + 1)
    ensures RowsSound(w')
  {
  }

  lemma {:induction false} StepKeepsLog(g: Graph, root: Id, depth: nat, limit: nat, w: Walk)
    requires Closed(g) && Ready(g, w) && w.next < |w.log|
    requires LogSound(g, root, depth, w.log) && Narrow(w.log, w.next)
    ensures var w' := Step(g, depth, limit, w);
            LogSound(g, root, depth, w'.log) && Narrow(w'.log, w'.next)
  {
    if w.log[w.next].id in w.seen {
      OrderGrows(w.log, w.next, []);
      assert w.log + [] == w.log;
    } else {
      var e, n := w.log[w.next], Loaded(g, depth, limit, w);
      RealGrows(g, root, depth, w.log, w.next, n);
      OrderGrows(w.log, w.next, Tag(g[e.id][..n], e.level + 1));
    }
  }

  lemma {:induction false} StepKeepsRows(g: Graph, root: Id, depth: nat, limit: nat, w: Walk)
    requires Closed(g) && Ready(g, w) && w.next < |w.log|
    requires Ordered(w.log) && RowsSound(w)
    ensures RowsSound(Step(g, depth, limit, w))
  {
    var e := w.log[w.next];
    var w' := Step(g, depth, limit, w);
    if e.id in w.seen {
      SkipKeepsRows(w, w');
    } else {
      RowsGrow(w, w', Row(e.id, e.level, |g[e.id]|, Loaded(g, depth, limit, w)));
    }
  }

  lemma {:induction false} StepKeepsSound(g: Graph, root: Id, depth: nat, limit: nat, w: Walk)
    requires Closed(g) && Sound(g, root, depth, limit, w) && w.next < |w.log| && !w.stopped
    ensures Sound(g, root, depth, limit, Step(g, depth, limit, w))
  {
    StepKeepsLog(g, root, depth, limit, w);
    StepKeepsRows(g, root, depth, limit, w);
  }

  lemma {:induction false} RunKeepsSound(g: Graph, root: Id, depth: nat, limit: nat, w: Walk)
    requires Closed(g) && Sound(g, root, depth, limit, w)
    ensures var w' := Run(g, depth, limit, w);
            Sound(g, root, depth, limit, w') && (w'.stopped || w'.next == |w'.log|)
    decreases |g.Keys - w.seen|, Waiting(w)
  {
    if !w.stopped && w.next < |w.log| {
      StepKeepsSound(g, root, depth, limit, w);
      StepIsSmaller(g, depth, limit, w);
      RunKeepsSound(g, root, depth, limit, Step(g, depth, limit, w));
    }
  }

  // ---- A reading that drops nothing finds shortest distances ----

  /** Every taken row was expanded completely, and its distance is shortest. */
  ghost predicate Complete(g: Graph, root: Id, depth: nat, w: Walk) {
    && |w.log| > 0 && w.log[0] == Entry(root, 0)
    && (forall k {:trigger w.rows[k]} :: 0 <= k < |w.rows| ==> Distance(g, root, w.rows[k].id, w.rows[k].level))
    && (forall k, c {:trigger Queued(w.log, c, w.rows[k].level + 1)} ::
          0 <= k < |w.rows| && w.rows[k].level < depth && w.rows[k].id in g && c in g[w.rows[k].id] ==>
          Queued(w.log, c, w.rows[k].level + 1))
  }

  lemma {:induction false} ChildIsQueued(g: Graph, root: Id, depth: nat, w: Walk, z: Id, y: Id, k: nat) returns (j: nat)
    requires Complete(g, root, depth, w) && Listed(w.rows, z) && z in g && y in g[z]
    requires Reaches(g, root, z, k) && k < depth
    ensures j < |w.log| && w.log[j].id == y && w.log[j].level <= k + 1
  {
    var i :| 0 <= i < |w.rows| && w.rows[i].id == z;
    assert w.rows[i].level <= k by { assert Distance(g, root, z, w.rows[i].level); }
    assert Queued(w.log, y, w.rows[i].level + 1);
    j :| 0 <= j < |w.log| && w.log[j] == Entry(y, w.rows[i].level + 1);
  }

  /** When the first waiting entry has level l, everything nearer than l has been taken;
      when nothing waits, everything within the depth has. */
  lemma {:induction false} NearerIsSeen(g: Graph, root: Id, depth: nat, w: Walk, y: Id, k: nat)
    requires Ordered(w.log) && RowsSound(w) && Complete(g, root, depth, w) && w.next <= |w.log|
    requires Reaches(g, root, y, k)
    requires if w.next < |w.log| then k < w.log[w.next].level <= depth else k <= depth
    ensures y in w.seen
    decreases k
  {
    var j: nat := 0;
    if k > 0 {
      var z :| z in g && y in g[z] && Reaches(g, root, z, k - 1);
      NearerIsSeen(g, root, depth, w, z, k - 1);
      j := ChildIsQueued(g, root, depth, w, z, y, k - 1);
    }
    assert w.log[j].id == y && w.log[j].level <= k;
  }

  lemma {:induction false} FreshIsShortest(g: Graph, root: Id, depth: nat, limit: nat, w: Walk)
    requires Sound(g, root, depth, limit, w) && Complete(g, root, depth, w)
    requires w.next < |w.log| && w.log[w.next].id !in w.seen
    ensures Distance(g, root, w.log[w.next].id, w.log[w.next].level)
  {
    var e := w.log[w.next];
    forall j: nat | j < e.level ensures !Reaches(g, root, e.id, j) {
      if Reaches(g, root, e.id, j) { NearerIsSeen(g, root, depth, w, e.id, j); }
    }
  }

  lemma {:induction false} QueuedGrows(log: seq<Entry>, log': seq<Entry>, x: Id, level: nat)
    requires Queued(log, x, level) && log <= log'
    ensures Queued(log', x, level)
  {
  }

  /** Without a cut the taken entry's children are all queued. */
  lemma {:induction false} TakenIsExpanded(g: Graph, depth: nat, limit: nat, w: Walk, c: Id)
    requires Closed(g) && Ready(g, w) && w.next < |w.log| && Budgeted(limit, w) && !w.stopped
    requires w.log[w.next].id !in w.seen && !Step(g, depth, limit, w).truncated
    requires w.log[w.next].level < depth && c in g[w.log[w.next].id]
    ensures Queued(Step(g, depth, limit, w).log, c, w.log[w.next].level + 1)
  {
    var e := w.log[w.next];
    var i :| 0 <= i < |g[e.id]| && g[e.id][i] == c;
    assert Step(g, depth, limit, w).log[|w.log| + i] == Entry(c, e.level + 1);
  }

  lemma {:induction false} StepKeepsComplete(g: Graph, root: Id, depth: nat, limit: nat, w: Walk)
    requires Closed(g) && Sound(g, root, depth, limit, w) && w.next < |w.log| && !w.stopped
    requires Complete(g, root, depth, w) && !Step(g, depth, limit, w).truncated
    ensures Complete(g, root, depth, Step(g, depth, limit, w))
  {
    var e := w.log[w.next];
    var w' := Step(g, depth, limit, w);
    if e.id !in w.seen {
      FreshIsShortest(g, root, depth, limit, w);
      forall k, c | 0 <= k < |w'.rows| && w'.rows[k].level < depth && w'.rows[k].id in g && c in g[w'.rows[k].id]
        ensures Queued(w'.log, c, w'.rows[k].level + 1)
      {
        if k < |w.rows| {
          assert Queued(w.log, c, w.rows[k].level + 1);
          QueuedGrows(w.log, w'.log, c, w.rows[k].level + 1);
        } else {
          TakenIsExpanded(g, depth, limit, w, c);
        }
      }
    }
  }

  lemma {:induction false} RunKeepsComplete(g: Graph, root: Id, depth: nat, limit: nat, w: Walk)
    requires Closed(g) && Sound(g, root, depth, limit, w)
    requires Complete(g, root, depth, w) && !Run(g, depth, limit, w).truncated
    ensures Complete(g, root, depth, Run(g, depth, limit, w))
    decreases |g.Keys - w.seen|, Waiting(w)
  {
    if !w.stopped && w.next < |w.log| {
      var w' := Step(g, depth, limit, w);
      StepKeepsSound(g, root, depth, limit, w);
      StepIsSmaller(g, depth, limit, w);
      TruncationStays(g, depth, limit, w');
      StepKeepsComplete(g, root, depth, limit, w);
      RunKeepsComplete(g, root, depth, limit, w');
    }
  }

  lemma {:induction false} TruncationStays(g: Graph, depth: nat, limit: nat, w: Walk)
    requires Closed(g) && Ready(g, w)
    ensures w.truncated ==> Run(g, depth, limit, w).truncated
    decreases |g.Keys - w.seen|, Waiting(w)
  {
    if !w.stopped && w.next < |w.log| {
      StepIsSmaller(g, depth, limit, w);
      TruncationStays(g, depth, limit, Step(g, depth, limit, w));
    }
  }

  lemma {:induction false} StartIsFine(g: Graph, root: Id, depth: nat, limit: nat)
    requires Closed(g) && root in g && limit >= 1
    ensures Sound(g, root, depth, limit, Start(root)) && Complete(g, root, depth, Start(root))
  {
  }

  /** On any closed graph, cycles and shared children included: at most `limit`
      rows, no item twice, levels in order, each the length of a real walk within
      the depth; and when nothing was cut, the rows are exactly the items at
      distance at most `depth`, each with its shortest distance. */
  lemma {:induction false} ReadingIsExact(g: Graph, root: Id, depth: nat, limit: nat)
    requires Closed(g) && root in g && limit >= 1
    ensures var w := Run(g, depth, limit, Start(root));
            && |w.rows| <= limit
            && (forall i, j :: 0 <= i < j < |w.rows| ==>
               w.rows[i].id != w.rows[j].id && w.rows[i].level <= w.rows[j].level)
            && (forall k :: 0 <= k < |w.rows| ==>
               w.rows[k].level <= depth && Reaches(g, root, w.rows[k].id, w.rows[k].level))
            && (!w.truncated ==> forall y, d: nat ::
                  (exists k :: 0 <= k < |w.rows| && w.rows[k].id == y && w.rows[k].level == d) <==>
                    d <= depth && Distance(g, root, y, d))
  {
    StartIsFine(g, root, depth, limit);
    RunKeepsSound(g, root, depth, limit, Start(root));
    var w := Run(g, depth, limit, Start(root));
    forall k | 0 <= k < |w.rows| ensures w.rows[k].level <= depth && Reaches(g, root, w.rows[k].id, w.rows[k].level) {
      assert QueuedBefore(w, w.rows[k]);
    }
    if !w.truncated {
      RunKeepsComplete(g, root, depth, limit, Start(root));
      forall y, d: nat
        ensures (exists k :: 0 <= k < |w.rows| && w.rows[k].id == y && w.rows[k].level == d) <==>
                  d <= depth && Distance(g, root, y, d)
      {
        if d <= depth && Distance(g, root, y, d) {
          NearerIsSeen(g, root, depth, w, y, d);
          assert Listed(w.rows, y);
          var k :| 0 <= k < |w.rows| && w.rows[k].id == y;
          assert Distance(g, root, y, w.rows[k].level);
          assert w.rows[k].level == d;
        }
      }
    }
  }
}
