// Walking down a forest and climbing up it meet the same items at the same
// distance, and no item is met twice.
module ForestWalk {
  import opened Basics
  import opened Chains
  import opened Traversal
  import opened LevelOrder

  /** Each item lists exactly its live children, once. */
  ghost predicate ForestGraph(g: Graph, p: Parents, live: set<Id>) {
    && (forall x {:trigger g[x]} :: x in g ==> NoDup(g[x]))
    && (forall x, c {:trigger c in g[x]} :: x in g ==> (c in g[x] <==> c in live && c in p && p[c] == x))
    && (forall c {:trigger p[c]} :: c in p ==> p[c] in g)
  }

  /** k steps up from x stand on root, and everything passed below it is live. */
  ghost predicate LiveClimb(p: Parents, live: set<Id>, x: Id, k: nat, root: Id)
    decreases k
  {
    if k == 0 then x == root else x in live && x in p && LiveClimb(p, live, p[x], k - 1, root)
  }

  /** Everything passed on the way up to, but not including, the k-th item is live. */
  ghost predicate LiveBelow(p: Parents, live: set<Id>, x: Id, k: nat) {
    forall j: nat {:trigger Up(p, x, j)} :: j < k ==> Up(p, x, j).Some? && Up(p, x, j).value in live
  }

  lemma {:induction false} LiveClimbIsUp(p: Parents, live: set<Id>, x: Id, k: nat, root: Id)
    ensures LiveClimb(p, live, x, k, root) <==> Up(p, x, k) == Some(root) && LiveBelow(p, live, x, k)
    decreases k
  {
    if k > 0 && x in p {
      LiveClimbIsUp(p, live, p[x], k - 1, root);
      LiveBelowStep(p, live, x, k);
    } else if k > 0 {
      assert Up(p, x, k) == None;
    }
  }

  lemma {:induction false} LiveBelowStep(p: Parents, live: set<Id>, x: Id, k: nat)
    requires k > 0 && x in p
    ensures LiveBelow(p, live, x, k) <==> x in live && LiveBelow(p, live, p[x], k - 1)
  {
    assert Up(p, x, 0) == Some(x);
    if LiveBelow(p, live, x, k) {
      forall j: nat | j < k - 1 ensures Up(p, p[x], j).Some? && Up(p, p[x], j).value in live {
        assert Up(p, x, j + 1) == Up(p, p[x], j);
      }
    }
    if x in live && LiveBelow(p, live, p[x], k - 1) {
      forall j: nat | j < k ensures Up(p, x, j).Some? && Up(p, x, j).value in live {
        if j > 0 { assert Up(p, x, j) == Up(p, p[x], j - 1); }
      }
    }
  }

  /** Below root by a walk of k links exactly when a climb of k steps through live items gets there. */
  lemma {:induction false} DownIsUp(g: Graph, p: Parents, live: set<Id>, root: Id, x: Id, k: nat)
    requires ForestGraph(g, p, live)
    ensures Reaches(g, root, x, k) <==> LiveClimb(p, live, x, k, root)
    decreases k
  {
    if k > 0 {
      if x in live && x in p {
        DownIsUp(g, p, live, root, p[x], k - 1);
        assert x in g[p[x]];
      }
      if Reaches(g, root, x, k) {
        var z :| z in g && x in g[z] && Reaches(g, root, z, k - 1);
        assert z == p[x];
      }
    }
  }

  lemma {:induction false} ClimbLengthIsUnique(p: Parents, live: set<Id>, x: Id, i: nat, j: nat, root: Id)
    requires Acyclic(p) && LiveClimb(p, live, x, i, root) && LiveClimb(p, live, x, j, root)
    ensures i == j
  {
    LiveClimbIsUp(p, live, x, i, root);
    LiveClimbIsUp(p, live, x, j, root);
    if i < j { LoopAt(p, x, i, j, root); }
    if j < i { LoopAt(p, x, j, i, root); }
  }

  lemma {:induction false} LoopAt(p: Parents, x: Id, i: nat, j: nat, root: Id)
    requires i < j && Up(p, x, i) == Some(root) == Up(p, x, j)
    ensures Ancestor(p, root, root)
  {
    UpAdd(p, x, i, j - i);
  }

  /** In a forest every walk down is a shortest one. */
  lemma {:induction false} DistanceIsClimb(g: Graph, p: Parents, live: set<Id>, root: Id, x: Id, k: nat)
    requires ForestGraph(g, p, live) && Acyclic(p)
    ensures Distance(g, root, x, k) <==> LiveClimb(p, live, x, k, root)
  {
    DownIsUp(g, p, live, root, x, k);
    if LiveClimb(p, live, x, k, root) {
      forall j: nat | j < k ensures !Reaches(g, root, x, j) {
        DownIsUp(g, p, live, root, x, j);
        if LiveClimb(p, live, x, j, root) { ClimbLengthIsUnique(p, live, x, j, k, root); }
      }
    }
  }

  // ---- The level-order walk of a forest ----

  lemma {:induction false} FlatMember(levels: seq<seq<Entry>>, n: nat, e: Entry)
    requires n <= |levels|
    ensures e in Flat(levels, n) <==> exists k :: 0 <= k < n && e in levels[k]
  {
    if n > 0 { FlatMember(levels, n - 1, e); }
  }

  /** The walk holds exactly the live descendants within the depth, each with its distance. */
  lemma {:induction false} WalkMember(g: Graph, depth: nat, root: Id, e: Entry)
    ensures e in Walked(g, depth, root) <==> e.level <= depth && Reaches(g, root, e.id, e.level)
  {
    var levels := Levels(g, depth, root);
    FlatMember(levels, depth + 1, e);
    if k :| 0 <= k < depth + 1 && e in levels[k] { LevelIsReached(g, depth, root, k, e); }
    if e.level <= depth && Reaches(g, root, e.id, e.level) {
      ReachedIsInLevel(g, depth, root, e.level, e.id);
      assert e in levels[e.level];
    }
  }

  lemma {:induction false} DistinctAppend(a: seq<Entry>, b: seq<Entry>, s: seq<Entry>)
    requires Distinct(a) && Distinct(b) && s == a + b
    requires forall e, f {:trigger e in a, f in b} :: e in a && f in b ==> e.id != f.id
    ensures Distinct(s)
  {
    forall i, j | 0 <= i < j < |s| ensures s[i].id != s[j].id {
      if i < |a| <= j { assert a[i] in a && b[j - |a|] in b; }
    }
  }

  lemma {:induction false} FeedIsDistinct(g: Graph, depth: nat, e: Entry)
    requires e.id in g ==> NoDup(g[e.id])
    ensures Distinct(Feed(g, depth, e))
  {
  }

  lemma {:induction false} FeedsAreDistinct(g: Graph, p: Parents, live: set<Id>, depth: nat, es: seq<Entry>, n: nat)
    requires ForestGraph(g, p, live) && Distinct(es) && n <= |es|
    ensures Distinct(Fed(g, depth, [], es, n))
  {
    if n > 0 {
      FeedsAreDistinct(g, p, live, depth, es, n - 1);
      FeedIsDistinct(g, depth, es[n - 1]);
      var before, more := Fed(g, depth, [], es, n - 1), Feed(g, depth, es[n - 1]);
      forall a, b | a in before && b in more ensures a.id != b.id {
        var i := FedFrom(g, depth, es, n - 1, a);
        FedHasParent(g, p, live, es[i].id, a.id);
        FedHasParent(g, p, live, es[n - 1].id, b.id);
      }
      DistinctAppend(before, more, Fed(g, depth, [], es, n));
    }
  }

  lemma {:induction false} FedHasParent(g: Graph, p: Parents, live: set<Id>, x: Id, c: Id)
    requires ForestGraph(g, p, live) && x in g && c in g[x]
    ensures c in p && p[c] == x
  {
  }

  lemma {:induction false} LevelIsDistinct(g: Graph, p: Parents, live: set<Id>, depth: nat, root: Id, k: nat)
    requires ForestGraph(g, p, live)
    ensures Distinct(Level(g, depth, root, k))
  {
    if k > 0 {
      LevelIsDistinct(g, p, live, depth, root, k - 1);
      var above := Level(g, depth, root, k - 1);
      FeedsAreDistinct(g, p, live, depth, above, |above|);
    }
  }

  /** No item is reached by walks of different lengths. */
  ghost predicate OneDepthEach(g: Graph, root: Id) {
    forall x, i: nat, j: nat {:trigger Reaches(g, root, x, i), Reaches(g, root, x, j)} ::
      Reaches(g, root, x, i) && Reaches(g, root, x, j) ==> i == j
  }

  lemma {:induction false} DepthsAreUnique(g: Graph, p: Parents, live: set<Id>, root: Id)
    requires ForestGraph(g, p, live) && Acyclic(p)
    ensures OneDepthEach(g, root)
  {
    forall x, i: nat, j: nat {:trigger Reaches(g, root, x, i), Reaches(g, root, x, j)} |
      Reaches(g, root, x, i) && Reaches(g, root, x, j) ensures i == j
    {
      DownIsUp(g, p, live, root, x, i);
      DownIsUp(g, p, live, root, x, j);
      ClimbLengthIsUnique(p, live, x, i, j, root);
    }
  }

  /** No two levels, and no level with itself, name an item twice. */
  ghost predicate LevelsDistinct(levels: seq<seq<Entry>>) {
    && (forall k {:trigger levels[k]} :: 0 <= k < |levels| ==> Distinct(levels[k]))
    && forall j: nat, k: nat, e: Entry, f: Entry {:trigger e in levels[j], f in levels[k]} ::
         0 <= j < k < |levels| && e in levels[j] && f in levels[k] ==> e.id != f.id
  }

  lemma {:induction false} FlatIsDistinct(levels: seq<seq<Entry>>, n: nat)
    requires LevelsDistinct(levels) && n <= |levels|
    ensures Distinct(Flat(levels, n))
  {
    if n > 0 {
      FlatIsDistinct(levels, n - 1);
      forall e, f | e in Flat(levels, n - 1) && f in levels[n - 1]
        ensures e.id != f.id
      {
        FlatMember(levels, n - 1, e);
      }
      DistinctAppend(Flat(levels, n - 1), levels[n - 1], Flat(levels, n));
    }
  }

  lemma {:induction false} LevelsAreDistinct(g: Graph, p: Parents, live: set<Id>, depth: nat, root: Id)
    requires ForestGraph(g, p, live) && OneDepthEach(g, root)
    ensures LevelsDistinct(Levels(g, depth, root))
  {
    var levels: seq<seq<Entry>> := Levels(g, depth, root);
    forall k | 0 <= k < |levels| ensures Distinct(levels[k]) { LevelIsDistinct(g, p, live, depth, root, k); }
    forall j: nat, k: nat, e: Entry, f: Entry | 0 <= j < k < |levels| && e in levels[j] && f in levels[k]
      ensures e.id != f.id
    {
      LevelIsReached(g, depth, root, j, e);
      LevelIsReached(g, depth, root, k, f);
    }
  }

  /** No item occurs twice in the level-order walk of a forest. */
  lemma {:induction false} WalkIsDistinct(g: Graph, p: Parents, live: set<Id>, depth: nat, root: Id)
    requires ForestGraph(g, p, live) && Acyclic(p)
    ensures Distinct(Walked(g, depth, root))
  {
    DepthsAreUnique(g, p, live, root);
    LevelsAreDistinct(g, p, live, depth, root);
    FlatIsDistinct(Levels(g, depth, root), depth + 1);
  }

  /** In a forest the reading returns the first min(limit, T) of the T entries of the
      level-order walk, says so exactly when T > limit, and counts as loaded every row
      but the root, plus the one entry a cut leaves waiting. */
  lemma ForestReadingIsPrefix(g: Graph, p: Parents, live: set<Id>, root: Id, depth: nat, limit: nat)
    requires Closed(g) && ForestGraph(g, p, live) && Acyclic(p) && root in g && limit >= 1
    ensures var w := Run(g, depth, limit, Start(root));
            var all := Walked(g, depth, root);
            && |w.rows| == Min(limit, |all|)
            && (forall k :: 0 <= k < |w.rows| ==> w.rows[k].id == all[k].id && w.rows[k].level == all[k].level)
            && (w.truncated <==> |all| > limit)
            && LoadedSum(w.rows) == |w.rows| - 1 + (if w.truncated then 1 else 0)
  {
    WalkIsDistinct(g, p, live, depth, root);
    ReadingIsPrefix(g, root, depth, limit);
  }

  /** An untruncated reading of a forest returns (x, d) exactly when root is the d-th item
      above x, x and everything strictly between are live, and d is within the depth. */
  lemma DownAndUpAgree(g: Graph, p: Parents, live: set<Id>, root: Id, depth: nat, limit: nat, x: Id, d: nat)
    requires Closed(g) && ForestGraph(g, p, live) && Acyclic(p) && root in g && limit >= 1
    requires !Run(g, depth, limit, Start(root)).truncated
    ensures var rows := Run(g, depth, limit, Start(root)).rows;
            (exists k :: 0 <= k < |rows| && rows[k].id == x && rows[k].level == d) <==>
            d <= depth && Up(p, x, d) == Some(root) && LiveBelow(p, live, x, d)
  {
    ReadingIsExact(g, root, depth, limit);
    DistanceIsClimb(g, p, live, root, x, d);
    LiveClimbIsUp(p, live, x, d, root);
  }

  // ---- What a row says about the children that are not there ----

  /** Some child of the row's item is not among the rows. */
  ghost predicate LacksChild(g: Graph, rows: seq<Row>, r: Row)
    requires r.id in g
  {
    exists c :: c in g[r.id] && !Listed(rows, c)
  }

  /** The walk's first entry left out is the last child of the row. */
  ghost predicate LastChildIsNext(g: Graph, all: seq<Entry>, limit: nat, r: Row)
    requires r.id in g
  {
    |all| > limit && g[r.id] != [] && all[limit].id == g[r.id][|g[r.id]| - 1]
  }

  /** What is known of a finished reading of a forest. */
  ghost predicate Finished(g: Graph, p: Parents, live: set<Id>, root: Id, depth: nat, limit: nat, w: Walk,
      all: seq<Entry>)
  {
    ForestGraph(g, p, live) && Sends(g, [Entry(root, 0)], w) && RowsAre(w) && Distinct(all) && w.log <= all &&
      CutIs(limit, w)
  }

  /** One entry is left waiting by a cut, none otherwise. */
  ghost predicate CutIs(limit: nat, w: Walk) {
    if w.truncated then |w.rows| == limit && |w.log| == limit + 1 else |w.rows| == |w.log|
  }

  lemma {:induction false} TakenIsListed(w: Walk, j: nat)
    requires RowsAre(w) && j < |w.rows|
    ensures Listed(w.rows, w.log[j].id)
  {
    assert w.rows[j].id == w.log[j].id;
  }

  /** Only one entry can be waiting at the end. */
  lemma {:induction false} OneWaits(limit: nat, w: Walk, j: nat)
    requires RowsAre(w) && j < |w.log| && !Listed(w.rows, w.log[j].id)
    requires CutIs(limit, w)
    ensures w.truncated && j == limit
  {
    if j < |w.rows| {
      TakenIsListed(w, j);
      assert false;
    }
  }

  /** A child counted as loaded and left out is the one entry a cut leaves waiting, and the row's last child. */
  lemma {:induction false} LoadedButMissing(g: Graph, limit: nat, w: Walk, all: seq<Entry>, r: Row, start: nat, i: nat)
    requires RowsAre(w) && w.log <= all && CutIs(limit, w) && r.id in g && i < r.loaded == |g[r.id]|
    requires start + r.loaded <= |w.log|
    requires forall m: nat {:trigger g[r.id][m]} :: m < r.loaded ==> w.log[start + m].id == g[r.id][m]
    requires !Listed(w.rows, g[r.id][i])
    ensures w.truncated && LastChildIsNext(g, all, limit, r)
  {
    OneWaits(limit, w, start + i);
    assert all[limit] == w.log[limit];
  }

  /** The entry a cut leaves waiting was loaded by the row it is the last child of, which loaded all its children. */
  lemma {:induction false} LastChildWasLoaded(g: Graph, p: Parents, live: set<Id>, root: Id, depth: nat, limit: nat,
      w: Walk, all: seq<Entry>, k: nat)
    requires Finished(g, p, live, root, depth, limit, w, all) && k < |w.rows| && limit >= 1
    requires w.truncated && LastChildIsNext(g, all, limit, w.rows[k])
    ensures w.rows[k].loaded == w.rows[k].childCount && LacksChild(g, w.rows, w.rows[k])
  {
    var r, head := w.rows[k], [Entry(root, 0)];
    var c := g[r.id][|g[r.id]| - 1];
    assert w.log[limit] == all[limit];
    var m, i := SentFrom(g, head, w.rows, |w.rows|, limit);
    assert c in g[r.id] && c in g[w.rows[m].id];
    assert w.rows[m].id == w.log[m].id && r.id == w.log[k].id;
    assert all[m] == w.log[m] && all[k] == w.log[k];
    assert m == k && i == |g[r.id]| - 1;
    forall j: nat | j < |w.rows| ensures w.rows[j].id != c { assert all[j] == w.log[j]; }
  }

  lemma {:induction false} RootIsNoChild(g: Graph, p: Parents, live: set<Id>, root: Id, x: Id, k: nat)
    requires ForestGraph(g, p, live) && Acyclic(p) && x in g && Reaches(g, root, x, k)
    ensures root !in g[x]
  {
    DownIsUp(g, p, live, root, x, k);
    LiveClimbIsUp(p, live, x, k, root);
    if root in g[x] {
      assert Up(p, root, k + 1) == Some(root);
      assert Ancestor(p, root, root);
    }
  }

  /** A child that was not loaded is nowhere else among the rows. */
  lemma {:induction false} NotLoadedIsMissing(g: Graph, p: Parents, live: set<Id>, root: Id, depth: nat, limit: nat,
      w: Walk, all: seq<Entry>, k: nat)
    requires Finished(g, p, live, root, depth, limit, w, all) && k < |w.rows| && w.rows[k].loaded < w.rows[k].childCount
    requires root !in g[w.rows[k].id]
    ensures LacksChild(g, w.rows, w.rows[k])
  {
    var r, head := w.rows[k], [Entry(root, 0)];
    var c := g[r.id][r.loaded];
    assert c in g[r.id];
    SentOfRoot(g, head, w.rows, |w.rows|);
    assert w.log[0] == head[0];
    forall j: nat | j < |w.rows| ensures w.rows[j].id != c {
      if j > 0 {
        var m, i := SentFrom(g, head, w.rows, |w.rows|, j);
        assert g[w.rows[m].id][i] in g[w.rows[m].id] && all[m] == w.log[m] && all[k] == w.log[k];
        assert c in g[w.rows[m].id] ==> m == k;
      }
    }
    assert !Listed(w.rows, c);
  }

  lemma {:induction false} SentOfRoot(g: Graph, head: seq<Entry>, rows: seq<Row>, n: nat)
    requires FromGraph(g, rows) && n <= |rows|
    ensures head <= Sent(g, head, rows, n)
  {
    if n > 0 { SentOfRoot(g, head, rows, n - 1); }
  }

  lemma {:induction false} ReadingFinishes(g: Graph, p: Parents, live: set<Id>, root: Id, depth: nat, limit: nat)
    requires Closed(g) && ForestGraph(g, p, live) && Acyclic(p) && root in g && limit >= 1
    ensures Finished(g, p, live, root, depth, limit, Run(g, depth, limit, Start(root)), Walked(g, depth, root))
  {
    WalkIsDistinct(g, p, live, depth, root);
    ReadingFollowsWalk(g, root, depth, limit);
    ReadingSends(g, depth, limit, [Entry(root, 0)], Start(root));
  }

  lemma {:induction false} RowsDoNotHoldTheRoot(g: Graph, p: Parents, live: set<Id>, root: Id, depth: nat,
      limit: nat, k: nat)
    requires Closed(g) && ForestGraph(g, p, live) && Acyclic(p) && root in g && limit >= 1
    requires k < |Run(g, depth, limit, Start(root)).rows| && Run(g, depth, limit, Start(root)).rows[k].id in g
    ensures root !in g[Run(g, depth, limit, Start(root)).rows[k].id]
  {
    ReadingIsExact(g, root, depth, limit);
    var r := Run(g, depth, limit, Start(root)).rows[k];
    RootIsNoChild(g, p, live, root, r.id, r.level);
  }

  /** What a row says about its children, against the children that are there. */
  ghost predicate Tells(g: Graph, w: Walk, all: seq<Entry>, limit: nat, r: Row) {
    && r.id in g && r.childCount == |g[r.id]| && r.loaded <= r.childCount
    && (r.loaded < r.childCount ==> LacksChild(g, w.rows, r))
    && (r.loaded == r.childCount && LacksChild(g, w.rows, r) <==> w.truncated && LastChildIsNext(g, all, limit, r))
  }

  lemma {:induction false} FinishedRowTells(g: Graph, p: Parents, live: set<Id>, root: Id, depth: nat, limit: nat,
      w: Walk, all: seq<Entry>, k: nat)
    requires Finished(g, p, live, root, depth, limit, w, all) && k < |w.rows| && limit >= 1
    requires w.rows[k].id in g ==> root !in g[w.rows[k].id]
    ensures Tells(g, w, all, limit, w.rows[k])
  {
    var r := w.rows[k];
    if r.loaded < r.childCount {
      NotLoadedIsMissing(g, p, live, root, depth, limit, w, all, k);
    } else if LacksChild(g, w.rows, r) {
      var c :| c in g[r.id] && !Listed(w.rows, c);
      var i :| 0 <= i < |g[r.id]| && g[r.id][i] == c;
      var start := LoadedSpan(g, [Entry(root, 0)], w, k);
      LoadedButMissing(g, limit, w, all, r, start, i);
    }
    if w.truncated && LastChildIsNext(g, all, limit, r) {
      LastChildWasLoaded(g, p, live, root, depth, limit, w, all, k);
    }
  }

  /** In a forest a row that says more children are there than were loaded is right; a row that says there are no
      more hides one exactly when the reading was cut right before that row's last child. */
  lemma {:induction false} RowsTellTheTruthBut(g: Graph, p: Parents, live: set<Id>, root: Id, depth: nat, limit: nat,
      k: nat)
    requires Closed(g) && ForestGraph(g, p, live) && Acyclic(p) && root in g && limit >= 1
    requires k < |Run(g, depth, limit, Start(root)).rows|
    ensures var w := Run(g, depth, limit, Start(root));
            Tells(g, w, Walked(g, depth, root), limit, w.rows[k])
  {
    var w := Run(g, depth, limit, Start(root));
    ReadingFinishes(g, p, live, root, depth, limit);
    if w.rows[k].id in g { RowsDoNotHoldTheRoot(g, p, live, root, depth, limit, k); }
    FinishedRowTells(g, p, live, root, depth, limit, w, Walked(g, depth, root), k);
  }
}
