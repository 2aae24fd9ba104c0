// A proposed set of children next to the ones that already exist: how alike
// two titles are, and which proposal speaks of which child.
module Compare {
  import opened Basics

  // ---- How alike two titles are ----

  /** `norm` lower-cases a title and drops its white space. */
  type Norm = string -> string

  function Pair(chars: string, i: nat): string
    requires i + 1 < |chars|
  {
    chars[i..i + 2]
  }

  function Bigrams(chars: string): set<string> {
    set i | 0 <= i < |chars| - 1 :: Pair(chars, i)
  }

  function Overlap(norm: Norm, a: string, b: string): nat {
    var left, right := Bigrams(norm(a)), Bigrams(norm(b));
    if left == {} || right == {} then (if a == b then 100 else 0)
    else |left * right| * 200 / (|left| + |right|)
  }

  lemma {:induction false} SharedAtMost<T>(a: set<T>, b: set<T>)
    ensures |a * b| <= |a| && |a * b| <= |b|
    ensures |a * b| == |a| && |a * b| == |b| ==> a == b
  {
    SubsetSize(a * b, a);
    SubsetSize(a * b, b);
    if |a * b| == |a| && |a * b| == |b| {
      SameSize(a * b, a);
      SameSize(a * b, b);
    }
  }

  lemma {:induction false} SameSize<T>(a: set<T>, b: set<T>)
    requires a <= b && |a| == |b|
    ensures a == b
  {
    assert b == a + (b - a);
    assert |b| == |a| + |b - a|;
  }

  lemma {:induction false} Percent(shared: nat, total: nat)
    requires total > 0 && 2 * shared <= total
    ensures shared * 200 / total <= 100
    ensures shared * 200 / total == 100 <==> 2 * shared == total
  {
    var q := shared * 200 / total;
    assert q * total <= shared * 200 < (q + 1) * total;
    assert q >= 101 ==> 101 * total <= q * total;
    assert q <= 99 ==> (q + 1) * total <= 100 * total;
  }

  /** The measure is symmetric, at most 100, and 100 exactly for the same pairs of characters
      (or, for titles too short to have any, for the same title). */
  lemma {:induction false} OverlapIs(norm: Norm, a: string, b: string)
    ensures Overlap(norm, a, b) == Overlap(norm, b, a)
    ensures Overlap(norm, a, b) <= 100
    ensures Overlap(norm, a, b) == 100 <==>
            (Bigrams(norm(a)) == Bigrams(norm(b)) != {}) ||
              ((Bigrams(norm(a)) == {} || Bigrams(norm(b)) == {}) && a == b)
    ensures a == b ==> Overlap(norm, a, b) == 100
  {
    var left, right := Bigrams(norm(a)), Bigrams(norm(b));
    assert left * right == right * left;
    if left != {} && right != {} {
      SharedAtMost(left, right);
      Percent(|left * right|, |left| + |right|);
      if left == right { assert left * right == left; }
    }
  }

  // ---- The children that exist ----

  datatype Item = Item(id: Id, title: string, kind: string, archived: bool)

  datatype Relation = Relation(kind: string, source: Id, target: Id)

  const PART_OF := "part_of"
  const DEFAULT_KIND := "initiative"
  const ENOUGH: nat := 50

  /** Unarchived sources of the first n part_of relations into x, in stored order. */
  function Existing(byId: map<Id, Item>, rels: seq<Relation>, n: nat, x: Id): seq<Item>
    requires n <= |rels|
  {
    if n == 0 then []
    else
      var r := rels[n - 1];
      if r.kind == PART_OF && r.target == x && r.source in byId && !byId[r.source].archived
      then Existing(byId, rels, n - 1, x) + [byId[r.source]]
      else Existing(byId, rels, n - 1, x)
  }

  // ---- Matching ----

  /** What was proposed; None where the field is missing. */
  datatype Candidate = Candidate(title: Option<string>, kind: Option<string>)

  datatype Row =
    | Keep(child: Item, title: string, kind: string, score: nat)
    | Change(child: Item, title: string, kind: string, score: nat)
    | Add(title: string, kind: string)
    | RemoveCandidate(child: Item)

  function TitleOf(trim: Norm, c: Candidate): string {
    trim(if c.title.Some? then c.title.value else "")
  }

  function KindOf(c: Candidate): string {
    if c.kind.Some? then c.kind.value else DEFAULT_KIND
  }

  /** The last of the most alike among the first n children not matched yet. */
  function Best(like: Item -> nat, existing: seq<Item>, n: nat, matched: set<Id>): Option<nat>
    requires n <= |existing|
  {
    if n == 0 then None
    else
      var before := Best(like, existing, n - 1, matched);
      if existing[n - 1].id in matched then before
      else if before.Some? && before.value < n - 1 && like(existing[n - 1]) < like(existing[before.value]) then before
      else Some(n - 1)
  }

  lemma {:induction false} BestIs(like: Item -> nat, existing: seq<Item>, n: nat, matched: set<Id>)
    requires n <= |existing|
    ensures match Best(like, existing, n, matched)
            case None => forall k :: 0 <= k < n ==> existing[k].id in matched
            case Some(i) =>
              && i < n && existing[i].id !in matched
              && forall k :: 0 <= k < n && existing[k].id !in matched ==>
                   like(existing[k]) <= like(existing[i]) && (i < k ==> like(existing[k]) < like(existing[i]))
  {
    if n > 0 { BestIs(like, existing, n - 1, matched); }
  }

  /** How alike a title is to each child. */
  function Like(norm: Norm, title: string): Item -> nat {
    (c: Item) => Overlap(norm, title, c.title)
  }

  /** The child that is meant, if one is alike enough. */
  function Match(like: Item -> nat, existing: seq<Item>, matched: set<Id>): (r: Option<Item>) {
    BestIs(like, existing, |existing|, matched);
    match Best(like, existing, |existing|, matched)
    case None => None
    case Some(i) => if like(existing[i]) >= ENOUGH then Some(existing[i]) else None
  }

  function RowOf(like: Item -> nat, existing: seq<Item>, matched: set<Id>, title: string, kind: string): Row {
    match Match(like, existing, matched)
    case None => Add(title, kind)
    case Some(child) =>
      if child.title == title && child.kind == kind then Keep(child, title, kind, like(child))
        else Change(child, title, kind, like(child))
  }

  function RowFor(norm: Norm, existing: seq<Item>, matched: set<Id>, title: string, kind: string): Row {
    RowOf(Like(norm, title), existing, matched, title, kind)
  }

  predicate Speaks(r: Row) {
    r.Keep? || r.Change?
  }

  function MatchedBy(r: Row): set<Id> {
    if Speaks(r) then {r.child.id} else {}
  }

  function MatchedIn(rows: seq<Row>, n: nat): set<Id>
    requires n <= |rows|
  {
    if n == 0 then {} else MatchedIn(rows, n - 1) + MatchedBy(rows[n - 1])
  }

  function Removals(existing: seq<Item>, n: nat, matched: set<Id>): seq<Row>
    requires n <= |existing|
  {
    if n == 0 then []
    else if existing[n - 1].id in matched then Removals(existing, n - 1, matched)
    else Removals(existing, n - 1, matched) + [RemoveCandidate(existing[n - 1])]
  }

  datatype Result = MissingItem | Invalid | Comparison(rows: seq<Row>)

  /** Row j answers candidate j, given what the earlier rows matched. */
  ghost predicate AnswersOne(norm: Norm, trim: Norm, existing: seq<Item>, cs: seq<Candidate>, rows: seq<Row>, j: nat)
    requires j < |cs| && j < |rows|
  {
    && TitleOf(trim, cs[j]) != ""
    && rows[j] == RowFor(norm, existing, MatchedIn(rows, j), TitleOf(trim, cs[j]), KindOf(cs[j]))
  }

  /** The first n rows answer the first n candidates. */
  ghost predicate Answers(norm: Norm, trim: Norm, existing: seq<Item>, cs: seq<Candidate>, rows: seq<Row>, n: nat) {
    n <= |rows| && n <= |cs| && forall j :: 0 <= j < n ==> AnswersOne(norm, trim, existing, cs, rows, j)
  }

  lemma {:induction false} MatchedOfPrefix(rows: seq<Row>, more: seq<Row>, n: nat)
    requires n <= |rows|
    ensures MatchedIn(rows + more, n) == MatchedIn(rows, n)
  {
    if n > 0 {
      MatchedOfPrefix(rows, more, n - 1);
      assert (rows + more)[n - 1] == rows[n - 1];
    }
  }

  lemma {:induction false} AnswersGrow(norm: Norm, trim: Norm, existing: seq<Item>, cs: seq<Candidate>,
      rows: seq<Row>, r: Row)
    requires |rows| < |cs| && Answers(norm, trim, existing, cs, rows, |rows|)
    requires TitleOf(trim, cs[|rows|]) != ""
    requires r == RowFor(norm, existing, MatchedIn(rows, |rows|), TitleOf(trim, cs[|rows|]), KindOf(cs[|rows|]))
    ensures Answers(norm, trim, existing, cs, rows + [r], |rows| + 1)
    ensures MatchedIn(rows + [r], |rows| + 1) == MatchedIn(rows, |rows|) + MatchedBy(r)
  {
    forall j | 0 <= j < |rows| + 1 ensures AnswersOne(norm, trim, existing, cs, rows + [r], j) {
      MatchedOfPrefix(rows, [r], j);
      if j < |rows| { assert AnswersOne(norm, trim, existing, cs, rows, j); }
    }
    MatchedOfPrefix(rows, [r], |rows|);
  }

  /** The children of an item, in the order their relations are stored. */
  method ExistingChildren(byId: map<Id, Item>, rels: seq<Relation>, x: Id) returns (existing: seq<Item>)
    ensures existing == Existing(byId, rels, |rels|, x)
  {
    existing := [];
    for i := 0 to |rels|
      invariant existing == Existing(byId, rels, i, x)
    {
      var r := rels[i];
      if r.kind == PART_OF && r.target == x && r.source in byId && !byId[r.source].archived {
        existing := existing + [byId[r.source]];
      }
    }
  }

  /** max_by_key keeps the last of equals. */
  method MostAlike(like: Item -> nat, existing: seq<Item>, matched: set<Id>) returns (best: Option<nat>)
    ensures best == Best(like, existing, |existing|, matched)
  {
    best := None;
    for i := 0 to |existing|
      invariant best == Best(like, existing, i, matched)
      invariant best.Some? ==> best.value < i
    {
      if existing[i].id !in matched {
        if best == None || like(existing[i]) >= like(existing[best.value]) {
          best := Some(i);
        }
      }
    }
  }

  /** One candidate: the child it speaks of is taken, or it is new work. */
  method AnswerCandidate(norm: Norm, existing: seq<Item>, matched: set<Id>, title: string, kind: string)
    returns (row: Row)
    ensures row == RowFor(norm, existing, matched, title, kind)
  {
    var like := Like(norm, title);
    var best := MostAlike(like, existing, matched);
    BestIs(like, existing, |existing|, matched);
    row := Add(title, kind);
    if best.Some? && like(existing[best.value]) >= ENOUGH {
      var child := existing[best.value];
      var score := like(child);
      row := if child.title == title && child.kind == kind then Keep(child, title, kind, score)
        else Change(child, title, kind, score);
    }
  }

  /** Each candidate so far has its row, and the children those rows speak of are taken. */
  ghost predicate AnsweredSoFar(norm: Norm, trim: Norm, existing: seq<Item>, cs: seq<Candidate>, rows: seq<Row>,
      matched: set<Id>)
  {
    |rows| <= |cs| && Answers(norm, trim, existing, cs, rows, |rows|) && matched == MatchedIn(rows, |rows|)
  }

  lemma {:induction false} AnsweredOneMore(norm: Norm, trim: Norm, existing: seq<Item>, cs: seq<Candidate>,
      rows: seq<Row>, matched: set<Id>, row: Row)
    requires |rows| < |cs| && AnsweredSoFar(norm, trim, existing, cs, rows, matched)
    requires TitleOf(trim, cs[|rows|]) != ""
    requires row == RowFor(norm, existing, matched, TitleOf(trim, cs[|rows|]), KindOf(cs[|rows|]))
    ensures var taken := if Speaks(row) then matched + {row.child.id} else matched;
            AnsweredSoFar(norm, trim, existing, cs, rows + [row], taken)
  {
    AnswersGrow(norm, trim, existing, cs, rows, row);
  }

  /** All candidates in order; None when one has no title. */
  method AnswerAll(norm: Norm, trim: Norm, existing: seq<Item>, cs: seq<Candidate>)
    returns (r: Option<seq<Row>>, matched: set<Id>)
    ensures r == None <==> exists j :: 0 <= j < |cs| && TitleOf(trim, cs[j]) == ""
    ensures r.Some? ==> |r.value| == |cs| && Answers(norm, trim, existing, cs, r.value, |cs|)
    ensures r.Some? ==> matched == MatchedIn(r.value, |cs|)
  {
    var rows: seq<Row> := [];
    matched := {};
    for i := 0 to |cs|
      invariant |rows| == i && AnsweredSoFar(norm, trim, existing, cs, rows, matched)
      invariant forall j :: 0 <= j < i ==> TitleOf(trim, cs[j]) != ""
    {
      var title := TitleOf(trim, cs[i]);
      if title == "" { return None, matched; }
      var row := AnswerCandidate(norm, existing, matched, title, KindOf(cs[i]));
      AnsweredOneMore(norm, trim, existing, cs, rows, matched, row);
      if Speaks(row) { matched := matched + {row.child.id}; }
      rows := rows + [row];
    }
    r := Some(rows);
  }

  method ListRemovals(existing: seq<Item>, matched: set<Id>) returns (removed: seq<Row>)
    ensures removed == Removals(existing, |existing|, matched)
  {
    removed := [];
    for i := 0 to |existing|
      invariant removed == Removals(existing, i, matched)
    {
      if existing[i].id !in matched { removed := removed + [RemoveCandidate(existing[i])]; }
    }
  }

  /** The comparison of a list of children with what the candidates say. */
  ghost predicate Compares(norm: Norm, trim: Norm, existing: seq<Item>, cs: seq<Candidate>, rows: seq<Row>) {
    exists answered: seq<Row> :: rows == answered + Removals(existing, |existing|, MatchedIn(answered, |answered|)) &&
      |answered| == |cs| && Answers(norm, trim, existing, cs, answered, |cs|)
  }

  /** proposed: None when what was sent is not a list. */
  method CompareChildren(norm: Norm, trim: Norm, byId: map<Id, Item>, rels: seq<Relation>, x: Id,
      proposed: Option<seq<Candidate>>)
    returns (r: Result)
    ensures x !in byId ==> r == MissingItem
    ensures x in byId ==>
              (r == Invalid <==>
               proposed == None || exists j :: 0 <= j < |proposed.value| && TitleOf(trim, proposed.value[j]) == "")
    ensures x in byId && r != Invalid ==>
              r.Comparison? && Compares(norm, trim, Existing(byId, rels, |rels|, x), proposed.value, r.rows)
  {
    if x !in byId { return MissingItem; }
    var existing := ExistingChildren(byId, rels, x);
    if proposed == None { return Invalid; }
    var answered, matched := AnswerAll(norm, trim, existing, proposed.value);
    if answered == None { return Invalid; }
    var removed := ListRemovals(existing, matched);
    r := Comparison(answered.value + removed);
  }

  // ---- Nothing is lost, nothing is said twice ----

  /** How many of the first n rows name the child x. */
  ghost function Named(rows: seq<Row>, n: nat, x: Id): nat
    requires n <= |rows|
  {
    if n == 0 then 0
    else Named(rows, n - 1, x) + (if !rows[n - 1].Add? && rows[n - 1].child.id == x then 1 else 0)
  }

  ghost function Times(existing: seq<Item>, n: nat, x: Id): nat
    requires n <= |existing|
  {
    if n == 0 then 0 else Times(existing, n - 1, x) + (if existing[n - 1].id == x then 1 else 0)
  }

  /** A candidate never speaks of a child an earlier one already spoke of. */
  lemma {:induction false} MatchIsNew(like: Item -> nat, existing: seq<Item>, matched: set<Id>, title: string,
      kind: string)
    ensures var r := RowOf(like, existing, matched, title, kind);
            Speaks(r) ==> r.child in existing && r.child.id !in matched && r.score >= ENOUGH
  {
    BestIs(like, existing, |existing|, matched);
  }

  lemma {:induction false} SpokenOnce(norm: Norm, trim: Norm, existing: seq<Item>, cs: seq<Candidate>,
      rows: seq<Row>, n: nat, x: Id)
    requires Answers(norm, trim, existing, cs, rows, n)
    ensures Named(rows, n, x) == if x in MatchedIn(rows, n) then 1 else 0
  {
    if n > 0 {
      SpokenOnce(norm, trim, existing, cs, rows, n - 1, x);
      assert AnswersOne(norm, trim, existing, cs, rows, n - 1);
      MatchIsNew(Like(norm, TitleOf(trim, cs[n - 1])), existing, MatchedIn(rows, n - 1), TitleOf(trim, cs[n - 1]),
        KindOf(cs[n - 1]));
    }
  }

  lemma {:induction false} NamedInTail(rows: seq<Row>, more: seq<Row>, n: nat, x: Id)
    requires n <= |more|
    ensures Named(rows + more, |rows| + n, x) == Named(rows, |rows|, x) + Named(more, n, x)
  {
    if n > 0 {
      NamedInTail(rows, more, n - 1, x);
      assert (rows + more)[|rows| + n - 1] == more[n - 1];
    } else {
      NamedOfPrefix(rows, more, |rows|, x);
    }
  }

  lemma {:induction false} NamedOfPrefix(rows: seq<Row>, more: seq<Row>, n: nat, x: Id)
    requires n <= |rows|
    ensures Named(rows + more, n, x) == Named(rows, n, x)
  {
    if n > 0 {
      NamedOfPrefix(rows, more, n - 1, x);
      assert (rows + more)[n - 1] == rows[n - 1];
    }
  }

  lemma {:induction false} RemovedAsOften(existing: seq<Item>, n: nat, matched: set<Id>, x: Id)
    requires n <= |existing|
    ensures Named(Removals(existing, n, matched), |Removals(existing, n, matched)|, x) ==
            if x in matched then 0 else Times(existing, n, x)
  {
    if n > 0 {
      RemovedAsOften(existing, n - 1, matched, x);
      var before := Removals(existing, n - 1, matched);
      if existing[n - 1].id !in matched { NamedInTail(before, [RemoveCandidate(existing[n - 1])], 1, x); }
    }
  }

  lemma {:induction false} CountTogether(existing: seq<Item>, answered: seq<Row>, matched: set<Id>, x: Id)
    ensures var removed := Removals(existing, |existing|, matched);
            Named(answered + removed, |answered + removed|, x) ==
            Named(answered, |answered|, x) + (if x in matched then 0 else Times(existing, |existing|, x))
  {
    var removed := Removals(existing, |existing|, matched);
    NamedInTail(answered, removed, |removed|, x);
    RemovedAsOften(existing, |existing|, matched, x);
  }

  /** Every child is named by as many rows as it is listed, or by exactly one when a candidate speaks
      of it; so where each is listed once, each appears exactly once. */
  lemma {:induction false} EachChildOnce(norm: Norm, trim: Norm, existing: seq<Item>, cs: seq<Candidate>,
      answered: seq<Row>, x: Id)
    requires |answered| == |cs| && Answers(norm, trim, existing, cs, answered, |cs|)
    ensures var rows := answered + Removals(existing, |existing|, MatchedIn(answered, |cs|));
            Named(rows, |rows|, x) == if x in MatchedIn(answered, |cs|) then 1 else Times(existing, |existing|, x)
  {
    SpokenOnce(norm, trim, existing, cs, answered, |cs|, x);
    CountTogether(existing, answered, MatchedIn(answered, |cs|), x);
  }

  /** Only children are ever spoken of. */
  lemma {:induction false} OnlyChildrenAreNamed(norm: Norm, trim: Norm, existing: seq<Item>, cs: seq<Candidate>,
      answered: seq<Row>, n: nat, x: Id)
    requires Answers(norm, trim, existing, cs, answered, n) && x in MatchedIn(answered, n)
    ensures exists i :: 0 <= i < |existing| && existing[i].id == x
  {
    var r := answered[n - 1];
    assert AnswersOne(norm, trim, existing, cs, answered, n - 1);
    MatchIsNew(Like(norm, TitleOf(trim, cs[n - 1])), existing, MatchedIn(answered, n - 1), TitleOf(trim, cs[n - 1]),
      KindOf(cs[n - 1]));
    if x in MatchedBy(r) {
      var i :| 0 <= i < |existing| && existing[i] == r.child;
    } else {
      OnlyChildrenAreNamed(norm, trim, existing, cs, answered, n - 1, x);
    }
  }

  /** A candidate titled like a child nobody has spoken of yet is never put down as new work. */
  lemma {:induction false} SameTitleIsNeverAdded(norm: Norm, trim: Norm, existing: seq<Item>, cs: seq<Candidate>,
      rows: seq<Row>, j: nat, i: nat)
    requires Answers(norm, trim, existing, cs, rows, |cs|) && j < |cs| && i < |existing|
    requires existing[i].id !in MatchedIn(rows, j) && existing[i].title == TitleOf(trim, cs[j])
    ensures Speaks(rows[j]) && rows[j].score == 100
  {
    var title := TitleOf(trim, cs[j]);
    OverlapIs(norm, title, existing[i].title);
    assert Like(norm, title)(existing[i]) == 100;
    EachCandidateOnce(norm, trim, existing, cs, rows, j);
    OverlapIs(norm, title, rows[j].child.title);
    assert rows[j].score == Overlap(norm, title, rows[j].child.title);
  }

  lemma {:induction false} RowSpeaks(like: Item -> nat, existing: seq<Item>, matched: set<Id>, title: string,
      kind: string)
    ensures var r := RowOf(like, existing, matched, title, kind);
            && !r.RemoveCandidate? && r.title == title && r.kind == kind
            && (r.Add? <==> forall i :: 0 <= i < |existing| && existing[i].id !in matched ==>
               like(existing[i]) < ENOUGH)
            && (Speaks(r) ==> r.score == like(r.child) && (r.Keep? <==> r.child.title == title && r.child.kind == kind))
            && (Speaks(r) ==> forall i :: 0 <= i < |existing| && existing[i].id !in matched ==>
               like(existing[i]) <= r.score)
  {
    BestIs(like, existing, |existing|, matched);
  }

  /** Each candidate yields its own row, in order; it is new work exactly when no child still
      unspoken of is alike enough, otherwise it speaks of one of the most alike, and keeps it
      exactly when title and kind are the same. */
  lemma {:induction false} EachCandidateOnce(norm: Norm, trim: Norm, existing: seq<Item>, cs: seq<Candidate>,
      rows: seq<Row>, j: nat)
    requires Answers(norm, trim, existing, cs, rows, |cs|) && j < |cs|
    ensures var r, like := rows[j], Like(norm, TitleOf(trim, cs[j]));
            && !r.RemoveCandidate? && r.title == TitleOf(trim, cs[j]) && r.kind == KindOf(cs[j])
            && (r.Add? <==> forall i :: 0 <= i < |existing| && existing[i].id !in MatchedIn(rows, j) ==>
               like(existing[i]) < ENOUGH)
            && (Speaks(r) ==> r.score == like(r.child))
            && (Speaks(r) ==> (r.Keep? <==> r.child.title == r.title && r.child.kind == r.kind))
            && (Speaks(r) ==> forall i :: 0 <= i < |existing| && existing[i].id !in MatchedIn(rows, j) ==>
               like(existing[i]) <= r.score)
  {
    assert AnswersOne(norm, trim, existing, cs, rows, j);
    RowSpeaks(Like(norm, TitleOf(trim, cs[j])), existing, MatchedIn(rows, j), TitleOf(trim, cs[j]), KindOf(cs[j]));
  }

  // ---- Told from the stored items and relations ----

  ghost predicate IsPairOf(chars: string, p: string) {
    exists i :: 0 <= i < |chars| - 1 && p == [chars[i], chars[i + 1]]
  }

  lemma {:induction false} BigramIsPair(chars: string, p: string)
    ensures p in Bigrams(chars) <==> IsPairOf(chars, p)
  {
    if i :| 0 <= i < |chars| - 1 && p == [chars[i], chars[i + 1]] { assert Pair(chars, i) == p; }
    if p in Bigrams(chars) {
      var i :| 0 <= i < |chars| - 1 && Pair(chars, i) == p;
      assert p == [chars[i], chars[i + 1]];
    }
  }

  lemma WholePart(x: nat, total: nat)
    requires total > 0
    ensures (x / total) * total <= x < (x / total + 1) * total
  {
  }

  /** Where both titles have pairs of neighbouring characters, the measure is the share of pairs in common, in whole
      percent of their average number; where one has none, only the same title counts. */
  lemma {:induction false} OverlapCounts(norm: Norm, a: string, b: string, left: set<string>, right: set<string>)
    requires forall p :: p in left <==> IsPairOf(norm(a), p)
    requires forall p :: p in right <==> IsPairOf(norm(b), p)
    ensures left != {} && right != {} ==>
              var total, percent := |left| + |right|, Overlap(norm, a, b);
              percent * total <= 200 * |left * right| < (percent + 1) * total
    ensures left == {} || right == {} ==> Overlap(norm, a, b) == if a == b then 100 else 0
  {
    forall p ensures p in left <==> p in Bigrams(norm(a)) { BigramIsPair(norm(a), p); }
    forall p ensures p in right <==> p in Bigrams(norm(b)) { BigramIsPair(norm(b), p); }
    assert left == Bigrams(norm(a)) && right == Bigrams(norm(b));
    if left != {} && right != {} { WholePart(|left * right| * 200, |left| + |right|); }
  }

  /** A part_of relation from an unarchived item into x. */
  ghost predicate HoldsChild(byId: map<Id, Item>, r: Relation, x: Id) {
    r.kind == "part_of" && r.target == x && r.source in byId && !byId[r.source].archived
  }

  /** a is held by an earlier relation than b. */
  ghost predicate HeldBefore(byId: map<Id, Item>, rels: seq<Relation>, x: Id, a: Item, b: Item) {
    exists i, j :: 0 <= i < j < |rels| && HoldsChild(byId, rels[i], x) && HoldsChild(byId, rels[j], x) &&
      byId[rels[i].source] == a && byId[rels[j].source] == b
  }

  /** Every such relation lists its child... */
  lemma {:induction false} RelationListsChild(byId: map<Id, Item>, rels: seq<Relation>, n: nat, x: Id, i: nat)
    requires i < n <= |rels| && HoldsChild(byId, rels[i], x)
    ensures |Existing(byId, rels, i, x)| < |Existing(byId, rels, n, x)|
    ensures Existing(byId, rels, n, x)[|Existing(byId, rels, i, x)|] == byId[rels[i].source]
  {
    if i < n - 1 { RelationListsChild(byId, rels, n - 1, x, i); }
  }

  /** ... and every listed child has one, in the order they are stored. */
  lemma {:induction false} ChildrenInStoredOrder(byId: map<Id, Item>, rels: seq<Relation>, n: nat, x: Id, k: nat)
    returns (i: nat)
    requires n <= |rels| && k < |Existing(byId, rels, n, x)|
    ensures i < n && HoldsChild(byId, rels[i], x) && byId[rels[i].source] == Existing(byId, rels, n, x)[k]
    ensures |Existing(byId, rels, i, x)| == k
  {
    if k < |Existing(byId, rels, n - 1, x)| { i := ChildrenInStoredOrder(byId, rels, n - 1, x, k); }
    else { i := n - 1; }
  }

  lemma {:induction false} FewerBefore(byId: map<Id, Item>, rels: seq<Relation>, i: nat, j: nat, x: Id)
    requires i <= j <= |rels|
    ensures |Existing(byId, rels, i, x)| <= |Existing(byId, rels, j, x)|
  {
    if i < j { FewerBefore(byId, rels, i, j - 1, x); }
  }

  /** The children compared with are one for each part_of relation from an unarchived item, in stored order. */
  lemma {:induction false} ChildrenAreStored(byId: map<Id, Item>, rels: seq<Relation>, x: Id)
    ensures var children := Existing(byId, rels, |rels|, x);
            && (forall c :: c in children <==>
                  exists i :: 0 <= i < |rels| && HoldsChild(byId, rels[i], x) && byId[rels[i].source] == c)
            && (forall k, l :: 0 <= k < l < |children| ==>
                  HeldBefore(byId, rels, x, children[k], children[l]))
  {
    var children := Existing(byId, rels, |rels|, x);
    forall c ensures c in children <==>
                     exists i :: 0 <= i < |rels| && HoldsChild(byId, rels[i], x) && byId[rels[i].source] == c {
      if k :| 0 <= k < |children| && children[k] == c {
        var i := ChildrenInStoredOrder(byId, rels, |rels|, x, k);
      }
      if i :| 0 <= i < |rels| && HoldsChild(byId, rels[i], x) && byId[rels[i].source] == c {
        RelationListsChild(byId, rels, |rels|, x, i);
      }
    }
    forall k, l | 0 <= k < l < |children|
      ensures HeldBefore(byId, rels, x, children[k], children[l])
    {
      var i := ChildrenInStoredOrder(byId, rels, |rels|, x, k);
      var j := ChildrenInStoredOrder(byId, rels, |rels|, x, l);
      if j <= i { FewerBefore(byId, rels, j, i, x); }
      assert i < j;
    }
  }

  /** An earlier row speaks of the child. */
  ghost predicate SpokenBefore(rows: seq<Row>, j: nat, x: Id) {
    exists i :: 0 <= i < j && i < |rows| && (rows[i].Keep? || rows[i].Change?) && rows[i].child.id == x
  }

  lemma {:induction false} MatchedIsSpoken(rows: seq<Row>, n: nat, x: Id)
    requires n <= |rows|
    ensures x in MatchedIn(rows, n) <==> SpokenBefore(rows, n, x)
  {
    if n > 0 {
      MatchedIsSpoken(rows, n - 1, x);
      if x in MatchedBy(rows[n - 1]) { assert rows[n - 1].child.id == x; }
    }
  }

  /** Child i is still free when candidate j is answered. */
  ghost predicate Free(existing: seq<Item>, rows: seq<Row>, j: nat, i: nat) {
    i < |existing| && !SpokenBefore(rows, j, existing[i].id)
  }

  /** Row j speaks of child i: free, at least 50 alike, no free child more so, and no later one as much. */
  ghost predicate SpeaksOf(norm: Norm, existing: seq<Item>, rows: seq<Row>, j: nat, i: nat, r: Row, title: string) {
    && Free(existing, rows, j, i) && (r.Keep? || r.Change?) && r.child == existing[i]
    && r.score == Overlap(norm, title, existing[i].title) >= 50
    && forall k: nat {:trigger existing[k]} :: Free(existing, rows, j, k) ==>
         Overlap(norm, title, existing[k].title) <= r.score &&
           (k > i ==> Overlap(norm, title, existing[k].title) < r.score)
  }

  lemma {:induction false} PicksOne(norm: Norm, existing: seq<Item>, rows: seq<Row>, j: nat, matched: set<Id>, r: Row,
      title: string, kind: string)
    requires r == RowFor(norm, existing, matched, title, kind)
    requires forall x :: x in matched <==> SpokenBefore(rows, j, x)
    ensures r.Add? <==> forall i: nat {:trigger existing[i]} :: Free(existing, rows, j, i) ==>
                          Overlap(norm, title, existing[i].title) < 50
    ensures !r.Add? ==> exists i: nat :: SpeaksOf(norm, existing, rows, j, i, r, title)
  {
    var like := Like(norm, title);
    BestIs(like, existing, |existing|, matched);
    var best := Best(like, existing, |existing|, matched);
    forall i: nat | Free(existing, rows, j, i) && best.Some?
      ensures Overlap(norm, title, existing[i].title) <= like(existing[best.value])
    {
      assert existing[i].id !in matched;
    }
    if best.Some? && like(existing[best.value]) >= 50 {
      assert SpeaksOf(norm, existing, rows, j, best.value, r, title);
    }
  }

  /** How candidate j is read and answered. */
  ghost predicate CandidateAnswered(norm: Norm, trim: Norm, existing: seq<Item>, c: Candidate, rows: seq<Row>, j: nat,
      r: Row)
  {
    && c.title.Some? && !r.RemoveCandidate? && r.title == trim(c.title.value) != ""
    && r.kind == (match c.kind case Some(k) => k case None => "initiative")
    && (r.Add? <==> forall i: nat {:trigger existing[i]} :: Free(existing, rows, j, i) ==>
          Overlap(norm, r.title, existing[i].title) < 50)
    && (!r.Add? ==>
          && (exists i: nat :: SpeaksOf(norm, existing, rows, j, i, r, r.title))
          && (r.Keep? <==> r.child.title == r.title && r.child.kind == r.kind))
  }

  /** Told without the functions the answer is built from: each candidate is new work exactly when no free child is
      at least half alike, and otherwise speaks of the last of the most alike free ones. */
  lemma {:induction false} CandidateIsAnswered(norm: Norm, trim: Norm, existing: seq<Item>, cs: seq<Candidate>,
      rows: seq<Row>, j: nat)
    requires Answers(norm, trim, existing, cs, rows, |cs|) && j < |cs| && trim("") == ""
    ensures CandidateAnswered(norm, trim, existing, cs[j], rows, j, rows[j])
  {
    assert AnswersOne(norm, trim, existing, cs, rows, j);
    forall x { MatchedIsSpoken(rows, j, x); }
    PicksOne(norm, existing, rows, j, MatchedIn(rows, j), rows[j], TitleOf(trim, cs[j]), KindOf(cs[j]));
  }

  /** The rows behind the candidates' put down for removal the children nobody spoke of, in stored order. */
  lemma {:induction false} RemovalsInOrder(existing: seq<Item>, n: nat, matched: set<Id>, k: nat, l: nat)
    returns (i: nat, j: nat)
    requires n <= |existing| && k <= l < |Removals(existing, n, matched)|
    ensures i <= j < n && (k < l ==> i < j)
    ensures Removals(existing, n, matched)[k] == RemoveCandidate(existing[i]) && existing[i].id !in matched
    ensures Removals(existing, n, matched)[l] == RemoveCandidate(existing[j]) && existing[j].id !in matched
  {
    var before := Removals(existing, n - 1, matched);
    if l < |before| { i, j := RemovalsInOrder(existing, n - 1, matched, k, l); }
    else {
      j := n - 1;
      if k < |before| {
        var m;
        i, m := RemovalsInOrder(existing, n - 1, matched, k, k);
      } else { i := n - 1; }
    }
  }
}
