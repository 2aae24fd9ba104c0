// The order of the roots of the goal map. Two roots are compared by position, but a root whose parent is hidden is
// compared with any other by the order of reading, because its position counts among the hidden parent's children.
module RootOrder {
  import opened Basics
  import opened Ordering

  /** Which roots have a parent that is not shown, and where each would stand among siblings. */
  datatype Ranking = Ranking(promoted: set<Id>, place: Id -> Placement)

  predicate Before(r: Ranking, a: Id, b: Id) {
    if a in r.promoted || b in r.promoted then r.place(a).order < r.place(b).order
    else || r.place(a).position < r.place(b).position
         || (r.place(a).position == r.place(b).position && r.place(a).order < r.place(b).order)
  }

  /** Every root was read at a moment of its own. */
  ghost predicate ReadApart(r: Ranking, roots: seq<Id>) {
    forall a, b :: a in roots && b in roots && a != b ==> r.place(a).order != r.place(b).order
  }

  ghost predicate Transitive(r: Ranking, roots: seq<Id>) {
    forall a, b, c {:trigger Before(r, a, b), Before(r, b, c)} ::
      a in roots && b in roots && c in roots && Before(r, a, b) && Before(r, b, c) ==> Before(r, a, c)
  }

  /** b is read after a, a promoted root between the two, and yet b's position puts it first. */
  ghost predicate Straddled(r: Ranking, a: Id, p: Id, b: Id) {
    && a !in r.promoted && p in r.promoted && b !in r.promoted
    && r.place(a).order < r.place(p).order < r.place(b).order && r.place(b).position < r.place(a).position
  }

  lemma {:induction false} BeforeIsTotal(r: Ranking, roots: seq<Id>, a: Id, b: Id)
    requires ReadApart(r, roots) && a in roots && b in roots && a != b
    ensures Before(r, a, b) <==> !Before(r, b, a)
  {
  }

  lemma {:induction false} StraddledOrNot(r: Ranking, a: Id, b: Id, c: Id)
    requires Before(r, a, b) && Before(r, b, c) && !Before(r, a, c)
    requires a != c ==> r.place(a).order != r.place(c).order
    ensures a != c ==> Straddled(r, a, b, c) || Straddled(r, b, c, a) || Straddled(r, c, a, b)
  {
  }

  lemma {:induction false} StraddledBreaks(r: Ranking, a: Id, p: Id, b: Id)
    requires Straddled(r, a, p, b)
    ensures Before(r, a, p) && Before(r, p, b) && !Before(r, a, b)
  {
  }

  /** The comparison orders the roots exactly when no promoted root is read between two others that their positions
      put the other way round. */
  lemma {:induction false} RootsAreOrderedUnless(r: Ranking, roots: seq<Id>)
    requires ReadApart(r, roots)
    ensures Transitive(r, roots) <==>
            forall a, p, b :: a in roots && p in roots && b in roots ==> !Straddled(r, a, p, b)
  {
    if Transitive(r, roots) {
      forall a, p, b | a in roots && p in roots && b in roots ensures !Straddled(r, a, p, b) {
        if Straddled(r, a, p, b) { StraddledBreaks(r, a, p, b); }
      }
    }
    if forall a, p, b :: a in roots && p in roots && b in roots ==> !Straddled(r, a, p, b) {
      forall a, b, c | a in roots && b in roots && c in roots && Before(r, a, b) && Before(r, b, c)
        ensures Before(r, a, c)
      {
        if a == c { BeforeIsTotal(r, roots, a, b); assert false; }
        else if !Before(r, a, c) { StraddledOrNot(r, a, b, c); }
      }
    }
  }

  // ---- Sorting ----

  ghost predicate Ranked(r: Ranking, xs: seq<Id>) {
    forall i, j {:trigger xs[i], xs[j]} :: 0 <= i < j < |xs| ==> Before(r, xs[i], xs[j])
  }

  /** Putting x between what comes before it and what comes after it. */
  lemma {:induction false} RankedAround(r: Ranking, xs: seq<Id>, i: nat, x: Id)
    requires Ranked(r, xs) && i <= |xs|
    requires forall k :: 0 <= k < i ==> Before(r, xs[k], x)
    requires forall k :: i <= k < |xs| ==> Before(r, x, xs[k])
    ensures Ranked(r, xs[..i] + [x] + xs[i..])
  {
  }

  lemma {:induction false} EarlierToo(r: Ranking, roots: seq<Id>, xs: seq<Id>, i: nat, x: Id)
    requires Transitive(r, roots) && Ranked(r, xs) && i <= |xs| && x in roots && forall y :: y in xs ==> y in roots
    requires i > 0 ==> Before(r, xs[i - 1], x)
    ensures forall k :: 0 <= k < i ==> Before(r, xs[k], x)
  {
    forall k | 0 <= k < i ensures Before(r, xs[k], x) {
      if k < i - 1 { assert Before(r, xs[k], xs[i - 1]) && xs[k] in xs && xs[i - 1] in xs; }
    }
  }

  method Insert(r: Ranking, ghost roots: seq<Id>, xs: seq<Id>, x: Id) returns (out: seq<Id>)
    requires ReadApart(r, roots) && x in roots && x !in xs && forall y :: y in xs ==> y in roots
    requires Transitive(r, roots) ==> Ranked(r, xs)
    ensures multiset(out) == multiset(xs) + multiset{x}
    ensures Transitive(r, roots) ==> Ranked(r, out)
  {
    var i := |xs|;
    while i > 0 && Before(r, x, xs[i - 1])
      invariant 0 <= i <= |xs|
      invariant forall k :: i <= k < |xs| ==> Before(r, x, xs[k])
    {
      i := i - 1;
    }
    out := xs[..i] + [x] + xs[i..];
    assert xs == xs[..i] + xs[i..];
    if Transitive(r, roots) {
      if i > 0 { BeforeIsTotal(r, roots, x, xs[i - 1]); }
      EarlierToo(r, roots, xs, i, x);
      RankedAround(r, xs, i, x);
    }
  }

  /** The roots are rearranged; where the comparison orders them, into that order. */
  method SortRoots(r: Ranking, roots: seq<Id>) returns (out: seq<Id>)
    requires NoDup(roots) && ReadApart(r, roots)
    ensures multiset(out) == multiset(roots)
    ensures Transitive(r, roots) ==> Ranked(r, out)
  {
    out := [];
    for i := 0 to |roots|
      invariant multiset(out) == multiset(roots[..i])
      invariant forall y :: y in out <==> y in roots[..i]
      invariant Transitive(r, roots) ==> Ranked(r, out)
    {
      assert roots[..i + 1] == roots[..i] + [roots[i]];
      ghost var before := out;
      out := Insert(r, roots, out, roots[i]);
      forall y ensures y in out <==> y in roots[..i + 1] {
        assert y in out <==> y in multiset(out);
        assert y in roots[..i + 1] <==> y in multiset(roots[..i + 1]);
      }
    }
    assert roots[..|roots|] == roots;
  }
}
