// Stable sorting of siblings by where they are placed.
module Ordering {
  import opened Basics

  /** A stored position, then the order of reading, then an id to settle ties. */
  datatype Placement = Placement(position: int, order: int, id: string)

  predicate StringAtMost(a: string, b: string) {
    if a == "" then true
    else if b == "" then false
    else a[0] < b[0] || (a[0] == b[0] && StringAtMost(a[1..], b[1..]))
  }

  predicate AtMost(a: Placement, b: Placement) {
    || a.position < b.position
    || (a.position == b.position && (a.order < b.order || (a.order == b.order && StringAtMost(a.id, b.id))))
  }

  lemma {:induction false} StringOrder(a: string, b: string, c: string)
    ensures StringAtMost(a, b) || StringAtMost(b, a)
    ensures StringAtMost(a, b) && StringAtMost(b, c) ==> StringAtMost(a, c)
  {
    if a != "" && b != "" { StringOrder(a[1..], b[1..], if c == "" then c else c[1..]); }
  }

  lemma {:induction false} AtMostIsAnOrder(a: Placement, b: Placement, c: Placement)
    ensures AtMost(a, b) || AtMost(b, a)
    ensures AtMost(a, b) && AtMost(b, c) ==> AtMost(a, c)
  {
    StringOrder(a.id, b.id, c.id);
  }

  ghost predicate Sorted<T>(xs: seq<T>, place: T -> Placement) {
    forall i, j {:trigger xs[i], xs[j]} :: 0 <= i < j < |xs| ==> AtMost(place(xs[i]), place(xs[j]))
  }

  ghost predicate AllAtMost<T>(xs: seq<T>, place: T -> Placement, p: Placement) {
    forall k {:trigger xs[k]} :: 0 <= k < |xs| ==> AtMost(place(xs[k]), p)
  }

  ghost predicate AllAtLeast<T>(xs: seq<T>, place: T -> Placement, p: Placement) {
    forall k {:trigger xs[k]} :: 0 <= k < |xs| ==> AtMost(p, place(xs[k]))
  }

  lemma {:induction false} InsertionPoint<T>(xs: seq<T>, place: T -> Placement, i: nat, p: Placement)
    requires Sorted(xs, place) && i <= |xs| && (i > 0 ==> AtMost(place(xs[i - 1]), p))
    ensures AllAtMost(xs[..i], place, p)
  {
    forall k | 0 <= k < i ensures AtMost(place(xs[k]), p) {
      AtMostIsAnOrder(place(xs[k]), place(xs[i - 1]), p);
    }
  }

  lemma {:induction false} SortedAround<T>(a: seq<T>, x: T, b: seq<T>, place: T -> Placement)
    requires Sorted(a + b, place) && AllAtMost(a, place, place(x)) && AllAtLeast(b, place, place(x))
    ensures Sorted(a + [x] + b, place)
  {
    var ab, axb, n := a + b, a + [x] + b, |a|;
    forall i, j | 0 <= i < j < |axb| ensures AtMost(place(axb[i]), place(axb[j])) {
      if i == n { assert axb[j] == b[j - n - 1]; }
      else if j == n { assert axb[i] == a[i]; }
      else {
        assert axb[i] == ab[if i < n then i else i - 1];
        assert axb[j] == ab[if j < n then j else j - 1];
      }
    }
  }

  /** Puts x behind everything placed no later than it. */
  method InsertBy<T>(xs: seq<T>, x: T, place: T -> Placement) returns (out: seq<T>)
    requires Sorted(xs, place)
    ensures Sorted(out, place) && multiset(out) == multiset(xs) + multiset{x}
  {
    var i, p := |xs|, place(x);
    while i > 0 && !AtMost(place(xs[i - 1]), p)
      invariant 0 <= i <= |xs|
      invariant AllAtLeast(xs[i..], place, p)
    {
      i := i - 1;
      AtMostIsAnOrder(place(xs[i]), p, p);
    }
    out := xs[..i] + [x] + xs[i..];
    assert xs == xs[..i] + xs[i..];
    InsertionPoint(xs, place, i, p);
    SortedAround(xs[..i], x, xs[i..], place);
  }

  method SortBy<T>(xs: seq<T>, place: T -> Placement) returns (out: seq<T>)
    ensures Sorted(out, place) && multiset(out) == multiset(xs)
  {
    out := [];
    for i := 0 to |xs|
      invariant Sorted(out, place) && multiset(out) == multiset(xs[..i])
    {
      assert xs[..i + 1] == xs[..i] + [xs[i]];
      out := InsertBy(out, xs[i], place);
    }
    assert xs[..|xs|] == xs;
  }
}
