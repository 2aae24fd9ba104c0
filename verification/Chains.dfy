// Parent pointers over a finite set of items: climbing, ancestors, cycles.
// Every tree-shaped part of the plan (breakdown, map, move dialog) is read
// through these notions.
module Chains {
  import opened Basics

  type Parents = map<Id, Id>

  /** The k-th item met when climbing from x; None once the top is passed. */
  ghost function Up(p: Parents, x: Id, k: nat): Option<Id>
    decreases k
  {
    if k == 0 then Some(x) else if x in p then Up(p, p[x], k - 1) else None
  }

  ghost predicate Ancestor(p: Parents, a: Id, x: Id) {
    exists k: nat :: k >= 1 && Up(p, x, k) == Some(a)
  }

  ghost predicate Acyclic(p: Parents) {
    forall x: Id :: !Ancestor(p, x, x)
  }

  /** Climbing i steps and then j more is climbing i + j steps. */
  lemma {:induction false} UpAdd(p: Parents, x: Id, i: nat, j: nat)
    ensures Up(p, x, i + j) ==
            match Up(p, x, i) { case None => None case Some(y) => Up(p, y, j) }
    decreases i
  {
    if i > 0 && x in p {
      UpAdd(p, p[x], i - 1, j);
    }
  }

  lemma UpDefinedBelow(p: Parents, x: Id, i: nat, k: nat)
    requires i <= k && Up(p, x, k).Some?
    ensures Up(p, x, i).Some?
    ensures i < k ==> Up(p, x, i).value in p
  {
    UpAdd(p, x, i, k - i);
  }

  /** The items passed in the first k steps. */
  ghost function Passed(p: Parents, x: Id, k: nat): (s: seq<Id>)
    requires Up(p, x, k).Some?
    ensures |s| == k
    ensures forall i :: 0 <= i < k ==> s[i] in p && Up(p, x, i) == Some(s[i])
  {
    forall i: nat | i < k ensures Up(p, x, i).Some? && Up(p, x, i).value in p { UpDefinedBelow(p, x, i, k); }
    seq(k, i requires 0 <= i < k => Up(p, x, i).value)
  }

  /** Without cycles no climb is longer than the number of links. */
  lemma ClimbIsBounded(p: Parents, x: Id, k: nat)
    requires Acyclic(p) && Up(p, x, k).Some?
    ensures k <= |p|
  {
    var s := Passed(p, x, k);
    forall i: nat, j: nat | i < j < k ensures s[i] != s[j] {
      UpAdd(p, x, i, j - i);
      if s[i] == s[j] {
        assert Ancestor(p, s[i], s[i]);
      }
    }
    NoDupLength(s);
    SubsetSize(Elements(s), p.Keys);
    assert |p.Keys| == |p|;
  }

  /** Number of links between x and the top of its chain. */
  ghost function Height(p: Parents, x: Id): (k: nat)
    requires Acyclic(p)
    ensures Up(p, x, k).Some? && Up(p, x, k).value !in p && k <= |p|
  {
    TopExists(p, x, 0);
    var k: nat :| Up(p, x, k).Some? && Up(p, x, k).value !in p;
    ClimbIsBounded(p, x, k);
    k
  }

  lemma TopExists(p: Parents, x: Id, i: nat)
    requires Acyclic(p) && Up(p, x, i).Some?
    ensures exists k: nat :: Up(p, x, k).Some? && Up(p, x, k).value !in p
    decreases |p| - i
  {
    ClimbIsBounded(p, x, i);
    if Up(p, x, i).value in p {
      UpAdd(p, x, i, 1);
      assert Up(p, Up(p, x, i).value, 1).Some?;
      ClimbIsBounded(p, x, i + 1);
      TopExists(p, x, i + 1);
    }
  }

  lemma HeightIsUnique(p: Parents, x: Id, k: nat)
    requires Acyclic(p) && Up(p, x, k).Some? && Up(p, x, k).value !in p
    ensures Height(p, x) == k
  {
    var h := Height(p, x);
    if h < k { UpDefinedBelow(p, x, h, k); }
    if k < h { UpDefinedBelow(p, x, k, h); }
  }

  /** A child is exactly one link further from the top than its parent. */
  lemma HeightStep(p: Parents, x: Id)
    requires Acyclic(p) && x in p
    ensures Height(p, x) == Height(p, p[x]) + 1
  {
    HeightIsUnique(p, x, Height(p, p[x]) + 1);
  }
}
