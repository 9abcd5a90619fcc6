/**
 * List idioms of the Python code: `list(dict.fromkeys(xs))` (drop repeats, keep the first
 * occurrence), the slice `xs[:k]`, flattening a list of lists, and a loop that appends the
 * result of a step unless the step skips its element.
 */
module Seqs {
  import opened Wrappers

  predicate Distinct<T(==)>(s: seq<T>) {
    forall i, j :: 0 <= i < j < |s| ==> s[i] != s[j]
  }

  /** Position of the first occurrence of `x` (Python's `list.index`). */
  function IndexOf<T(==)>(s: seq<T>, x: T): (i: nat)
    requires x in s
    ensures i < |s| && s[i] == x && x !in s[..i]
  {
    if s[0] == x then 0 else 1 + IndexOf(s[1..], x)
  }

  lemma {:induction false} IndexOfPrefix<T>(s: seq<T>, n: nat, x: T)
    requires n <= |s| && x in s[..n]
    ensures IndexOf(s, x) == IndexOf(s[..n], x)
  {
    if s[0] != x {
      assert s[1..][..n - 1] == s[..n][1..];
      IndexOfPrefix(s[1..], n - 1, x);
    }
  }

  /** `list(dict.fromkeys(xs))`: every element once, at the place it was first seen. */
  function Dedup<T(==,!new)>(xs: seq<T>): (r: seq<T>)
    ensures forall x :: x in r <==> x in xs
    ensures Distinct(r)
    ensures |r| <= |xs|
    decreases |xs|
  {
    if xs == [] then []
    else
      var r := Dedup(xs[..|xs| - 1]);
      var x := xs[|xs| - 1];
      assert xs == xs[..|xs| - 1] + [x];
      if x in r then r else r + [x]
  }

  /** The elements of `Dedup(xs)` appear in the order of their first occurrence in `xs`. */
  lemma {:induction false} DedupKeepsFirstSeenOrder<T(!new)>(xs: seq<T>)
    ensures forall i, j :: 0 <= i < j < |Dedup(xs)| ==>
      IndexOf(xs, Dedup(xs)[i]) < IndexOf(xs, Dedup(xs)[j])
  {
    if xs != [] {
      var n := |xs|;
      var p := xs[..n - 1];
      var x := xs[n - 1];
      DedupKeepsFirstSeenOrder(p);
      var r := Dedup(p);
      assert xs[..n - 1] == p;
      forall y | y in r ensures IndexOf(xs, y) == IndexOf(p, y) && IndexOf(p, y) < n - 1 {
        IndexOfPrefix(xs, n - 1, y);
      }
      if x !in r {
        assert x !in p;
        assert IndexOf(xs, x) == n - 1;
      }
    }
  }

  /** A list without repeats is its own `Dedup`. */
  lemma {:induction false} DedupOfDistinct<T(!new)>(xs: seq<T>)
    requires Distinct(xs)
    ensures Dedup(xs) == xs
  {
    if xs != [] {
      var n := |xs|;
      DedupOfDistinct(xs[..n - 1]);
      assert xs[n - 1] !in xs[..n - 1];
      assert xs[..n - 1] + [xs[n - 1]] == xs;
    }
  }

  /** The slice `xs[:k]` with Python's meaning of a negative `k` (drop `-k` from the end). */
  function PyPrefix<T>(xs: seq<T>, k: int): (r: seq<T>)
    ensures r <= xs
    ensures k >= 0 ==> |r| == if k < |xs| then k else |xs|
    ensures k < 0 ==> |r| == if |xs| + k > 0 then |xs| + k else 0
  {
    if k >= 0 then (if k < |xs| then xs[..k] else xs)
    else if |xs| + k > 0 then xs[..|xs| + k] else []
  }

  /** The concatenation of a list of lists. */
  function Flatten<T>(xss: seq<seq<T>>): seq<T> {
    if xss == [] then [] else Flatten(xss[..|xss| - 1]) + xss[|xss| - 1]
  }

  lemma FlattenSnoc<T>(xss: seq<seq<T>>, xs: seq<T>)
    ensures Flatten(xss + [xs]) == Flatten(xss) + xs
  {
    assert (xss + [xs])[..|xss|] == xss;
  }

  /** The elements of `xs` that are keys of `m`, in the order of `xs`. */
  function KnownIn<T(!new), V>(xs: seq<T>, m: map<T, V>): (r: seq<T>)
    ensures forall x :: x in r <==> x in xs && x in m
    ensures |r| <= |xs|
    ensures Distinct(xs) ==> Distinct(r)
  {
    if xs == [] then []
    else
      var r := KnownIn(xs[..|xs| - 1], m);
      var x := xs[|xs| - 1];
      assert xs == xs[..|xs| - 1] + [x];
      if x in m then r + [x] else r
  }

  /** `KnownIn` keeps the order of the identifiers it keeps. */
  lemma {:induction false} KnownInKeepsOrder<T(!new), V>(xs: seq<T>, m: map<T, V>)
    requires Distinct(xs)
    ensures forall i, j :: 0 <= i < j < |KnownIn(xs, m)| ==>
      IndexOf(xs, KnownIn(xs, m)[i]) < IndexOf(xs, KnownIn(xs, m)[j])
  {
    if xs != [] {
      var n := |xs|;
      var p := xs[..n - 1];
      KnownInKeepsOrder(p, m);
      forall y | y in p ensures IndexOf(xs, y) == IndexOf(p, y) && IndexOf(p, y) < n - 1 {
        IndexOfPrefix(xs, n - 1, y);
      }
      assert xs[n - 1] !in p;
      assert IndexOf(xs, xs[n - 1]) == n - 1;
    }
  }

  /** The present results of `step` on `xs`, in order: `None` means the element is skipped. */
  function FilterMap<A, B>(xs: seq<A>, step: A -> Option<B>): (r: seq<B>)
    ensures |r| <= |xs|
  {
    if xs == [] then []
    else
      var o := step(xs[|xs| - 1]);
      FilterMap(xs[..|xs| - 1], step) + (if o.Some? then [o.value] else [])
  }

  /** A value is kept exactly when the step gives it for some element. */
  lemma {:induction false} FilterMapMembership<A, B>(xs: seq<A>, step: A -> Option<B>, y: B)
    ensures y in FilterMap(xs, step) <==> exists x :: x in xs && step(x) == Some(y)
  {
    if xs != [] {
      var n := |xs|;
      var p := xs[..n - 1];
      var last := xs[n - 1];
      FilterMapMembership(p, step, y);
      assert xs == p + [last];
      if y in FilterMap(xs, step) && y !in FilterMap(p, step) {
        assert step(last) == Some(y);
      }
      if x :| x in xs && step(x) == Some(y) {
        if x != last {
          assert x in p;
        }
      }
    }
  }
}
