/** Sums, concatenation and filtering of sequences, with the facts the
    list helpers are proved from. */
module Seqs {

  /** `sum(s)`. */
  function Sum(s: seq<int>): int {
    if |s| == 0 then 0 else Sum(s[..|s| - 1]) + s[|s| - 1]
  }

  lemma {:induction false} SumConcat(a: seq<int>, b: seq<int>)
    ensures Sum(a + b) == Sum(a) + Sum(b)
    decreases |b|
  {
    if |b| == 0 {
      assert a + b == a;
    } else {
      assert (a + b)[..|a + b| - 1] == a + b[..|b| - 1];
      SumConcat(a, b[..|b| - 1]);
    }
  }

  lemma SumPrefixStep(s: seq<int>, i: nat)
    requires i < |s|
    ensures Sum(s[..i + 1]) == Sum(s[..i]) + s[i]
  {
    assert s[..i + 1][..i] == s[..i];
  }

  /** A prefix of non-negative numbers sums to no more than the whole. */
  lemma {:induction false} SumPrefixBound(s: seq<int>, i: nat)
    requires i <= |s|
    requires forall k :: 0 <= k < |s| ==> s[k] >= 0
    ensures 0 <= Sum(s[..i]) <= Sum(s)
    decreases |s| - i
  {
    if i < |s| {
      SumPrefixStep(s, i);
      SumPrefixBound(s, i + 1);
      SumNonNegative(s[..i]);
    } else {
      assert s[..i] == s;
      SumNonNegative(s);
    }
  }

  lemma {:induction false} SumNonNegative(s: seq<int>)
    requires forall k :: 0 <= k < |s| ==> s[k] >= 0
    ensures Sum(s) >= 0
    decreases |s|
  {
    if |s| > 0 {
      SumNonNegative(s[..|s| - 1]);
    }
  }

  /** The concatenation of a sequence of sequences, in order. */
  function Concat<T>(parts: seq<seq<T>>): seq<T> {
    if |parts| == 0 then [] else Concat(parts[..|parts| - 1]) + parts[|parts| - 1]
  }

  /** The first `k` parts are the first `k - 1` followed by part `k - 1`. */
  lemma ConcatSnoc<T>(parts: seq<seq<T>>, k: nat)
    requires 0 < k <= |parts|
    ensures Concat(parts[..k]) == Concat(parts[..k - 1]) + parts[k - 1]
  {
    assert parts[..k][..k - 1] == parts[..k - 1];
  }

  /** The sums of the prefixes of a three-element sequence. */
  lemma SumOfThree(s: seq<int>)
    requires |s| == 3
    ensures Sum(s[..0]) == 0 && Sum(s[..1]) == s[0] && Sum(s[..2]) == s[0] + s[1]
    ensures Sum(s[..3]) == Sum(s) == s[0] + s[1] + s[2]
  {
    assert s[..3] == s;
    assert s[..2][..1] == s[..1];
    assert s[..1][..0] == s[..0];
  }

  /** Two adjacent slices from the front make one. */
  lemma SliceJoin<T>(s: seq<T>, i: nat, j: nat)
    requires i <= j <= |s|
    ensures s[..i] + s[i..j] == s[..j]
  {
  }

  /** The elements of `s` that satisfy `p`, in their original order. */
  function Filter<T>(p: T -> bool, s: seq<T>): (r: seq<T>)
    ensures |r| <= |s|
    ensures forall i :: 0 <= i < |r| ==> r[i] in s && p(r[i])
    ensures forall i :: 0 <= i < |s| && p(s[i]) ==> s[i] in r
  {
    if |s| == 0 then []
    else (if p(s[0]) then [s[0]] else []) + Filter(p, s[1..])
  }

  /** Filtering distributes over concatenation, so it keeps the relative
      order of the elements it retains. */
  lemma {:induction false} FilterConcat<T>(p: T -> bool, a: seq<T>, b: seq<T>)
    ensures Filter(p, a + b) == Filter(p, a) + Filter(p, b)
    decreases |a|
  {
    if |a| == 0 {
      assert a + b == b;
    } else {
      assert (a + b)[1..] == a[1..] + b;
      FilterConcat(p, a[1..], b);
    }
  }

  /** `[f(x) for x in s if p(x)]`. */
  function MapFilter<T, U>(p: T -> bool, f: T -> U, s: seq<T>): seq<U> {
    if |s| == 0 then []
    else (if p(s[0]) then [f(s[0])] else []) + MapFilter(p, f, s[1..])
  }

  /** The comprehension is `f` applied to each element `Filter` keeps. */
  lemma {:induction false} MapFilterIsMapOfFilter<T, U>(p: T -> bool, f: T -> U, s: seq<T>)
    ensures |MapFilter(p, f, s)| == |Filter(p, s)|
    ensures forall i :: 0 <= i < |Filter(p, s)| ==> MapFilter(p, f, s)[i] == f(Filter(p, s)[i])
  {
    if |s| > 0 {
      MapFilterIsMapOfFilter(p, f, s[1..]);
    }
  }

  /** What the comprehension holds: `f` of the elements `p` keeps. */
  lemma {:induction false} MapFilterMembers<T, U>(p: T -> bool, f: T -> U, s: seq<T>, y: U)
    ensures y in MapFilter(p, f, s) <==> exists i :: 0 <= i < |s| && p(s[i]) && y == f(s[i])
  {
    if |s| > 0 {
      MapFilterMembers(p, f, s[1..], y);
      if y in MapFilter(p, f, s[1..]) {
        var i :| 0 <= i < |s[1..]| && p(s[1..][i]) && y == f(s[1..][i]);
        assert s[i + 1] == s[1..][i];
      }
      if exists i :: 0 <= i < |s| && p(s[i]) && y == f(s[i]) {
        var i :| 0 <= i < |s| && p(s[i]) && y == f(s[i]);
        if i > 0 {
          assert s[1..][i - 1] == s[i];
        }
      }
    }
  }

  /** `f` applied to every element, the results concatenated in order. */
  function FlatMap<A, B>(f: A -> seq<B>, s: seq<A>): seq<B> {
    if |s| == 0 then [] else FlatMap(f, s[..|s| - 1]) + f(s[|s| - 1])
  }

  /** When `f` always gives three elements, the flat map has three per
      element, and those of element `i` start at `3 * i`. */
  lemma {:induction false} FlatMapAt<A, B>(f: A -> seq<B>, s: seq<A>, i: nat)
    requires forall x :: |f(x)| == 3
    requires i < |s|
    ensures |FlatMap(f, s)| == 3 * |s|
    ensures FlatMap(f, s)[3 * i..3 * i + 3] == f(s[i])
    decreases |s|
  {
    var n := |s| - 1;
    FlatMapLength(f, s[..n]);
    if i < n {
      FlatMapAt(f, s[..n], i);
    }
  }

  lemma {:induction false} FlatMapLength<A, B>(f: A -> seq<B>, s: seq<A>)
    requires forall x :: |f(x)| == 3
    ensures |FlatMap(f, s)| == 3 * |s|
    decreases |s|
  {
    if |s| > 0 {
      FlatMapLength(f, s[..|s| - 1]);
    }
  }

  /** Flat-mapping distributes over concatenation. */
  lemma {:induction false} FlatMapConcat<A, B>(f: A -> seq<B>, a: seq<A>, b: seq<A>)
    ensures FlatMap(f, a + b) == FlatMap(f, a) + FlatMap(f, b)
    decreases |b|
  {
    if |b| == 0 {
      assert a + b == a;
    } else {
      assert (a + b)[..|a + b| - 1] == a + b[..|b| - 1];
      FlatMapConcat(f, a, b[..|b| - 1]);
    }
  }
}
