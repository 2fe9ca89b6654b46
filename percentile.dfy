/**
 Percentiles by linear interpolation between closest ranks (Hyndman and Fan's
 definition 7, the default of `np.percentile`): over the `n` sorted values
 `x`, the `p`-th percentile sits at the fractional rank `h = (n - 1) * p / 100`
 and is `x[floor(h)] + (h - floor(h)) * (x[floor(h) + 1] - x[floor(h)])`, or
 `x[n - 1]` when `floor(h)` is the last rank.

 `np.percentile` sorts its input first; `Sort` stands for that step.
 */
module Percentile {
  import opened Sums

  predicate Sorted(s: seq<real>)
  {
    forall i, j :: 0 <= i < j < |s| ==> s[i] <= s[j]
  }

  /** Inserts `x` into the sorted sequence `s`, keeping it sorted. */
  function Insert(x: real, s: seq<real>): (r: seq<real>)
    requires Sorted(s)
    ensures Sorted(r)
    ensures |r| == |s| + 1
    ensures multiset(r) == multiset(s) + multiset{x}
    ensures forall k :: 0 <= k < |r| ==> r[k] == x || r[k] in s
    decreases |s|
  {
    if |s| == 0 then [x]
    else if x <= s[0] then [x] + s
    else
      var rest := Insert(x, s[1..]);
      assert forall k :: 0 <= k < |rest| ==> s[0] <= rest[k];
      assert s == [s[0]] + s[1..];
      [s[0]] + rest
  }

  /** The values of `s` in ascending order. */
  function Sort(s: seq<real>): (r: seq<real>)
    ensures Sorted(r)
    ensures |r| == |s|
    ensures multiset(r) == multiset(s)
    decreases |s|
  {
    if |s| == 0 then []
    else
      assert s == [s[0]] + s[1..];
      Insert(s[0], Sort(s[1..]))
  }

  /** The fractional rank of the `p`-th percentile among `n` values. */
  function Rank(n: nat, p: real): real
  {
    (n - 1) as real * p / 100.0
  }

  /** Linear interpolation from `a` (at `g == 0`) to `b` (at `g == 1`). */
  function Lerp(a: real, b: real, g: real): real
  {
    a + g * (b - a)
  }

  /** Between two ordered values, the interpolation stays between them. */
  lemma LerpBetween(a: real, b: real, g: real)
    requires a <= b && 0.0 <= g <= 1.0
    ensures a <= Lerp(a, b, g) <= b
  {
    assert ProductOfMagnitudes(g, b - a) >= 0.0;
    assert ProductOfMagnitudes(1.0 - g, b - a) >= 0.0;
  }

  /** Between two ordered values, the interpolation grows with `g`. */
  lemma LerpMonotone(a: real, b: real, g: real, g': real)
    requires a <= b && g <= g'
    ensures Lerp(a, b, g) <= Lerp(a, b, g')
  {
    assert ProductOfMagnitudes(g' - g, b - a) >= 0.0;
  }

  /** For `0 <= p <= 100` the rank lies in `[0, n - 1]`, so its floor indexes the data. */
  lemma RankBounds(n: nat, p: real)
    requires n >= 1 && 0.0 <= p <= 100.0
    ensures 0.0 <= Rank(n, p) <= (n - 1) as real
    ensures 0 <= Lower(n, p) <= n - 1
  {
    var m := (n - 1) as real;
    assert ProductOfMagnitudes(m, p) >= 0.0;
    assert ProductOfMagnitudes(m, 100.0 - p) >= 0.0;
  }

  /** The rank grows with `p`. */
  lemma RankMonotone(n: nat, p: real, q: real)
    requires n >= 1 && p <= q
    ensures Rank(n, p) <= Rank(n, q)
  {
    assert ProductOfMagnitudes((n - 1) as real, q - p) >= 0.0;
  }

  /** The closest rank at or below the fractional rank. */
  function Lower(n: nat, p: real): int
  {
    Rank(n, p).Floor
  }

  /** The closest rank above it, or the last rank when there is none. */
  function Upper(n: nat, p: real): int
  {
    if Lower(n, p) + 1 < n then Lower(n, p) + 1 else n - 1
  }

  /** The linear interpolation of the sorted values `x` at percentile `p`. */
  function Interpolate(x: seq<real>, p: real): real
    requires |x| >= 1 && 0.0 <= p <= 100.0
  {
    RankBounds(|x|, p);
    var h := Rank(|x|, p);
    var lo := Lower(|x|, p);
    if lo + 1 < |x| then Lerp(x[lo], x[lo + 1], h - lo as real) else x[lo]
  }

  /** The `p`-th percentile of the values `xs`, in any order. */
  function PercentileOf(xs: seq<real>, p: real): real
    requires |xs| >= 1 && 0.0 <= p <= 100.0
  {
    Interpolate(Sort(xs), p)
  }

  /**
   The interpolated value lies between the two sorted values it interpolates:
   the one at the lower closest rank and the one at the upper.
   */
  lemma InterpolateInSegment(x: seq<real>, p: real)
    requires |x| >= 1 && 0.0 <= p <= 100.0 && Sorted(x)
    ensures 0 <= Lower(|x|, p) <= Upper(|x|, p) < |x|
    ensures x[Lower(|x|, p)] <= Interpolate(x, p) <= x[Upper(|x|, p)]
  {
    RankBounds(|x|, p);
    var h := Rank(|x|, p);
    var lo := Lower(|x|, p);
    if lo + 1 < |x| {
      LerpBetween(x[lo], x[lo + 1], h - lo as real);
    }
  }

  /** At a whole rank `k` no interpolation happens: the result is the `k`-th smallest value. */
  lemma InterpolateAtWholeRank(x: seq<real>, p: real, k: nat)
    requires |x| >= 1 && 0.0 <= p <= 100.0
    requires Rank(|x|, p) == k as real
    ensures k < |x| && Interpolate(x, p) == x[k]
  {
    RankBounds(|x|, p);
    assert Lower(|x|, p) == k;
  }

  /** Interpolated percentiles of sorted values are monotone in `p`. */
  lemma InterpolateMonotone(x: seq<real>, p: real, q: real)
    requires |x| >= 1 && 0.0 <= p <= q <= 100.0 && Sorted(x)
    ensures Interpolate(x, p) <= Interpolate(x, q)
  {
    RankBounds(|x|, p);
    RankBounds(|x|, q);
    RankMonotone(|x|, p, q);
    var hp, hq := Rank(|x|, p), Rank(|x|, q);
    var lp, lq := Lower(|x|, p), Lower(|x|, q);
    assert lp <= lq;
    InterpolateInSegment(x, p);
    InterpolateInSegment(x, q);
    if lp == lq && lp + 1 < |x| {
      LerpMonotone(x[lp], x[lp + 1], hp - lp as real, hq - lq as real);
    }
  }

  /** Percentiles are monotone in `p`. */
  lemma PercentileMonotone(xs: seq<real>, p: real, q: real)
    requires |xs| >= 1 && 0.0 <= p <= q <= 100.0
    ensures PercentileOf(xs, p) <= PercentileOf(xs, q)
  {
    InterpolateMonotone(Sort(xs), p, q);
  }

  /**
   The first and the last of a sorted rearrangement `s` of `xs` are values of
   `xs`, and every value of `xs` lies between them: they are its minimum and
   its maximum.
   */
  lemma SortedEnds(s: seq<real>, xs: seq<real>)
    requires |s| >= 1 && Sorted(s) && multiset(s) == multiset(xs)
    ensures s[0] in xs && s[|s| - 1] in xs
    ensures forall i :: 0 <= i < |xs| ==> s[0] <= xs[i] <= s[|s| - 1]
  {
    assert s[0] in multiset(s);
    assert s[|s| - 1] in multiset(s);
    forall i | 0 <= i < |xs| ensures s[0] <= xs[i] <= s[|s| - 1] {
      assert xs[i] in multiset(xs);
      assert xs[i] in s;
      var k :| 0 <= k < |s| && s[k] == xs[i];
    }
  }

  /**
   Every percentile lies between the smallest and the largest value: it is at
   least some value of `xs` and at most some value of `xs`, and it respects any
   bounds that all values of `xs` respect.
   */
  lemma PercentileWithinRange(xs: seq<real>, p: real, lo: real, hi: real)
    requires |xs| >= 1 && 0.0 <= p <= 100.0
    requires forall i :: 0 <= i < |xs| ==> lo <= xs[i] <= hi
    ensures exists i :: 0 <= i < |xs| && xs[i] <= PercentileOf(xs, p)
    ensures exists j :: 0 <= j < |xs| && PercentileOf(xs, p) <= xs[j]
    ensures lo <= PercentileOf(xs, p) <= hi
  {
    var s := Sort(xs);
    InterpolateInSegment(s, p);
    SortedEnds(s, xs);
    var v := PercentileOf(xs, p);
    assert s[0] <= v <= s[|s| - 1];
    var i :| 0 <= i < |xs| && xs[i] == s[0];
    var j :| 0 <= j < |xs| && xs[j] == s[|s| - 1];
  }

  /** The 0th percentile is the minimum and the 100th the maximum of the values. */
  lemma PercentileExtremes(xs: seq<real>)
    requires |xs| >= 1
    ensures PercentileOf(xs, 0.0) in xs && forall i :: 0 <= i < |xs| ==> PercentileOf(xs, 0.0) <= xs[i]
    ensures PercentileOf(xs, 100.0) in xs && forall i :: 0 <= i < |xs| ==> xs[i] <= PercentileOf(xs, 100.0)
  {
    var s := Sort(xs);
    InterpolateAtWholeRank(s, 0.0, 0);
    InterpolateAtWholeRank(s, 100.0, |s| - 1);
    SortedEnds(s, xs);
  }
}
