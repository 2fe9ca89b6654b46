/**
 The change estimator: the first difference of the capital-calls series with the
 undefined first element filled with 0 (`diff().fillna(0)`), and the mean and the
 sample variance (divisor n - 1, the pandas default `ddof=1`) of those changes.

 The standard deviation the source hands to the random generator is the square
 root of `Variance`; the model keeps the variance to stay clear of `sqrt`.
 */
module ChangeEstimator {
  import opened Sums

  /** The distribution parameters derived from the history. */
  datatype ChangeStats = ChangeStats(mean: real, variance: real)

  /** The series is flat: every observation equals the first. */
  predicate Constant(v: seq<real>)
  {
    forall i :: 0 <= i < |v| ==> v[i] == v[0]
  }

  /** Period-over-period changes; the first period has no prior value, so its change is 0. */
  function Changes(v: seq<real>): (c: seq<real>)
    ensures |c| == |v|
    ensures |v| > 0 ==> c[0] == 0.0
    ensures forall i :: 1 <= i < |v| ==> c[i] == v[i] - v[i - 1]
  {
    seq(|v|, i requires 0 <= i < |v| => if i == 0 then 0.0 else v[i] - v[i - 1])
  }

  /** Arithmetic mean over all `|c|` values (the leading 0 included). */
  function Mean(c: seq<real>): real
    requires |c| > 0
  {
    Sum(c) / |c| as real
  }

  /**
   The square `x * x`, taken as the product of the magnitude of `x` with itself
   so that its sign follows from the two factors' signs. It is the ordinary
   square (`SquareIsProduct`); the solver settles the sign of a product of two
   non-negative factors, but not reliably that of a literal `x * x`.
   */
  function Square(x: real): (r: real)
    ensures r >= 0.0
    ensures x != 0.0 ==> r > 0.0
  {
    if x < 0.0 then ProductOfMagnitudes(-x, -x) else ProductOfMagnitudes(x, x)
  }

  /** `Square` is the ordinary square. */
  lemma SquareIsProduct(x: real)
    ensures Square(x) == x * x
  {
    if x < 0.0 {
      assert (-x) * (-x) == x * x;
    }
  }

  /** The squared deviations of the values of `c` from `m`. */
  function SquaredDeviations(c: seq<real>, m: real): (d: seq<real>)
    ensures |d| == |c|
    ensures forall i :: 0 <= i < |d| ==> d[i] >= 0.0
    ensures forall i :: 0 <= i < |d| && c[i] != m ==> d[i] > 0.0
  {
    seq(|c|, i requires 0 <= i < |c| => Square(c[i] - m))
  }

  /** Sample variance with divisor `|c| - 1`; undefined for fewer than two values. */
  function Variance(c: seq<real>): real
    requires |c| >= 2
  {
    Sum(SquaredDeviations(c, Mean(c))) / (|c| - 1) as real
  }

  /**
   Undoing the difference: the first value plus the running sum of the changes
   up to and including period `k` gives back the value at period `k`.
   */
  lemma {:induction false} ChangesTelescope(v: seq<real>, k: nat)
    requires k < |v|
    ensures v[0] + Sum(Changes(v)[..k + 1]) == v[k]
    decreases k
  {
    var c := Changes(v);
    if k == 0 {
      assert c[..1][..0] == [];
    } else {
      ChangesTelescope(v, k - 1);
      assert c[..k + 1][..k] == c[..k];
    }
  }

  /** The changes telescope: they add up to the last value minus the first. */
  lemma ChangesSum(v: seq<real>)
    requires |v| > 0
    ensures Sum(Changes(v)) == v[|v| - 1] - v[0]
  {
    ChangesTelescope(v, |v| - 1);
    assert Changes(v)[..|v|] == Changes(v);
  }

  /** Hence the mean change is the total change spread over all `|v|` periods. */
  lemma MeanChange(v: seq<real>)
    requires |v| > 0
    ensures Mean(Changes(v)) == (v[|v| - 1] - v[0]) / |v| as real
  {
    ChangesSum(v);
  }

  /** The sample variance is never negative. */
  lemma VarianceNonNegative(c: seq<real>)
    requires |c| >= 2
    ensures Variance(c) >= 0.0
  {
    SumOfNonNegatives(SquaredDeviations(c, Mean(c)));
  }

  /** The mean of values that all equal `m` is `m`. */
  lemma MeanConstant(c: seq<real>, m: real)
    requires |c| > 0
    requires forall i :: 0 <= i < |c| ==> c[i] == m
    ensures Mean(c) == m
  {
    SumConstant(c, m);
    var n := |c| as real;
    assert Sum(c) == n * m;
    assert (n * m) / n == m;
  }

  /** The sample variance is 0 exactly when all values are equal. */
  lemma VarianceZeroIffAllEqual(c: seq<real>)
    requires |c| >= 2
    ensures Variance(c) == 0.0 <==> forall i :: 0 <= i < |c| ==> c[i] == c[0]
  {
    var m := Mean(c);
    var d := SquaredDeviations(c, m);
    SumOfNonNegatives(d);
    if Variance(c) == 0.0 {
      assert Sum(d) == 0.0;
      forall i | 0 <= i < |c| ensures c[i] == c[0] {
        assert d[i] == 0.0 && d[0] == 0.0;
      }
    }
    if forall i :: 0 <= i < |c| ==> c[i] == c[0] {
      MeanConstant(c, c[0]);
      assert forall i :: 0 <= i < |d| ==> d[i] == 0.0;
    }
  }

  /** A series is flat exactly when all of its changes are equal (and so all 0). */
  lemma ConstantIffChangesEqual(v: seq<real>)
    requires |v| > 0
    ensures Constant(v) <==> forall i :: 0 <= i < |v| ==> Changes(v)[i] == Changes(v)[0]
  {
    var c := Changes(v);
    if forall i :: 0 <= i < |v| ==> c[i] == c[0] {
      forall k | 0 <= k < |v| ensures v[k] == v[0] {
        ChangesTelescope(v, k);
        SumConstant(c[..k + 1], 0.0);
      }
    }
  }

  /**
   The estimator on a series of at least two observations: the mean of the
   changes is `(last - first) / n`, the variance is non-negative, and it is 0
   exactly when the series is flat.
   */
  function Estimate(v: seq<real>): (s: ChangeStats)
    requires |v| >= 2
    ensures s.mean == (v[|v| - 1] - v[0]) / |v| as real
    ensures s.variance >= 0.0
    ensures s.variance == 0.0 <==> Constant(v)
  {
    var c := Changes(v);
    MeanChange(v);
    VarianceNonNegative(c);
    VarianceZeroIffAllEqual(c);
    ConstantIffChangesEqual(v);
    ChangeStats(Mean(c), Variance(c))
  }

  /** A flat history has mean change 0 and variance 0. */
  lemma FlatHistory(v: seq<real>)
    requires |v| >= 2 && Constant(v)
    ensures Estimate(v) == ChangeStats(0.0, 0.0)
  {
    var s := Estimate(v);
    assert v[|v| - 1] == v[0];
    assert s.mean == 0.0;
    assert s.variance == 0.0;
  }
}
