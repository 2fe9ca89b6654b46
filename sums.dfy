/**
 Finite sums over sequences of reals, as used both when averaging the historical
 changes of the series and when adding up the shocks of one simulated path
 (pandas `Series.mean` and `np.sum`).

 The sum peels off the LAST element, which matches the way both the change
 sequence and the outcome list grow by appending.

 The module also holds the product of two non-negative reals, through which
 the other modules settle the sign of squares, ranks and interpolations.
 */
module Sums {

  /** The sum of all elements of `s`; the empty sum is 0. */
  function Sum(s: seq<real>): real
    decreases |s|
  {
    if |s| == 0 then 0.0 else Sum(s[..|s| - 1]) + s[|s| - 1]
  }

  /** A sequence of `n` copies of `m` sums to `n * m`. */
  lemma {:induction false} SumConstant(s: seq<real>, m: real)
    requires forall i :: 0 <= i < |s| ==> s[i] == m
    ensures Sum(s) == |s| as real * m
    decreases |s|
  {
    if |s| > 0 {
      var init := s[..|s| - 1];
      assert forall i :: 0 <= i < |init| ==> init[i] == m;
      SumConstant(init, m);
    }
  }

  /** A sum of non-negative terms is non-negative, and it is zero exactly when every term is zero. */
  lemma {:induction false} SumOfNonNegatives(s: seq<real>)
    requires forall i :: 0 <= i < |s| ==> s[i] >= 0.0
    ensures Sum(s) >= 0.0
    ensures Sum(s) == 0.0 <==> forall i :: 0 <= i < |s| ==> s[i] == 0.0
    decreases |s|
  {
    if |s| > 0 {
      var init := s[..|s| - 1];
      assert forall i :: 0 <= i < |init| ==> init[i] == s[i];
      SumOfNonNegatives(init);
      if Sum(s) == 0.0 {
        forall i | 0 <= i < |s| ensures s[i] == 0.0 {
          if i < |s| - 1 {
            assert init[i] == s[i];
          }
        }
      }
    }
  }

  /** The product of two non-negative reals is non-negative, and positive when both are. */
  function ProductOfMagnitudes(a: real, b: real): (r: real)
    requires a >= 0.0 && b >= 0.0
    ensures r >= 0.0
    ensures a > 0.0 && b > 0.0 ==> r > 0.0
  {
    a * b
  }
}
