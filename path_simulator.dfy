/**
 The path simulator: for every simulated path, the end-of-horizon value is the
 last observed value plus the sum of that path's shocks, clipped at a floor of 0
 because capital calls cannot be negative.

 The shocks the source draws from `np.random.normal(mean, std, horizon)` are an
 input here: `shocks[i]` is the sequence of `horizon` draws of path `i`.
 */
module PathSimulator {
  import opened Sums

  /** The floor applied to every simulated outcome. */
  const Floor: real := 0.0

  /** `max(0, x)`: the candidate value clipped at the floor. */
  function Clip(x: real): (r: real)
    ensures r >= Floor && r >= x
    ensures r == x || r == Floor
  {
    if x > Floor then x else Floor
  }

  /** The outcome of one path. */
  function PathOutcome(lastValue: real, path: seq<real>): real
  {
    Clip(lastValue + Sum(path))
  }

  /** Every path has exactly `horizon` shocks. */
  predicate WellShaped(shocks: seq<seq<real>>, horizon: nat)
  {
    forall i :: 0 <= i < |shocks| ==> |shocks[i]| == horizon
  }

  /**
   The outcome list after the paths `shocks` have been simulated in order: one
   outcome appended per path.
   */
  function Outcomes(lastValue: real, shocks: seq<seq<real>>): (r: seq<real>)
    ensures |r| == |shocks|
    ensures forall i :: 0 <= i < |shocks| ==> r[i] == PathOutcome(lastValue, shocks[i])
    decreases |shocks|
  {
    if |shocks| == 0 then []
    else Outcomes(lastValue, shocks[..|shocks| - 1]) + [PathOutcome(lastValue, shocks[|shocks| - 1])]
  }

  /**
   The simulation loop: one outcome per path, each the last value plus the
   sum of the path's shocks, clipped at the floor.
   */
  method Simulate(lastValue: real, shocks: seq<seq<real>>, nSimulations: nat, horizon: nat)
    returns (outcomes: seq<real>)
    requires nSimulations >= 1 && horizon >= 1
    requires |shocks| == nSimulations && WellShaped(shocks, horizon)
    ensures outcomes == Outcomes(lastValue, shocks)
    ensures |outcomes| == nSimulations
    ensures forall i :: 0 <= i < nSimulations ==>
              outcomes[i] == Clip(lastValue + Sum(shocks[i]))
    ensures forall i :: 0 <= i < |outcomes| ==> outcomes[i] >= Floor
  {
    outcomes := [];
    for i := 0 to nSimulations
      invariant outcomes == Outcomes(lastValue, shocks[..i])
    {
      var path := shocks[i];
      var simulatedValue := lastValue + Sum(path);
      outcomes := outcomes + [Clip(simulatedValue)];
      assert shocks[..i + 1][..i] == shocks[..i];
    }
    assert shocks[..nSimulations] == shocks;
  }

  /** Simulating more paths never changes the outcomes already recorded. */
  lemma {:induction false} OutcomesExtend(lastValue: real, shocks: seq<seq<real>>, more: seq<seq<real>>)
    ensures Outcomes(lastValue, shocks + more)[..|shocks|] == Outcomes(lastValue, shocks)
    ensures Outcomes(lastValue, shocks + more) == Outcomes(lastValue, shocks) + Outcomes(lastValue, more)
  {
    var all := Outcomes(lastValue, shocks + more);
    var front := Outcomes(lastValue, shocks);
    var back := Outcomes(lastValue, more);
    assert forall i :: 0 <= i < |shocks| ==> (shocks + more)[i] == shocks[i];
    assert forall i :: 0 <= i < |more| ==> (shocks + more)[|shocks| + i] == more[i];
    assert all == front + back;
  }

  /** A path whose every shock equals `m` ends at the last value plus `|path| * m`, clipped. */
  lemma ConstantPath(lastValue: real, path: seq<real>, m: real)
    requires forall k :: 0 <= k < |path| ==> path[k] == m
    ensures PathOutcome(lastValue, path) == Clip(lastValue + |path| as real * m)
  {
    SumConstant(path, m);
  }

  /**
   Degenerate distribution: when every shock of every path equals `m` (a
   standard deviation of 0), every outcome is `max(0, lastValue + horizon * m)`.
   */
  lemma DegenerateOutcomes(lastValue: real, shocks: seq<seq<real>>, horizon: nat, m: real)
    requires WellShaped(shocks, horizon)
    requires forall i, k :: 0 <= i < |shocks| && 0 <= k < |shocks[i]| ==> shocks[i][k] == m
    ensures forall i :: 0 <= i < |shocks| ==>
              Outcomes(lastValue, shocks)[i] == Clip(lastValue + horizon as real * m)
  {
    forall i | 0 <= i < |shocks| ensures PathOutcome(lastValue, shocks[i]) == Clip(lastValue + horizon as real * m) {
      ConstantPath(lastValue, shocks[i], m);
    }
  }

  /** In particular, when every shock is 0 every outcome is `max(0, lastValue)`. */
  lemma ZeroShockOutcomes(lastValue: real, shocks: seq<seq<real>>, horizon: nat)
    requires WellShaped(shocks, horizon)
    requires forall i, k :: 0 <= i < |shocks| && 0 <= k < |shocks[i]| ==> shocks[i][k] == 0.0
    ensures forall i :: 0 <= i < |shocks| ==> Outcomes(lastValue, shocks)[i] == Clip(lastValue)
  {
    DegenerateOutcomes(lastValue, shocks, horizon, 0.0);
  }
}
