/**
 The liquidity forecast as a whole: look up the capital-calls series, estimate
 the distribution of its period-over-period changes, simulate the value at the
 end of the horizon along every path, and summarise the simulated outcomes by
 their 5th, 50th and 95th percentiles.
 */
module Liquidity {
  import opened Sums
  import opened ChangeEstimator
  import opened PathSimulator
  import opened Percentile

  /** The name of the column holding the capital-calls series. */
  const CapitalCalls: string := "capital_calls"

  /** The one failure the forecast reports: the series' column is absent. */
  datatype Error = MissingColumn(column: string)

  datatype Result<T> = Ok(value: T) | Err(error: Error)

  /** What the forecast computes: the change statistics and three percentiles of the outcomes. */
  datatype Report = Report(stats: ChangeStats, p5: real, p50: real, p95: real)

  /**
   The percentile summary of the outcomes: the three percentiles are ordered,
   each lies between the smallest and the largest outcome, and none is below
   the floor when no outcome is.
   */
  function Summarize(stats: ChangeStats, outcomes: seq<real>): (r: Report)
    requires |outcomes| >= 1
    ensures r.stats == stats
    ensures r.p5 <= r.p50 <= r.p95
    ensures exists i :: 0 <= i < |outcomes| && outcomes[i] <= r.p5
    ensures exists j :: 0 <= j < |outcomes| && r.p95 <= outcomes[j]
    ensures (forall i :: 0 <= i < |outcomes| ==> outcomes[i] >= Floor) ==> r.p5 >= Floor
  {
    var p5 := PercentileOf(outcomes, 5.0);
    var p50 := PercentileOf(outcomes, 50.0);
    var p95 := PercentileOf(outcomes, 95.0);
    PercentileMonotone(outcomes, 5.0, 50.0);
    PercentileMonotone(outcomes, 50.0, 95.0);
    var sorted := Sort(outcomes);
    SortedEnds(sorted, outcomes);
    PercentileWithinRange(outcomes, 5.0, sorted[0], sorted[|sorted| - 1]);
    PercentileWithinRange(outcomes, 95.0, sorted[0], sorted[|sorted| - 1]);
    Report(stats, p5, p50, p95)
  }

  /** When every outcome is `c`, so is every percentile. */
  lemma SummarizeConstant(stats: ChangeStats, outcomes: seq<real>, c: real)
    requires |outcomes| >= 1
    requires forall i :: 0 <= i < |outcomes| ==> outcomes[i] == c
    ensures Summarize(stats, outcomes) == Report(stats, c, c, c)
  {
    PercentileWithinRange(outcomes, 5.0, c, c);
    PercentileWithinRange(outcomes, 50.0, c, c);
    PercentileWithinRange(outcomes, 95.0, c, c);
  }

  /** What the forecast demands of its inputs besides the columns. */
  predicate ValidRun(shocks: seq<seq<real>>, nSimulations: nat, horizon: nat)
  {
    nSimulations >= 1 && horizon >= 1 && |shocks| == nSimulations && WellShaped(shocks, horizon)
  }

  /** The capital-calls series, when present, has at least two observations. */
  predicate EnoughHistory(columns: map<string, seq<real>>)
  {
    CapitalCalls in columns ==> |columns[CapitalCalls]| >= 2
  }

  /**
   The forecast: an error exactly when the capital-calls column is missing;
   otherwise the mean change is the total change over the number of
   observations, the variance is non-negative, and the three percentiles are
   ordered, not below the floor, and not above the largest outcome.
   */
  function Forecast(columns: map<string, seq<real>>, shocks: seq<seq<real>>, nSimulations: nat, horizon: nat)
    : (r: Result<Report>)
    requires ValidRun(shocks, nSimulations, horizon) && EnoughHistory(columns)
    ensures r.Err? <==> CapitalCalls !in columns
    ensures r.Err? ==> r.error == MissingColumn(CapitalCalls)
    ensures r.Ok? ==>
              var v := columns[CapitalCalls];
              && r.value.stats.mean == (v[|v| - 1] - v[0]) / |v| as real
              && r.value.stats.variance >= 0.0
              && Floor <= r.value.p5 <= r.value.p50 <= r.value.p95
              && exists j :: 0 <= j < nSimulations && r.value.p95 <= PathOutcome(v[|v| - 1], shocks[j])
  {
    if CapitalCalls !in columns then Err(MissingColumn(CapitalCalls))
    else
      var v := columns[CapitalCalls];
      var outcomes := Outcomes(v[|v| - 1], shocks);
      Ok(Summarize(Estimate(v), outcomes))
  }

  /**
   The forecast run step by step, with the simulation loop executed by
   `Simulate`; it computes exactly `Forecast`.
   */
  method RunForecast(columns: map<string, seq<real>>, shocks: seq<seq<real>>, nSimulations: nat, horizon: nat)
    returns (r: Result<Report>)
    requires ValidRun(shocks, nSimulations, horizon) && EnoughHistory(columns)
    ensures r == Forecast(columns, shocks, nSimulations, horizon)
  {
    if CapitalCalls !in columns {
      return Err(MissingColumn(CapitalCalls));
    }
    var series := columns[CapitalCalls];
    var stats := Estimate(series);
    var lastValue := series[|series| - 1];
    var outcomes := Simulate(lastValue, shocks, nSimulations, horizon);
    r := Ok(Summarize(stats, outcomes));
  }

  /**
   A flat history gives mean 0 and variance 0, so the generator's shocks are all
   0 and every percentile is the last value clipped at the floor.
   */
  lemma FlatHistoryForecast(columns: map<string, seq<real>>, shocks: seq<seq<real>>, nSimulations: nat, horizon: nat)
    requires ValidRun(shocks, nSimulations, horizon) && EnoughHistory(columns)
    requires CapitalCalls in columns && Constant(columns[CapitalCalls])
    requires forall i, k :: 0 <= i < |shocks| && 0 <= k < |shocks[i]| ==> shocks[i][k] == 0.0
    ensures var last := Clip(columns[CapitalCalls][0]);
            Forecast(columns, shocks, nSimulations, horizon) == Ok(Report(ChangeStats(0.0, 0.0), last, last, last))
  {
    var v := columns[CapitalCalls];
    FlatHistory(v);
    ZeroShockOutcomes(v[|v| - 1], shocks, horizon);
    SummarizeConstant(Estimate(v), Outcomes(v[|v| - 1], shocks), Clip(v[0]));
  }

  /** When no path ends above the floor, every percentile is the floor. */
  lemma FullyClippedForecast(columns: map<string, seq<real>>, shocks: seq<seq<real>>, nSimulations: nat, horizon: nat)
    requires ValidRun(shocks, nSimulations, horizon) && EnoughHistory(columns)
    requires CapitalCalls in columns
    requires var v := columns[CapitalCalls];
             forall i :: 0 <= i < |shocks| ==> v[|v| - 1] + Sum(shocks[i]) <= Floor
    ensures var r := Forecast(columns, shocks, nSimulations, horizon);
            r.Ok? && r.value.p5 == Floor && r.value.p50 == Floor && r.value.p95 == Floor
  {
    var v := columns[CapitalCalls];
    SummarizeConstant(Estimate(v), Outcomes(v[|v| - 1], shocks), Floor);
  }

  /**
   Degenerate distribution: when every shock equals `m` (a standard deviation
   of 0), all three percentiles equal `max(0, lastValue + horizon * m)`.
   */
  lemma DegenerateForecast(columns: map<string, seq<real>>, shocks: seq<seq<real>>, nSimulations: nat, horizon: nat, m: real)
    requires ValidRun(shocks, nSimulations, horizon) && EnoughHistory(columns)
    requires CapitalCalls in columns
    requires forall i, k :: 0 <= i < |shocks| && 0 <= k < |shocks[i]| ==> shocks[i][k] == m
    ensures var v := columns[CapitalCalls];
            var c := Clip(v[|v| - 1] + horizon as real * m);
            var r := Forecast(columns, shocks, nSimulations, horizon);
            r.Ok? && r.value.p5 == c && r.value.p50 == c && r.value.p95 == c
  {
    var v := columns[CapitalCalls];
    DegenerateOutcomes(v[|v| - 1], shocks, horizon, m);
    SummarizeConstant(Estimate(v), Outcomes(v[|v| - 1], shocks), Clip(v[|v| - 1] + horizon as real * m));
  }

  /**
   One path of one shock of -10 from a last value of 5: the candidate -5 is
   clipped to 0, and so are all three percentiles.
   */
  lemma ClippingScenario(stats: ChangeStats)
    ensures Outcomes(5.0, [[-10.0]]) == [0.0]
    ensures Summarize(stats, Outcomes(5.0, [[-10.0]])) == Report(stats, 0.0, 0.0, 0.0)
  {
    assert Sum([-10.0]) == -10.0 by { assert [-10.0][..0] == []; }
    SummarizeConstant(stats, [0.0], 0.0);
  }
}
