# Monte Carlo liquidity forecast of capital calls

This project models the simulation engine behind the capital-calls liquidity
forecast in `models/monte_simulate_liquidity.py`.

- **Changes.** The `capital_calls` series is turned into its period-over-period
  changes, with the undefined first change filled with 0.
- **Statistics.** It takes the mean and the sample variance (divisor `n - 1`) of
  those changes.
- **Simulation.** For each of `nSimulations` paths it adds the sum of `horizon`
  shocks to the last observed value. It clips the result at a floor of 0,
  because capital calls cannot be negative, and appends it to the outcome list.
- **Summary.** The outcomes are summarised by their 5th, 50th and 95th
  percentiles. These use linear interpolation between closest ranks
  (Hyndman and Fan's definition 7, the default of `np.percentile`).

The modules follow the stages of the program:

| module | file | content |
|---|---|---|
| `Sums` | `sums.dfy` | finite sums of reals, their lemmas, and the product of non-negative reals |
| `ChangeEstimator` | `change_estimator.dfy` | changes, mean, sample variance |
| `PathSimulator` | `path_simulator.dfy` | the clipped path-sum loop, as a method with loop invariants |
| `Percentile` | `percentile.dfy` | sorting and type-7 interpolation |
| `Liquidity` | `liquidity.dfy` | the whole forecast: column lookup, error result, report |

All numbers are Dafny `real`s.

- **Shocks.** The shocks the program draws from a normal distribution are an
  input: `shocks[i]` holds the `horizon` draws of path `i`.
- **Columns.** The loaded table is a map from column names to series.
- **Missing column.** If `capital_calls` is absent, the result is
  `Err(MissingColumn("capital_calls"))`, as at lines 30-31 of the source.

## Model

| member | source | states |
|---|---|---|
| Sums.Sum | models/monte_simulate_liquidity.py:45 | no contract of its own: the sum of all values peeling off the last one, 0 for the empty sequence; `np.sum` of one path's shocks (line 45) and the sum inside the mean and the variance (lines 34-35) |
| Sums.ProductOfMagnitudes | models/monte_simulate_liquidity.py:35 | the product of two non-negative reals is non-negative, and positive when both are; used for the squared deviations and the rank and interpolation bounds |
| Sums.SumConstant | models/monte_simulate_liquidity.py:44-45 | `horizon` shocks that all equal `m` sum to `horizon * m` |
| Sums.SumOfNonNegatives | models/monte_simulate_liquidity.py:35 | a sum of non-negative terms is non-negative, and it is 0 exactly when every term is 0 |
| ChangeEstimator.Changes | models/monte_simulate_liquidity.py:33 | the changes have the series' length; the first is 0 and change `i >= 1` is `v[i] - v[i-1]` |
| ChangeEstimator.ChangesTelescope | models/monte_simulate_liquidity.py:33 | the first value plus the running sum of the changes up to `k` gives back `v[k]` |
| ChangeEstimator.ChangesSum | models/monte_simulate_liquidity.py:33 | the changes add up to the last value minus the first |
| ChangeEstimator.MeanChange | models/monte_simulate_liquidity.py:33-34 | the mean change is `(last - first) / n`, with the leading 0 counted among the `n` changes |
| ChangeEstimator.Mean | models/monte_simulate_liquidity.py:34 | no contract of its own: `Sum(c)` divided by the number of values, the pandas mean over all changes, the leading 0 included; its properties are `MeanChange` and `MeanConstant` |
| ChangeEstimator.MeanConstant | models/monte_simulate_liquidity.py:34 | the mean of values that all equal `m` is `m` |
| ChangeEstimator.Square | models/monte_simulate_liquidity.py:35 | a squared deviation is non-negative, and positive when the deviation is non-zero |
| ChangeEstimator.SquareIsProduct | models/monte_simulate_liquidity.py:35 | `Square(x)` is the ordinary square `x * x` |
| ChangeEstimator.SquaredDeviations | models/monte_simulate_liquidity.py:35 | one squared deviation per change; each is non-negative, and positive where the change differs from the mean |
| ChangeEstimator.Variance | models/monte_simulate_liquidity.py:35 | no contract of its own: `Sum(SquaredDeviations(c, Mean(c)))` divided by one less than the number of values, the pandas `ddof=1` variance, defined for two or more values; its properties are `VarianceNonNegative` and `VarianceZeroIffAllEqual` |
| ChangeEstimator.VarianceNonNegative | models/monte_simulate_liquidity.py:35 | the sample variance (divisor `n - 1`) of at least two values is non-negative |
| ChangeEstimator.VarianceZeroIffAllEqual | models/monte_simulate_liquidity.py:35 | the sample variance is 0 if and only if all values are equal |
| ChangeEstimator.ConstantIffChangesEqual | models/monte_simulate_liquidity.py:33-35 | a series is flat if and only if all its changes are equal |
| ChangeEstimator.Estimate | models/monte_simulate_liquidity.py:33-35 | for at least two observations: mean change `(last - first) / n`, variance non-negative, and variance 0 exactly for a flat series |
| ChangeEstimator.FlatHistory | models/monte_simulate_liquidity.py:33-35 | a flat series has mean change 0 and variance 0 |
| PathSimulator.Clip | models/monte_simulate_liquidity.py:46-47 | `max(0, x)`: at least the floor, at least `x`, and equal to one of them |
| PathSimulator.PathOutcome | models/monte_simulate_liquidity.py:45-47 | no contract of its own: `Clip(lastValue + Sum(path))`, one path's end value clipped at 0 |
| PathSimulator.Outcomes | models/monte_simulate_liquidity.py:42-47 | one outcome per path, in order; outcome `i` is path `i`'s clipped end value |
| PathSimulator.Simulate | models/monte_simulate_liquidity.py:42-47 | the loop returns exactly `Outcomes`: `nSimulations` outcomes, each `max(0, lastValue + sum of its shocks)`, none below the floor |
| PathSimulator.OutcomesExtend | models/monte_simulate_liquidity.py:42-47 | simulating more paths leaves the outcomes already recorded unchanged and appends the new ones |
| PathSimulator.ConstantPath | models/monte_simulate_liquidity.py:44-47 | a path whose shocks all equal `m` ends at `max(0, lastValue + n * m)` for a path of `n` shocks |
| PathSimulator.DegenerateOutcomes | models/monte_simulate_liquidity.py:44-47 | when every shock equals `m`, every outcome is `max(0, lastValue + horizon * m)` |
| PathSimulator.ZeroShockOutcomes | models/monte_simulate_liquidity.py:44-47 | when every shock is 0, every outcome is `max(0, lastValue)` |
| Percentile.Insert | models/monte_simulate_liquidity.py:50-52 | inserting into a sorted sequence keeps it sorted and adds exactly that one value |
| Percentile.Sort | models/monte_simulate_liquidity.py:50-52 | the sort result is sorted and is a permutation of its input |
| Percentile.Rank | models/monte_simulate_liquidity.py:50-52 | no contract of its own: the fractional rank `(n - 1) * p / 100` of type-7 interpolation; its properties are `RankBounds` and `RankMonotone` |
| Percentile.Lower | models/monte_simulate_liquidity.py:50-52 | no contract of its own: the floor of the rank, the closest rank at or below it |
| Percentile.Upper | models/monte_simulate_liquidity.py:50-52 | no contract of its own: the closest rank above `Lower`, or the last rank when `Lower` is the last (numpy clips the upper index to `n - 1`) |
| Percentile.Lerp | models/monte_simulate_liquidity.py:50-52 | no contract of its own: `a + g * (b - a)`, numpy's linear interpolation from `a` at `g = 0` to `b` at `g = 1`; its properties are `LerpBetween` and `LerpMonotone` |
| Percentile.LerpBetween | models/monte_simulate_liquidity.py:50-52 | interpolating between two ordered values with a fraction in `[0, 1]` stays between them |
| Percentile.LerpMonotone | models/monte_simulate_liquidity.py:50-52 | the interpolation grows with the fraction |
| Percentile.RankBounds | models/monte_simulate_liquidity.py:50-52 | for `0 <= p <= 100` the rank `(n - 1) * p / 100` lies in `[0, n - 1]`, so its floor indexes the data |
| Percentile.RankMonotone | models/monte_simulate_liquidity.py:50-52 | the rank grows with `p` |
| Percentile.Interpolate | models/monte_simulate_liquidity.py:50-52 | no contract of its own: over sorted values `x`, `Lerp(x[Lower], x[Lower + 1], Rank - Lower)`, or `x[n - 1]` when `Lower` is the last rank; its properties are `InterpolateInSegment`, `InterpolateAtWholeRank` and `InterpolateMonotone` |
| Percentile.PercentileOf | models/monte_simulate_liquidity.py:50-52 | no contract of its own: `np.percentile(xs, p)`, type-7 interpolation at rank `(n - 1) * p / 100` over `Sort(xs)`; its properties are `PercentileMonotone`, `PercentileWithinRange` and `PercentileExtremes` |
| Percentile.InterpolateInSegment | models/monte_simulate_liquidity.py:50-52 | the interpolated value lies between the sorted values at the lower and the upper closest rank |
| Percentile.InterpolateAtWholeRank | models/monte_simulate_liquidity.py:50-52 | at a whole rank `k` the result is exactly the `k`-th smallest value |
| Percentile.InterpolateMonotone | models/monte_simulate_liquidity.py:50-52 | over sorted values the interpolated percentile is monotone in `p` |
| Percentile.PercentileMonotone | models/monte_simulate_liquidity.py:50-52 | the percentile of any sequence of values is monotone in `p` |
| Percentile.SortedEnds | models/monte_simulate_liquidity.py:50-52 | the first and last values of a sorted permutation are the minimum and the maximum of the input |
| Percentile.PercentileWithinRange | models/monte_simulate_liquidity.py:50-52 | every percentile lies between some input value and some input value, and within any bounds all inputs respect |
| Percentile.PercentileExtremes | models/monte_simulate_liquidity.py:50-52 | the 0th percentile is the minimum and the 100th the maximum of the input |
| Liquidity.Summarize | models/monte_simulate_liquidity.py:49-52 | `p5 <= p50 <= p95`; `p5` is at least some outcome and `p95` at most some outcome; `p5 >= 0` when all outcomes are; the statistics pass through |
| Liquidity.SummarizeConstant | models/monte_simulate_liquidity.py:50-52 | when every outcome is `c`, all three percentiles are `c` |
| Liquidity.Forecast | models/monte_simulate_liquidity.py:29-52 | error exactly when `capital_calls` is missing; otherwise mean change `(last - first) / n`, variance `>= 0`, `0 <= p5 <= p50 <= p95`, and `p95` at most some path's outcome |
| Liquidity.RunForecast | models/monte_simulate_liquidity.py:28-52 | running the stages in order, with the simulation loop, computes exactly `Forecast` |
| Liquidity.FlatHistoryForecast | models/monte_simulate_liquidity.py:33-52 | a flat history with all-zero shocks yields statistics `(0, 0)` and all three percentiles `max(0, last value)` |
| Liquidity.FullyClippedForecast | models/monte_simulate_liquidity.py:42-52 | when no path ends above 0, all three percentiles are 0 |
| Liquidity.DegenerateForecast | models/monte_simulate_liquidity.py:44-52 | when every shock equals `m`, `p5 = p50 = p95 = max(0, last + horizon * m)` |
| Liquidity.ClippingScenario | models/monte_simulate_liquidity.py:45-52 | from a last value of 5, one path with one shock of -10 gives the outcome 0 and percentiles 0 |

## Left out

- **Loading the data.** `load_master_data` (lines 20-26) is I/O: the SQLite connection, the query, date parsing and index sorting. The model starts from a table that is already loaded and ordered in time, given as a map from column names to series.
- **Console output.** The prints at lines 36 and 54-56 are presentation only.
- **Random shocks.** `np.random.normal` (line 44) draws from a process-wide generator. The shocks are a parameter instead, so nothing is claimed about their distribution. The model therefore does not tie the shocks to `mean_change` and `std_change`. The lemmas for the degenerate case take equal shocks as a hypothesis, which is what a normal draw with standard deviation 0 returns.
- **Floating point.** The model uses reals: no IEEE rounding, and no NaN. With a single observation pandas returns NaN for the standard deviation.
- **Missing observations.** The series is assumed to have no missing (NULL or NaN) observations. At line 33 `fillna(0)` replaces every NaN that `diff` produces. The model fills only the first change, the one with no predecessor. A gap in the series would zero the two changes next to it, and then the mean would no longer be `(last - first) / n`.
- Estimate: computes the variance, not the standard deviation of line 35, to stay clear of `sqrt`. The standard deviation is its square root, and it is 0 exactly when the variance is.
- **Fixed constants.** `n_simulations = 100000` and `horizon = 30` (lines 38-39) become the parameters `nSimulations` and `horizon`, each required to be at least 1.
- **Interpolation formula.** numpy evaluates the interpolation as `b - (b - a) * (1 - g)` when `g >= 0.5`. Over the reals this equals `a + g * (b - a)`, so the model uses only the latter.
- **Checks the code does not make.**
  - The code does not check for fewer than two observations; pandas then gives NaN for the standard deviation. The model makes at least two observations a precondition (`EnoughHistory`, when the column is present) instead of an error result.
  - The code fixes `n_simulations` and `horizon` as positive constants and never checks them. The model takes them as parameters and requires both to be at least 1 (`ValidRun`).
  - The code clips at the literal 0 (`max(0, simulated_value)`); no other floor can be configured. The model uses the constant `Floor = 0`.
  - The code takes the standard deviation with the pandas default divisor `n - 1`, and so does the model.
