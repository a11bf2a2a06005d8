# Trend scorer of the sailing-channels trending service

This project models the scoring core of the trending service: the function
that turns a channel's subscriber history, its view history and the time of
its last upload into one trend score. The model is written in Dafny and its
properties are proved.

- `observation.dfy` (module `Observations`): the `Observation` record of
  src/observation.rs:1-6 (channel id, metric value, 32-bit timestamp) and
  predicates on series of observations.
- `timestamp_sort.dfy` (module `TimestampSort`): the stable ascending sort
  by timestamp that the scorer applies to its own copy of a series.
  `SortByTimestamp` specifies it as an insertion sort. `SortInPlace` sorts an
  array in place and is proved equal to `SortByTimestamp`. The lemmas prove
  that the result is ordered, is a permutation of the input and keeps the
  input order of equal timestamps. `StableSortIsUnique` proves that every
  stable sort by timestamp produces this same sequence. That is why an
  insertion sort is a faithful stand-in for Rust's `sort_by`.
- `trend_calculator.dfy` (module `TrendCalculator`): the clamp-and-rescale
  `Normalize` and the last-upload recency score. The historical popularity has
  two forms: the specification function `HistoricalPopularity` and the
  imperative `CalculateHistoricalPopularity`. The method copies the series,
  sorts the copy, computes the value range (which the result never uses) and
  sums the relative rates of change of adjacent pairs in a loop. It then
  divides by the series length. The trend score also has two forms: the
  specification function `Calculate` and the method `CalculateTrend`, which
  forms the weighted sum `0.6·H(subscribers) + 0.1·H(views) + 0.3·L(upload)`.

Modelling choices:

- Metric values (`f64`) are exact `real`s.
- Upload times and the current time (`u64` seconds) are `nat`s.
- Observation timestamps (`i32`) are the newtype `I32`.
- The wall clock is the explicit parameter `now`.
- The caller's series is passed as a `seq`, which is a value. The scorer
  therefore cannot change it, just as the source sorts a `to_vec` copy.

The code has no "current standing" sub-score and no global-maximum inputs,
and its weights are the constants 0.6, 0.1 and 0.3. Its historical popularity
is the sum of relative rates of change `later/earlier - 1` over adjacent
pairs, divided by the number of observations. It is not a telescoping sum of
min/max-normalized deltas, and the min/max values it computes are not used.

## Model

| member | source | states |
|---|---|---|
| `TrendCalculator.Normalize` | src/trend_calculator.rs:65-67 | for `min < max` the result lies in [0, 1]; any value at or below `min` gives 0, any value at or above `max` gives 1; strictly inside the range the result is strictly between 0 and 1 and is the value's linear position in the range |
| `TrendCalculator.NormalizeMonotone` | src/trend_calculator.rs:65-67 | a larger value never normalizes to a smaller result |
| `TrendCalculator.NormalizeMidpoint` | src/trend_calculator.rs:66 | the midpoint of any range normalizes to exactly 0.5 |
| `TrendCalculator.NormalizeOnSampleRange` | src/trend_calculator.rs:74-90 | on the range 0..11010, 0 maps to 0, 11010 maps to 1 and 5505 maps to 0.5 |
| `TrendCalculator.LastUploadPopularity` | src/trend_calculator.rs:23-37 | the recency score lies in [0, 1]; it is 0 for an upload one month (2629746 s) or more before `now`, 1 for an upload at or after `now`, and strictly between 0 and 1 inside the window, where it equals the upload's linear position in the window |
| `TrendCalculator.LastUploadMonotone` | src/trend_calculator.rs:31-36 | for a fixed `now`, a later upload never scores lower |
| `TrendCalculator.LastUploadAtSampleTimes` | src/trend_calculator.rs:92-118 | an upload at second 15 scores 0, one at twice the present time scores 1, and one 100 seconds ago scores strictly between 0 and 1 |
| `TimestampSort.Insert` | src/trend_calculator.rs:45 | places an observation behind every observation whose timestamp is at most its own, which is one step of a stable insertion sort; the result is one longer than the input |
| `TimestampSort.SortByTimestamp` | src/trend_calculator.rs:45 | the reference definition of the stable ascending sort by timestamp, as repeated insertion; it keeps the length, and the lemmas below prove it orders, permutes and is stable |
| `TimestampSort.SortByTimestampSorted` | src/trend_calculator.rs:45 | the sorted copy has non-decreasing timestamps |
| `TimestampSort.SortByTimestampPermutes` | src/trend_calculator.rs:44-45 | the sorted copy is a permutation of the input (equal multisets) |
| `TimestampSort.SortByTimestampStable` | src/trend_calculator.rs:45 | for every timestamp, the observations carrying it appear in the sorted copy in their input order |
| `TimestampSort.StableSortIsUnique` | src/trend_calculator.rs:45 | any ordered sequence that keeps the input order within every timestamp equals the modelled sort, so every stable sort by timestamp gives the same result |
| `TimestampSort.SortedUnchanged` | src/trend_calculator.rs:45 | an input already in timestamp order is returned unchanged |
| `TimestampSort.PermutationSortsAlike` | src/trend_calculator.rs:44-45 | when no two observations share a timestamp, every permutation of the input sorts to the same sequence |
| `TimestampSort.InsertInPlace` | src/trend_calculator.rs:45 | moving one element left past the larger timestamps before it inserts it into the sorted prefix and leaves the rest of the array alone |
| `TimestampSort.SortInPlace` | src/trend_calculator.rs:44-45 | sorting the copied array in place leaves exactly the stable timestamp order of its old contents |
| `TrendCalculator.RateOfChange` | src/trend_calculator.rs:55-56 | the relative change `later/earlier - 1` of one pair: it is 0 when the earlier value is 0, otherwise the later value equals the earlier value times (1 + rate), and it is at least -1 for a positive earlier and non-negative later value |
| `TrendCalculator.PairSum` | src/trend_calculator.rs:54-60 | the accumulated rates of change over all adjacent pairs; a series whose values are 0 up to its last one sums to 0, since every pair is skipped |
| `TrendCalculator.HistoricalPopularity` | src/trend_calculator.rs:39-63 | the reference definition of the historical popularity: 0 for an empty series, otherwise the pair sum of the sorted copy divided by the series length; it is 0 for any series of at most one observation |
| `TrendCalculator.ValueRange` | src/trend_calculator.rs:49-50 | the two folds return a least and a greatest value of the series, each taken by some observation |
| `TrendCalculator.CalculateHistoricalPopularity` | src/trend_calculator.rs:39-63 | the result is 0 for an empty series; otherwise it is the sum over adjacent pairs of the sorted copy of `later/earlier - 1`, skipping pairs whose earlier value is 0, divided by the series length; the value range it computes plays no part |
| `TrendCalculator.HistoricalOfShortSeries` | src/trend_calculator.rs:40-62 | a series with no observation or with one observation has historical popularity 0 |
| `TrendCalculator.PairSumZeroHead` | src/trend_calculator.rs:54-60 | a leading observation with value 0 adds nothing to the sum of rates |
| `TrendCalculator.HistoricalLowerBound` | src/trend_calculator.rs:54-62 | with non-negative metric values, the historical popularity is greater than -1 |
| `TrendCalculator.HistoricalPermutationInvariant` | src/trend_calculator.rs:44-62 | with distinct timestamps, the historical popularity does not depend on the order in which the series is given |
| `TrendCalculator.TiedTimestampsOrderMatters` | src/trend_calculator.rs:44-62 | with a repeated timestamp the input order decides the result, because the stable sort keeps it: values 1, 2 score 0.5 and values 2, 1 score -0.25, so `HistoricalPermutationInvariant` needs its distinct-timestamps precondition |
| `TrendCalculator.HistoricalOfOrderedThree` | src/trend_calculator.rs:54-62 | a three-point series in timestamp order scores the sum of its two rates of change divided by 3 |
| `TrendCalculator.RisingSeriesOutranksFallingSeries` | src/trend_calculator.rs:120-167 | the series 10, 11, 10 scores higher than 1000, 1100, 30 over timestamps 1, 2, 3 |
| `TrendCalculator.Calculate` | src/trend_calculator.rs:4-21 | the reference definition of the trend score as the weighted sum of the two historical popularities and the recency; with both series empty it lies in [0, 0.3] |
| `TrendCalculator.CalculateTrend` | src/trend_calculator.rs:4-21 | the trend is 0.6 times the subscriber historical popularity plus 0.1 times the view historical popularity plus 0.3 times the recency, with the imperative sub-score computations agreeing with their specification |
| `TrendCalculator.CalculateWithoutHistory` | src/trend_calculator.rs:9-20 | with both series empty, the trend is 0.3 times the recency and lies in [0, 0.3] |
| `TrendCalculator.CalculateLowerBound` | src/trend_calculator.rs:9-20 | with non-negative metric values, the trend is greater than -0.7 |
| `TrendCalculator.CalculateMonotoneInUpload` | src/trend_calculator.rs:16-20 | for fixed series and `now`, a later upload never lowers the trend |

## Left out

- src/main.rs (the scheduling loop, whose sleep is named six hours but is `6 * 60 * 60 * 1000` seconds, about 250 days; MongoDB client set-up, concurrent fetches and the print of each score): I/O and async plumbing. Its call to `calculate` passes five arguments to the three-parameter function, so it does not fix a contract.
- src/subscriber_repository.rs, src/view_repository.rs and src/channel_repository.rs: database query wrappers with no algorithmic content.
- src/timing.rs: wall-clock reading and `YYYYMMDD` date formatting through a date library.
- The clock read `SystemTime::now()` in `calculate_last_upload_popularity` is the parameter `now`.
- IEEE-754 behaviour is not modelled: rounding, the infinite seeds of the min/max folds, and the precision lost by the `u64 as f64` casts.
- Normalize: requires `min < max`. With `max == min` the source's quotient is NaN or infinite, and the two clamps then return 1.0 for `value >= min` and 0.0 below it; that case is not modelled. The only caller outside the tests, the recency score with its one-month window, and the unit tests on the range 0..11010 never reach it.
- TrendCalculator.ValueRange: seeds its folds with the first observation rather than with plus and minus infinity, so it requires a nonempty array. The scorer only reaches the folds after its empty-series early return.
- The `println!` of the minimum and maximum in `calculate_historical_popularity` is a side effect with no bearing on the result.
- The scorer does not check that all observations of a series belong to one channel. The model does not check it either.
