/** The trend score of a channel: a fixed weighted sum of the historical
    popularity of its subscriber series, that of its view series, and the
    recency of its last upload. The wall clock is the parameter `now`
    (seconds since the Unix epoch); metric values are exact reals. */
module TrendCalculator {
  import opened Observations
  import opened TimestampSort

  /** Length of the recency window: the average number of seconds in a month. */
  const OneMonthInSecs: nat := 2629746

  /** Weights of the three sub-scores in the trend score. */
  const HistoricalSubscriberFactor: real := 0.6
  const HistoricalViewFactor: real := 0.1
  const LastUploadFactor: real := 0.3

  // ---------------------------------------------------------------------
  // Normalization
  // ---------------------------------------------------------------------

  /** Sign and range facts about dividing by a positive real. */
  lemma DivisionFacts(n: real, d: real)
    requires d > 0.0
    ensures (n / d) * d == n
    ensures n <= 0.0 <==> n / d <= 0.0
    ensures n >= d <==> n / d >= 1.0
    ensures n > -d <==> n / d > -1.0
  {
    var q := n / d;
    assert q * d == n;
    if n <= 0.0 { assert q <= 0.0; }
    if q <= 0.0 { assert q * d <= 0.0; }
    if n >= d { assert q >= 1.0; }
    if q >= 1.0 { assert q * d >= d; }
    if q <= -1.0 { assert (q + 1.0) * d <= 0.0; }
    if n <= -d { assert q <= -1.0; }
  }

  /** Rescales value linearly so that min maps to 0 and max to 1, then caps
      the result at 1 and floors it at 0. */
  function Normalize(value: real, min: real, max: real): (r: real)
    requires min < max
    ensures 0.0 <= r <= 1.0
    ensures value <= min ==> r == 0.0
    ensures value >= max ==> r == 1.0
    ensures min < value < max ==> 0.0 < r < 1.0 && r * (max - min) == value - min
  {
    DivisionFacts(value - min, max - min);
    var scaled := (value - min) / (max - min);
    var capped := if scaled < 1.0 then scaled else 1.0;
    if capped > 0.0 then capped else 0.0
  }

  /** A larger value never normalizes to a smaller result. */
  lemma NormalizeMonotone(v1: real, v2: real, min: real, max: real)
    requires min < max && v1 <= v2
    ensures Normalize(v1, min, max) <= Normalize(v2, min, max)
  {
    var d := max - min;
    assert (v2 - min) / d - (v1 - min) / d == (v2 - v1) / d;
  }

  /** The midpoint of the range normalizes to one half. */
  lemma NormalizeMidpoint(min: real, max: real)
    requires min < max
    ensures Normalize((min + max) / 2.0, min, max) == 0.5
  {
    var d := max - min;
    assert ((min + max) / 2.0 - min) == d / 2.0;
    assert (d / 2.0) / d == 0.5;
  }

  /** The range 0 to 11010: its ends map to 0 and 1, its centre to 0.5. */
  lemma NormalizeOnSampleRange()
    ensures Normalize(0.0, 0.0, 11010.0) == 0.0
    ensures Normalize(11010.0, 0.0, 11010.0) == 1.0
    ensures Normalize(5505.0, 0.0, 11010.0) == 0.5
  {
    NormalizeMidpoint(0.0, 11010.0);
  }

  // ---------------------------------------------------------------------
  // Recency of the last upload
  // ---------------------------------------------------------------------

  /** How recent an upload is, on the one-month window that ends at now:
      0 for an upload a month old or older, 1 for one at or after now. */
  function LastUploadPopularity(lastUploadAt: nat, now: nat): (r: real)
    ensures 0.0 <= r <= 1.0
    ensures lastUploadAt + OneMonthInSecs <= now ==> r == 0.0
    ensures lastUploadAt >= now ==> r == 1.0
    ensures now < lastUploadAt + OneMonthInSecs && lastUploadAt < now ==>
              0.0 < r < 1.0 && r * OneMonthInSecs as real == (lastUploadAt + OneMonthInSecs - now) as real
  {
    var maxTimestamp := now as real;
    var minTimestamp := maxTimestamp - OneMonthInSecs as real;
    Normalize(lastUploadAt as real, minTimestamp, maxTimestamp)
  }

  /** For a fixed now, a later upload is at least as popular. */
  lemma LastUploadMonotone(t1: nat, t2: nat, now: nat)
    requires t1 <= t2
    ensures LastUploadPopularity(t1, now) <= LastUploadPopularity(t2, now)
  {
    NormalizeMonotone(t1 as real, t2 as real, now as real - OneMonthInSecs as real, now as real);
  }

  /** At any present time later than a month after second 15: an upload at
      second 15 scores 0, one at twice the present time scores 1, and one 100
      seconds ago scores strictly between 0 and 1. */
  lemma LastUploadAtSampleTimes(now: nat)
    requires now > OneMonthInSecs + 15
    ensures LastUploadPopularity(15, now) == 0.0
    ensures LastUploadPopularity(2 * now, now) == 1.0
    ensures 0.0 < LastUploadPopularity(now - 100, now) < 1.0
  {
  }

  // ---------------------------------------------------------------------
  // Historical popularity
  // ---------------------------------------------------------------------

  /** Relative change from one observation to the next; a pair whose
      earlier value is zero contributes nothing. */
  function RateOfChange(earlier: Observation, later: Observation): (r: real)
    ensures earlier.value == 0.0 ==> r == 0.0
    ensures earlier.value != 0.0 ==> later.value == (1.0 + r) * earlier.value
    ensures earlier.value > 0.0 && later.value >= 0.0 ==> r >= -1.0
  {
    if earlier.value != 0.0 then later.value / earlier.value - 1.0 else 0.0
  }

  /** The sum of the rates of change over the adjacent pairs of s. A series
      whose values are zero up to its last one sums to zero, because every
      pair then has a zero earlier value. */
  function PairSum(s: seq<Observation>): (r: real)
    ensures (forall i :: 0 <= i < |s| - 1 ==> s[i].value == 0.0) ==> r == 0.0
  {
    if |s| < 2 then 0.0 else PairSum(s[..|s| - 1]) + RateOfChange(s[|s| - 2], s[|s| - 1])
  }

  /** The historical popularity of a series: the rates of change summed over
      the adjacent pairs of its timestamp-ordered copy, divided by its length. */
  function HistoricalPopularity(observations: seq<Observation>): (r: real)
    ensures |observations| <= 1 ==> r == 0.0
  {
    if |observations| == 0 then 0.0
    else PairSum(SortByTimestamp(observations)) / |observations| as real
  }

  /** The least and the greatest value of a nonempty series. */
  method ValueRange(obs: array<Observation>) returns (minValue: real, maxValue: real)
    requires obs.Length > 0
    ensures forall i :: 0 <= i < obs.Length ==> minValue <= obs[i].value <= maxValue
    ensures exists i :: 0 <= i < obs.Length && obs[i].value == minValue
    ensures exists i :: 0 <= i < obs.Length && obs[i].value == maxValue
  {
    minValue, maxValue := obs[0].value, obs[0].value;
    for i := 1 to obs.Length
      invariant forall k :: 0 <= k < i ==> minValue <= obs[k].value <= maxValue
      invariant exists k :: 0 <= k < i && obs[k].value == minValue
      invariant exists k :: 0 <= k < i && obs[k].value == maxValue
    {
      if obs[i].value < minValue {
        minValue := obs[i].value;
      }
      if obs[i].value > maxValue {
        maxValue := obs[i].value;
      }
    }
  }

  /** Extending a prefix by one observation adds the rate of its pair. */
  lemma PairSumStep(s: seq<Observation>, i: nat)
    requires 1 <= i < |s|
    ensures PairSum(s[..i + 1]) == PairSum(s[..i]) + RateOfChange(s[i - 1], s[i])
  {
    assert s[..i + 1][..i] == s[..i];
  }

  /** Computes the historical popularity on a sorted copy of the series; the
      caller's sequence is a value and cannot change. The value range is
      computed as the scorer does and plays no part in the result. */
  method CalculateHistoricalPopularity(observations: seq<Observation>) returns (popularity: real)
    ensures popularity == HistoricalPopularity(observations)
  {
    if |observations| == 0 {
      return 0.0;
    }
    var obs := new Observation[|observations|](i requires 0 <= i < |observations| => observations[i]);
    assert obs[..] == observations;
    SortInPlace(obs);
    assert obs[..] == SortByTimestamp(observations);
    popularity := 0.0;
    var minValue, maxValue := ValueRange(obs);
    for i := 1 to obs.Length
      invariant obs[..] == SortByTimestamp(observations)
      invariant popularity == PairSum(obs[..i])
    {
      PairSumStep(obs[..], i);
      if obs[i - 1].value != 0.0 {
        var rateOfChange := obs[i].value / obs[i - 1].value - 1.0;
        popularity := popularity + rateOfChange;
      }
    }
    assert obs[..obs.Length] == obs[..];
    assert popularity == PairSum(SortByTimestamp(observations));
    popularity := popularity / obs.Length as real;
  }

  /** A series with fewer than two observations has no pair, so no momentum. */
  lemma HistoricalOfShortSeries(s: seq<Observation>)
    requires |s| <= 1
    ensures HistoricalPopularity(s) == 0.0
  {
    if |s| == 1 {
      assert PairSum(SortByTimestamp(s)) == 0.0;
    }
  }

  /** A zero-valued first observation adds nothing to the pair sum. */
  lemma {:induction false} PairSumZeroHead(z: Observation, s: seq<Observation>)
    requires z.value == 0.0
    ensures PairSum([z] + s) == PairSum(s)
  {
    if |s| >= 2 {
      PairSumZeroHead(z, s[..|s| - 1]);
      assert ([z] + s)[..|s|] == [z] + s[..|s| - 1];
    } else if |s| == 1 {
      assert ([z] + s)[..1] == [z];
    }
  }

  /** Each pair of non-negative values changes by at least -1, so the pair
      sum of a nonempty series is at least 1 minus its length. */
  lemma {:induction false} PairSumLowerBound(s: seq<Observation>)
    requires |s| > 0 && NonNegativeValues(s)
    ensures PairSum(s) >= 1.0 - |s| as real
  {
    if |s| >= 2 {
      PairSumLowerBound(s[..|s| - 1]);
      var a, b := s[|s| - 2], s[|s| - 1];
      if a.value != 0.0 {
        assert b.value / a.value >= 0.0;
      }
    }
  }

  /** Sorting keeps every value non-negative. */
  lemma SortKeepsNonNegative(s: seq<Observation>)
    requires NonNegativeValues(s)
    ensures NonNegativeValues(SortByTimestamp(s))
  {
    var t := SortByTimestamp(s);
    SortByTimestampPermutes(s);
    forall i | 0 <= i < |t|
      ensures t[i].value >= 0.0
    {
      assert t[i] in multiset(s);
    }
  }

  /** With non-negative metric values the historical popularity stays above -1. */
  lemma HistoricalLowerBound(s: seq<Observation>)
    requires NonNegativeValues(s)
    ensures HistoricalPopularity(s) > -1.0
  {
    if |s| > 0 {
      SortKeepsNonNegative(s);
      var t := SortByTimestamp(s);
      PairSumLowerBound(t);
      var n := |s| as real;
      DivisionFacts(PairSum(t), n);
    }
  }

  /** When no two observations share a timestamp, the historical popularity
      does not depend on the order in which the series is given. */
  lemma HistoricalPermutationInvariant(s1: seq<Observation>, s2: seq<Observation>)
    requires DistinctTimestamps(s1)
    requires multiset(s1) == multiset(s2)
    ensures HistoricalPopularity(s1) == HistoricalPopularity(s2)
  {
    assert |s1| == |multiset(s1)| == |multiset(s2)| == |s2|;
    PermutationSortsAlike(s1, s2);
  }

  /** A three-point series already in timestamp order has the mean of its
      two rates of change, taken over three points. */
  lemma HistoricalOfOrderedThree(a: Observation, b: Observation, c: Observation)
    requires a.timestamp <= b.timestamp <= c.timestamp
    ensures HistoricalPopularity([a, b, c]) == (RateOfChange(a, b) + RateOfChange(b, c)) / 3.0
  {
    assert Sorted([a, b, c]);
    SortedUnchanged([a, b, c]);
    assert [a, b, c][..2] == [a, b];
    assert [a, b][..1] == [a];
    assert PairSum([a]) == 0.0;
    assert PairSum([a, b]) == RateOfChange(a, b);
  }

  /** The series 10, 11, 10 has a higher historical popularity than the
      series 1000, 1100, 30 over the same three timestamps. */
  lemma RisingSeriesOutranksFallingSeries()
    ensures HistoricalPopularity([Observation("channel a", 10.0, 1), Observation("channel a", 11.0, 2),
                                  Observation("channel a", 10.0, 3)])
          > HistoricalPopularity([Observation("channel b", 1000.0, 1), Observation("channel b", 1100.0, 2),
                                  Observation("channel b", 30.0, 3)])
  {
    var a1, a2, a3 := Observation("channel a", 10.0, 1), Observation("channel a", 11.0, 2),
                      Observation("channel a", 10.0, 3);
    var b1, b2, b3 := Observation("channel b", 1000.0, 1), Observation("channel b", 1100.0, 2),
                      Observation("channel b", 30.0, 3);
    HistoricalOfOrderedThree(a1, a2, a3);
    HistoricalOfOrderedThree(b1, b2, b3);
    assert RateOfChange(a1, a2) + RateOfChange(a2, a3) == 1.0 / 110.0;
    assert RateOfChange(b1, b2) + RateOfChange(b2, b3) == -96.0 / 110.0;
  }

  /** Two observations sharing a timestamp keep their input order, so the
      order of the input matters once timestamps repeat: values 1, 2 score
      0.5 and values 2, 1 score -0.25. */
  lemma TiedTimestampsOrderMatters()
    ensures HistoricalPopularity([Observation("c", 1.0, 1), Observation("c", 2.0, 1)]) == 0.5
    ensures HistoricalPopularity([Observation("c", 2.0, 1), Observation("c", 1.0, 1)]) == -0.25
  {
    var lo, hi := Observation("c", 1.0, 1), Observation("c", 2.0, 1);
    assert Sorted([lo, hi]) && Sorted([hi, lo]);
    SortedUnchanged([lo, hi]);
    SortedUnchanged([hi, lo]);
    assert [lo, hi][..1] == [lo] && [hi, lo][..1] == [hi];
    assert PairSum([lo, hi]) == 1.0;
    assert PairSum([hi, lo]) == -0.5;
  }

  // ---------------------------------------------------------------------
  // The trend score
  // ---------------------------------------------------------------------

  /** The trend score as the weighted sum of its three sub-scores. */
  function Calculate(historicalSubscribers: seq<Observation>, historicalViews: seq<Observation>,
                     lastUploadAt: nat, now: nat): (r: real)
    ensures historicalSubscribers == [] && historicalViews == [] ==> 0.0 <= r <= LastUploadFactor
  {
    HistoricalPopularity(historicalSubscribers) * HistoricalSubscriberFactor
    + HistoricalPopularity(historicalViews) * HistoricalViewFactor
    + LastUploadPopularity(lastUploadAt, now) * LastUploadFactor
  }

  /** Computes the trend score from the two series and the last upload time. */
  method CalculateTrend(historicalSubscribers: seq<Observation>, historicalViews: seq<Observation>,
                        lastUploadAt: nat, now: nat) returns (trend: real)
    ensures trend == Calculate(historicalSubscribers, historicalViews, lastUploadAt, now)
  {
    var historicalSubscriberPopularity := CalculateHistoricalPopularity(historicalSubscribers);
    var historicalViewPopularity := CalculateHistoricalPopularity(historicalViews);
    var lastUploadPopularity := LastUploadPopularity(lastUploadAt, now);
    trend := historicalSubscriberPopularity * HistoricalSubscriberFactor
           + historicalViewPopularity * HistoricalViewFactor
           + lastUploadPopularity * LastUploadFactor;
  }

  /** Without any history the score is the weighted recency alone, in [0, 0.3]. */
  lemma CalculateWithoutHistory(lastUploadAt: nat, now: nat)
    ensures Calculate([], [], lastUploadAt, now) == LastUploadFactor * LastUploadPopularity(lastUploadAt, now)
    ensures 0.0 <= Calculate([], [], lastUploadAt, now) <= 0.3
  {
  }

  /** With non-negative metric values the score stays above -0.7. */
  lemma CalculateLowerBound(subscribers: seq<Observation>, views: seq<Observation>, lastUploadAt: nat, now: nat)
    requires NonNegativeValues(subscribers) && NonNegativeValues(views)
    ensures Calculate(subscribers, views, lastUploadAt, now) > -0.7
  {
    HistoricalLowerBound(subscribers);
    HistoricalLowerBound(views);
  }

  /** For fixed series and now, a later upload never lowers the score. */
  lemma CalculateMonotoneInUpload(subscribers: seq<Observation>, views: seq<Observation>,
                                  t1: nat, t2: nat, now: nat)
    requires t1 <= t2
    ensures Calculate(subscribers, views, t1, now) <= Calculate(subscribers, views, t2, now)
  {
    LastUploadMonotone(t1, t2, now);
  }
}
