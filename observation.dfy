/** One sample of a channel metric (subscribers or views) at a point in time. */
module Observations {

  /** A signed 32-bit integer, the width of the observation timestamp. */
  newtype I32 = x: int | -0x8000_0000 <= x < 0x8000_0000

  /** An immutable sample: the channel it belongs to, the metric value and
      its day-granularity timestamp. Timestamps are only ever compared. */
  datatype Observation = Observation(channelId: string, value: real, timestamp: I32)

  /** The timestamps of a series never decrease from left to right. */
  ghost predicate Sorted(s: seq<Observation>)
  {
    forall i, j :: 0 <= i < j < |s| ==> s[i].timestamp <= s[j].timestamp
  }

  /** The timestamps of a series strictly increase from left to right. */
  ghost predicate StrictlySorted(s: seq<Observation>)
  {
    forall i, j :: 0 <= i < j < |s| ==> s[i].timestamp < s[j].timestamp
  }

  /** No two observations of the series share a timestamp. */
  ghost predicate DistinctTimestamps(s: seq<Observation>)
  {
    forall i, j :: 0 <= i < j < |s| ==> s[i].timestamp != s[j].timestamp
  }

  /** Every observation of the series has a non-negative metric value. */
  ghost predicate NonNegativeValues(s: seq<Observation>)
  {
    forall i :: 0 <= i < |s| ==> s[i].value >= 0.0
  }
}
