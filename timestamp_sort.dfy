/** The stable ascending sort by timestamp that the trend scorer applies to
    its own copy of an observation series before walking adjacent pairs.
    The sort is specified by an insertion-sort function; the lemmas show that
    its result is ordered, a permutation and stable, and that every stable
    sort by timestamp yields exactly this sequence. */
module TimestampSort {
  import opened Observations

  /** Places x after every trailing observation whose timestamp exceeds x's,
      so x lands behind all observations with a timestamp at most its own. */
  function Insert(s: seq<Observation>, x: Observation): (r: seq<Observation>)
    ensures |r| == |s| + 1
  {
    if s == [] || s[|s| - 1].timestamp <= x.timestamp then
      s + [x]
    else
      Insert(s[..|s| - 1], x) + [s[|s| - 1]]
  }

  /** The series ordered by ascending timestamp, ties in input order. */
  function SortByTimestamp(s: seq<Observation>): (r: seq<Observation>)
    ensures |r| == |s|
  {
    if s == [] then
      []
    else
      Insert(SortByTimestamp(s[..|s| - 1]), s[|s| - 1])
  }

  /** Insert adds exactly x. */
  lemma {:induction false} InsertPermutes(s: seq<Observation>, x: Observation)
    ensures multiset(Insert(s, x)) == multiset(s) + multiset{x}
  {
    if s != [] && s[|s| - 1].timestamp > x.timestamp {
      InsertPermutes(s[..|s| - 1], x);
      assert s == s[..|s| - 1] + [s[|s| - 1]];
    }
  }

  /** The sort's output is a permutation of its input. */
  lemma {:induction false} SortByTimestampPermutes(s: seq<Observation>)
    ensures multiset(SortByTimestamp(s)) == multiset(s)
  {
    if s != [] {
      SortByTimestampPermutes(s[..|s| - 1]);
      InsertPermutes(SortByTimestamp(s[..|s| - 1]), s[|s| - 1]);
      assert s == s[..|s| - 1] + [s[|s| - 1]];
    }
  }

  /** The observations of s whose timestamp is k, in their order in s. */
  function WithTimestamp(s: seq<Observation>, k: I32): (r: seq<Observation>)
    ensures |r| <= |s|
  {
    if s == [] then
      []
    else
      WithTimestamp(s[..|s| - 1], k) + (if s[|s| - 1].timestamp == k then [s[|s| - 1]] else [])
  }

  /** Inserting into an ordered series keeps it ordered. */
  lemma {:induction false} InsertSorted(s: seq<Observation>, x: Observation)
    requires Sorted(s)
    ensures Sorted(Insert(s, x))
  {
    if s == [] || s[|s| - 1].timestamp <= x.timestamp {
    } else {
      var init, last := s[..|s| - 1], s[|s| - 1];
      InsertSorted(init, x);
      InsertPermutes(init, x);
      var t := Insert(init, x);
      forall i | 0 <= i < |t|
        ensures t[i].timestamp <= last.timestamp
      {
        assert t[i] in multiset(t);
        if t[i] != x {
          assert t[i] in init;
        }
      }
    }
  }

  /** The sort's output is ordered by timestamp. */
  lemma {:induction false} SortByTimestampSorted(s: seq<Observation>)
    ensures Sorted(SortByTimestamp(s))
  {
    if s != [] {
      SortByTimestampSorted(s[..|s| - 1]);
      InsertSorted(SortByTimestamp(s[..|s| - 1]), s[|s| - 1]);
    }
  }

  /** Only observations of s with timestamp k are in its k-run. */
  lemma {:induction false} WithTimestampMember(s: seq<Observation>, k: I32, x: Observation)
    requires x in WithTimestamp(s, k)
    ensures x in s && x.timestamp == k
  {
    if s != [] {
      var init, last := s[..|s| - 1], s[|s| - 1];
      if x in WithTimestamp(init, k) {
        WithTimestampMember(init, k, x);
        assert x in init;
      }
    }
  }

  /** Appending one observation extends only the run of its own timestamp. */
  lemma WithTimestampAppend(s: seq<Observation>, e: Observation, k: I32)
    ensures WithTimestamp(s + [e], k) == WithTimestamp(s, k) + (if e.timestamp == k then [e] else [])
  {
    assert (s + [e])[..|s|] == s;
  }

  /** Insert adds x at the end of the run of its timestamp and changes no
      other run. */
  lemma {:induction false} InsertWithTimestamp(s: seq<Observation>, x: Observation, k: I32)
    ensures WithTimestamp(Insert(s, x), k) == WithTimestamp(s, k) + (if x.timestamp == k then [x] else [])
  {
    if s == [] || s[|s| - 1].timestamp <= x.timestamp {
      WithTimestampAppend(s, x, k);
    } else {
      var init, last := s[..|s| - 1], s[|s| - 1];
      InsertWithTimestamp(init, x, k);
      WithTimestampAppend(Insert(init, x), last, k);
      WithTimestampAppend(init, last, k);
      assert s == init + [last];
    }
  }

  /** Stability: for every timestamp, the observations carrying it appear in
      the sorted output in exactly their input order. */
  lemma {:induction false} SortByTimestampStable(s: seq<Observation>, k: I32)
    ensures WithTimestamp(SortByTimestamp(s), k) == WithTimestamp(s, k)
  {
    if s != [] {
      var init, last := s[..|s| - 1], s[|s| - 1];
      SortByTimestampStable(init, k);
      InsertWithTimestamp(SortByTimestamp(init), last, k);
    }
  }

  /** A nonempty series has a nonempty run for its last timestamp. */
  lemma LastRunNonEmpty(s: seq<Observation>)
    requires s != []
    ensures WithTimestamp(s, s[|s| - 1].timestamp) != []
  {
    SplitLast(s);
    WithTimestampAppend(s[..|s| - 1], s[|s| - 1], s[|s| - 1].timestamp);
  }

  /** Two ordered series with the same runs end in the same timestamp. */
  lemma SameRunsSameLastTimestamp(a: seq<Observation>, x: Observation, b: seq<Observation>, y: Observation)
    requires Sorted(a + [x]) && Sorted(b + [y])
    requires forall k :: WithTimestamp(a + [x], k) == WithTimestamp(b + [y], k)
    ensures x.timestamp == y.timestamp
  {
    WithTimestampAppend(b, y, y.timestamp);
    assert y in WithTimestamp(a + [x], y.timestamp);
    WithTimestampMember(a + [x], y.timestamp, y);
    assert (a + [x])[|a|] == x;
    WithTimestampAppend(a, x, x.timestamp);
    assert x in WithTimestamp(b + [y], x.timestamp);
    WithTimestampMember(b + [y], x.timestamp, x);
    assert (b + [y])[|b|] == y;
  }

  /** Two series with the same runs whose last observations share a
      timestamp end in the same observation and agree on the rest. */
  lemma SameRunsSameLast(a: seq<Observation>, x: Observation, b: seq<Observation>, y: Observation)
    requires x.timestamp == y.timestamp
    requires forall k :: WithTimestamp(a + [x], k) == WithTimestamp(b + [y], k)
    ensures x == y
    ensures forall k :: WithTimestamp(a, k) == WithTimestamp(b, k)
  {
    var K := x.timestamp;
    WithTimestampAppend(a, x, K);
    WithTimestampAppend(b, y, K);
    var ra, rb := WithTimestamp(a, K), WithTimestamp(b, K);
    assert ra + [x] == rb + [y];
    assert (ra + [x])[|ra|] == x && (rb + [y])[|rb|] == y;
    assert (ra + [x])[..|ra|] == ra && (rb + [y])[..|rb|] == rb;
    assert |ra| == |rb| && ra == rb;
    forall k
      ensures WithTimestamp(a, k) == WithTimestamp(b, k)
    {
      if k != K {
        WithTimestampAppend(a, x, k);
        WithTimestampAppend(b, y, k);
        assert WithTimestamp(a, k) + [] == WithTimestamp(b, k) + [];
        assert WithTimestamp(a, k) + [] == WithTimestamp(a, k);
        assert WithTimestamp(b, k) + [] == WithTimestamp(b, k);
      } else {
        assert WithTimestamp(a, k) == ra == rb == WithTimestamp(b, k);
      }
    }
  }

  /** Two ordered series that agree on the run of every timestamp are equal. */
  lemma {:induction false} SameRunsSameSeries(a: seq<Observation>, b: seq<Observation>)
    requires Sorted(a) && Sorted(b)
    requires forall k :: WithTimestamp(a, k) == WithTimestamp(b, k)
    ensures a == b
    decreases |a|
  {
    if a == [] {
      if b != [] {
        LastRunNonEmpty(b);
        assert false;
      }
    } else if b == [] {
      LastRunNonEmpty(a);
      assert false;
    } else {
      SplitLast(a);
      SplitLast(b);
      SameRunsSameLastTimestamp(a[..|a| - 1], a[|a| - 1], b[..|b| - 1], b[|b| - 1]);
      SameRunsSameLast(a[..|a| - 1], a[|a| - 1], b[..|b| - 1], b[|b| - 1]);
      SortedInit(a);
      SortedInit(b);
      SameRunsSameSeries(a[..|a| - 1], b[..|b| - 1]);
    }
  }

  /** Every stable sort by timestamp yields the same sequence as SortByTimestamp:
      an ordered series that keeps the input order within each timestamp is
      the insertion sort's result. */
  lemma StableSortIsUnique(s: seq<Observation>, t: seq<Observation>)
    requires Sorted(t)
    requires forall k :: WithTimestamp(t, k) == WithTimestamp(s, k)
    ensures t == SortByTimestamp(s)
  {
    SortByTimestampSorted(s);
    forall k
      ensures WithTimestamp(t, k) == WithTimestamp(SortByTimestamp(s), k)
    {
      SortByTimestampStable(s, k);
    }
    SameRunsSameSeries(t, SortByTimestamp(s));
  }

  /** An already ordered series is left as it is. */
  lemma {:induction false} SortedUnchanged(s: seq<Observation>)
    requires Sorted(s)
    ensures SortByTimestamp(s) == s
  {
    if s != [] {
      SortedUnchanged(s[..|s| - 1]);
      assert s == s[..|s| - 1] + [s[|s| - 1]];
    }
  }

  /** Inserting an observation with a new timestamp into a strictly ordered
      series keeps it strictly ordered. */
  lemma {:induction false} InsertStrictlySorted(s: seq<Observation>, x: Observation)
    requires StrictlySorted(s)
    requires forall i :: 0 <= i < |s| ==> s[i].timestamp != x.timestamp
    ensures StrictlySorted(Insert(s, x))
  {
    if s == [] || s[|s| - 1].timestamp <= x.timestamp {
    } else {
      var init, last := s[..|s| - 1], s[|s| - 1];
      InsertStrictlySorted(init, x);
      InsertPermutes(init, x);
      var t := Insert(init, x);
      forall i | 0 <= i < |t|
        ensures t[i].timestamp < last.timestamp
      {
        assert t[i] in multiset(t);
        if t[i] != x {
          assert t[i] in init;
        }
      }
    }
  }

  /** Sorting a series without repeated timestamps orders it strictly. */
  lemma {:induction false} SortByTimestampStrict(s: seq<Observation>)
    requires DistinctTimestamps(s)
    ensures StrictlySorted(SortByTimestamp(s))
  {
    if s != [] {
      var init, last := s[..|s| - 1], s[|s| - 1];
      SortByTimestampStrict(init);
      SortByTimestampPermutes(init);
      var t := SortByTimestamp(init);
      forall i | 0 <= i < |t|
        ensures t[i].timestamp != last.timestamp
      {
        assert t[i] in multiset(init);
      }
      InsertStrictlySorted(t, last);
    }
  }

  /** Splitting off the last observation splits the multiset the same way. */
  lemma SplitLast(s: seq<Observation>)
    requires s != []
    ensures s == s[..|s| - 1] + [s[|s| - 1]]
    ensures multiset(s[..|s| - 1]) == multiset(s) - multiset{s[|s| - 1]}
  {
    assert s == s[..|s| - 1] + [s[|s| - 1]];
  }

  /** Dropping the last observation keeps a series (strictly) ordered. */
  lemma SortedInit(s: seq<Observation>)
    requires s != []
    ensures Sorted(s) ==> Sorted(s[..|s| - 1])
    ensures StrictlySorted(s) ==> StrictlySorted(s[..|s| - 1])
  {
  }

  /** A strictly ordered series is the only ordering of its elements. */
  lemma {:induction false} StrictOrderUnique(a: seq<Observation>, b: seq<Observation>)
    requires StrictlySorted(a) && Sorted(b)
    requires multiset(a) == multiset(b)
    ensures a == b
  {
    assert |a| == |multiset(a)| == |multiset(b)| == |b|;
    if a != [] {
      var n := |a| - 1;
      var x, y := a[n], b[n];
      assert y in multiset(a);
      var i :| 0 <= i <= n && a[i] == y;
      assert x in multiset(b);
      var j :| 0 <= j <= n && b[j] == x;
      assert x.timestamp <= y.timestamp;
      assert i == n;
      SplitLast(a);
      SplitLast(b);
      SortedInit(a);
      SortedInit(b);
      StrictOrderUnique(a[..n], b[..n]);
    }
  }

  /** When no two observations share a timestamp, the input order does not
      matter: every permutation sorts to the same series. */
  lemma PermutationSortsAlike(s1: seq<Observation>, s2: seq<Observation>)
    requires DistinctTimestamps(s1)
    requires multiset(s1) == multiset(s2)
    ensures SortByTimestamp(s1) == SortByTimestamp(s2)
  {
    SortByTimestampStrict(s1);
    SortByTimestampSorted(s2);
    SortByTimestampPermutes(s1);
    SortByTimestampPermutes(s2);
    StrictOrderUnique(SortByTimestamp(s1), SortByTimestamp(s2));
  }

  /** Inserting behind an observation with a larger timestamp moves past it. */
  lemma InsertPastLarger(p: seq<Observation>, e: Observation, x: Observation)
    requires x.timestamp < e.timestamp
    ensures Insert(p + [e], x) == Insert(p, x) + [e]
  {
    assert (p + [e])[..|p|] == p;
  }

  /** A series is its prefix, the element at j and its suffix. */
  lemma SplitAt(s: seq<Observation>, j: nat)
    requires j < |s|
    ensures s == s[..j] + [s[j]] + s[j + 1..]
  {
  }

  /** One swap of the insertion step keeps the pending insertion unchanged. */
  lemma SwapKeepsInsertion(before: seq<Observation>, after: seq<Observation>, prefix: seq<Observation>,
                           x: Observation, i: nat, j: nat)
    requires 0 < j <= i < |before|
    requires before[j] == x && x.timestamp < before[j - 1].timestamp
    requires after == before[j - 1 := x][j := before[j - 1]]
    requires Insert(prefix, x) == Insert(before[..j], x) + before[j + 1..i + 1]
    ensures after[j - 1] == x && after[i + 1..] == before[i + 1..]
    ensures Insert(prefix, x) == Insert(after[..j - 1], x) + after[j..i + 1]
  {
    assert before[..j] == before[..j - 1] + [before[j - 1]];
    InsertPastLarger(before[..j - 1], before[j - 1], x);
    assert after[..j - 1] == before[..j - 1];
    assert after[j..i + 1] == [before[j - 1]] + before[j + 1..i + 1];
  }

  /** Once no larger timestamp precedes x, the insertion is complete. */
  lemma InsertionDone(s: seq<Observation>, prefix: seq<Observation>, x: Observation, i: nat, j: nat)
    requires j <= i < |s| && s[j] == x
    requires j == 0 || s[j - 1].timestamp <= x.timestamp
    requires Insert(prefix, x) == Insert(s[..j], x) + s[j + 1..i + 1]
    ensures s[..i + 1] == Insert(prefix, x)
  {
    assert Insert(s[..j], x) == s[..j] + [x];
    SplitAt(s[..i + 1], j);
    assert s[..i + 1][..j] == s[..j] && s[..i + 1][j + 1..] == s[j + 1..i + 1];
  }

  /** Moves a[i] left past every larger timestamp directly before it, which
      inserts it into the prefix a[..i]; the elements after i stay put. */
  method InsertInPlace(a: array<Observation>, i: nat)
    requires i < a.Length
    modifies a
    ensures a[..i + 1] == Insert(old(a[..i]), old(a[i]))
    ensures a[i + 1..] == old(a[i + 1..])
  {
    ghost var prefix := a[..i];
    ghost var x := a[i];
    var j := i;
    assert a[..i + 1] == prefix + [x];
    while j > 0 && a[j - 1].timestamp > a[j].timestamp
      invariant 0 <= j <= i
      invariant a[j] == x
      invariant a[i + 1..] == old(a[i + 1..])
      invariant Insert(prefix, x) == Insert(a[..j], x) + a[j + 1..i + 1]
    {
      ghost var before := a[..];
      a[j - 1], a[j] := a[j], a[j - 1];
      SwapKeepsInsertion(before, a[..], prefix, x, i, j);
      j := j - 1;
    }
    InsertionDone(a[..], prefix, x, i, j);
  }

  /** Sorting one more prefix element inserts it into the sorted prefix. */
  lemma SortPrefixStep(s: seq<Observation>, i: nat)
    requires i < |s|
    ensures SortByTimestamp(s[..i + 1]) == Insert(SortByTimestamp(s[..i]), s[i])
  {
    assert s[..i + 1][..i] == s[..i];
  }

  /** Sorts a in place by ascending timestamp; equal timestamps keep their
      relative order because an observation never moves past an equal one. */
  method SortInPlace(a: array<Observation>)
    modifies a
    ensures a[..] == SortByTimestamp(old(a[..]))
  {
    ghost var input := a[..];
    var i := 0;
    while i < a.Length
      invariant 0 <= i <= a.Length
      invariant a[..i] == SortByTimestamp(input[..i])
      invariant a[i..] == input[i..]
    {
      assert a[i] == a[i..][0] == input[i];
      assert a[i + 1..] == a[i..][1..] && input[i + 1..] == input[i..][1..];
      InsertInPlace(a, i);
      SortPrefixStep(input, i);
      i := i + 1;
    }
    assert a[..] == a[..a.Length] && input == input[..a.Length];
  }
}
