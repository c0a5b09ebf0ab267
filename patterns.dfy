/** Temporal pattern analysis: transactions grouped into (day, hour)
    buckets, one pattern per populated bucket, most frequent first. */
module Patterns {
  import opened Types
  import Sorting

  datatype Bucket = Bucket(day: Weekday, hour: Hour)

  function BucketOf(t: Transaction): Bucket {
    Bucket(t.day, t.hour)
  }

  function PatternBucket(p: TimePattern): Bucket {
    Bucket(p.dayOfWeek, p.timeOfDay)
  }

  /** Number of transactions of `ts` that fall in bucket `b`. */
  function Count(ts: seq<Transaction>, b: Bucket): (n: nat)
    ensures n <= |ts|
  {
    if ts == [] then 0
    else Count(ts[..|ts| - 1], b) + (if BucketOf(ts[|ts| - 1]) == b then 1 else 0)
  }

  /** Sum of the absolute amounts of the transactions of `ts` in bucket `b`. */
  function AbsTotal(ts: seq<Transaction>, b: Bucket): (s: real)
    ensures s >= 0.0
    ensures Count(ts, b) == 0 ==> s == 0.0
  {
    if ts == [] then 0.0
    else AbsTotal(ts[..|ts| - 1], b) + (if BucketOf(ts[|ts| - 1]) == b then Abs(ts[|ts| - 1].amount) else 0.0)
  }

  /** The pattern that bucket `b` of `ts` yields. */
  function PatternFor(ts: seq<Transaction>, b: Bucket): TimePattern
    requires Count(ts, b) > 0
  {
    TimePattern(b.hour, b.day, Count(ts, b), AbsTotal(ts, b) / Count(ts, b) as real)
  }

  /** The sort order: higher frequency first, then higher average spend. */
  function ComesBefore(p: TimePattern, q: TimePattern): bool {
    if p.frequency == q.frequency then p.averageSpend > q.averageSpend
    else p.frequency > q.frequency
  }

  lemma ComesBeforeIsStrictWeakOrder()
    ensures Sorting.StrictWeakOrder(ComesBefore)
  {
  }

  /** Some pattern of `r` is for bucket `b`. */
  ghost predicate Emits(r: seq<TimePattern>, b: Bucket) {
    exists j :: 0 <= j < |r| && PatternBucket(r[j]) == b
  }

  /** No two patterns of `r` are for the same bucket. */
  ghost predicate DistinctBuckets(r: seq<TimePattern>) {
    forall j, k :: 0 <= j < k < |r| ==> PatternBucket(r[j]) != PatternBucket(r[k])
  }

  /** Frequency non-increasing, and average spend non-increasing among equal frequencies. */
  ghost predicate MostFrequentFirst(r: seq<TimePattern>) {
    forall j, k :: 0 <= j < k < |r| ==>
      r[j].frequency >= r[k].frequency &&
      (r[j].frequency == r[k].frequency ==> r[j].averageSpend >= r[k].averageSpend)
  }

  /** `r` is the analysis of `ts`: exactly one pattern per populated bucket,
      carrying that bucket's count and mean absolute amount, ordered by
      frequency and then by average spend. */
  ghost predicate IsTimePatterns(ts: seq<Transaction>, r: seq<TimePattern>) {
    && BucketPatterns(ts, r)
    && DistinctBuckets(r)
    && (forall i :: 0 <= i < |ts| ==> Emits(r, BucketOf(ts[i])))
    && MostFrequentFirst(r)
  }

  /** Running sum and count of one bucket. */
  datatype Stats = Stats(totalAmount: real, count: int)

  /** The day -> hour -> stats table the analysis accumulates. */
  type Table = map<Weekday, map<Hour, Stats>>

  predicate InTable(table: Table, d: Weekday, h: Hour) {
    d in table && h in table[d]
  }

  /** Every bucket in the table has been counted at least once. */
  predicate Populated(table: Table) {
    forall d, h :: InTable(table, d, h) ==> table[d][h].count > 0
  }

  /** `p` is the pattern the table entry for its bucket yields. */
  predicate FromTable(table: Table, p: TimePattern)
    requires Populated(table)
  {
    && InTable(table, p.dayOfWeek, p.timeOfDay)
    && var stats := table[p.dayOfWeek][p.timeOfDay];
       p == TimePattern(p.timeOfDay, p.dayOfWeek, stats.count, stats.totalAmount / stats.count as real)
  }

  /** The accumulation pass: the table holds, for every populated bucket of
      `ts` and no other, that bucket's absolute total and count. */
  method Accumulate(ts: seq<Transaction>) returns (table: Table)
    ensures Summarises(table, ts)
  {
    table := map[];
    for i := 0 to |ts|
      invariant Summarises(table, ts[..i])
    {
      var t := ts[i];
      var day, hour := t.day, t.hour;
      if day !in table {
        table := table[day := map[]];
      }
      // a missing hour reads as the zero value, as a Go map lookup does
      var stats := if hour in table[day] then table[day][hour] else Stats(0.0, 0);
      stats := Stats(stats.totalAmount + Abs(t.amount), stats.count + 1);
      ghost var prev := table;
      table := table[day := table[day][hour := stats]];
      RecordStep(ts, i, prev, table);
    }
    assert ts[..|ts|] == ts;
  }

  /** `table` holds, for every populated bucket of `s` and no other, that
      bucket's absolute total and count. */
  ghost predicate Summarises(table: Table, s: seq<Transaction>) {
    && (forall d, h :: InTable(table, d, h) <==> Count(s, Bucket(d, h)) > 0)
    && (forall d, h :: InTable(table, d, h) ==>
          table[d][h] == Stats(AbsTotal(s, Bucket(d, h)), Count(s, Bucket(d, h))))
  }

  /** One step of the accumulation pass keeps the table's meaning. */
  lemma {:induction false} RecordStep(ts: seq<Transaction>, i: int, prev: Table, table: Table)
    requires 0 <= i < |ts| && ts[i].day in prev
    requires Summarises(prev, ts[..i])
    requires var day, hour := ts[i].day, ts[i].hour;
             var stats := if hour in prev[day] then prev[day][hour] else Stats(0.0, 0);
             table == prev[day := prev[day][hour := Stats(stats.totalAmount + Abs(ts[i].amount), stats.count + 1)]]
    ensures Summarises(table, ts[..i + 1])
  {
    var s := ts[..i + 1];
    assert s[..i] == ts[..i] && s[i] == ts[i];
    var b := BucketOf(ts[i]);
    forall d, h
      ensures InTable(table, d, h) <==> Count(s, Bucket(d, h)) > 0
      ensures InTable(table, d, h) ==> table[d][h] == Stats(AbsTotal(s, Bucket(d, h)), Count(s, Bucket(d, h)))
    {
      assert Count(s, Bucket(d, h)) == Count(ts[..i], Bucket(d, h)) + (if b == Bucket(d, h) then 1 else 0);
      assert AbsTotal(s, Bucket(d, h)) == AbsTotal(ts[..i], Bucket(d, h)) + (if b == Bucket(d, h) then Abs(ts[i].amount) else 0.0);
      if b != Bucket(d, h) {
        assert InTable(table, d, h) <==> InTable(prev, d, h);
      }
    }
  }

  /** The materialisation pass: one pattern per table entry, in the table's
      (unspecified) iteration order. */
  method Materialize(table: Table) returns (result: seq<TimePattern>)
    requires Populated(table)
    ensures forall j :: 0 <= j < |result| ==> FromTable(table, result[j])
    ensures DistinctBuckets(result)
    ensures forall d, h :: InTable(table, d, h) ==> Emits(result, Bucket(d, h))
  {
    result := [];
    var days := table.Keys;
    while days != {}
      invariant days <= table.Keys
      invariant forall j :: 0 <= j < |result| ==> FromTable(table, result[j]) && result[j].dayOfWeek !in days
      invariant DistinctBuckets(result)
      invariant forall d, h :: InTable(table, d, h) && d !in days ==> Emits(result, Bucket(d, h))
      decreases days
    {
      var day :| day in days;
      ghost var done := result;
      result := MaterializeDay(table, day, result);
      forall d, h | InTable(table, d, h) && d !in days - {day}
        ensures Emits(result, Bucket(d, h))
      {
        if d != day {
          var j :| 0 <= j < |done| && PatternBucket(done[j]) == Bucket(d, h);
          assert result[j] == done[j];
        }
      }
      days := days - {day};
    }
  }

  /** The inner loop of the materialisation pass: appends one pattern per
      hour recorded for `day`. */
  method MaterializeDay(table: Table, day: Weekday, done: seq<TimePattern>) returns (result: seq<TimePattern>)
    requires Populated(table) && day in table
    requires forall j :: 0 <= j < |done| ==> FromTable(table, done[j]) && done[j].dayOfWeek != day
    requires DistinctBuckets(done)
    ensures |done| <= |result| && forall j :: 0 <= j < |done| ==> result[j] == done[j]
    ensures forall j :: |done| <= j < |result| ==> FromTable(table, result[j]) && result[j].dayOfWeek == day
    ensures DistinctBuckets(result)
    ensures forall h :: h in table[day] ==> Emits(result, Bucket(day, h))
  {
    result := done;
    var hours := table[day].Keys;
    while hours != {}
      invariant hours <= table[day].Keys
      invariant |done| <= |result| && forall j :: 0 <= j < |done| ==> result[j] == done[j]
      invariant forall j :: |done| <= j < |result| ==>
                  FromTable(table, result[j]) && result[j].dayOfWeek == day && result[j].timeOfDay !in hours
      invariant DistinctBuckets(result)
      invariant forall h :: h in table[day] && h !in hours ==> Emits(result, Bucket(day, h))
      decreases hours
    {
      var hour :| hour in hours;
      var stats := table[day][hour];
      ghost var before := result;
      result := result + [TimePattern(hour, day, stats.count, stats.totalAmount / stats.count as real)];
      forall h | h in table[day] && h !in hours - {hour}
        ensures Emits(result, Bucket(day, h))
      {
        if h != hour {
          var j :| 0 <= j < |before| && PatternBucket(before[j]) == Bucket(day, h);
          assert result[j] == before[j];
        } else {
          assert PatternBucket(result[|before|]) == Bucket(day, h);
        }
      }
      hours := hours - {hour};
    }
  }

  /** AnalyzeTimePatterns: fetch, accumulate, materialise, sort. A failed
      fetch aborts with the wrapped error. */
  method AnalyzeTimePatterns(fetched: Result<seq<Transaction>>) returns (r: Result<seq<TimePattern>>)
    ensures fetched.Failure? ==> r == Failure(Wrapped(FetchTransactions, fetched.error))
    ensures fetched.Success? ==> r.Success? && IsTimePatterns(fetched.value, r.value)
  {
    if fetched.Failure? {
      return Failure(Wrapped(FetchTransactions, fetched.error));
    }
    var ts := fetched.value;
    var table := Accumulate(ts);
    var result := Materialize(table);
    var a := new TimePattern[|result|](j requires 0 <= j < |result| => result[j]);
    assert a[..] == result;
    ComesBeforeIsStrictWeakOrder();
    Sorting.SortBy(a, ComesBefore);
    var sorted := a[..];
    assert BucketPatterns(ts, result) by {
      forall j | 0 <= j < |result|
        ensures Count(ts, PatternBucket(result[j])) > 0 && result[j] == PatternFor(ts, PatternBucket(result[j]))
      {
        assert FromTable(table, result[j]);
      }
    }
    forall i | 0 <= i < |ts|
      ensures Emits(result, BucketOf(ts[i]))
    {
      assert InTable(table, ts[i].day, ts[i].hour) by {
        CountOfOwnBucket(ts, i);
      }
    }
    SortedKeepsPatterns(ts, result, sorted);
    return Success(sorted);
  }

  lemma {:induction false} CountOfOwnBucket(ts: seq<Transaction>, i: int)
    requires 0 <= i < |ts|
    ensures Count(ts, BucketOf(ts[i])) > 0
  {
    var n := |ts| - 1;
    if i < n {
      assert ts[..n][i] == ts[i];
      CountOfOwnBucket(ts[..n], i);
    }
  }

  /** Every pattern `r` holds is the pattern of its own populated bucket. */
  ghost predicate BucketPatterns(ts: seq<Transaction>, r: seq<TimePattern>) {
    forall j :: 0 <= j < |r| ==>
      Count(ts, PatternBucket(r[j])) > 0 && r[j] == PatternFor(ts, PatternBucket(r[j]))
  }

  /** Carries the content properties of the unsorted patterns over to any
      ordered permutation of them. */
  lemma {:induction false} SortedKeepsPatterns(ts: seq<Transaction>, result: seq<TimePattern>, sorted: seq<TimePattern>)
    requires BucketPatterns(ts, result)
    requires DistinctBuckets(result)
    requires forall i :: 0 <= i < |ts| ==> Emits(result, BucketOf(ts[i]))
    requires multiset(result) == multiset(sorted)
    requires Sorting.Ordered(sorted, ComesBefore)
    ensures IsTimePatterns(ts, sorted)
  {
    SortedKeepsBucketPatterns(ts, result, sorted);
    SortedKeepsDistinct(ts, result, sorted);
    SortedKeepsEmits(ts, result, sorted);
    SortedIsMostFrequentFirst(sorted);
  }

  lemma {:induction false} SortedKeepsBucketPatterns(ts: seq<Transaction>, result: seq<TimePattern>, sorted: seq<TimePattern>)
    requires BucketPatterns(ts, result)
    requires multiset(result) == multiset(sorted)
    ensures BucketPatterns(ts, sorted)
  {
    Sorting.SameElements(result, sorted);
    forall k | 0 <= k < |sorted|
      ensures Count(ts, PatternBucket(sorted[k])) > 0 && sorted[k] == PatternFor(ts, PatternBucket(sorted[k]))
    {
      assert sorted[k] in result;
      var j :| 0 <= j < |result| && result[j] == sorted[k];
    }
  }

  lemma {:induction false} SortedKeepsEmits(ts: seq<Transaction>, result: seq<TimePattern>, sorted: seq<TimePattern>)
    requires forall i :: 0 <= i < |ts| ==> Emits(result, BucketOf(ts[i]))
    requires multiset(result) == multiset(sorted)
    ensures forall i :: 0 <= i < |ts| ==> Emits(sorted, BucketOf(ts[i]))
  {
    Sorting.SameElements(result, sorted);
    forall i | 0 <= i < |ts|
      ensures Emits(sorted, BucketOf(ts[i]))
    {
      assert Emits(result, BucketOf(ts[i]));
      var j :| 0 <= j < |result| && PatternBucket(result[j]) == BucketOf(ts[i]);
      assert result[j] in sorted;
      var k :| 0 <= k < |sorted| && sorted[k] == result[j];
    }
  }

  lemma {:induction false} SortedKeepsDistinct(ts: seq<Transaction>, result: seq<TimePattern>, sorted: seq<TimePattern>)
    requires BucketPatterns(ts, sorted)
    requires DistinctBuckets(result)
    requires multiset(result) == multiset(sorted)
    ensures DistinctBuckets(sorted)
  {
    assert Sorting.NoDuplicates(result) by {
      forall j, k | 0 <= j < k < |result| ensures result[j] != result[k] {
        assert PatternBucket(result[j]) != PatternBucket(result[k]);
      }
    }
    Sorting.PermutationKeepsNoDuplicates(result, sorted);
    forall j, k | 0 <= j < k < |sorted|
      ensures PatternBucket(sorted[j]) != PatternBucket(sorted[k])
    {
      assert sorted[j] != sorted[k];
    }
  }

  lemma {:induction false} SortedIsMostFrequentFirst(sorted: seq<TimePattern>)
    requires Sorting.Ordered(sorted, ComesBefore)
    ensures MostFrequentFirst(sorted)
  {
    forall j, k | 0 <= j < k < |sorted|
      ensures sorted[j].frequency >= sorted[k].frequency
      ensures sorted[j].frequency == sorted[k].frequency ==> sorted[j].averageSpend >= sorted[k].averageSpend
    {
      assert !ComesBefore(sorted[k], sorted[j]);
    }
  }

  // Properties of the analysis

  function SumFrequencies(r: seq<TimePattern>): int {
    if r == [] then 0 else SumFrequencies(r[..|r| - 1]) + r[|r| - 1].frequency
  }

  /** Every transaction is counted in exactly one pattern: the frequencies
      add up to the number of transactions analysed. */
  lemma {:induction false} FrequenciesSumToCount(ts: seq<Transaction>, r: seq<TimePattern>)
    requires IsTimePatterns(ts, r)
    ensures SumFrequencies(r) == |ts|
  {
    FrequenciesAreCounts(ts, r);
    Partition(ts, r);
  }

  /** Each pattern has a positive frequency and a non-negative average
      spend, and there are patterns exactly when there are transactions. */
  lemma {:induction false} PatternBasics(ts: seq<Transaction>, r: seq<TimePattern>)
    requires IsTimePatterns(ts, r)
    ensures forall j :: 0 <= j < |r| ==> r[j].frequency >= 1 && r[j].averageSpend >= 0.0
    ensures r == [] <==> ts == []
  {
    if ts != [] {
      assert Emits(r, BucketOf(ts[0]));
    }
    if r != [] {
      assert Count(ts, PatternBucket(r[0])) > 0;
    }
  }

  /** Sum over the patterns of `r` of the count of their bucket in `ts`. */
  function SumCounts(ts: seq<Transaction>, r: seq<TimePattern>): int {
    if r == [] then 0 else SumCounts(ts, r[..|r| - 1]) + Count(ts, PatternBucket(r[|r| - 1]))
  }

  /** How many patterns of `r` are for bucket `b`. */
  function Hits(r: seq<TimePattern>, b: Bucket): int {
    if r == [] then 0 else Hits(r[..|r| - 1], b) + (if PatternBucket(r[|r| - 1]) == b then 1 else 0)
  }

  lemma {:induction false} FrequenciesAreCounts(ts: seq<Transaction>, r: seq<TimePattern>)
    requires BucketPatterns(ts, r)
    ensures SumFrequencies(r) == SumCounts(ts, r)
  {
    if r != [] {
      var n := |r| - 1;
      assert BucketPatterns(ts, r[..n]) by {
        forall j | 0 <= j < n ensures r[..n][j] == r[j] { }
      }
      FrequenciesAreCounts(ts, r[..n]);
    }
  }

  lemma {:induction false} SumCountsLast(ts: seq<Transaction>, r: seq<TimePattern>)
    requires ts != []
    ensures SumCounts(ts, r) == SumCounts(ts[..|ts| - 1], r) + Hits(r, BucketOf(ts[|ts| - 1]))
  {
    if r != [] {
      SumCountsLast(ts, r[..|r| - 1]);
    }
  }

  lemma {:induction false} HitsOnce(r: seq<TimePattern>, b: Bucket)
    requires DistinctBuckets(r) && Emits(r, b)
    ensures Hits(r, b) == 1
  {
    var n := |r| - 1;
    assert DistinctBuckets(r[..n]) by {
      forall j, k | 0 <= j < k < n
        ensures PatternBucket(r[..n][j]) != PatternBucket(r[..n][k])
      {
        assert r[..n][j] == r[j] && r[..n][k] == r[k];
      }
    }
    if PatternBucket(r[n]) == b {
      HitsNone(r[..n], b);
    } else {
      var j :| 0 <= j < |r| && PatternBucket(r[j]) == b;
      assert r[..n][j] == r[j];
      HitsOnce(r[..n], b);
    }
  }

  lemma {:induction false} HitsNone(r: seq<TimePattern>, b: Bucket)
    requires !Emits(r, b)
    ensures Hits(r, b) == 0
  {
    if r != [] {
      var n := |r| - 1;
      assert forall j :: 0 <= j < n ==> r[..n][j] == r[j];
      HitsNone(r[..n], b);
    }
  }

  lemma {:induction false} Partition(ts: seq<Transaction>, r: seq<TimePattern>)
    requires DistinctBuckets(r)
    requires forall i :: 0 <= i < |ts| ==> Emits(r, BucketOf(ts[i]))
    ensures SumCounts(ts, r) == |ts|
  {
    if ts == [] {
      SumCountsEmpty(r);
    } else {
      var n := |ts| - 1;
      SumCountsLast(ts, r);
      assert Emits(r, BucketOf(ts[n]));
      HitsOnce(r, BucketOf(ts[n]));
      assert forall i :: 0 <= i < n ==> ts[..n][i] == ts[i];
      Partition(ts[..n], r);
    }
  }

  lemma {:induction false} SumCountsEmpty(r: seq<TimePattern>)
    ensures SumCounts([], r) == 0
  {
    if r != [] {
      SumCountsEmpty(r[..|r| - 1]);
    }
  }
}
