/** Spend prediction: for every category with enough history, a likelihood
    score from its frequency and mean amount, and a next date one average
    interval after its latest transaction; most likely first. */
module Prediction {
  import opened Types
  import Sorting

  /** Categories with fewer transactions than this get no prediction. */
  const MinTransactions := 3
  /** The lookback window, in days, that normalises the frequency. */
  const LookbackDays := 180.0
  /** Days per normalisation period of the frequency score. */
  const FrequencyWindow := 30.0
  /** Mean amount at which the amount score saturates. */
  const AmountReference := 1000.0
  /** A likelihood above this carries a warning. */
  const WarningThreshold := 0.7

  /** The transactions of `ts` in category `c`, in input order. */
  function InCategory(ts: seq<Transaction>, c: string): (r: seq<Transaction>)
    ensures |r| <= |ts|
    ensures forall i :: 0 <= i < |r| ==> r[i].category == c
  {
    if ts == [] then []
    else InCategory(ts[..|ts| - 1], c) + (if ts[|ts| - 1].category == c then [ts[|ts| - 1]] else [])
  }

  /** Sum of the absolute amounts of `ts`. */
  function SumAbs(ts: seq<Transaction>): (s: real)
    ensures s >= 0.0
  {
    if ts == [] then 0.0 else SumAbs(ts[..|ts| - 1]) + Abs(ts[|ts| - 1].amount)
  }

  /** The earliest date among `ts`. */
  function Earliest(ts: seq<Transaction>): (d: int)
    requires ts != []
    ensures forall i :: 0 <= i < |ts| ==> d <= ts[i].date
    ensures exists i :: 0 <= i < |ts| && ts[i].date == d
  {
    var n := |ts| - 1;
    if n == 0 then ts[0].date
    else
      var rest := Earliest(ts[..n]);
      assert forall i :: 0 <= i < n ==> ts[..n][i] == ts[i];
      if rest <= ts[n].date then rest else ts[n].date
  }

  /** The latest date among `ts`. */
  function Latest(ts: seq<Transaction>): (d: int)
    requires ts != []
    ensures forall i :: 0 <= i < |ts| ==> ts[i].date <= d
    ensures exists i :: 0 <= i < |ts| && ts[i].date == d
  {
    var n := |ts| - 1;
    if n == 0 then ts[0].date
    else
      var rest := Latest(ts[..n]);
      assert forall i :: 0 <= i < n ==> ts[..n][i] == ts[i];
      if rest >= ts[n].date then rest else ts[n].date
  }

  /** Quotient of a non-negative `a` by `b`, rounded down. */
  function Quot(a: nat, b: int): (q: nat)
    requires b > 0
    ensures q <= a
    decreases a
  {
    if a < b then 0 else Quot(a - b, b) + 1
  }

  lemma {:induction false} QuotBounds(a: nat, b: int)
    requires b > 0
    ensures Quot(a, b) * b <= a < Quot(a, b) * b + b
    decreases a
  {
    if a >= b {
      var rest := Quot(a - b, b);
      QuotBounds(a - b, b);
      assert (rest + 1) * b == rest * b + b;
    }
  }

  /** Integer division rounding toward zero, as Go divides a time.Duration. */
  function TruncDiv(a: int, b: int): (q: int)
    requires b > 0
    ensures a >= 0 ==> 0 <= q <= a
    ensures a < 0 ==> a <= q <= 0
  {
    if a >= 0 then Quot(a, b) else -(Quot(-a, b) as int)
  }

  /** TruncDiv leaves a remainder smaller than the divisor and of the
      dividend's sign: it rounds toward zero. */
  lemma TruncDivRoundsTowardZero(a: int, b: int)
    requires b > 0
    ensures a >= 0 ==> TruncDiv(a, b) * b <= a < TruncDiv(a, b) * b + b
    ensures a < 0 ==> TruncDiv(a, b) * b - b < a <= TruncDiv(a, b) * b
  {
    if a >= 0 {
      QuotBounds(a, b);
    } else {
      QuotBounds(-a, b);
      var m: int := Quot(-a, b);
      assert (-m) * b == -(m * b);
    }
  }

  /** The likelihood score of a category's transactions: the mean of the
      saturated frequency score and the saturated amount score. */
  function Likelihood(txns: seq<Transaction>): (l: real)
    requires txns != []
    ensures 0.0 <= l <= 1.0
    ensures |txns| >= MinTransactions ==> l >= 0.25
  {
    var frequency := |txns| as real / LookbackDays;
    var avgAmount := SumAbs(txns) / |txns| as real;
    (MinReal(frequency * FrequencyWindow, 1.0) + MinReal(avgAmount / AmountReference, 1.0)) / 2.0
  }

  /** The mean gap between consecutive transactions, in nanoseconds: the
      span from earliest to latest divided among the gaps. */
  function AverageInterval(txns: seq<Transaction>): int
    requires |txns| >= 2
  {
    TruncDiv(Latest(txns) - Earliest(txns), |txns| - 1)
  }

  /** The prediction for category `c` with transactions `txns`. */
  function PredictionOf(c: string, txns: seq<Transaction>): (p: PredictedSpend)
    requires |txns| >= 2
    ensures p.category == c && p.likelihood == Likelihood(txns)
    ensures p.warning != NoWarning <==> p.likelihood > WarningThreshold
    ensures p.warning != NoWarning ==> p.warning == HighLikelihood(c, p.likelihood, p.predictedDate)
    ensures Latest(txns) <= p.predictedDate <= 2 * Latest(txns) - Earliest(txns)
  {
    assert Earliest(txns) <= txns[0].date <= Latest(txns);
    var likelihood := Likelihood(txns);
    var predictedDate := Latest(txns) + AverageInterval(txns);
    PredictedSpend(c, likelihood, predictedDate,
                   if likelihood > WarningThreshold then HighLikelihood(c, likelihood, predictedDate) else NoWarning)
  }

  /** A prediction's likelihood lies in [0.25, 1], its warning is present
      exactly when the likelihood is above the threshold, and its date is
      not before the category's latest transaction. */
  lemma PredictionFacts(c: string, txns: seq<Transaction>)
    requires |txns| >= MinTransactions
    ensures var p := PredictionOf(c, txns);
            && p.category == c
            && 0.25 <= p.likelihood <= 1.0
            && (p.warning != NoWarning <==> p.likelihood > WarningThreshold)
            && p.predictedDate >= Latest(txns)
  {
    assert Earliest(txns) <= txns[0].date <= Latest(txns);
  }

  // The interval loop

  /** Sum of the gaps between consecutive dates of `s`. */
  function SumGaps(s: seq<Transaction>): int {
    if |s| < 2 then 0 else SumGaps(s[..|s| - 1]) + (s[|s| - 1].date - s[|s| - 2].date)
  }

  ghost predicate DatesAscending(s: seq<Transaction>) {
    forall i, j :: 0 <= i < j < |s| ==> s[i].date <= s[j].date
  }

  /** The gaps telescope: their sum is the span from first to last date,
      and when the dates ascend every gap, and so the sum, is non-negative. */
  lemma {:induction false} GapsTelescope(s: seq<Transaction>)
    requires s != []
    ensures SumGaps(s) == s[|s| - 1].date - s[0].date
    ensures DatesAscending(s) ==> forall i :: 0 < i < |s| ==> s[i].date - s[i - 1].date >= 0
    ensures DatesAscending(s) ==> SumGaps(s) >= 0
  {
    if |s| >= 2 {
      var n := |s| - 1;
      assert s[..n][0] == s[0] && s[..n][n - 1] == s[n - 1];
      GapsTelescope(s[..n]);
    }
  }

  /** The sort order of a category's transactions: earlier date first. */
  function Earlier(x: Transaction, y: Transaction): bool {
    x.date < y.date
  }

  lemma EarlierIsStrictWeakOrder()
    ensures Sorting.StrictWeakOrder(Earlier)
  {
  }

  /** After sorting by date, the first and last transactions carry the
      earliest and latest dates of the category. */
  lemma {:induction false} SortedEnds(txns: seq<Transaction>, sorted: seq<Transaction>)
    requires txns != [] && multiset(txns) == multiset(sorted)
    requires Sorting.Ordered(sorted, Earlier)
    ensures |sorted| == |txns|
    ensures sorted[0].date == Earliest(txns) && sorted[|sorted| - 1].date == Latest(txns)
    ensures DatesAscending(sorted)
  {
    Sorting.SameElements(txns, sorted);
    var n := |sorted| - 1;
    forall i, j | 0 <= i < j < |sorted| ensures sorted[i].date <= sorted[j].date {
      assert !Earlier(sorted[j], sorted[i]);
    }
    assert sorted[0] in txns && sorted[n] in txns;
    var i :| 0 <= i < |txns| && txns[i].date == Earliest(txns);
    assert txns[i] in sorted;
    var k :| 0 <= k < |txns| && txns[k].date == Latest(txns);
    assert txns[k] in sorted;
  }

  lemma {:induction false} SumAbsAppend(s: seq<Transaction>, t: seq<Transaction>)
    ensures SumAbs(s + t) == SumAbs(s) + SumAbs(t)
  {
    if t == [] {
      assert s + t == s;
    } else {
      var n := |t| - 1;
      assert (s + t)[..|s + t| - 1] == s + t[..n];
      assert (s + t)[|s + t| - 1] == t[n];
      SumAbsAppend(s, t[..n]);
    }
  }

  /** The absolute total does not depend on the order of the transactions. */
  lemma {:induction false} SumAbsPermutation(s: seq<Transaction>, t: seq<Transaction>)
    requires multiset(s) == multiset(t)
    ensures SumAbs(s) == SumAbs(t)
    decreases |s|
  {
    Sorting.SameElements(s, t);
    if s != [] {
      var n := |s| - 1;
      var x := s[n];
      assert x in t;
      var k :| 0 <= k < |t| && t[k] == x;
      var rest := t[..k] + t[k + 1..];
      assert t == t[..k] + [x] + t[k + 1..];
      assert s == s[..n] + [x];
      assert multiset(t) == multiset(t[..k]) + multiset{x} + multiset(t[k + 1..]);
      assert multiset(s) == multiset(s[..n]) + multiset{x};
      assert multiset(rest) == multiset(t[..k]) + multiset(t[k + 1..]);
      assert multiset(rest) == multiset(t) - multiset{x};
      assert multiset(s[..n]) == multiset(s) - multiset{x};
      SumAbsPermutation(s[..n], rest);
      SumAbsAppend(t[..k] + [x], t[k + 1..]);
      SumAbsAppend(t[..k], [x]);
      SumAbsAppend(t[..k], t[k + 1..]);
      assert [x][..0] == [];
    }
  }

  /** The category's transactions sorted in place by date. */
  method SortByDate(txns: seq<Transaction>) returns (sorted: seq<Transaction>)
    ensures |sorted| == |txns|
    ensures multiset(sorted) == multiset(txns)
    ensures Sorting.Ordered(sorted, Earlier)
  {
    var a := new Transaction[|txns|](i requires 0 <= i < |txns| => txns[i]);
    assert a[..] == txns;
    EarlierIsStrictWeakOrder();
    Sorting.SortBy(a, Earlier);
    sorted := a[..];
  }

  /** The duration loop: the sum of the gaps between consecutive dates. */
  method TotalDuration(sorted: seq<Transaction>) returns (total: int)
    requires sorted != []
    ensures total == SumGaps(sorted)
  {
    total := 0;
    for i := 1 to |sorted|
      invariant total == SumGaps(sorted[..i])
    {
      assert sorted[..i + 1][..i] == sorted[..i];
      total := total + (sorted[i].date - sorted[i - 1].date);
    }
    assert sorted[..|sorted|] == sorted;
  }

  /** The amount loop: the sum of the absolute amounts. */
  method TotalAbsAmount(sorted: seq<Transaction>) returns (total: real)
    ensures total == SumAbs(sorted)
  {
    total := 0.0;
    for i := 0 to |sorted|
      invariant total == SumAbs(sorted[..i])
    {
      assert sorted[..i + 1][..i] == sorted[..i];
      total := total + Abs(sorted[i].amount);
    }
    assert sorted[..|sorted|] == sorted;
  }

  /** The per-category step: sort by date, average the gaps, score the
      likelihood and project the date. */
  method PredictCategory(c: string, txns: seq<Transaction>) returns (p: PredictedSpend)
    requires |txns| >= MinTransactions
    ensures p == PredictionOf(c, txns)
  {
    var sorted := SortByDate(txns);
    var n := |sorted|;

    var totalDuration := TotalDuration(sorted);
    SortedTotals(txns, sorted);
    var avgTimeBetween := TruncDiv(totalDuration, n - 1);
    IntervalOf(txns, totalDuration, avgTimeBetween);

    var frequency := n as real / LookbackDays;
    var totalAmount := TotalAbsAmount(sorted);
    var avgAmount := totalAmount / n as real;

    var normalizedFreq := MinReal(frequency * FrequencyWindow, 1.0);
    var normalizedAmount := MinReal(avgAmount / AmountReference, 1.0);
    var likelihood := (normalizedFreq + normalizedAmount) / 2.0;
    assert likelihood == Likelihood(txns);

    var last := sorted[n - 1];
    var predictedDate := last.date + avgTimeBetween;
    assert predictedDate == PredictionOf(c, txns).predictedDate;
    var warning := NoWarning;
    if likelihood > WarningThreshold {
      warning := HighLikelihood(c, likelihood, predictedDate);
    }
    p := PredictedSpend(c, likelihood, predictedDate, warning);
  }

  lemma IntervalOf(txns: seq<Transaction>, span: int, q: int)
    requires |txns| >= 2 && span == Latest(txns) - Earliest(txns)
    requires q == TruncDiv(span, |txns| - 1)
    ensures q == AverageInterval(txns)
  {
  }

  /** What the sorted copy shares with the category's transactions: its end
      dates span the gaps, and its absolute total. */
  lemma SortedTotals(txns: seq<Transaction>, sorted: seq<Transaction>)
    requires txns != [] && multiset(txns) == multiset(sorted)
    requires Sorting.Ordered(sorted, Earlier)
    ensures |sorted| == |txns|
    ensures SumGaps(sorted) == Latest(txns) - Earliest(txns)
    ensures sorted[|sorted| - 1].date == Latest(txns)
    ensures SumAbs(sorted) == SumAbs(txns)
  {
    SortedEnds(txns, sorted);
    GapsTelescope(sorted);
    SumAbsPermutation(txns, sorted);
  }

  // Grouping by category

  /** The category -> transactions map holds, for every category of `s`
      and no other, its transactions in input order. */
  ghost predicate Groups(groups: map<string, seq<Transaction>>, s: seq<Transaction>) {
    forall c :: (c in groups <==> InCategory(s, c) != []) && (c in groups ==> groups[c] == InCategory(s, c))
  }

  method GroupByCategory(ts: seq<Transaction>) returns (groups: map<string, seq<Transaction>>)
    ensures Groups(groups, ts)
  {
    groups := map[];
    for i := 0 to |ts|
      invariant Groups(groups, ts[..i])
    {
      var t := ts[i];
      // a missing category reads as an empty slice, as a Go map lookup does
      var prior := if t.category in groups then groups[t.category] else [];
      ghost var prev := groups;
      groups := groups[t.category := prior + [t]];
      GroupStep(ts, i, prev, groups);
    }
    assert ts[..|ts|] == ts;
  }

  lemma {:induction false} GroupStep(ts: seq<Transaction>, i: int, prev: map<string, seq<Transaction>>, groups: map<string, seq<Transaction>>)
    requires 0 <= i < |ts| && Groups(prev, ts[..i])
    requires var c := ts[i].category;
             groups == prev[c := (if c in prev then prev[c] else []) + [ts[i]]]
    ensures Groups(groups, ts[..i + 1])
  {
    assert ts[..i + 1][..i] == ts[..i];
  }

  // The prediction pass

  /** Predictions of `r` for category `c`. */
  ghost predicate Predicts(r: seq<PredictedSpend>, c: string) {
    exists j :: 0 <= j < |r| && r[j].category == c
  }

  ghost predicate DistinctCategories(r: seq<PredictedSpend>) {
    forall j, k :: 0 <= j < k < |r| ==> r[j].category != r[k].category
  }

  ghost predicate MostLikelyFirst(r: seq<PredictedSpend>) {
    forall j, k :: 0 <= j < k < |r| ==> r[j].likelihood >= r[k].likelihood
  }

  /** Every prediction of `r` is the prediction of a category of `ts` with
      at least the minimum number of transactions. */
  ghost predicate CategoryPredictions(ts: seq<Transaction>, r: seq<PredictedSpend>) {
    forall j :: 0 <= j < |r| ==>
      |InCategory(ts, r[j].category)| >= MinTransactions &&
      r[j] == PredictionOf(r[j].category, InCategory(ts, r[j].category))
  }

  /** `r` is the prediction output for `ts`: one prediction per category with
      at least the minimum number of transactions and for no other, most
      likely first. */
  ghost predicate IsPredictions(ts: seq<Transaction>, r: seq<PredictedSpend>) {
    && CategoryPredictions(ts, r)
    && DistinctCategories(r)
    && (forall c :: |InCategory(ts, c)| >= MinTransactions ==> Predicts(r, c))
    && MostLikelyFirst(r)
  }

  /** The per-category loop, visiting the categories in the map's
      (unspecified) order. */
  method PredictAll(groups: map<string, seq<Transaction>>) returns (predictions: seq<PredictedSpend>)
    ensures forall j :: 0 <= j < |predictions| ==>
              var c := predictions[j].category;
              c in groups && |groups[c]| >= MinTransactions && predictions[j] == PredictionOf(c, groups[c])
    ensures DistinctCategories(predictions)
    ensures forall c :: c in groups && |groups[c]| >= MinTransactions ==> Predicts(predictions, c)
  {
    predictions := [];
    var pending := groups.Keys;
    while pending != {}
      invariant pending <= groups.Keys
      invariant PredictedSoFar(groups, pending, predictions)
      decreases pending
    {
      var category :| category in pending;
      var txns := groups[category];
      ghost var before := predictions;
      if |txns| >= MinTransactions {
        var p := PredictCategory(category, txns);
        predictions := predictions + [p];
      }
      VisitStep(groups, pending, category, before, predictions);
      pending := pending - {category};
    }
  }

  /** The per-category loop's invariant: the predictions made so far are
      those of the visited categories with enough transactions. */
  ghost predicate PredictedSoFar(groups: map<string, seq<Transaction>>, pending: set<string>, predictions: seq<PredictedSpend>) {
    && (forall j :: 0 <= j < |predictions| ==>
          var c := predictions[j].category;
          c in groups && c !in pending && |groups[c]| >= MinTransactions && predictions[j] == PredictionOf(c, groups[c]))
    && DistinctCategories(predictions)
    && (forall c :: c in groups && c !in pending && |groups[c]| >= MinTransactions ==> Predicts(predictions, c))
  }

  /** Visiting one category, skipping it or appending its prediction, keeps
      the invariant. */
  lemma {:induction false} VisitStep(groups: map<string, seq<Transaction>>, pending: set<string>, category: string,
                                    before: seq<PredictedSpend>, predictions: seq<PredictedSpend>)
    requires category in pending && category in groups
    requires PredictedSoFar(groups, pending, before)
    requires |groups[category]| >= MinTransactions ==>
               predictions == before + [PredictionOf(category, groups[category])]
    requires |groups[category]| < MinTransactions ==> predictions == before
    ensures PredictedSoFar(groups, pending - {category}, predictions)
  {
    forall c | c in groups && c !in pending - {category} && |groups[c]| >= MinTransactions
      ensures Predicts(predictions, c)
    {
      if c == category {
        assert predictions[|before|].category == c;
      } else {
        var j :| 0 <= j < |before| && before[j].category == c;
        assert predictions[j] == before[j];
      }
    }
  }

  /** The sort order of the predictions: higher likelihood first. */
  function MoreLikely(p: PredictedSpend, q: PredictedSpend): bool {
    p.likelihood > q.likelihood
  }

  lemma MoreLikelyIsStrictWeakOrder()
    ensures Sorting.StrictWeakOrder(MoreLikely)
  {
  }

  /** PredictFutureSpending: fetch, group, predict, sort. A failed fetch
      aborts with the wrapped error. */
  method PredictFutureSpending(fetched: Result<seq<Transaction>>) returns (r: Result<seq<PredictedSpend>>)
    ensures fetched.Failure? ==> r == Failure(Wrapped(FetchTransactions, fetched.error))
    ensures fetched.Success? ==> r.Success? && IsPredictions(fetched.value, r.value)
  {
    if fetched.Failure? {
      return Failure(Wrapped(FetchTransactions, fetched.error));
    }
    var ts := fetched.value;
    var groups := GroupByCategory(ts);
    var predictions := PredictAll(groups);
    var a := new PredictedSpend[|predictions|](j requires 0 <= j < |predictions| => predictions[j]);
    assert a[..] == predictions;
    MoreLikelyIsStrictWeakOrder();
    Sorting.SortBy(a, MoreLikely);
    var sorted := a[..];
    assert CategoryPredictions(ts, predictions);
    SortedKeepsPredictions(ts, predictions, sorted);
    return Success(sorted);
  }

  lemma {:induction false} SortedKeepsPredictions(ts: seq<Transaction>, predictions: seq<PredictedSpend>, sorted: seq<PredictedSpend>)
    requires CategoryPredictions(ts, predictions)
    requires DistinctCategories(predictions)
    requires forall c :: |InCategory(ts, c)| >= MinTransactions ==> Predicts(predictions, c)
    requires multiset(predictions) == multiset(sorted)
    requires Sorting.Ordered(sorted, MoreLikely)
    ensures IsPredictions(ts, sorted)
  {
    Sorting.SameElements(predictions, sorted);
    assert CategoryPredictions(ts, sorted) by {
      forall k | 0 <= k < |sorted|
        ensures |InCategory(ts, sorted[k].category)| >= MinTransactions
        ensures sorted[k] == PredictionOf(sorted[k].category, InCategory(ts, sorted[k].category))
      {
        assert sorted[k] in predictions;
        var j :| 0 <= j < |predictions| && predictions[j] == sorted[k];
      }
    }
    assert Sorting.NoDuplicates(predictions) by {
      forall j, k | 0 <= j < k < |predictions| ensures predictions[j] != predictions[k] {
        assert predictions[j].category != predictions[k].category;
      }
    }
    Sorting.PermutationKeepsNoDuplicates(predictions, sorted);
    assert DistinctCategories(sorted) by {
      forall j, k | 0 <= j < k < |sorted| ensures sorted[j].category != sorted[k].category {
        assert sorted[j] != sorted[k];
      }
    }
    forall c | |InCategory(ts, c)| >= MinTransactions
      ensures Predicts(sorted, c)
    {
      assert Predicts(predictions, c);
      var j :| 0 <= j < |predictions| && predictions[j].category == c;
      assert predictions[j] in sorted;
      var k :| 0 <= k < |sorted| && sorted[k] == predictions[j];
    }
    forall j, k | 0 <= j < k < |sorted| ensures sorted[j].likelihood >= sorted[k].likelihood {
      assert !MoreLikely(sorted[k], sorted[j]);
    }
  }

  /** What a consumer may rely on in every prediction: a likelihood in
      [0.25, 1], a warning exactly above the threshold, and a date not
      before the category's latest transaction. */
  lemma {:induction false} PredictionsFacts(ts: seq<Transaction>, r: seq<PredictedSpend>)
    requires IsPredictions(ts, r)
    ensures forall j :: 0 <= j < |r| ==>
              && 0.25 <= r[j].likelihood <= 1.0
              && (r[j].warning != NoWarning <==> r[j].likelihood > WarningThreshold)
              && r[j].predictedDate >= Latest(InCategory(ts, r[j].category))
  {
    forall j | 0 <= j < |r|
      ensures 0.25 <= r[j].likelihood <= 1.0
      ensures r[j].warning != NoWarning <==> r[j].likelihood > WarningThreshold
      ensures r[j].predictedDate >= Latest(InCategory(ts, r[j].category))
    {
      PredictionFacts(r[j].category, InCategory(ts, r[j].category));
    }
  }
}
