/** The analytics service's combined request: category ranking, time
    patterns of the last month and predictions from the last six months. */
module Service {
  import opened Types
  import Ranking
  import Patterns
  import Prediction

  /** The time-range labels the service knows, with their length in months. */
  const KnownRanges: map<string, real> :=
    map["1 month" := 1.0, "3 months" := 3.0, "6 months" := 6.0, "1 year" := 12.0]

  /** Length in months of a time-range label; an unknown label counts as
      one month, so the monthly average is always well defined. */
  function TimeRangeToMonths(timeRange: string): (months: real)
    ensures months in {1.0, 3.0, 6.0, 12.0}
    ensures timeRange !in KnownRanges ==> months == 1.0
    ensures months >= 1.0
  {
    if timeRange in KnownRanges then KnownRanges[timeRange] else 1.0
  }

  /** Each known label names its own length: a month, a quarter, half a
      year and a year. */
  lemma KnownRangeMonths()
    ensures TimeRangeToMonths("1 month") == 1.0
    ensures TimeRangeToMonths("3 months") == 3.0
    ensures TimeRangeToMonths("6 months") == 6.0
    ensures TimeRangeToMonths("1 year") == 12.0
  {
  }

  /** The monthly average of a non-negative total is non-negative and at
      most the total. */
  lemma MonthlyAverageBounds(totalSpent: real, timeRange: string)
    requires totalSpent >= 0.0
    ensures 0.0 <= totalSpent / TimeRangeToMonths(timeRange) <= totalSpent
  {
    var months := TimeRangeToMonths(timeRange);
    var q := totalSpent / months;
    assert q * months == totalSpent;
  }

  /** GetSpendingAnalytics. The three repository fetches are its inputs:
      the category totals for `timeRange`, the transactions of the last
      month and those of the last six months. The first fetch that fails
      decides the error, wrapped once per layer it passes through. */
  method GetSpendingAnalytics(
    timeRange: string,
    categoryTotals: Result<Ranking.CategoryTotals>,
    lastMonth: Result<seq<Transaction>>,
    lastSixMonths: Result<seq<Transaction>>)
    returns (r: Result<SpendingAnalytics>)
    ensures categoryTotals.Failure? ==>
              r == Failure(Wrapped(FetchCategoryTotals, categoryTotals.error))
    ensures categoryTotals.Success? && lastMonth.Failure? ==>
              r == Failure(Wrapped(TimePatternAnalysis, Wrapped(FetchTransactions, lastMonth.error)))
    ensures categoryTotals.Success? && lastMonth.Success? && lastSixMonths.Failure? ==>
              r == Failure(Wrapped(SpendPrediction, Wrapped(FetchTransactions, lastSixMonths.error)))
    ensures categoryTotals.Success? && lastMonth.Success? && lastSixMonths.Success? ==>
              && r.Success?
              && r.value.totalSpent == Ranking.SumAmounts(categoryTotals.value)
              && r.value.monthlyAverage == r.value.totalSpent / TimeRangeToMonths(timeRange)
              && Ranking.IsTop(Ranking.RunningEntries(categoryTotals.value), r.value.topCategories)
              && Patterns.IsTimePatterns(lastMonth.value, r.value.spendingPatterns)
              && Prediction.IsPredictions(lastSixMonths.value, r.value.predictedSpending)
  {
    if categoryTotals.Failure? {
      return Failure(Wrapped(FetchCategoryTotals, categoryTotals.error));
    }
    var totalSpent, entries := Ranking.CategoryEntriesAsWritten(categoryTotals.value);
    var topCategories, ranked := Ranking.TopCategories(entries);

    var patterns := Patterns.AnalyzeTimePatterns(lastMonth);
    if patterns.Failure? {
      return Failure(Wrapped(TimePatternAnalysis, patterns.error));
    }

    var predictions := Prediction.PredictFutureSpending(lastSixMonths);
    if predictions.Failure? {
      return Failure(Wrapped(SpendPrediction, predictions.error));
    }

    return Success(SpendingAnalytics(
      topCategories,
      patterns.value,
      predictions.value,
      totalSpent,
      totalSpent / TimeRangeToMonths(timeRange)));
  }
}
