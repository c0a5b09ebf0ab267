# FinanceBros analytics service, modelled in Dafny

This project models the analytics service of FinanceBros (`server/analytics/service.go`). The service does three things over a user's transactions:

- **Time patterns** (`AnalyzeTimePatterns`):
  - groups transactions into (weekday, hour) buckets;
  - emits one pattern per bucket, with its count and its mean absolute amount;
  - sorts by frequency, then by average spend, largest first.
- **Category ranking** (`GetSpendingAnalytics`):
  - sums the per-category totals;
  - gives each category a percentage of the running total at the moment it is visited (see "## Findings");
  - keeps the five largest.
  - It then combines the ranking with the other two analyses and a monthly average (`timeRangeToMonths`).
- **Spend prediction** (`PredictFutureSpending`): for each category with at least three transactions, it sorts them by date and averages the gaps between consecutive dates. It scores a likelihood from the frequency and the mean amount, and projects the next date. A warning is attached above a likelihood of 0.7. The predictions come out most likely first.

How the model is built:

- **Loops:** the Go loops become Dafny methods with loop invariants. Each is proved against a specification function or predicate.
- **Sorting:** every `sort.Slice` becomes `Sorting.SortBy`, an in-place insertion sort on an `array`. It is proved to return a permutation of its input, ordered by the given "less" function. `sort.Slice` is not stable, so nothing is promised about ties.
- **Maps:** Go map iteration order is unspecified. The loops over maps pick their next key with `:|` from the keys not yet visited. The category totals arrive as a sequence of (category, amount) pairs, in iteration order.
- **Repository fetches** are method inputs of type `Result<T>`. A failure carries the repository's error. Each layer it passes through wraps it once, with a `Context` tag standing for the `fmt.Errorf` prefix of that layer.
- **Numbers:**
  - amounts and scores are exact `real`s;
  - dates are `int` nanoseconds;
  - weekday and hour are fields of a transaction.

The records of `server/types` are not part of this model. `Types` reconstructs them from their uses in the service.

## Model

| member | source | states |
|---|---|---|
| Sorting.SortBy | server/analytics/service.go:70-75 | the sorted array is a permutation of the input, and no element stands after one it must precede, for any strict weak order (the shape of every `sort.Slice` call) |
| Sorting.SameElements | server/analytics/service.go:70-75 | a sorted slice has the length and the elements of the slice it was sorted from |
| Sorting.PermutationKeepsNoDuplicates | server/analytics/service.go:70-75 | a permutation of a duplicate-free slice is duplicate-free, so distinctness survives the sorts |
| Patterns.Count | server/analytics/service.go:50-52 | the number of transactions in a bucket, never more than there are transactions |
| Patterns.AbsTotal | server/analytics/service.go:51 | the bucket's sum of absolute amounts is non-negative, and zero for an empty bucket |
| Patterns.ComesBeforeIsStrictWeakOrder | server/analytics/service.go:70-75 | the pattern comparator (frequency, then average spend, descending) is a strict weak order, as `sort.Slice` needs |
| Patterns.Accumulate | server/analytics/service.go:39-54 | after the grouping loop, the table holds for every (day, hour) among the transactions, and no other, their count and sum of absolute amounts |
| Patterns.RecordStep | server/analytics/service.go:43-53 | one loop step, creating the day's inner map when missing and bumping the bucket's stats, keeps the table summarising the prefix |
| Patterns.Materialize | server/analytics/service.go:57-67 | the conversion loop emits one pattern per populated bucket, with frequency = count and average = sum / count, and no bucket twice |
| Patterns.MaterializeDay | server/analytics/service.go:59-66 | the inner loop over one day's hours appends one pattern per hour of that day and keeps earlier patterns |
| Patterns.AnalyzeTimePatterns | server/analytics/service.go:27-78 | a failed fetch gives the wrapped error; otherwise the result has exactly one pattern per distinct (day, hour) among the transactions, each the bucket's count and mean absolute amount, ordered by frequency and then average spend, both non-increasing |
| Patterns.CountOfOwnBucket | server/analytics/service.go:39-53 | every transaction's bucket has count at least 1 |
| Patterns.SortedKeepsPatterns | server/analytics/service.go:70-75 | sorting the emitted patterns keeps every pattern, distinctness and coverage, and makes the order most-frequent-first |
| Patterns.SortedIsMostFrequentFirst | server/analytics/service.go:71-74 | an ordered result has non-increasing frequency, with non-increasing average spend among equal frequencies |
| Patterns.FrequenciesSumToCount | server/analytics/service.go:50-63 | the frequencies of the patterns add up to the number of transactions |
| Patterns.PatternBasics | server/analytics/service.go:57-67 | every pattern has frequency at least 1 and a non-negative average spend, and the result is empty exactly when the input is |
| Patterns.Partition | server/analytics/service.go:39-53 | with distinct buckets covering every transaction, each transaction is counted in exactly one pattern |
| Patterns.HitsOnce | server/analytics/service.go:57-67 | a bucket that the distinct result emits is emitted exactly once |
| Ranking.Entries | server/analytics/service.go:88-95 | intended (corrected) entries: one per category, in visiting order, each with a defined share of the final total |
| Ranking.CategoryEntries | server/analytics/service.go:86-95 | intended (corrected) loop: `totalSpent` is the sum of all category totals, and the entries carry each category's share of that final total |
| Ranking.RunningPercentage | server/analytics/service.go:89-93 | the share as line 93 computes it: undefined exactly when the running total (this entry included) is zero, and otherwise the amount's percentage of that running total |
| Ranking.RunningEntries | server/analytics/service.go:88-95 | the entries as the loop appends them: one per category, in visiting order, with its running share |
| Ranking.CategoryEntriesAsWritten | server/analytics/service.go:86-95 | the single loop as written: `totalSpent` is the sum of all category totals, and it appends one entry per category with its share of the running total (undefined when that is zero) |
| Ranking.RunningAndFinalAgree | server/analytics/service.go:86-95 | the as-written and intended entries name the same categories with the same totals, and their shares agree on the last category visited |
| Ranking.RunningPercentageBounds | server/analytics/service.go:89-93 | as written, with non-negative amounts the share of a positive amount lies in (0, 100], and the first entry visited gets exactly 100 |
| Ranking.RunningPercentageOverstates | server/analytics/service.go:93 | totals 300 and 200: the running share of the first is 100 where its share of the total is 60 |
| Ranking.RunningPercentageOfZeroTotal | server/analytics/service.go:93 | a single zero total: the running share is 0/0 where the intended share is 0 |
| Ranking.SumAmountsNonNegative | server/analytics/service.go:86-89 | non-negative category totals give a non-negative total spent |
| Ranking.AmountAtMostSum | server/analytics/service.go:86-89 | each non-negative category total is at most the total spent |
| Ranking.FinalPercentageBounds | server/analytics/service.go:93 | intended (corrected) share: a share of the final total is 0 when the total is 0, and in [0, 100] for non-negative totals |
| Ranking.PercentagesSumToHundred | server/analytics/service.go:86-95 | intended (corrected) shares: when the total is not zero, the shares of all categories add up to 100 |
| Ranking.SpentMoreIsStrictWeakOrder | server/analytics/service.go:98-102 | the "larger amount first" comparator is a strict weak order |
| Ranking.TopCategories | server/analytics/service.go:97-107 | the result has min(n, 5) entries, largest first, drawn from the entries, with no entry left out larger than one kept, and it is a prefix of a sorted arrangement of all entries |
| Ranking.TruncationKeepsLargest | server/analytics/service.go:104-107 | cutting a sorted list to its first m entries keeps it sorted, and nothing cut is larger than anything kept |
| Ranking.TopPercentages | server/analytics/service.go:90-93 | intended (corrected) ranking: every kept entry of non-negative totals has a defined share in [0, 100] |
| Ranking.TopRunningPercentages | server/analytics/service.go:89-93 | as written: when every category total is positive, every kept entry has a defined running share in (0, 100] |
| Prediction.InCategory | server/analytics/service.go:140-143 | a category's transactions are all of that category and no more than the input |
| Prediction.SumAbs | server/analytics/service.go:165-168 | the sum of absolute amounts is non-negative |
| Prediction.Earliest | server/analytics/service.go:152-154 | the earliest date is at most every date and is some transaction's date |
| Prediction.Latest | server/analytics/service.go:177 | the latest date is at least every date and is some transaction's date |
| Prediction.TruncDiv | server/analytics/service.go:161 | Go's Duration division lies between 0 and the dividend, on the dividend's side |
| Prediction.TruncDivRoundsTowardZero | server/analytics/service.go:161 | the quotient rounds toward zero: the remainder is smaller than the divisor and has the dividend's sign |
| Prediction.QuotBounds | server/analytics/service.go:161 | the quotient of non-negative values is rounded down |
| Prediction.Likelihood | server/analytics/service.go:164-174 | the likelihood lies in [0, 1], and is at least 0.25 for three or more transactions |
| Prediction.PredictionOf | server/analytics/service.go:161-191 | the prediction for one category: its category, the likelihood of its transactions, a warning naming category, likelihood and date exactly when the likelihood exceeds 0.7, and a date between the latest transaction and one full span after it |
| Prediction.PredictionFacts | server/analytics/service.go:164-184 | a prediction's likelihood is in [0.25, 1], its warning is present exactly when the likelihood exceeds 0.7, and its date is not before the category's latest transaction |
| Prediction.GapsTelescope | server/analytics/service.go:157-160 | the summed consecutive gaps equal last minus first, and for ascending dates every gap and the sum are non-negative |
| Prediction.SortedEnds | server/analytics/service.go:152-154 | after the date sort the dates ascend, and the first and last transactions carry the earliest and latest dates |
| Prediction.SumAbsPermutation | server/analytics/service.go:165-168 | the absolute total does not depend on the order of the transactions |
| Prediction.SortByDate | server/analytics/service.go:152-154 | the category's transactions, permuted into date order |
| Prediction.TotalDuration | server/analytics/service.go:157-160 | the duration loop computes the sum of consecutive gaps |
| Prediction.TotalAbsAmount | server/analytics/service.go:165-168 | the amount loop computes the sum of absolute amounts |
| Prediction.PredictCategory | server/analytics/service.go:151-191 | the per-category body computes the prediction: the likelihood of the category's transactions, the date = latest + truncated (latest - earliest) / (n - 1), and the warning iff the likelihood is above 0.7 |
| Prediction.GroupByCategory | server/analytics/service.go:140-143 | the map holds exactly the categories present, each with its transactions in input order |
| Prediction.PredictAll | server/analytics/service.go:145-192 | the per-category loop gives one prediction per category with at least 3 transactions and none for others, each the category's prediction, and no category twice |
| Prediction.VisitStep | server/analytics/service.go:146-191 | visiting one category, skipping it below 3 transactions or appending its prediction otherwise, keeps the loop invariant: exactly the visited categories with enough transactions have a prediction, each once |
| Prediction.PredictFutureSpending | server/analytics/service.go:132-200 | a failed fetch gives the wrapped error; otherwise exactly one prediction per category with at least 3 transactions, each computed from that category's transactions, most likely first |
| Prediction.SortedKeepsPredictions | server/analytics/service.go:194-197 | sorting the predictions keeps each one, keeps the categories distinct and orders them by likelihood, non-increasing |
| Prediction.PredictionsFacts | server/analytics/service.go:145-197 | every output prediction's likelihood is in [0.25, 1], its warning is present iff the likelihood exceeds 0.7, and its date is not before its category's latest transaction |
| Service.TimeRangeToMonths | server/analytics/service.go:202-215 | the result is one of 1, 3, 6 and 12 months; any unknown label counts as 1, so the result is always at least 1 |
| Service.KnownRangeMonths | server/analytics/service.go:203-212 | "1 month", "3 months", "6 months" and "1 year" give 1, 3, 6 and 12 months |
| Service.MonthlyAverageBounds | server/analytics/service.go:128 | the monthly average of a non-negative total is in [0, total] |
| Service.GetSpendingAnalytics | server/analytics/service.go:80-130 | the first failing fetch decides the error, wrapped per layer; otherwise the total spent is the sum of all category totals (truncated ones included), the monthly average is total / months, the top categories are the five largest of the entries as the loop builds them, with running shares, and the pattern and prediction lists satisfy their analyses' specifications |

## Left out

- Repository calls, `context.Context`, the account id and the SQL window string built at line 28: each fetch is an input `Result`.
- `time.Now()` and `AddDate` (lines 110-111): the last-month transactions are an input.
- The calendar behind `Format("Monday")` and `Format("15:00")`: weekday and hour are fields of a transaction.
- `fmt.Sprintf` formatting of amounts and percentages (`%.2f`, lines 92-93): `CategorySpend` holds an exact amount and an exact share rather than strings. A share is `None` where the source would print `NaN`, `+Inf` or `-Inf`.
- Ranking.TopCategories: sorts on the exact amount rather than its `%.2f` rendering parsed back with `ParseFloat` (lines 99-100). Amounts that differ by less than a cent tie in the source but not in the model.
- The warning text and its `Jan 02` date format (lines 181-183): a warning is `HighLikelihood` holding the category, likelihood and date the text mentions, or `NoWarning`.
- IEEE floating point (rounding, NaN, infinities, `math.Min` on NaN): amounts are exact reals. The undefined share of line 93 is `None`.
- The text of the error messages: each `fmt.Errorf` wrapping is a `Context` tag around the cause.
- Prediction.TruncDiv: `time.Duration` is a 64-bit count of nanoseconds. Overflow of the summed gaps and saturation of `Date.Add` are not modelled.
- `NewService` and the `service` struct: the repository is the only state, and it is replaced by inputs.
- Aliasing: the loop that sorts each category's slice reorders the slice the category map holds. Nothing reads it afterwards, so the model sorts a copy.

## Findings

`Service.GetSpendingAnalytics` models line 93 as written: it ranks `Ranking.RunningEntries`. The corrected definitions, `Ranking.Entries` and `Ranking.CategoryEntries`, sit beside them. Their shares of the final total add up to 100 (`Ranking.PercentagesSumToHundred`), and they are 0 when the total is 0 (`Ranking.FinalPercentageBounds`).

| source | as written | input that shows it | evidently intended | confidence | as-written member | corrected member |
|---|---|---|---|---|---|---|
| server/analytics/service.go:93 | each category's percentage is taken against the running total, which holds only the categories visited so far | totals Groceries 300 then Dining 200: Groceries gets 100 % instead of 60 % | each category's share of the final total | not executed | Ranking.RunningPercentageOverstates | Ranking.CategoryEntries |
| server/analytics/service.go:93 | a zero running total divides by zero and gives NaN | a single category with total 0 | share 0 when there is nothing to share | not executed | Ranking.RunningPercentageOfZeroTotal | Ranking.FinalPercentageBounds |
