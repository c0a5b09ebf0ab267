/** Records the analytics service reads and produces, and the error values
    that its operations return when a repository fetch fails. */
module Types {

  /** Day of the week of a transaction's timestamp. */
  datatype Weekday = Sunday | Monday | Tuesday | Wednesday | Thursday | Friday | Saturday

  /** Hour of the day a transaction falls in (the bucket label "15:00" stands for 15). */
  type Hour = h: int | 0 <= h < 24

  /** A transaction as the repository returns it. `date` counts nanoseconds;
      `day` and `hour` are the calendar fields derived from `date`. */
  datatype Transaction = Transaction(
    date: int,
    amount: real,
    category: string,
    day: Weekday,
    hour: Hour)

  /** One (day, hour) bucket of spending. */
  datatype TimePattern = TimePattern(
    timeOfDay: Hour,
    dayOfWeek: Weekday,
    frequency: int,
    averageSpend: real)

  /** One ranked category: its total and its share of spending, in percent.
      `None` stands for the not-a-number or infinite share a zero divisor gives. */
  datatype CategorySpend = CategorySpend(
    category: string,
    totalSpent: real,
    percentage: Option<real>)

  /** The warning attached to a prediction: what the message names, or nothing. */
  datatype Warning =
    | NoWarning
    | HighLikelihood(category: string, likelihood: real, predictedDate: int)

  /** A predicted next spending in one category. */
  datatype PredictedSpend = PredictedSpend(
    category: string,
    likelihood: real,
    predictedDate: int,
    warning: Warning)

  /** The combined result of one analytics request. */
  datatype SpendingAnalytics = SpendingAnalytics(
    topCategories: seq<CategorySpend>,
    spendingPatterns: seq<TimePattern>,
    predictedSpending: seq<PredictedSpend>,
    totalSpent: real,
    monthlyAverage: real)

  /** The step at which an error was wrapped, standing for its message prefix. */
  datatype Context =
    | FetchTransactions     // "failed to get transactions"
    | FetchCategoryTotals   // "failed to get category totals"
    | TimePatternAnalysis   // "failed to analyze time patterns"
    | SpendPrediction       // "failed to predict spending"

  /** An error from the repository, wrapped once per layer it passes through. */
  datatype Error =
    | RepositoryError(message: string)
    | Wrapped(context: Context, cause: Error)

  datatype Result<T> = Success(value: T) | Failure(error: Error)

  datatype Option<T> = None | Some(value: T)

  function Abs(x: real): (r: real)
    ensures r >= 0.0
    ensures r == x || r == -x
  {
    if x < 0.0 then -x else x
  }

  function MinReal(x: real, y: real): (r: real)
    ensures r <= x && r <= y
    ensures r == x || r == y
  {
    if x <= y then x else y
  }
}
