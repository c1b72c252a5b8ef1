/**
 * The hourly chart card: the average of each column over the hourly
 * buckets, the trend icon comparing a value with an average, and the
 * colour of the AQI summary.
 */
module HourlyChart {
  import opened Numeric
  import opened Icons
  import DashboardPage
  import AlertBanner

  type HourlyBucket = DashboardPage.HourlyBucket

  /** The numeric columns of a bucket (`keyof` minus `hour`). */
  datatype Column = AvgTemperature | AvgHumidity | AvgAqi

  function ColumnOf(b: HourlyBucket, key: Column): real
  {
    match key
    case AvgTemperature => b.avgTemperature
    case AvgHumidity => b.avgHumidity
    case AvgAqi => b.avgAQI
  }

  /** The column's values, in bucket order (every one is a number, so the filter keeps them all). */
  function ColumnValues(data: seq<HourlyBucket>, key: Column): (vs: seq<real>)
    ensures |vs| == |data| && forall i :: 0 <= i < |data| ==> vs[i] == ColumnOf(data[i], key)
  {
    seq(|data|, i requires 0 <= i < |data| => ColumnOf(data[i], key))
  }

  /**
   * `getAverage(key)`: the mean of the column. Over no buckets it would be
   * 0/0; the page shows the chart only when there are buckets.
   */
  function GetAverage(data: seq<HourlyBucket>, key: Column): (avg: real)
    requires |data| > 0
    ensures SeqMin(ColumnValues(data, key)) <= avg <= SeqMax(ColumnValues(data, key))
  {
    MeanBetweenExtremes(ColumnValues(data, key));
    Mean(ColumnValues(data, key))
  }

  /** When every bucket has the same value in a column, that value is the average. */
  lemma AverageOfConstantColumn(data: seq<HourlyBucket>, key: Column, v: real)
    requires |data| > 0
    requires forall i :: 0 <= i < |data| ==> ColumnOf(data[i], key) == v
    ensures GetAverage(data, key) == v
  {
    var vs := ColumnValues(data, key);
    assert SeqMin(vs) == v && SeqMax(vs) == v;
  }

  /** `getTrendIcon`: up above 105 % of the average, else down below 95 %, else flat; "up" is the first branch. */
  function GetTrendIcon(current: real, average: real): (icon: Icon)
    ensures icon in {TrendingUp, TrendingDown, Minus}
  {
    if current > average * 1.05 then TrendingUp
    else if current < average * 0.95 then TrendingDown
    else Minus
  }

  /** For a positive average the three cases are exclusive and cover every value. */
  lemma TrendIconForPositiveAverage(current: real, average: real)
    requires average > 0.0
    ensures GetTrendIcon(current, average) == TrendingUp <==> current > average * 1.05
    ensures GetTrendIcon(current, average) == TrendingDown <==> current < average * 0.95
    ensures GetTrendIcon(current, average) == Minus <==> average * 0.95 <= current <= average * 1.05
  {
  }

  /** For a negative average the bands overlap and "up" wins: a value equal to the average shows "up",
      and no value shows the flat icon. */
  lemma NegativeAverageShowsUp(average: real, current: real)
    requires average < 0.0
    ensures average > average * 1.05 && average < average * 0.95
    ensures GetTrendIcon(average, average) == TrendingUp
    ensures GetTrendIcon(current, average) == TrendingUp <==> current > average * 1.05
    ensures GetTrendIcon(current, average) == TrendingDown <==> current <= average * 1.05
    ensures GetTrendIcon(current, average) != Minus
  {
  }

  /** For a zero average: up above 0, down below 0, flat exactly at 0. */
  lemma TrendIconForZeroAverage(current: real)
    ensures GetTrendIcon(current, 0.0) == TrendingUp <==> current > 0.0
    ensures GetTrendIcon(current, 0.0) == TrendingDown <==> current < 0.0
    ensures GetTrendIcon(current, 0.0) == Minus <==> current == 0.0
  {
  }

  /** The colour of the AQI summary: above 100 red, above 50 yellow, else green. */
  function AqiSummaryColor(avgAqi: real): string
  {
    if avgAqi > 100.0 then "text-red-600"
    else if avgAqi > 50.0 then "text-yellow-600"
    else "text-green-600"
  }

  /** The summary colour follows the alert banner's three tiers. */
  lemma SummaryColorMatchesBanner(avgAqi: real)
    ensures AqiSummaryColor(avgAqi) == "text-red-600" <==> AlertBanner.Tier(AlertBanner.GetAlertInfo(avgAqi)) == 2
    ensures AqiSummaryColor(avgAqi) == "text-yellow-600" <==> AlertBanner.Tier(AlertBanner.GetAlertInfo(avgAqi)) == 1
    ensures AqiSummaryColor(avgAqi) == "text-green-600" <==> AlertBanner.Tier(AlertBanner.GetAlertInfo(avgAqi)) == 0
  {
    AlertBanner.ExactlyOneTier(avgAqi);
  }

  /** The "Last N hours" badge: the number of buckets, which need not be consecutive hours. */
  function HoursBadge(data: seq<HourlyBucket>): nat
  {
    |data|
  }

  /** For the page's aggregate the badge counts the distinct hours that occur, at most 24. */
  lemma BadgeAtMost24(readings: seq<DashboardPage.HistoricalReading>)
    ensures HoursBadge(DashboardPage.HourlyAverages(readings)) <= 24
  {
    DashboardPage.BucketsSortedByLabel(readings);
  }
}
