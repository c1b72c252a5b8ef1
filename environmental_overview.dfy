/**
 * The environmental overview card: a trend arrow per metric from the latest
 * two readings, and the colour tier of the air-quality tile.
 */
module EnvironmentalOverview {
  import opened Wrappers
  import opened SensorTypes
  import AlertBanner

  datatype Trend = Up | Down | Stable

  /**
   * `getTrend`: the percentage change from `prev` to `current`, "up" above
   * 2 %, "down" below -2 %, "stable" otherwise and whenever `prev` is 0.
   */
  function GetTrend(current: real, prev: real): Trend
  {
    if prev == 0.0 then Stable
    else
      var diff := (current - prev) / prev * 100.0;
      if diff > 2.0 then Up else if diff < -2.0 then Down else Stable
  }

  /** A previous value of 0 always gives "stable". */
  lemma StableWithoutPrevious(current: real)
    ensures GetTrend(current, 0.0) == Stable
  {
  }

  /** For a positive previous value, the trend compares `current` with 98 % and 102 % of it. */
  lemma TrendForPositivePrevious(current: real, prev: real)
    requires prev > 0.0
    ensures GetTrend(current, prev) == Up <==> current > prev * 1.02
    ensures GetTrend(current, prev) == Down <==> current < prev * 0.98
    ensures GetTrend(current, prev) == Stable <==> prev * 0.98 <= current <= prev * 1.02
  {
    var diff := (current - prev) / prev * 100.0;
    assert diff * prev == (current - prev) * 100.0;
    assert diff > 2.0 <==> diff * prev > 2.0 * prev;
    assert diff < -2.0 <==> diff * prev < -2.0 * prev;
  }

  /** For a negative previous value the division flips the comparison: a value above 98 % of it is "down". */
  lemma TrendForNegativePrevious(current: real, prev: real)
    requires prev < 0.0
    ensures GetTrend(current, prev) == Up <==> current < prev * 1.02
    ensures GetTrend(current, prev) == Down <==> current > prev * 0.98
  {
    var diff := (current - prev) / prev * 100.0;
    assert diff * prev == (current - prev) * 100.0;
    assert diff > 2.0 <==> diff * prev < 2.0 * prev;
    assert diff < -2.0 <==> diff * prev > -2.0 * prev;
  }

  /** A rise from -10 to -5 is reported as "down". */
  lemma NegativeRiseIsDown()
    ensures GetTrend(-5.0, -10.0) == Down
  {
    TrendForNegativePrevious(-5.0, -10.0);
  }

  /** `getTrendColor`: rising red, falling green, otherwise gray. */
  function TrendColor(t: Trend): string
  {
    match t
    case Up => "text-red-600 dark:text-red-400"
    case Down => "text-green-600 dark:text-green-400"
    case Stable => "text-gray-600 dark:text-gray-400"
  }

  /** `getTrendIcon`: an arrow up, down or to the right. */
  function TrendIcon(t: Trend): string
  {
    match t
    case Up => "↗"
    case Down => "↘"
    case Stable => "→"
  }

  /** Each trend has its own colour and its own arrow. */
  lemma TrendPresentationDistinct(a: Trend, b: Trend)
    ensures TrendColor(a) == TrendColor(b) <==> a == b
    ensures TrendIcon(a) == TrendIcon(b) <==> a == b
  {
    if a != b {
      assert TrendColor(a)[7] != TrendColor(b)[7];
      assert TrendIcon(a)[0] != TrendIcon(b)[0];
    }
  }

  /** The measured quantities shown as tiles. */
  datatype Quantity = Temperature | Humidity | GasLevel | AirQuality

  /** The value of a quantity in a reading. */
  function ValueOf(r: SensorReading, q: Quantity): real
  {
    match q
    case Temperature => r.temperature
    case Humidity => r.humidity
    case GasLevel => r.gasConcentration
    case AirQuality => r.aqi
  }

  /** `reading?.field || 0`: the value, or 0 when there is no such reading. */
  function OrZero(r: Option<SensorReading>, q: Quantity): (v: real)
    ensures r.None? ==> v == 0.0
    ensures r.Some? ==> v == ValueOf(r.value, q)
  {
    if r.Some? then ValueOf(r.value, q) else 0.0
  }

  /** `data[data.length - 1]` and `data[data.length - 2]`, `None` when out of range. */
  function Latest(data: seq<SensorReading>): Option<SensorReading>
  {
    if |data| >= 1 then Some(data[|data| - 1]) else None
  }

  function Previous(data: seq<SensorReading>): Option<SensorReading>
  {
    if |data| >= 2 then Some(data[|data| - 2]) else None
  }

  /** The colour tier of the air-quality tile: above 100 red, above 50 amber, else green. */
  datatype Tier = Green | Amber | Red

  /** `latest?.aqi > 100 ? … : latest?.aqi > 50 ? … : …`; a missing reading compares false, hence green. */
  function AqiTier(latest: Option<SensorReading>): Tier
  {
    if latest.Some? && latest.value.aqi > 100.0 then Red
    else if latest.Some? && latest.value.aqi > 50.0 then Amber
    else Green
  }

  /** The tile's colour class and background class for a tier. */
  function TierColor(t: Tier): string
  {
    match t
    case Red => "text-red-700 dark:text-red-300"
    case Amber => "text-amber-700 dark:text-amber-300"
    case Green => "text-green-700 dark:text-green-300"
  }

  function TierBackground(t: Tier): string
  {
    match t
    case Red => "bg-red-50 dark:bg-red-950"
    case Amber => "bg-amber-50 dark:bg-amber-950"
    case Green => "bg-green-50 dark:bg-green-950"
  }

  /** The air-quality tile uses the alert banner's three tiers: red, amber, green for unhealthy, moderate, good. */
  lemma AqiTierMatchesBanner(r: SensorReading)
    ensures AqiTier(Some(r)) == Red <==> AlertBanner.Tier(AlertBanner.GetAlertInfo(r.aqi)) == 2
    ensures AqiTier(Some(r)) == Amber <==> AlertBanner.Tier(AlertBanner.GetAlertInfo(r.aqi)) == 1
    ensures AqiTier(Some(r)) == Green <==> AlertBanner.Tier(AlertBanner.GetAlertInfo(r.aqi)) == 0
  {
    AlertBanner.ExactlyOneTier(r.aqi);
  }

  /** One tile of the card. */
  datatype Metric = Metric(quantity: Quantity, value: real, unit: string, trend: Trend)

  /** The tile of one quantity. */
  function MetricOf(data: seq<SensorReading>, q: Quantity, unit: string): (m: Metric)
    ensures m.quantity == q && m.unit == unit
    ensures m.value == OrZero(Latest(data), q)
    ensures m.trend == GetTrend(OrZero(Latest(data), q), OrZero(Previous(data), q))
  {
    Metric(q, OrZero(Latest(data), q), unit, GetTrend(OrZero(Latest(data), q), OrZero(Previous(data), q)))
  }

  /** `metrics`: the four tiles, in order temperature, humidity, gas level, air quality. */
  function Metrics(data: seq<SensorReading>): (ms: seq<Metric>)
    ensures |ms| == 4
    ensures ms[0].quantity == Temperature && ms[1].quantity == Humidity
    ensures ms[2].quantity == GasLevel && ms[3].quantity == AirQuality
  {
    [MetricOf(data, Temperature, "°C"), MetricOf(data, Humidity, "%"),
     MetricOf(data, GasLevel, "ppm"), MetricOf(data, AirQuality, "AQI")]
  }

  /** With a single reading the previous values read as 0, so every tile shows "stable". */
  lemma SingleReadingAllStable(data: seq<SensorReading>)
    requires |data| == 1
    ensures forall i :: 0 <= i < |Metrics(data)| ==> Metrics(data)[i].trend == Stable
  {
    assert Previous(data).None?;
  }

  /** Each tile's value is the latest reading's value of its quantity. */
  lemma TilesShowLatest(data: seq<SensorReading>)
    requires |data| > 0
    ensures forall i :: 0 <= i < |Metrics(data)| ==>
      Metrics(data)[i].value == ValueOf(data[|data| - 1], Metrics(data)[i].quantity)
  {
  }
}
