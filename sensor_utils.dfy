/**
 * Helpers over readings: the table search for an AQI category, the
 * Celsius-to-Fahrenheit conversion, the "normal ranges" check and the alert
 * messages derived from a reading.
 */
module SensorUtils {
  import opened SensorTypes
  import opened Numeric

  /** `Categories[i]` sits at position `i`. */
  lemma PositionOfEntry(i: nat)
    requires i < |Categories|
    ensures Position(Categories[i]) == i
  {
  }

  /**
   * `getAQICategory`: scan the table in order and return the first category
   * whose inclusive [min, max] contains `aqi`; when none does, HAZARDOUS.
   */
  method GetAQICategory(aqi: real) returns (category: AqiCategory, info: CategoryInfo)
    ensures Classifies(category, aqi)
    ensures info == Info(category)
  {
    var i := 0;
    while i < |Categories|
      invariant 0 <= i <= |Categories|
      invariant forall k :: 0 <= k < i ==> !InBand(Categories[k], aqi)
    {
      var c := Categories[i];
      if aqi >= Info(c).min as real && aqi <= Info(c).max as real {
        PositionOfEntry(i);
        return c, Info(c);
      }
      i := i + 1;
    }
    return Hazardous, Info(Hazardous);
  }

  /** For every integer AQI from 0 to 500 the fallback is never taken and the category found contains the value. */
  lemma IntegerAqiFindsItsBand(n: int, c: AqiCategory)
    requires 0 <= n <= 500
    requires Classifies(c, n as real)
    ensures !InNoBand(n as real)
    ensures InBand(c, n as real)
  {
    IntegerInExactlyOneBand(n);
  }

  /** Values in no band (negative, above 500, or between two bands like 50.5) are reported HAZARDOUS. */
  lemma OutOfBandFallsBackToHazardous(aqi: real, c: AqiCategory)
    requires aqi < 0.0 || aqi > 500.0 ||
             exists k :: 0 <= k < |Categories| - 1 &&
               Info(Categories[k]).max as real < aqi < Info(Categories[k + 1]).min as real
    requires Classifies(c, aqi)
    ensures c == Hazardous
  {
    GapValuesInNoBand(aqi);
  }

  /** The gap value 50.5 is neither GOOD nor MODERATE: it is reported HAZARDOUS. */
  lemma GapValueExample(c: AqiCategory)
    requires Classifies(c, 50.5)
    ensures c == Hazardous
  {
    assert Info(Categories[0]).max as real < 50.5 < Info(Categories[1]).min as real;
    OutOfBandFallsBackToHazardous(50.5, c);
  }

  /** `celsiusToFahrenheit`: `c * 9 / 5 + 32`, rounded to one decimal place. */
  function CelsiusToFahrenheit(celsius: real): (f: real)
    ensures celsius * 9.0 / 5.0 + 32.0 - 0.05 < f <= celsius * 9.0 / 5.0 + 32.0 + 0.05
    ensures (f * 10.0).Floor as real == f * 10.0
  {
    RoundTenths(celsius * 9.0 / 5.0 + 32.0)
  }

  lemma FahrenheitFixedPoints()
    ensures CelsiusToFahrenheit(0.0) == 32.0
    ensures CelsiusToFahrenheit(100.0) == 212.0
    ensures CelsiusToFahrenheit(-40.0) == -40.0
  {
    assert Round(320.0) == 320;
    assert Round(2120.0) == 2120;
    assert Round(-400.0) == -400;
  }

  lemma FahrenheitMonotone(a: real, b: real)
    requires a <= b
    ensures CelsiusToFahrenheit(a) <= CelsiusToFahrenheit(b)
  {
    RoundTenthsMonotone(a * 9.0 / 5.0 + 32.0, b * 9.0 / 5.0 + 32.0);
  }

  /** The four numeric fields that `isReadingNormal` and `generateAlerts` read. */
  datatype Measurements = Measurements(temperature: real, humidity: real, aqi: real, gasConcentration: real)

  function MeasurementsOf(r: SensorReading): Measurements
  {
    Measurements(r.temperature, r.humidity, r.aqi, r.gasConcentration)
  }

  /** `isReadingNormal`: every metric within its normal range. */
  predicate IsReadingNormal(m: Measurements)
  {
    m.temperature >= 15.0 && m.temperature <= 35.0 &&
    m.humidity >= 30.0 && m.humidity <= 70.0 &&
    m.aqi <= 100.0 &&
    m.gasConcentration <= 300.0
  }

  /** The seven messages `generateAlerts` can push. */
  datatype Alert =
    | HighTemperature | LowTemperature
    | HighHumidity | LowHumidity
    | UnhealthyAir | SensitiveGroups
    | HighGas

  function Message(a: Alert): string
  {
    match a
    case HighTemperature => "High temperature detected"
    case LowTemperature => "Low temperature detected"
    case HighHumidity => "High humidity levels"
    case LowHumidity => "Low humidity levels"
    case UnhealthyAir => "Unhealthy air quality"
    case SensitiveGroups => "Air quality concern for sensitive groups"
    case HighGas => "High gas concentration detected"
  }

  /** Which metric an alert is about: 0 temperature, 1 humidity, 2 AQI, 3 gas. */
  function MetricOf(a: Alert): (k: nat)
    ensures k < 4
  {
    match a
    case HighTemperature | LowTemperature => 0
    case HighHumidity | LowHumidity => 1
    case UnhealthyAir | SensitiveGroups => 2
    case HighGas => 3
  }

  /** The alert a single metric contributes: none, or exactly one. */
  function TemperatureAlerts(t: real): seq<Alert>
  {
    if t > 35.0 then [HighTemperature] else if t < 15.0 then [LowTemperature] else []
  }

  function HumidityAlerts(h: real): seq<Alert>
  {
    if h > 70.0 then [HighHumidity] else if h < 30.0 then [LowHumidity] else []
  }

  function AqiAlerts(aqi: real): seq<Alert>
  {
    if aqi > 150.0 then [UnhealthyAir] else if aqi > 100.0 then [SensitiveGroups] else []
  }

  function GasAlerts(gas: real): seq<Alert>
  {
    if gas > 300.0 then [HighGas] else []
  }

  /** The alerts of a reading: temperature first, then humidity, AQI and gas. */
  function AlertsFor(m: Measurements): seq<Alert>
  {
    TemperatureAlerts(m.temperature) + HumidityAlerts(m.humidity) +
    AqiAlerts(m.aqi) + GasAlerts(m.gasConcentration)
  }

  /** `generateAlerts`: successive pushes onto a local array. */
  method GenerateAlerts(m: Measurements) returns (alerts: seq<Alert>)
    ensures alerts == AlertsFor(m)
  {
    alerts := [];

    if m.temperature > 35.0 {
      alerts := alerts + [HighTemperature];
    } else if m.temperature < 15.0 {
      alerts := alerts + [LowTemperature];
    }
    assert alerts == TemperatureAlerts(m.temperature);

    if m.humidity > 70.0 {
      alerts := alerts + [HighHumidity];
    } else if m.humidity < 30.0 {
      alerts := alerts + [LowHumidity];
    }
    assert alerts == TemperatureAlerts(m.temperature) + HumidityAlerts(m.humidity);

    if m.aqi > 150.0 {
      alerts := alerts + [UnhealthyAir];
    } else if m.aqi > 100.0 {
      alerts := alerts + [SensitiveGroups];
    }
    assert alerts == TemperatureAlerts(m.temperature) + HumidityAlerts(m.humidity) + AqiAlerts(m.aqi);

    if m.gasConcentration > 300.0 {
      alerts := alerts + [HighGas];
    }
  }

  /** A reading is normal exactly when it produces no alert. */
  lemma NormalIffNoAlerts(m: Measurements)
    ensures IsReadingNormal(m) <==> AlertsFor(m) == []
  {
  }

  /** At most one alert per metric, in the order temperature, humidity, AQI, gas; so at most four. */
  lemma AlertsOrderedByMetric(m: Measurements)
    ensures |AlertsFor(m)| <= 4
    ensures forall i, j :: 0 <= i < j < |AlertsFor(m)| ==> MetricOf(AlertsFor(m)[i]) < MetricOf(AlertsFor(m)[j])
  {
    var t, h, a, g := TemperatureAlerts(m.temperature), HumidityAlerts(m.humidity), AqiAlerts(m.aqi), GasAlerts(m.gasConcentration);
    var s := AlertsFor(m);
    assert s == t + h + a + g;
    forall i | 0 <= i < |s|
      ensures MetricOf(s[i]) == if i < |t| then 0 else if i < |t| + |h| then 1 else if i < |t| + |h| + |a| then 2 else 3
    {
    }
  }

  /** Each message appears exactly under its own threshold condition. */
  lemma AlertConditions(m: Measurements)
    ensures HighTemperature in AlertsFor(m) <==> m.temperature > 35.0
    ensures LowTemperature in AlertsFor(m) <==> m.temperature < 15.0
    ensures HighHumidity in AlertsFor(m) <==> m.humidity > 70.0
    ensures LowHumidity in AlertsFor(m) <==> m.humidity < 30.0
    ensures UnhealthyAir in AlertsFor(m) <==> m.aqi > 150.0
    ensures SensitiveGroups in AlertsFor(m) <==> 100.0 < m.aqi <= 150.0
    ensures HighGas in AlertsFor(m) <==> m.gasConcentration > 300.0
  {
  }

  /** An AQI above 150 gives "Unhealthy air quality" and never also the sensitive-groups message. */
  lemma UnhealthyExcludesSensitive(m: Measurements)
    requires m.aqi > 150.0
    ensures UnhealthyAir in AlertsFor(m) && SensitiveGroups !in AlertsFor(m)
  {
    AlertConditions(m);
  }
}
