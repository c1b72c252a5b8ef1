/**
 * The thermometer card: a six-tier if-chain on the AQI value, a fill
 * percentage on a 0..300 scale and five fixed background segments.
 */
module AqiThermometer {
  import opened Icons
  import opened Numeric
  import opened SensorTypes

  datatype AqiLevel = AqiLevel(
    level: string,
    color: string,
    bgColor: string,
    textColor: string,
    icon: Icon,
    description: string)

  /** `getAQILevel`: the first tier whose upper threshold (50, 100, 150, 200, 300) is not exceeded, else Hazardous. */
  function GetAQILevel(aqi: real): AqiLevel
  {
    if aqi <= 50.0 then
      AqiLevel("Good", "#059669", "bg-emerald-50 dark:bg-emerald-950",
        "text-emerald-700 dark:text-emerald-300", CheckCircle, "Air quality is satisfactory")
    else if aqi <= 100.0 then
      AqiLevel("Moderate", "#d97706", "bg-amber-50 dark:bg-amber-950",
        "text-amber-700 dark:text-amber-300", AlertTriangle, "Air quality is acceptable")
    else if aqi <= 150.0 then
      AqiLevel("Unhealthy for Sensitive", "#ea580c", "bg-orange-50 dark:bg-orange-950",
        "text-orange-700 dark:text-orange-300", AlertTriangle, "Sensitive groups may be affected")
    else if aqi <= 200.0 then
      AqiLevel("Unhealthy", "#dc2626", "bg-red-50 dark:bg-red-950",
        "text-red-700 dark:text-red-300", XCircle, "Everyone may be affected")
    else if aqi <= 300.0 then
      AqiLevel("Very Unhealthy", "#9333ea", "bg-purple-50 dark:bg-purple-950",
        "text-purple-700 dark:text-purple-300", XCircle, "Health warnings of emergency conditions")
    else
      AqiLevel("Hazardous", "#991b1b", "bg-red-50 dark:bg-red-950",
        "text-red-800 dark:text-red-200", XCircle, "Health alert: everyone may be affected")
  }

  /** The six level names, in increasing order of severity. */
  const LevelNames: seq<string> :=
    ["Good", "Moderate", "Unhealthy for Sensitive", "Unhealthy", "Very Unhealthy", "Hazardous"]

  /** The upper thresholds of the first five tiers. */
  const UpperThresholds: seq<real> := [50.0, 100.0, 150.0, 200.0, 300.0]

  /** How many thresholds of `ts` the value exceeds. */
  function ExceededCount(ts: seq<real>, x: real): (n: nat)
    ensures n <= |ts|
    ensures (forall i :: 0 <= i < |ts| ==> x <= ts[i]) ==> n == 0
    ensures (forall i :: 0 <= i < |ts| ==> x > ts[i]) ==> n == |ts|
  {
    if ts == [] then 0 else (if x > ts[0] then 1 else 0) + ExceededCount(ts[1..], x)
  }

  /** Where a level name sits in `LevelNames` (6 for a name not in the list). */
  function LevelRank(level: string): (k: nat)
    ensures k <= |LevelNames|
    ensures k < |LevelNames| ==> LevelNames[k] == level
  {
    if level == LevelNames[0] then 0
    else if level == LevelNames[1] then 1
    else if level == LevelNames[2] then 2
    else if level == LevelNames[3] then 3
    else if level == LevelNames[4] then 4
    else if level == LevelNames[5] then 5
    else 6
  }

  /** The number of upper thresholds a value exceeds, spelled out threshold by threshold. */
  lemma ExceededUpperThresholds(aqi: real)
    ensures ExceededCount(UpperThresholds, aqi) ==
      (if aqi > 50.0 then 1 else 0) + (if aqi > 100.0 then 1 else 0) + (if aqi > 150.0 then 1 else 0) +
      (if aqi > 200.0 then 1 else 0) + (if aqi > 300.0 then 1 else 0)
  {
    var t4: seq<real> := [300.0];
    var t3: seq<real> := [200.0] + t4;
    var t2: seq<real> := [150.0] + t3;
    var t1: seq<real> := [100.0] + t2;
    assert UpperThresholds == [50.0] + t1;
    assert t4[1..] == [] && t3[1..] == t4 && t2[1..] == t3 && t1[1..] == t2 && UpperThresholds[1..] == t1;
    assert ExceededCount(t4, aqi) == if aqi > 300.0 then 1 else 0;
    assert ExceededCount(t3, aqi) == (if aqi > 200.0 then 1 else 0) + ExceededCount(t4, aqi);
    assert ExceededCount(t2, aqi) == (if aqi > 150.0 then 1 else 0) + ExceededCount(t3, aqi);
    assert ExceededCount(t1, aqi) == (if aqi > 100.0 then 1 else 0) + ExceededCount(t2, aqi);
  }

  /**
   * The function is total over the reals: every value gets one of the six
   * levels, and its rank is the number of upper thresholds it exceeds.
   */
  lemma LevelCountsThresholds(aqi: real)
    ensures LevelRank(GetAQILevel(aqi).level) < |LevelNames|
    ensures LevelRank(GetAQILevel(aqi).level) == ExceededCount(UpperThresholds, aqi)
  {
    ExceededUpperThresholds(aqi);
  }

  /** A higher AQI never gives a less severe level. */
  lemma LevelMonotone(a: real, b: real)
    requires a <= b
    ensures LevelRank(GetAQILevel(a).level) <= LevelRank(GetAQILevel(b).level)
  {
  }

  /** For every integer from 0 to 500 the level agrees with the band of `AQI_CATEGORIES`. */
  lemma LevelAgreesWithTableOnIntegers(n: int, c: AqiCategory)
    requires 0 <= n <= 500
    requires Classifies(c, n as real)
    ensures LevelRank(GetAQILevel(n as real).level) == Position(c)
  {
    IntegerInExactlyOneBand(n);
    ClassifiesIsContainingBand(c, n as real);
  }

  /** Between bands the two disagree: 50.5 is "Moderate" here, while the table search falls back to HAZARDOUS. */
  lemma GapValueDisagreesWithTable(c: AqiCategory)
    requires Classifies(c, 50.5)
    ensures GetAQILevel(50.5).level == "Moderate"
    ensures c == Hazardous
  {
    assert Info(Categories[0]).max as real < 50.5 < Info(Categories[1]).min as real;
    GapValuesInNoBand(50.5);
  }

  /** `Math.min((value / 300) * 100, 100)`: the height of the mercury column. */
  function FillPercentage(value: real): (p: real)
    ensures p <= 100.0
    ensures value >= 300.0 ==> p == 100.0
    ensures 0.0 <= value ==> 0.0 <= p
    ensures value < 0.0 ==> p < 0.0
  {
    CappedPercentage(value, 300.0)
  }

  datatype Segment = Segment(min: int, max: int, color: string, labelText: string)

  /** The five coloured background segments of the thermometer. */
  const Segments: seq<Segment> := [
    Segment(0, 50, "#059669", "Good"),
    Segment(51, 100, "#d97706", "Moderate"),
    Segment(101, 150, "#ea580c", "Unhealthy for Sensitive"),
    Segment(151, 200, "#dc2626", "Unhealthy"),
    Segment(201, 300, "#9333ea", "Very Unhealthy")
  ]

  /**
   * The segments cover the integers 0..300 without gaps, repeat the first
   * five bands of `AQI_CATEGORIES`, and each is drawn in the colour and
   * with the name of the level at its upper end.
   */
  lemma SegmentsContiguous()
    ensures |Segments| == 5
    ensures Segments[0].min == 0 && Segments[4].max == 300
    ensures forall k :: 1 <= k < |Segments| ==> Segments[k].min == Segments[k - 1].max + 1
    ensures forall k :: 0 <= k < |Segments| ==>
      Segments[k].min == Info(Categories[k]).min && Segments[k].max == Info(Categories[k]).max
    ensures forall k :: 0 <= k < |Segments| ==>
      Segments[k].color == GetAQILevel(Segments[k].max as real).color &&
      Segments[k].labelText == GetAQILevel(Segments[k].max as real).level
  {
  }
}
