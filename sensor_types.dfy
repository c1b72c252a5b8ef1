/**
 * The shared sensor types: the reading record and the AQI category table
 * (`AQI_CATEGORIES`), whose six bands are the US EPA AQI category bands.
 * The table only classifies a given AQI value; nothing here computes an AQI
 * from pollutant concentrations.
 */
module SensorTypes {

  /** One sample from a device as the front end holds it. */
  datatype SensorReading = SensorReading(
    timestamp: int,
    temperature: real,
    humidity: real,
    aqi: real,
    gasConcentration: real,
    status: string)

  /** The keys of `AQI_CATEGORIES` (the `AQICategory` type). */
  datatype AqiCategory = Good | Moderate | UnhealthySensitive | Unhealthy | VeryUnhealthy | Hazardous

  /** One entry of `AQI_CATEGORIES`: an inclusive integer band with its label (`labelText`, as `label` is reserved in Dafny) and colour name. */
  datatype CategoryInfo = CategoryInfo(min: int, max: int, labelText: string, color: string)

  /** `AQI_CATEGORIES[c]` */
  function Info(c: AqiCategory): CategoryInfo
  {
    match c
    case Good => CategoryInfo(0, 50, "Good", "green")
    case Moderate => CategoryInfo(51, 100, "Moderate", "yellow")
    case UnhealthySensitive => CategoryInfo(101, 150, "Unhealthy for Sensitive Groups", "orange")
    case Unhealthy => CategoryInfo(151, 200, "Unhealthy", "red")
    case VeryUnhealthy => CategoryInfo(201, 300, "Very Unhealthy", "purple")
    case Hazardous => CategoryInfo(301, 500, "Hazardous", "maroon")
  }

  /** The keys in the order `Object.entries(AQI_CATEGORIES)` visits them. */
  const Categories: seq<AqiCategory> := [Good, Moderate, UnhealthySensitive, Unhealthy, VeryUnhealthy, Hazardous]

  /** Where a category sits in the table. */
  function Position(c: AqiCategory): (k: nat)
    ensures k < |Categories| && Categories[k] == c
  {
    match c
    case Good => 0
    case Moderate => 1
    case UnhealthySensitive => 2
    case Unhealthy => 3
    case VeryUnhealthy => 4
    case Hazardous => 5
  }

  /** The test of the table searches: `aqi >= info.min && aqi <= info.max`. */
  predicate InBand(c: AqiCategory, aqi: real)
  {
    Info(c).min as real <= aqi <= Info(c).max as real
  }

  /** No band of the table contains `aqi`. */
  predicate InNoBand(aqi: real)
  {
    forall k :: 0 <= k < |Categories| ==> !InBand(Categories[k], aqi)
  }

  /** `c` is the first band, in table order, that contains `aqi`. */
  predicate IsFirstBand(c: AqiCategory, aqi: real)
  {
    InBand(c, aqi) && forall k :: 0 <= k < Position(c) ==> !InBand(Categories[k], aqi)
  }

  /**
   * What a search of the table that falls back to HAZARDOUS answers for
   * `aqi`: the first band containing it, or HAZARDOUS when there is none.
   */
  predicate Classifies(c: AqiCategory, aqi: real)
  {
    if InNoBand(aqi) then c == Hazardous else IsFirstBand(c, aqi)
  }

  /** Six bands, in the order GOOD ... HAZARDOUS, each listed once, each with min <= max. */
  lemma TableWellFormed()
    ensures |Categories| == 6
    ensures Categories[0] == Good && Categories[5] == Hazardous
    ensures forall i, j :: 0 <= i < j < |Categories| ==> Categories[i] != Categories[j]
    ensures forall c :: Info(c).min <= Info(c).max
    ensures forall c :: c in Categories
  {
    forall c ensures c in Categories {
      assert Categories[Position(c)] == c;
    }
  }

  /** On the integers the bands are contiguous: they start at 0, end at 500 and each min is the previous max + 1. */
  lemma BandsContiguous()
    ensures Info(Categories[0]).min == 0
    ensures Info(Categories[|Categories| - 1]).max == 500
    ensures forall k :: 1 <= k < |Categories| ==> Info(Categories[k]).min == Info(Categories[k - 1]).max + 1
  {
  }

  /** No value, integer or not, lies in two bands. */
  lemma BandsDisjoint(c1: AqiCategory, c2: AqiCategory, aqi: real)
    requires InBand(c1, aqi) && InBand(c2, aqi)
    ensures c1 == c2
  {
  }

  /** Each category has its own colour name. */
  lemma ColorsDistinct(c1: AqiCategory, c2: AqiCategory)
    requires Info(c1).color == Info(c2).color
    ensures c1 == c2
  {
  }

  /** `InBand` for an integer value. */
  predicate ContainsInteger(c: AqiCategory, n: int)
  {
    InBand(c, n as real)
  }

  /** Every integer from 0 to 500 belongs to exactly one category. */
  lemma IntegerInExactlyOneBand(n: int)
    requires 0 <= n <= 500
    ensures !InNoBand(n as real)
    ensures exists c :: ContainsInteger(c, n) && forall c' :: ContainsInteger(c', n) ==> c' == c
  {
    var c :=
      if n <= 50 then Good
      else if n <= 100 then Moderate
      else if n <= 150 then UnhealthySensitive
      else if n <= 200 then Unhealthy
      else if n <= 300 then VeryUnhealthy
      else Hazardous;
    assert InBand(Categories[Position(c)], n as real);
    forall c' | ContainsInteger(c', n) ensures c' == c {
      BandsDisjoint(c, c', n as real);
    }
    assert ContainsInteger(c, n);
  }

  /**
   * Negative values, values above 500 and non-integer values between two
   * bands (such as 50.5) lie in no band.
   */
  lemma GapValuesInNoBand(aqi: real)
    requires aqi < 0.0 || aqi > 500.0 ||
             exists k :: 0 <= k < |Categories| - 1 &&
               Info(Categories[k]).max as real < aqi < Info(Categories[k + 1]).min as real
    ensures InNoBand(aqi)
  {
  }

  /** A classification is unique. */
  lemma ClassifiesUnique(c1: AqiCategory, c2: AqiCategory, aqi: real)
    requires Classifies(c1, aqi) && Classifies(c2, aqi)
    ensures c1 == c2
  {
    if !InNoBand(aqi) {
      BandsDisjoint(c1, c2, aqi);
    }
  }

  /** When some band contains `aqi`, the classification is exactly the band that contains it. */
  lemma ClassifiesIsContainingBand(c: AqiCategory, aqi: real)
    requires !InNoBand(aqi)
    ensures Classifies(c, aqi) <==> InBand(c, aqi)
  {
    if InBand(c, aqi) {
      forall k | 0 <= k < Position(c) ensures !InBand(Categories[k], aqi) {
        if InBand(Categories[k], aqi) {
          BandsDisjoint(c, Categories[k], aqi);
        }
      }
    }
  }
}
