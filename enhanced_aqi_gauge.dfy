/**
 * The enhanced circular gauge: a search of `AQI_CATEGORIES` decorated with
 * CSS classes and an icon, and the ring geometry on a 0..500 scale.
 */
module EnhancedAqiGauge {
  import opened Icons
  import opened Numeric
  import opened SensorTypes

  /** The record `getAQIInfo` returns: the category, its table entry spread in, and display choices. */
  datatype AqiInfo = AqiInfo(
    category: AqiCategory,
    min: int,
    max: int,
    labelText: string,
    color: string,
    colorClass: string,
    bgColorClass: string,
    icon: Icon)

  const ColorMap: map<string, string> := map[
    "green" := "text-emerald-600",
    "yellow" := "text-amber-500",
    "orange" := "text-orange-500",
    "red" := "text-red-500",
    "purple" := "text-purple-600",
    "maroon" := "text-red-900"
  ]

  const BgColorMap: map<string, string> := map[
    "green" := "bg-emerald-500",
    "yellow" := "bg-amber-500",
    "orange" := "bg-orange-500",
    "red" := "bg-red-500",
    "purple" := "bg-purple-600",
    "maroon" := "bg-red-900"
  ]

  /** `getColorClass`: `colorMap[color] || "text-gray-500"` (no mapped class is empty). */
  function GetColorClass(color: string): string
  {
    if color in ColorMap then ColorMap[color] else "text-gray-500"
  }

  /** `getBgColorClass` */
  function GetBgColorClass(color: string): string
  {
    if color in BgColorMap then BgColorMap[color] else "bg-gray-500"
  }

  /** `getIcon` */
  function GetIcon(color: string): Icon
  {
    if color == "green" then Leaf
    else if color == "yellow" || color == "orange" then AlertTriangle
    else Skull
  }

  /** The record for a category found in the table. */
  function Decorate(c: AqiCategory): AqiInfo
  {
    var info := Info(c);
    AqiInfo(c, info.min, info.max, info.labelText, info.color,
      GetColorClass(info.color), GetBgColorClass(info.color), GetIcon(info.color))
  }

  /** The record returned when no band contains the value. */
  const Fallback: AqiInfo :=
    AqiInfo(Hazardous, Info(Hazardous).min, Info(Hazardous).max, Info(Hazardous).labelText,
      Info(Hazardous).color, "text-red-900", "bg-red-900", Skull)

  /** The `for ... of` search from table position `i` on, with its early return. */
  function AqiInfoFrom(aqi: real, i: nat): (r: AqiInfo)
    requires i <= |Categories|
    requires forall k :: 0 <= k < i ==> !InBand(Categories[k], aqi)
    ensures Classifies(r.category, aqi)
    ensures !InNoBand(aqi) ==> r == Decorate(r.category)
    ensures InNoBand(aqi) ==> r == Fallback
    decreases |Categories| - i
  {
    if i == |Categories| then Fallback
    else if aqi >= Info(Categories[i]).min as real && aqi <= Info(Categories[i]).max as real then
      assert Position(Categories[i]) == i;
      Decorate(Categories[i])
    else AqiInfoFrom(aqi, i + 1)
  }

  /** `getAQIInfo` */
  function GetAQIInfo(aqi: real): AqiInfo
  {
    AqiInfoFrom(aqi, 0)
  }

  /** The fallback is exactly what the table entry HAZARDOUS decorates to, text class "text-red-900" included. */
  lemma FallbackIsHazardousEntry()
    ensures Fallback == Decorate(Hazardous)
    ensures Fallback.colorClass == "text-red-900"
  {
  }

  /**
   * `getAQIInfo` picks the same category as `getAQICategory` for every input
   * (both are characterised by `Classifies`), and the rest of its record is
   * that category's decorated table entry.
   */
  lemma AgreesWithGetAQICategory(aqi: real, c: AqiCategory)
    requires Classifies(c, aqi)
    ensures GetAQIInfo(aqi).category == c
    ensures GetAQIInfo(aqi) == Decorate(c)
  {
    ClassifiesUnique(GetAQIInfo(aqi).category, c, aqi);
    FallbackIsHazardousEntry();
  }

  /** Every colour of the table has its own text and background class; any other name gets the gray defaults. */
  lemma ColorClassesCoverTable(c1: AqiCategory, c2: AqiCategory, other: string)
    requires other !in ColorMap
    ensures GetColorClass(Info(c1).color) != "text-gray-500"
    ensures GetBgColorClass(Info(c1).color) != "bg-gray-500"
    ensures c1 != c2 ==> GetColorClass(Info(c1).color) != GetColorClass(Info(c2).color)
    ensures GetColorClass(other) == "text-gray-500" && GetBgColorClass(other) == "bg-gray-500"
  {
    assert other !in BgColorMap by {
      assert BgColorMap.Keys == ColorMap.Keys;
    }
  }

  /** The icon by category: GOOD a leaf, MODERATE and UNHEALTHY_SENSITIVE a warning triangle, the rest a skull. */
  lemma IconByCategory(c: AqiCategory)
    ensures Decorate(c).icon == Leaf <==> c == Good
    ensures Decorate(c).icon == AlertTriangle <==> c == Moderate || c == UnhealthySensitive
    ensures Decorate(c).icon == Skull <==> Position(c) >= 3
  {
  }

  /** `Math.min((value / 500) * 100, 100)` */
  function Percentage(value: real): (p: real)
    ensures p <= 100.0
    ensures value >= 500.0 ==> p == 100.0
    ensures 0.0 <= value ==> 0.0 <= p
  {
    CappedPercentage(value, 500.0)
  }

  /** `circumference - (percentage / 100) * circumference`; the circumference (2 * pi * 45) is a parameter. */
  function StrokeDashoffset(value: real, circumference: real): (o: real)
    requires circumference > 0.0
    ensures 0.0 <= o
    ensures 0.0 <= value ==> o <= circumference
    ensures value >= 500.0 ==> o == 0.0
    ensures value == 0.0 ==> o == circumference
  {
    var fraction := Percentage(value) / 100.0;
    assert fraction * circumference <= 1.0 * circumference;
    circumference - fraction * circumference
  }
}
