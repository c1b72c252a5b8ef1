/** The alert banner: a three-tier classification of the AQI value. */
module AlertBanner {
  import opened Icons

  datatype Variant = Default | Destructive

  datatype AlertInfo = AlertInfo(
    variant: Variant,
    icon: Icon,
    title: string,
    message: string,
    bgColor: string,
    borderColor: string,
    textColor: string)

  /** `getAlertInfo` */
  function GetAlertInfo(aqi: real): AlertInfo
  {
    if aqi <= 50.0 then
      AlertInfo(Default, CheckCircle, "Air Quality: Good",
        "Air quality is satisfactory and poses little or no risk.",
        "bg-green-50 dark:bg-green-950", "border-green-200 dark:border-green-800",
        "text-green-800 dark:text-green-200")
    else if aqi <= 100.0 then
      AlertInfo(Default, InfoCircle, "Air Quality: Moderate",
        "Air quality is acceptable for most people.",
        "bg-yellow-50 dark:bg-yellow-950", "border-yellow-200 dark:border-yellow-800",
        "text-yellow-800 dark:text-yellow-200")
    else
      AlertInfo(Destructive, AlertTriangle, "Air Quality Alert: Unhealthy",
        "Air quality is unhealthy. Sensitive individuals should limit outdoor activities.",
        "bg-red-50 dark:bg-red-950", "border-red-200 dark:border-red-800",
        "text-red-800 dark:text-red-200")
  }

  /** The tier of a banner, 0 Good, 1 Moderate, 2 Unhealthy, by its title. */
  function Tier(info: AlertInfo): nat
  {
    if info.title == "Air Quality: Good" then 0
    else if info.title == "Air Quality: Moderate" then 1
    else 2
  }

  /** Every value falls in exactly one tier: up to 50 Good, up to 100 Moderate, above that Unhealthy. */
  lemma ExactlyOneTier(aqi: real)
    ensures Tier(GetAlertInfo(aqi)) == 0 <==> aqi <= 50.0
    ensures Tier(GetAlertInfo(aqi)) == 1 <==> 50.0 < aqi <= 100.0
    ensures Tier(GetAlertInfo(aqi)) == 2 <==> aqi > 100.0
  {
  }

  /** The banner is "destructive" exactly for values above 100, and "default" otherwise. */
  lemma DestructiveIffAbove100(aqi: real)
    ensures GetAlertInfo(aqi).variant == Destructive <==> aqi > 100.0
    ensures GetAlertInfo(aqi).variant == Default <==> aqi <= 100.0
  {
  }

  lemma TiersMonotone(a: real, b: real)
    requires a <= b
    ensures Tier(GetAlertInfo(a)) <= Tier(GetAlertInfo(b))
  {
  }
}
