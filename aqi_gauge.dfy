/** The semicircular AQI gauge: a colour/label if-chain and the needle and arc geometry. */
module AqiGauge {
  import opened Numeric
  import AqiThermometer

  datatype GaugeColor = GaugeColor(color: string, labelText: string)

  /** `getAQIColor` */
  function GetAQIColor(aqi: real): GaugeColor
  {
    if aqi <= 50.0 then GaugeColor("#10b981", "Good")
    else if aqi <= 100.0 then GaugeColor("#f59e0b", "Moderate")
    else if aqi <= 150.0 then GaugeColor("#ef4444", "Unhealthy for Sensitive")
    else if aqi <= 200.0 then GaugeColor("#dc2626", "Unhealthy")
    else if aqi <= 300.0 then GaugeColor("#7c2d12", "Very Unhealthy")
    else GaugeColor("#7f1d1d", "Hazardous")
  }

  /** The gauge uses the thermometer's thresholds and level names: the labels agree for every value. */
  lemma LabelsAgreeWithThermometer(aqi: real)
    ensures GetAQIColor(aqi).labelText == AqiThermometer.GetAQILevel(aqi).level
  {
  }

  /** `Math.min((value / 300) * 100, 100)` */
  function Percentage(value: real): (p: real)
    ensures p <= 100.0
    ensures value >= 300.0 ==> p == 100.0
    ensures 0.0 <= value ==> 0.0 <= p
  {
    CappedPercentage(value, 300.0)
  }

  /** `(percentage / 100) * 180 - 90`: the needle angle in degrees. */
  function Rotation(value: real): (r: real)
    ensures r <= 90.0
    ensures 0.0 <= value ==> -90.0 <= r
    ensures value >= 300.0 ==> r == 90.0
    ensures value == 0.0 ==> r == -90.0
  {
    Percentage(value) / 100.0 * 180.0 - 90.0
  }

  /** The drawn part of the arc, `(percentage / 100) * 150.8`, out of a total of 150.8. */
  function DashLength(value: real): (d: real)
    ensures d <= 150.8
    ensures 0.0 <= value ==> 0.0 <= d
    ensures value >= 300.0 ==> d == 150.8
  {
    Percentage(value) / 100.0 * 150.8
  }

  /** The needle turns further the higher the value. */
  lemma RotationMonotone(a: real, b: real)
    requires a <= b
    ensures Rotation(a) <= Rotation(b)
  {
    CappedPercentageMonotone(a, b, 300.0);
  }
}
