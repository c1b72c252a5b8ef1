# Air-quality dashboard: a verified model of its decision logic

The system is a Next.js dashboard for ESP32 air-quality sensors. A device posts readings to an
ingestion endpoint, which stores them in MongoDB. The page polls for the latest reading every
five seconds. It keeps a bounded history of readings, aggregates the historical readings into
hourly averages, and renders several widgets. Each widget classifies the AQI value by its own
thresholds.

This project models that logic in Dafny and proves what the code promises:

- the AQI category table (the US EPA AQI bands) and the table search of `getAQICategory` and `getAQIInfo`;
- the independent threshold chains of the thermometer, the gauge and the alert banner, and where they agree or differ;
- the gauge geometry;
- the "normal reading" check and the alert list;
- the Celsius-to-Fahrenheit conversion;
- the trend rules of the overview and the hourly chart;
- the hourly aggregation (`processHistoricalData`);
- the history buffer and the state changes of one polling round;
- the ingestion guard chain with its single insert;
- the CSV serialiser, the export dispatch and the service singleton.

The modelling conventions are these:

- Numbers are `real`.
- `Math.round(x)` is `Floor(x + 1/2)`.
- Hours of the day are naturals below 24.
- Timestamps are integers.
- JavaScript `undefined`/`null` is `Option.None`.
- Every fetch outcome, the clock, the configured API key and every database outcome are parameters.

Each source file is one module:

| source | module |
|---|---|
| types/sensor.ts | `SensorTypes` |
| lib/sensor-utils.ts | `SensorUtils` |
| components/aqi-thermometer.tsx | `AqiThermometer` |
| components/aqi-gauge.tsx | `AqiGauge` |
| components/enhanced-aqi-gauge.tsx | `EnhancedAqiGauge` |
| components/alert-banner.tsx | `AlertBanner` |
| components/environmental-overview.tsx | `EnvironmentalOverview` |
| components/hourly-chart.tsx | `HourlyChart` |
| app/page.tsx | `DashboardPage` |
| app/api/sensor-data/ingest/route.ts | `IngestRoute` |
| lib/data-service.ts | `DataService` |

Shared arithmetic (rounding, sums, means, extremes, the capped percentage, decimal digits) is in
`Numeric`. `Option` is in `Wrappers`, and the icon names are in `Icons`.

State that the code changes in place is modelled as classes, each with a method proved against a
specification function:

- `DashboardPage.Dashboard` holds the page's four state variables. `FetchSensorData` is one polling round.
- `IngestRoute.ReadingStore` holds the readings collection. `Post` is the request handler.
- `DataService.ServiceSlot` holds the static instance. `GetInstance` creates it lazily.

The loops are methods with invariants: the table scan of `getAQICategory` and the grouping
`forEach` of `processHistoricalData`. The straight-line `push` sequence of `generateAlerts` is a
method proved equal to the alert list `AlertsFor`.

The code has no timer- or staleness-based liveness rule. The online flag changes only on fetch
outcomes, as `DashboardPage.Poll` models.

## Model

| member | source | states |
|---|---|---|
| SensorTypes.TableWellFormed | types/sensor.ts:30-37 | the table has six entries in the order GOOD … HAZARDOUS, each category once, each with min ≤ max |
| SensorTypes.BandsContiguous | types/sensor.ts:31-36 | the bands start at 0, end at 500, and each min is the previous max + 1 |
| SensorTypes.BandsDisjoint | types/sensor.ts:30-37 | no value, integer or not, lies in two bands |
| SensorTypes.ColorsDistinct | types/sensor.ts:31-36 | each category has its own colour name |
| SensorTypes.IntegerInExactlyOneBand | types/sensor.ts:30-37 | every integer from 0 to 500 lies in exactly one band |
| SensorTypes.GapValuesInNoBand | types/sensor.ts:30-37 | negative values, values above 500 and values strictly between two bands (such as 50.5) lie in no band |
| SensorTypes.ClassifiesUnique | types/sensor.ts:30-37 | a table search with the HAZARDOUS fallback has exactly one answer per value |
| SensorTypes.ClassifiesIsContainingBand | types/sensor.ts:30-37 | when some band contains the value, the search answers exactly that band |
| SensorUtils.GetAQICategory | lib/sensor-utils.ts:4-12 | the scan returns the first band, in table order, whose inclusive [min, max] holds the value, or HAZARDOUS when none does; `info` is that category's table entry |
| SensorUtils.IntegerAqiFindsItsBand | lib/sensor-utils.ts:4-12 | for an integer from 0 to 500 the fallback is never taken, and the returned band holds the value |
| SensorUtils.OutOfBandFallsBackToHazardous | lib/sensor-utils.ts:10-11 | negative values, values above 500 and gap values are reported HAZARDOUS |
| SensorUtils.GapValueExample | lib/sensor-utils.ts:5-11 | 50.5 is reported HAZARDOUS |
| SensorUtils.CelsiusToFahrenheit | lib/sensor-utils.ts:15-17 | the result is a multiple of 0.1 within 0.05 of c·9/5+32, that is c·9/5+32 rounded to one decimal |
| SensorUtils.FahrenheitFixedPoints | lib/sensor-utils.ts:15-17 | 0 °C gives 32, 100 °C gives 212, and −40 gives −40 |
| SensorUtils.FahrenheitMonotone | lib/sensor-utils.ts:15-17 | the conversion never decreases as the input grows |
| SensorUtils.GenerateAlerts | lib/sensor-utils.ts:42-73 | the successive pushes produce the alert list of the reading (`AlertsFor`) |
| SensorUtils.IsReadingNormal | lib/sensor-utils.ts:25-38 | the four range checks (temperature 15–35, humidity 30–70, AQI at most 100, gas at most 300); `NormalIffNoAlerts` proves they hold exactly when `AlertsFor` is empty |
| SensorUtils.AlertsFor | lib/sensor-utils.ts:42-73 | the alert list `generateAlerts` builds, one optional message per metric in the source's order; `GenerateAlerts` computes it, `AlertConditions` and `AlertsOrderedByMetric` state which alerts appear and in what order |
| SensorUtils.NormalIffNoAlerts | lib/sensor-utils.ts:25-72 | `isReadingNormal` holds exactly when no alert is generated |
| SensorUtils.AlertsOrderedByMetric | lib/sensor-utils.ts:48-72 | at most one alert per metric, in the order temperature, humidity, AQI, gas; at most four |
| SensorUtils.AlertConditions | lib/sensor-utils.ts:50-70 | each of the seven messages appears exactly under its own threshold condition |
| SensorUtils.UnhealthyExcludesSensitive | lib/sensor-utils.ts:62-66 | AQI above 150 yields "Unhealthy air quality" and never also the sensitive-groups message |
| AqiThermometer.GetAQILevel | components/aqi-thermometer.tsx:14-67 | the six-way threshold chain; `LevelCountsThresholds` proves the level is the one indexed by the number of thresholds exceeded, `LevelMonotone` that it never falls as the value rises |
| AqiThermometer.ExceededCount | components/aqi-thermometer.tsx:14-67 | the number of thresholds a value exceeds is at most their number, none when every threshold is at least the value, all when every one is below it |
| AqiThermometer.ExceededUpperThresholds | components/aqi-thermometer.tsx:14-67 | the count over 50/100/150/200/300 is the sum of the five individual comparisons |
| AqiThermometer.LevelCountsThresholds | components/aqi-thermometer.tsx:14-67 | the level is the name whose index is the number of thresholds 50/100/150/200/300 the value exceeds; the chain is total |
| AqiThermometer.LevelMonotone | components/aqi-thermometer.tsx:15-60 | the level index never decreases as the value grows |
| AqiThermometer.LevelAgreesWithTableOnIntegers | components/aqi-thermometer.tsx:14-67 | for integers from 0 to 500 the tier is the table band's |
| AqiThermometer.GapValueDisagreesWithTable | components/aqi-thermometer.tsx:24-32 | 50.5 is "Moderate" here but HAZARDOUS in the table search |
| AqiThermometer.FillPercentage | components/aqi-thermometer.tsx:71 | at most 100, exactly 100 from 300 up, non-negative for non-negative values, negative for negative values (no lower clamp) |
| AqiThermometer.SegmentsContiguous | components/aqi-thermometer.tsx:74-80 | five segments cover the integers 0..300 without gaps, repeat the first five table bands, and carry the colour and name of the level at their upper end |
| AqiGauge.GetAQIColor | components/aqi-gauge.tsx:12-19 | the gauge's colour and label chain; `LabelsAgreeWithThermometer` proves it picks the same tier as the thermometer for every value |
| AqiGauge.LabelsAgreeWithThermometer | components/aqi-gauge.tsx:12-19 | the gauge's label equals the thermometer's level name for every value |
| AqiGauge.Percentage | components/aqi-gauge.tsx:22 | at most 100, exactly 100 from 300 up, non-negative for non-negative values |
| AqiGauge.Rotation | components/aqi-gauge.tsx:23 | the needle angle lies in [−90, 90] for non-negative values, is −90 at 0 and 90 from 300 up |
| AqiGauge.RotationMonotone | components/aqi-gauge.tsx:23 | the needle turns further the higher the value |
| AqiGauge.DashLength | components/aqi-gauge.tsx:46 | the drawn arc never exceeds 150.8, and is the whole arc from 300 up |
| EnhancedAqiGauge.GetAQIInfo | components/enhanced-aqi-gauge.tsx:16-35 | the band search over the category table; `AqiInfoFrom` specifies the search, `AgreesWithGetAQICategory` proves it returns what `getAQICategory` returns |
| EnhancedAqiGauge.AqiInfoFrom | components/enhanced-aqi-gauge.tsx:16-35 | the search answers the first containing band, decorated with its classes and icon, or the fixed HAZARDOUS fallback when no band holds the value |
| EnhancedAqiGauge.AgreesWithGetAQICategory | components/enhanced-aqi-gauge.tsx:17-27 | `getAQIInfo` picks the same category as `getAQICategory` for every value |
| EnhancedAqiGauge.FallbackIsHazardousEntry | components/enhanced-aqi-gauge.tsx:28-34 | the fallback record equals the decorated HAZARDOUS entry, with class "text-red-900" |
| EnhancedAqiGauge.GetColorClass | components/enhanced-aqi-gauge.tsx:37-47 | the text class per colour name; `ColorClassesCoverTable` proves every table colour has a distinct non-gray class |
| EnhancedAqiGauge.GetBgColorClass | components/enhanced-aqi-gauge.tsx:49-59 | the background class per colour name; `ColorClassesCoverTable` proves every table colour has a non-gray one |
| EnhancedAqiGauge.GetIcon | components/enhanced-aqi-gauge.tsx:61-65 | the icon per colour name; `IconByCategory` states which category shows which icon |
| EnhancedAqiGauge.ColorClassesCoverTable | components/enhanced-aqi-gauge.tsx:37-59 | every table colour has its own non-gray text class and a non-gray background class; unknown names get the gray defaults |
| EnhancedAqiGauge.IconByCategory | components/enhanced-aqi-gauge.tsx:61-65 | GOOD shows a leaf, MODERATE and UNHEALTHY_SENSITIVE a warning triangle, the other categories a skull |
| EnhancedAqiGauge.Percentage | components/enhanced-aqi-gauge.tsx:68 | at most 100, exactly 100 from 500 up, non-negative for non-negative values |
| EnhancedAqiGauge.StrokeDashoffset | components/enhanced-aqi-gauge.tsx:68-71 | the offset lies in [0, circumference] for non-negative values, is the full circumference at 0 and 0 from 500 up |
| AlertBanner.GetAlertInfo | components/alert-banner.tsx:12-44 | the three-tier banner; `ExactlyOneTier`, `DestructiveIffAbove100` and `TiersMonotone` state its tiers |
| AlertBanner.ExactlyOneTier | components/alert-banner.tsx:12-44 | every value is in exactly one tier: up to 50 Good, up to 100 Moderate, above that Unhealthy |
| AlertBanner.DestructiveIffAbove100 | components/alert-banner.tsx:14-36 | the variant is "destructive" exactly above 100, and "default" otherwise |
| AlertBanner.TiersMonotone | components/alert-banner.tsx:13-35 | the tier never decreases as the value grows |
| EnvironmentalOverview.GetTrend | components/environmental-overview.tsx:18-24 | the percentage-change trend; `StableWithoutPrevious`, `TrendForPositivePrevious` and `TrendForNegativePrevious` state it for every sign of the previous value |
| EnvironmentalOverview.StableWithoutPrevious | components/environmental-overview.tsx:19 | a previous value of 0 always gives "stable" |
| EnvironmentalOverview.TrendForPositivePrevious | components/environmental-overview.tsx:18-24 | for a positive previous value: "up" exactly above 102 % of it, "down" exactly below 98 %, "stable" in between |
| EnvironmentalOverview.TrendForNegativePrevious | components/environmental-overview.tsx:20-23 | for a negative previous value the comparison flips: "up" exactly below 102 % of it, "down" exactly above 98 % |
| EnvironmentalOverview.NegativeRiseIsDown | components/environmental-overview.tsx:20 | a rise from −10 to −5 is reported "down" |
| EnvironmentalOverview.TrendColor | components/environmental-overview.tsx:26-35 | the colour class per trend; `TrendPresentationDistinct` proves the three differ |
| EnvironmentalOverview.TrendIcon | components/environmental-overview.tsx:37-46 | the arrow per trend; `TrendPresentationDistinct` proves the three differ |
| EnvironmentalOverview.TrendPresentationDistinct | components/environmental-overview.tsx:26-46 | each trend has its own colour class and its own arrow |
| EnvironmentalOverview.OrZero | components/environmental-overview.tsx:15-16 | a missing latest or previous reading reads as 0; otherwise the reading's value |
| EnvironmentalOverview.MetricOf | components/environmental-overview.tsx:48-98 | a tile shows the latest value of its quantity and the trend from the previous one |
| EnvironmentalOverview.Metrics | components/environmental-overview.tsx:48-99 | four tiles, in order temperature, humidity, gas level, air quality |
| EnvironmentalOverview.SingleReadingAllStable | components/environmental-overview.tsx:15-16 | with a single reading every tile's trend is "stable" |
| EnvironmentalOverview.TilesShowLatest | components/environmental-overview.tsx:51-81 | each tile's value is the latest reading's value of its quantity |
| EnvironmentalOverview.AqiTier | components/environmental-overview.tsx:81-95 | the AQI tile's colour tier; `AqiTierMatchesBanner` proves it matches the alert banner |
| EnvironmentalOverview.AqiTierMatchesBanner | components/environmental-overview.tsx:84-95 | the tile is red above 100, amber above 50 and green otherwise, matching the alert banner's tiers |
| HourlyChart.GetAverage | components/hourly-chart.tsx:20-23 | the column average lies between the column's smallest and largest value |
| HourlyChart.AverageOfConstantColumn | components/hourly-chart.tsx:20-23 | a column with one value throughout averages to that value |
| HourlyChart.GetTrendIcon | components/hourly-chart.tsx:29-33 | the trend arrow against the average; `TrendIconForPositiveAverage`, `TrendIconForZeroAverage` and `NegativeAverageShowsUp` state it for every sign of the average |
| HourlyChart.TrendIconForPositiveAverage | components/hourly-chart.tsx:29-33 | for a positive average: up exactly above 105 %, down exactly below 95 %, flat in between; the cases are exclusive and exhaustive |
| HourlyChart.NegativeAverageShowsUp | components/hourly-chart.tsx:29-33 | for a negative average the two bands overlap and "up", the first branch, wins: a value equal to the average shows up, every value shows up or down, and the flat icon never appears |
| HourlyChart.TrendIconForZeroAverage | components/hourly-chart.tsx:29-33 | for a zero average: up exactly above 0, down exactly below 0, flat exactly at 0 |
| HourlyChart.AqiSummaryColor | components/hourly-chart.tsx:62 | the summary colour; `SummaryColorMatchesBanner` proves it matches the banner's tiers |
| HourlyChart.SummaryColorMatchesBanner | components/hourly-chart.tsx:62 | the AQI summary is red above 100, yellow above 50 and green otherwise, matching the banner's tiers |
| HourlyChart.HoursBadge | components/hourly-chart.tsx:45 | the badge's count; `BadgeAtMost24` bounds it |
| HourlyChart.BadgeAtMost24 | components/hourly-chart.tsx:45 | the "Last N hours" badge counts buckets, at most 24 for the page's aggregate |
| DashboardPage.HourLabel | app/page.tsx:83 | the label has five characters; `HourLabelDigits` and `LabelHourOfLabel` fix its content |
| DashboardPage.HourLabelDigits | app/page.tsx:83 | the label is the hour as two decimal digits, zero-padded, followed by ":00" |
| DashboardPage.LabelHourOfLabel | app/page.tsx:83 | the hour can be read back from its label |
| DashboardPage.HourLabelInjective | app/page.tsx:83 | distinct hours have distinct labels |
| DashboardPage.HourLabelOrder | app/page.tsx:83-97 | labels compare by code unit exactly as their hours compare |
| DashboardPage.LabelledMembers | app/page.tsx:81-89 | a group holds exactly the readings that carry its label |
| DashboardPage.GroupsOf | app/page.tsx:79-89 | the dictionary has one key per label that occurs |
| DashboardPage.GroupsOfContents | app/page.tsx:81-89 | every group is non-empty and holds only its own label's readings, and every reading is in the group of its own label |
| DashboardPage.GroupsOfSnoc | app/page.tsx:85-88 | handling one more reading pushes it onto its label's array, created empty if missing, and leaves every other group unchanged |
| DashboardPage.GroupSizesSumToLength | app/page.tsx:81-89 | the group sizes add up to the number of readings, so each reading is in exactly one group |
| DashboardPage.ProcessHistoricalData | app/page.tsx:75-98 | the method (early return, `forEach` grouping, entries to buckets) computes `HourlyAverages` |
| DashboardPage.HourlyAverages | app/page.tsx:75-98 | the hourly aggregate; `ProcessHistoricalData` computes it and the lemmas below state its buckets, order and averages |
| DashboardPage.EmptyInputNoBuckets | app/page.tsx:76 | no readings give no buckets |
| DashboardPage.BucketsSortedByLabel | app/page.tsx:92-97 | buckets are strictly ascending by label, hence distinct, at most 24 |
| DashboardPage.BucketLabelsOccur | app/page.tsx:92-97 | every bucket's label occurs in the input |
| DashboardPage.OccurringLabelsHaveBuckets | app/page.tsx:92-97 | every label that occurs in the input has a bucket |
| DashboardPage.BucketAverages | app/page.tsx:94-96 | a bucket's three values are the rounded means of its own group: temperature to one decimal, humidity and AQI to whole numbers; each unrounded mean lies between the group's extremes |
| DashboardPage.SameHourExample | app/page.tsx:75-98 | temperatures 20.0 and 22.0, humidities 40 and 44 and AQIs 50 and 60 in one hour give the single bucket 21.0 / 42 / 55 |
| DashboardPage.SingleGroupBuckets | app/page.tsx:92-97 | a dictionary with a single entry yields that one bucket |
| DashboardPage.SortedBuckets | app/page.tsx:92-97 | at most one bucket per remaining hour |
| DashboardPage.SortedBucketsEntries | app/page.tsx:92-96 | each bucket stands for a dictionary entry and averages that entry |
| DashboardPage.SortedBucketsIncreasing | app/page.tsx:97 | buckets come in strictly increasing hour order |
| DashboardPage.SortedBucketsComplete | app/page.tsx:92 | every dictionary entry gets a bucket |
| DashboardPage.AppendReading | app/page.tsx:44-51 | a reading with the last reading's timestamp leaves the history unchanged; otherwise the result is the last ≤49 old readings followed by the new one |
| DashboardPage.LastN | app/page.tsx:48 | `slice(-n)` keeps the last min(n, length) elements |
| DashboardPage.HistoryBounded | app/page.tsx:44-51 | the history never exceeds 50 readings, and its newest reading has the new timestamp |
| DashboardPage.DedupOnlyLast | app/page.tsx:46-47 | a timestamp equal to an older, non-last reading is still appended |
| DashboardPage.ReadingOf | app/page.tsx:34-42 | the reading keeps the response's timestamp, temperature, humidity, AQI and gas concentration; status is the response's when non-empty, else "online" |
| DashboardPage.Dashboard.FetchSensorData | app/page.tsx:27-72 | one polling round changes the four state variables as `Poll` says, and keeps the history within 50 |
| DashboardPage.Dashboard.constructor | app/page.tsx:15-25 | the initial state is no readings, no hourly data, no update time, online |
| DashboardPage.Poll | app/page.tsx:27-72 | one polling round on the page state; `Dashboard.FetchSensorData` performs it and `OnlineAfterPoll`, `NoDataKeepsHistory`, `HourlyDataReplacedOnlyOnSuccess` and `PollKeepsHistoryBounded` state its effect |
| DashboardPage.OnlineAfterPoll | app/page.tsx:52-71 | after a round the page is online exactly when the current response had data and the historical step did not throw |
| DashboardPage.NoDataKeepsHistory | app/page.tsx:64-67 | a round without current data only clears the online flag |
| DashboardPage.HourlyDataReplacedOnlyOnSuccess | app/page.tsx:59-63 | hourly data is replaced only by the aggregate of a successful, non-empty historical result |
| DashboardPage.PollKeepsHistoryBounded | app/page.tsx:44-51 | a round keeps the history within 50 readings, and after a round with data the newest reading is that data's |
| DashboardPage.BannerAqi | app/page.tsx:144 | the banner is shown exactly when there is a latest reading with AQI above 100, and gets that value |
| DashboardPage.BannerOnlyDestructive | components/alert-banner.tsx:35-43 | from the page only the destructive, unhealthy tier of the banner is reachable |
| IngestRoute.ReadingStore.Post | app/api/sensor-data/ingest/route.ts:4-80 | the handler answers `Respond` and appends exactly the documents of `Inserted` to the collection |
| IngestRoute.Respond | app/api/sensor-data/ingest/route.ts:4-80 | the handler's response; `Decide` classifies the request, `ReadingStore.Post` performs it and `StoredIffOneInsert` ties it to the insert |
| IngestRoute.StoredIffOneInsert | app/api/sensor-data/ingest/route.ts:61-67 | a success response comes with exactly one insert, and its timestamp is the stored one; every other response comes with none |
| IngestRoute.MalformedBodyBeforeKey | app/api/sensor-data/ingest/route.ts:6-78 | a malformed body gives 500 whatever the key, and nothing is written |
| IngestRoute.NullBodyIs500 | app/api/sensor-data/ingest/route.ts:6-78 | an authorised `null` body passes the key check, then reading its fields throws into the catch: 500, and nothing is written |
| IngestRoute.WrongKeyIs401 | app/api/sensor-data/ingest/route.ts:9-12 | with a parseable body, a key mismatch is exactly the 401 case, decided before any field check, and nothing is written |
| IngestRoute.UnsetKeyRejectsAll | app/api/sensor-data/ingest/route.ts:9-10 | with no key configured every parseable request gets 401, even one without the header |
| IngestRoute.MissingFieldIs400 | app/api/sensor-data/ingest/route.ts:15-28 | any missing measurement gives 400 with the one message naming all four, and nothing is written |
| IngestRoute.NaNFieldIs400 | app/api/sensor-data/ingest/route.ts:32-39 | once all four measurements are present, any one that does not parse as a number gives 400 with the one "Invalid data types" message, and nothing is written |
| IngestRoute.NullFieldIsInvalidType | app/api/sensor-data/ingest/route.ts:15-39 | a `null` in any of the four measurements passes the presence check, then fails the number check with 400, and nothing is written |
| IngestRoute.TextFieldIsInvalidType | app/api/sensor-data/ingest/route.ts:32-39 | a measurement sent as the text "abc" gives 400 and nothing is written |
| IngestRoute.NoRangeCheck | app/api/sensor-data/ingest/route.ts:47-52 | numeric measurements are stored unchanged, whatever their size; a missing deviceId becomes "ESP32_001" |
| IngestRoute.AddressFallback | app/api/sensor-data/ingest/route.ts:56 | the address falls back from x-forwarded-for to x-real-ip to "unknown" |
| IngestRoute.Decide | app/api/sensor-data/ingest/route.ts:6-39 | a request is accepted exactly when its body parses to a value other than null, the key matches, all four measurements are present and each parses as a number, and then the accepted values are the parsed ones; a present but unparseable measurement is the 400 "Invalid data types" rejection; every rejection is 400, 401 or 500 |
| IngestRoute.BuildRecord | app/api/sensor-data/ingest/route.ts:47-59 | the document holds the time, the parsed values, status "online", the deviceId if truthy else "ESP32_001", the address fallback chain and the user agent or "ESP32" |
| IngestRoute.Inserted | app/api/sensor-data/ingest/route.ts:61 | a request inserts at most one document |
| IngestRoute.FirstHeader | app/api/sensor-data/ingest/route.ts:56 | the first header that is present and non-empty, else the fallback |
| IngestRoute.HeaderOr | app/api/sensor-data/ingest/route.ts:57 | the header when present and not empty, else the fallback: the user agent, or "ESP32" |
| IngestRoute.ParseField | app/api/sensor-data/ingest/route.ts:32-35 | a JSON number parses to itself; a text parses as `parseFloat` reads it |
| IngestRoute.ParseFloatText | app/api/sensor-data/ingest/route.ts:32-35 | `parseFloat` on text; `ParsesNatText`, `ParsesNegatedNatText`, `NonNumericStartIsNaN` and the examples state what it reads |
| IngestRoute.NullAndBooleansAreNaN | app/api/sensor-data/ingest/route.ts:32-37 | `null`, `true` and `false` turn into texts that are NaN |
| IngestRoute.ParsesNatText | app/api/sensor-data/ingest/route.ts:32-35 | a natural number's decimal text, then anything that cannot continue it, parses back to the number |
| IngestRoute.ParsesNegatedNatText | app/api/sensor-data/ingest/route.ts:32-35 | the same with a leading minus sign gives the negated number |
| IngestRoute.NonNumericStartIsNaN | app/api/sensor-data/ingest/route.ts:37 | a text that starts with anything but white space, a sign, a digit or a point is NaN |
| IngestRoute.UnsignedOfFraction | app/api/sensor-data/ingest/route.ts:32-35 | a point and digits parse to the fraction they write |
| IngestRoute.ParseFractionExample | app/api/sensor-data/ingest/route.ts:32-35 | ".25" parses to 0.25 |
| IngestRoute.ParseSignedExample | app/api/sensor-data/ingest/route.ts:32-35 | " -7kg" parses to −7: leading white space is skipped and trailing text ignored |
| DataService.ServiceSlot.GetInstance | lib/data-service.ts:11-16 | the instance is created only when none exists, and the stored instance is returned |
| DataService.TwoCallsSameInstance | lib/data-service.ts:11-16 | two calls return the same object |
| DataService.ExportData | lib/data-service.ts:57-63 | "csv" yields the CSV download of the data; every other format goes to the PDF path |
| DataService.EmptyCsv | lib/data-service.ts:66-69 | no rows give the empty text |
| DataService.Headers | lib/data-service.ts:66 | the header is the first row's keys, or none for no rows |
| DataService.CsvContent | lib/data-service.ts:66-69 | the CSV export text; `CsvLines`, `CsvStartsWithHeader` and `CsvFieldCount` state its lines and fields |
| DataService.CsvStartsWithHeader | lib/data-service.ts:66-67 | the text starts with the first row's keys joined by ",", followed by a newline when there are rows |
| DataService.CsvLines | lib/data-service.ts:67-69 | the line list has data.length + 1 entries: the header, then each row over the header keys. The text has that many lines only when no key or value holds a newline (`CsvLineCount`) |
| DataService.CsvLineCount | lib/data-service.ts:67-69 | without newlines in keys or values the text has exactly one newline per row (no trailing newline) |
| DataService.FieldText | lib/data-service.ts:67 | a row's field for a header key is that key's value, or empty when the row lacks the key |
| DataService.LineIgnoresOtherKeys | lib/data-service.ts:66-67 | a line depends only on the header keys; keys found only in later rows are dropped |
| DataService.CsvFieldCount | lib/data-service.ts:67 | a line whose fields hold no comma has one comma fewer than the header has keys |
| DataService.UnquotedNewlineAddsLines | lib/data-service.ts:66-69 | nothing is quoted: a value holding a newline under a header key gives the text more newlines than rows, so more than data.length + 1 lines, unlike RFC 4180 section 2 rules 6–7 |
| DataService.UnquotedCommaAddsFields | lib/data-service.ts:67 | nothing is quoted: a field holding a comma gives its line more commas than the header, unlike RFC 4180 section 2 rules 5–7 |
| DataService.JoinOccurrences | lib/data-service.ts:67-69 | `join` puts exactly one separator between neighbouring parts |
| DataService.LineFields | lib/data-service.ts:67 | a line has one field per header key, in header order |
| DataService.RowLines | lib/data-service.ts:67 | one line per row, in row order |
| Numeric.Round | app/page.tsx:95-96 | `Math.round` lies within half a unit of its argument |
| Numeric.RoundTenths | app/page.tsx:94 | the result is a multiple of 0.1 within 0.05 of its argument, which fixes it as the argument rounded to one decimal |
| Numeric.MeanBetweenExtremes | app/page.tsx:94-96 | a mean lies between the smallest and largest value |
| Numeric.CappedPercentage | components/aqi-thermometer.tsx:71 | `Math.min(value/full·100, 100)` never exceeds 100, is 100 from `full` up, and is negative exactly for negative values |
| Numeric.CappedPercentageMonotone | components/aqi-gauge.tsx:22 | the capped percentage never decreases as the value grows |

## Left out

- DashboardPage.Dashboard.FetchSensorData: each polling round is one atomic step. `setInterval` starts a new round every five seconds without waiting for the previous round's requests, so two rounds can interleave and a slow response can be applied after a newer one. `OnlineAfterPoll` and `HourlyDataReplacedOnlyOnSuccess` describe rounds that do not overlap.
- Network and polling: `fetch`, `setInterval`, and the JSON decoding of responses. Each fetch outcome is an input of `Dashboard.FetchSensorData`.
- Rendering: JSX, animations, chart configuration and the CSS strings beyond the class-selection functions modelled above.
- The database: the connection, `find`/`sort`/`limit`, the other API routes, and the `insertedId` value, which is a parameter. `insertOne` is a sequence append, and any connection or insert failure is one boolean parameter.
- Local time: the hour of each historical reading (`Date.getHours`) is a field of the reading. The "last update" text (`toLocaleTimeString`) and the ingest timestamp (`new Date()`) are parameters.
- Mock data (`generateMockTrendData`, the mock-sensor route), the environment-based `baseUrl`, and `getCurrentData`/`getHistoricalData` of the data service, which are network calls.
- The browser download of the CSV file (Blob, object URL, anchor click) and the `alert` of the PDF path. `ExportData` returns what would be exported.
- Floating point: numbers are exact reals, so there is no IEEE-754 rounding, NaN or infinity. As a result, `x || 0` on NaN and the NaN of `getAverage` over no buckets are not modelled. `GetAverage` requires at least one bucket, because the page shows the chart only when there is one.
- IngestRoute.ParseFloatText: exponents, "Infinity", and white space beyond the common ASCII and line-separator characters are not read as JavaScript reads them. The text "1e3" parses to 1 here, where `parseFloat` gives 1000. The text "Infinity" is NaN here, so the request gets 400, where `parseFloat` gives Infinity, which passes the `isNaN` check and is stored. A JSON number parses to itself. Objects and arrays are given by the text `String(value)` makes of them.
- IngestRoute.Respond: the `details` field of the 500 response (the exception's message) is not modelled.
- `localeCompare` is modelled as code-unit order. All labels are five ASCII characters, and `HourLabelOrder` shows that this order is hour order. The entries-then-sort of `processHistoricalData` is modelled as emitting buckets in hour order, and `SortedBucketsIncreasing` with `BucketsSortedByLabel` proves the result is the sorted one.
- `SensorReading.id` is not modelled. The page copies it through without inspecting it.
- EnhancedAqiGauge.GetColorClass: colour names that are `Object.prototype` keys (such as "constructor") would look up an inherited member in JavaScript. The model treats every name outside the six colours as unknown.
- The circumference `2 * Math.PI * 45` of the enhanced gauge is a parameter of `StrokeDashoffset`, because π is not a rational number.
