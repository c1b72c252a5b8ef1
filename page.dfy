/**
 * The dashboard page: the bounded history of current readings, the hourly
 * aggregation of historical readings, and the state changes one polling
 * round makes (`fetchSensorData`). Fetch outcomes are inputs; the clock
 * text and each reading's local hour-of-day are given, not computed.
 */
module DashboardPage {
  import opened Wrappers
  import opened Numeric
  import opened SensorTypes
  import AlertBanner

  /** A local hour of the day, as `Date.getHours()` returns it. */
  type Hour = h: nat | h < 24

  /** A reading of the historical endpoint, with the local hour of its timestamp. */
  datatype HistoricalReading = HistoricalReading(hour: Hour, temperature: real, humidity: real, aqi: real)

  /** One bar of the hourly chart. */
  datatype HourlyBucket = HourlyBucket(hour: string, avgTemperature: real, avgHumidity: real, avgAQI: real)

  // ---------------------------------------------------------------------
  // Hour labels

  /** `hour.toString().padStart(2, "0") + ":00"` */
  function HourLabel(h: Hour): (s: string)
    ensures |s| == 5
  {
    if h < 10 then ['0', DigitChar(h)] + ":00"
    else if h < 20 then ['1', DigitChar(h - 10)] + ":00"
    else ['2', DigitChar(h - 20)] + ":00"
  }

  /** The label is the hour as two decimal digits, zero-padded, followed by ":00". */
  lemma HourLabelDigits(h: Hour)
    ensures HourLabel(h)[2..] == ":00"
    ensures IsDigit(HourLabel(h)[0]) && IsDigit(HourLabel(h)[1])
    ensures DigitValue(HourLabel(h)[0]) * 10 + DigitValue(HourLabel(h)[1]) == h
  {
  }

  /** Reads the hour back from the first two digits of a label. */
  function LabelHour(l: string): int
  {
    if |l| < 2 then -1 else (l[0] as int - 48) * 10 + (l[1] as int - 48)
  }

  lemma LabelHourOfLabel(h: Hour)
    ensures LabelHour(HourLabel(h)) == h
  {
  }

  lemma HourLabelInjective(a: Hour, b: Hour)
    requires HourLabel(a) == HourLabel(b)
    ensures a == b
  {
    LabelHourOfLabel(a);
    LabelHourOfLabel(b);
  }

  /** Code-unit order on strings; on these ASCII labels it is what `localeCompare` gives. */
  predicate LexLess(a: string, b: string)
  {
    if a == [] then b != []
    else if b == [] then false
    else if a[0] != b[0] then a[0] < b[0]
    else LexLess(a[1..], b[1..])
  }

  /** Sorting the labels as strings sorts them by hour number. */
  lemma HourLabelOrder(a: Hour, b: Hour)
    ensures LexLess(HourLabel(a), HourLabel(b)) <==> a < b
  {
    var la, lb := HourLabel(a), HourLabel(b);
    if la[0] == lb[0] && la[1] == lb[1] {
      assert la[1..][1..] == lb[1..][1..] == ":00";
      assert !LexLess(":00", ":00") by {
        assert ":00"[1..] == "00" && "00"[1..] == "0" && "0"[1..] == "";
      }
    }
  }

  // ---------------------------------------------------------------------
  // Grouping by hour (the `hourlyGroups` dictionary)

  /** The readings whose label is `l`, in input order. */
  function Labelled(data: seq<HistoricalReading>, l: string): seq<HistoricalReading>
  {
    if data == [] then []
    else
      var last := data[|data| - 1];
      Labelled(data[..|data| - 1], l) + (if HourLabel(last.hour) == l then [last] else [])
  }

  lemma {:induction false} LabelledMembers(data: seq<HistoricalReading>, l: string)
    ensures forall r :: r in Labelled(data, l) <==> r in data && HourLabel(r.hour) == l
  {
    if data != [] {
      LabelledMembers(data[..|data| - 1], l);
      assert data == data[..|data| - 1] + [data[|data| - 1]];
    }
  }

  lemma {:induction false} LabelledOfAbsentLabel(data: seq<HistoricalReading>, l: string)
    requires l !in LabelsOf(data)
    ensures Labelled(data, l) == []
  {
    if data != [] {
      assert data[|data| - 1] in data;
      assert LabelsOf(data[..|data| - 1]) <= LabelsOf(data);
      LabelledOfAbsentLabel(data[..|data| - 1], l);
    }
  }

  /** The labels that occur in `data`. */
  function LabelsOf(data: seq<HistoricalReading>): set<string>
  {
    set r | r in data :: HourLabel(r.hour)
  }

  /**
   * The dictionary the `forEach` fills: one entry per label that occurs,
   * holding exactly the readings with that label, in input order.
   */
  function GroupsOf(data: seq<HistoricalReading>): (groups: map<string, seq<HistoricalReading>>)
    ensures groups.Keys == LabelsOf(data)
  {
    map l | l in LabelsOf(data) :: Labelled(data, l)
  }

  /**
   * Every reading goes into exactly one group, the one keyed by its own
   * label, and every group is non-empty.
   */
  lemma GroupsNonEmpty(data: seq<HistoricalReading>)
    ensures NonEmptyGroups(GroupsOf(data))
  {
    var groups := GroupsOf(data);
    forall l | l in groups
      ensures |groups[l]| > 0
    {
      LabelledMembers(data, l);
      var r :| r in data && HourLabel(r.hour) == l;
      assert r in groups[l];
    }
  }

  lemma GroupsOfContents(data: seq<HistoricalReading>)
    ensures NonEmptyGroups(GroupsOf(data))
    ensures forall l, r :: l in GroupsOf(data) && r in GroupsOf(data)[l] ==> r in data && HourLabel(r.hour) == l
    ensures forall r :: r in data ==> HourLabel(r.hour) in GroupsOf(data) && r in GroupsOf(data)[HourLabel(r.hour)]
  {
    var groups := GroupsOf(data);
    forall l | l in groups
      ensures |groups[l]| > 0
      ensures forall r :: r in groups[l] <==> r in data && HourLabel(r.hour) == l
    {
      LabelledMembers(data, l);
      var r :| r in data && HourLabel(r.hour) == l;
      assert r in groups[l];
    }
    forall r | r in data
      ensures HourLabel(r.hour) in groups && r in groups[HourLabel(r.hour)]
    {
      LabelledMembers(data, HourLabel(r.hour));
    }
  }

  /** Appending a reading pushes it onto its own label's group and changes no other group. */
  lemma GroupsOfSnoc(data: seq<HistoricalReading>, r: HistoricalReading)
    ensures GroupsOf(data + [r]) ==
      var l := HourLabel(r.hour);
      var g := GroupsOf(data);
      g[l := (if l in g then g[l] else []) + [r]]
  {
    var l := HourLabel(r.hour);
    var g, g' := GroupsOf(data), GroupsOf(data + [r]);
    var expected := g[l := (if l in g then g[l] else []) + [r]];
    assert (data + [r])[..|data + [r]| - 1] == data;
    assert LabelsOf(data + [r]) == LabelsOf(data) + {l};
    forall k | k in g'
      ensures k in expected && g'[k] == expected[k]
    {
      assert g'[k] == Labelled(data, k) + (if l == k then [r] else []);
      if k == l && l !in g {
        LabelledOfAbsentLabel(data, l);
      }
    }
    assert g'.Keys == expected.Keys;
  }

  // ---------------------------------------------------------------------
  // Averages per group and output order

  function Temperatures(rs: seq<HistoricalReading>): (s: seq<real>)
    ensures |s| == |rs| && forall i :: 0 <= i < |rs| ==> s[i] == rs[i].temperature
  {
    seq(|rs|, i requires 0 <= i < |rs| => rs[i].temperature)
  }

  function Humidities(rs: seq<HistoricalReading>): (s: seq<real>)
    ensures |s| == |rs| && forall i :: 0 <= i < |rs| ==> s[i] == rs[i].humidity
  {
    seq(|rs|, i requires 0 <= i < |rs| => rs[i].humidity)
  }

  function Aqis(rs: seq<HistoricalReading>): (s: seq<real>)
    ensures |s| == |rs| && forall i :: 0 <= i < |rs| ==> s[i] == rs[i].aqi
  {
    seq(|rs|, i requires 0 <= i < |rs| => rs[i].aqi)
  }

  /** The bucket of one dictionary entry: temperature to one decimal, humidity and AQI to whole numbers. */
  function MakeBucket(hourLabel: string, rs: seq<HistoricalReading>): HourlyBucket
    requires |rs| > 0
  {
    HourlyBucket(hourLabel,
      RoundTenths(Mean(Temperatures(rs))),
      Round(Mean(Humidities(rs))) as real,
      Round(Mean(Aqis(rs))) as real)
  }

  predicate NonEmptyGroups(groups: map<string, seq<HistoricalReading>>)
  {
    forall l :: l in groups ==> |groups[l]| > 0
  }

  /**
   * `Object.entries(groups).map(...).sort(...)`: one bucket per entry whose
   * key is the label of an hour from `h` on, in increasing hour order.
   */
  function SortedBuckets(groups: map<string, seq<HistoricalReading>>, h: nat): (b: seq<HourlyBucket>)
    requires h <= 24
    requires NonEmptyGroups(groups)
    ensures |b| <= 24 - h
    decreases 24 - h
  {
    if h == 24 then []
    else
      var rest := SortedBuckets(groups, h + 1);
      var l := HourLabel(h);
      if l in groups then [MakeBucket(l, groups[l])] + rest else rest
  }

  /** Each bucket stands for a dictionary entry keyed by the label of an hour from `h` on, and averages that entry. */
  lemma {:induction false} SortedBucketsEntries(groups: map<string, seq<HistoricalReading>>, h: nat)
    requires h <= 24
    requires NonEmptyGroups(groups)
    ensures forall i :: 0 <= i < |SortedBuckets(groups, h)| ==>
      var b := SortedBuckets(groups, h)[i];
      b.hour in groups && h <= LabelHour(b.hour) < 24 && b.hour == HourLabel(LabelHour(b.hour)) &&
      b == MakeBucket(b.hour, groups[b.hour])
    decreases 24 - h
  {
    if h < 24 {
      SortedBucketsEntries(groups, h + 1);
      LabelHourOfLabel(h);
    }
  }

  /** The buckets come in strictly increasing hour order. */
  lemma {:induction false} SortedBucketsIncreasing(groups: map<string, seq<HistoricalReading>>, h: nat)
    requires h <= 24
    requires NonEmptyGroups(groups)
    ensures forall i, j :: 0 <= i < j < |SortedBuckets(groups, h)| ==>
      LabelHour(SortedBuckets(groups, h)[i].hour) < LabelHour(SortedBuckets(groups, h)[j].hour)
    decreases 24 - h
  {
    if h < 24 {
      SortedBucketsIncreasing(groups, h + 1);
      SortedBucketsEntries(groups, h + 1);
      LabelHourOfLabel(h);
    }
  }

  /** Every entry keyed by the label of an hour from `h` on gets a bucket. */
  lemma {:induction false} SortedBucketsComplete(groups: map<string, seq<HistoricalReading>>, h: nat, k: Hour)
    requires h <= k
    requires NonEmptyGroups(groups)
    requires HourLabel(k) in groups
    ensures exists i :: 0 <= i < |SortedBuckets(groups, h)| && SortedBuckets(groups, h)[i].hour == HourLabel(k)
    decreases 24 - h
  {
    var b := SortedBuckets(groups, h);
    if h == k {
      assert b[0].hour == HourLabel(k);
    } else {
      SortedBucketsComplete(groups, h + 1, k);
      var i :| 0 <= i < |SortedBuckets(groups, h + 1)| && SortedBuckets(groups, h + 1)[i].hour == HourLabel(k);
      if HourLabel(h) in groups {
        assert b[i + 1].hour == HourLabel(k);
      } else {
        assert b[i].hour == HourLabel(k);
      }
    }
  }

  /** `processHistoricalData`, as a function of its input. */
  function HourlyAverages(data: seq<HistoricalReading>): seq<HourlyBucket>
  {
    GroupsNonEmpty(data);
    SortedBuckets(GroupsOf(data), 0)
  }

  lemma {:induction false} NoGroupsNoBuckets(h: nat)
    requires h <= 24
    ensures SortedBuckets(map[], h) == []
    decreases 24 - h
  {
    if h < 24 {
      NoGroupsNoBuckets(h + 1);
    }
  }

  /** No readings, no buckets. */
  lemma EmptyInputNoBuckets()
    ensures HourlyAverages([]) == []
  {
    assert GroupsOf([]) == map[];
    NoGroupsNoBuckets(0);
  }

  /** Pushing the next reading onto its group turns the dictionary of a prefix into that of the next prefix. */
  lemma GroupsStep(data: seq<HistoricalReading>, i: nat)
    requires i < |data|
    ensures var g := GroupsOf(data[..i]);
      var key := HourLabel(data[i].hour);
      GroupsOf(data[..i + 1]) == g[key := (if key in g then g[key] else []) + [data[i]]]
  {
    GroupsOfSnoc(data[..i], data[i]);
    assert data[..i + 1] == data[..i] + [data[i]];
  }

  /**
   * `processHistoricalData`: an empty input gives no buckets; otherwise a
   * `forEach` pushes each reading onto the array of its hour label, and the
   * dictionary's entries become buckets sorted by label.
   */
  method ProcessHistoricalData(data: seq<HistoricalReading>) returns (buckets: seq<HourlyBucket>)
    ensures buckets == HourlyAverages(data)
  {
    if |data| == 0 {
      EmptyInputNoBuckets();
      return [];
    }

    var groups: map<string, seq<HistoricalReading>> := map[];
    var i := 0;
    while i < |data|
      invariant 0 <= i <= |data|
      invariant groups == GroupsOf(data[..i])
    {
      var reading := data[i];
      var key := HourLabel(reading.hour);
      ghost var before := groups;
      if key !in groups {
        groups := groups[key := []];
      }
      groups := groups[key := groups[key] + [reading]];
      assert groups == before[key := (if key in before then before[key] else []) + [reading]];
      GroupsStep(data, i);
      i := i + 1;
    }
    assert data[..i] == data;
    GroupsNonEmpty(data);
    buckets := SortedBuckets(groups, 0);
    assert buckets == HourlyAverages(data);
  }

  // ---------------------------------------------------------------------
  // Properties of the hourly aggregation

  /** The output is sorted strictly ascending by label, so no label appears twice, and there are at most 24 buckets. */
  lemma BucketsSortedByLabel(data: seq<HistoricalReading>)
    ensures |HourlyAverages(data)| <= 24
    ensures forall i, j :: 0 <= i < j < |HourlyAverages(data)| ==>
      LexLess(HourlyAverages(data)[i].hour, HourlyAverages(data)[j].hour)
  {
    var g := GroupsOf(data);
    GroupsNonEmpty(data);
    var b := SortedBuckets(g, 0);
    SortedBucketsEntries(g, 0);
    SortedBucketsIncreasing(g, 0);
    forall i, j | 0 <= i < j < |b| ensures LexLess(b[i].hour, b[j].hour) {
      HourLabelOrder(LabelHour(b[i].hour), LabelHour(b[j].hour));
    }
  }

  /** Every bucket is labelled with a label that occurs in the input. */
  lemma BucketLabelsOccur(data: seq<HistoricalReading>)
    ensures forall i :: 0 <= i < |HourlyAverages(data)| ==> HourlyAverages(data)[i].hour in LabelsOf(data)
  {
    var g := GroupsOf(data);
    GroupsNonEmpty(data);
    SortedBucketsEntries(g, 0);
    var b := SortedBuckets(g, 0);
    assert b == HourlyAverages(data);
    forall i | 0 <= i < |b| ensures b[i].hour in LabelsOf(data) {
      assert b[i].hour in g;
    }
  }

  /** Every label that occurs in the input has a bucket. */
  lemma OccurringLabelsHaveBuckets(data: seq<HistoricalReading>, r: HistoricalReading)
    requires r in data
    ensures exists i :: 0 <= i < |HourlyAverages(data)| && HourlyAverages(data)[i].hour == HourLabel(r.hour)
  {
    var g := GroupsOf(data);
    GroupsNonEmpty(data);
    var b := SortedBuckets(g, 0);
    assert b == HourlyAverages(data);
    assert HourLabel(r.hour) in LabelsOf(data);
    assert HourLabel(r.hour) in g;
    SortedBucketsComplete(g, 0, r.hour);
    var i :| 0 <= i < |b| && b[i].hour == HourLabel(r.hour);
  }

  /**
   * Each bucket averages exactly the readings with its label: the unrounded
   * means lie between the smallest and largest value of the group;
   * temperature is its mean rounded to one decimal, within 0.05 of it;
   * humidity and AQI are their means rounded to whole numbers, within 0.5.
   */
  lemma BucketAverages(data: seq<HistoricalReading>, i: nat)
    requires i < |HourlyAverages(data)|
    ensures
      var b := HourlyAverages(data)[i];
      var g := GroupsOf(data);
      b.hour in g &&
      var rs := g[b.hour];
      |rs| > 0 &&
      (forall r :: r in rs <==> r in data && HourLabel(r.hour) == b.hour) &&
      SeqMin(Temperatures(rs)) <= Mean(Temperatures(rs)) <= SeqMax(Temperatures(rs)) &&
      SeqMin(Humidities(rs)) <= Mean(Humidities(rs)) <= SeqMax(Humidities(rs)) &&
      SeqMin(Aqis(rs)) <= Mean(Aqis(rs)) <= SeqMax(Aqis(rs)) &&
      b.avgTemperature == RoundTenths(Mean(Temperatures(rs))) &&
      b.avgHumidity == Round(Mean(Humidities(rs))) as real &&
      b.avgAQI == Round(Mean(Aqis(rs))) as real &&
      Mean(Temperatures(rs)) - 0.05 < b.avgTemperature <= Mean(Temperatures(rs)) + 0.05 &&
      Mean(Humidities(rs)) - 0.5 < b.avgHumidity <= Mean(Humidities(rs)) + 0.5 &&
      Mean(Aqis(rs)) - 0.5 < b.avgAQI <= Mean(Aqis(rs)) + 0.5 &&
      b.avgHumidity == b.avgHumidity.Floor as real &&
      b.avgAQI == b.avgAQI.Floor as real
  {
    var g := GroupsOf(data);
    GroupsNonEmpty(data);
    SortedBucketsEntries(g, 0);
    var b := HourlyAverages(data)[i];
    var rs := g[b.hour];
    LabelledMembers(data, b.hour);
    MeanBetweenExtremes(Temperatures(rs));
    MeanBetweenExtremes(Humidities(rs));
    MeanBetweenExtremes(Aqis(rs));
  }

  /** The sum of the sizes of the groups of hours `h`..23. */
  function GroupSizesFrom(data: seq<HistoricalReading>, h: nat): nat
    requires h <= 24
    decreases 24 - h
  {
    if h == 24 then 0 else |Labelled(data, HourLabel(h))| + GroupSizesFrom(data, h + 1)
  }

  lemma {:induction false} GroupSizesSnoc(data: seq<HistoricalReading>, r: HistoricalReading, h: nat)
    requires h <= 24
    ensures GroupSizesFrom(data + [r], h) == GroupSizesFrom(data, h) + (if h <= r.hour then 1 else 0)
    decreases 24 - h
  {
    if h < 24 {
      GroupSizesSnoc(data, r, h + 1);
      assert (data + [r])[..|data + [r]| - 1] == data;
      if HourLabel(r.hour) == HourLabel(h) {
        HourLabelInjective(r.hour, h);
      }
    }
  }

  /** Every reading goes into exactly one group: the group sizes add up to the number of readings. */
  lemma {:induction false} GroupSizesSumToLength(data: seq<HistoricalReading>)
    ensures GroupSizesFrom(data, 0) == |data|
  {
    if data == [] {
      NoReadingsEmptyGroups(0);
    } else {
      var prefix, r := data[..|data| - 1], data[|data| - 1];
      assert data == prefix + [r];
      GroupSizesSumToLength(prefix);
      GroupSizesSnoc(prefix, r, 0);
    }
  }

  lemma {:induction false} NoReadingsEmptyGroups(h: nat)
    requires h <= 24
    ensures GroupSizesFrom([], h) == 0
    decreases 24 - h
  {
    if h < 24 {
      NoReadingsEmptyGroups(h + 1);
    }
  }

  lemma SameHourExampleBucket(data: seq<HistoricalReading>)
    requires data == [HistoricalReading(14, 20.0, 40.0, 50.0), HistoricalReading(14, 22.0, 44.0, 60.0)]
    ensures MakeBucket("14:00", data) == HourlyBucket("14:00", 21.0, 42.0, 55.0)
  {
    assert Temperatures(data) == [20.0, 22.0] && Humidities(data) == [40.0, 44.0] && Aqis(data) == [50.0, 60.0];
    assert Mean([20.0, 22.0]) == 21.0 by { assert [20.0, 22.0][..1] == [20.0]; assert [20.0][..0] == []; }
    assert Mean([40.0, 44.0]) == 42.0 by { assert [40.0, 44.0][..1] == [40.0]; assert [40.0][..0] == []; }
    assert Mean([50.0, 60.0]) == 55.0 by { assert [50.0, 60.0][..1] == [50.0]; assert [50.0][..0] == []; }
    assert Round(210.0) == 210 && Round(42.0) == 42 && Round(55.0) == 55;
  }

  /** A dictionary with a single entry, for hour `k`, yields that one bucket (when `k` is still ahead). */
  lemma {:induction false} SingleGroupBuckets(k: Hour, rs: seq<HistoricalReading>, h: nat)
    requires h <= 24 && |rs| > 0
    ensures NonEmptyGroups(map[HourLabel(k) := rs])
    ensures SortedBuckets(map[HourLabel(k) := rs], h) == if h <= k then [MakeBucket(HourLabel(k), rs)] else []
    decreases 24 - h
  {
    var groups := map[HourLabel(k) := rs];
    assert NonEmptyGroups(groups);
    if h < 24 {
      SingleGroupBuckets(k, rs, h + 1);
      if HourLabel(h) in groups {
        HourLabelInjective(h, k);
      }
    }
  }

  lemma SameHourExampleGroups(data: seq<HistoricalReading>)
    requires data == [HistoricalReading(14, 20.0, 40.0, 50.0), HistoricalReading(14, 22.0, 44.0, 60.0)]
    ensures GroupsOf(data) == map[HourLabel(14) := data]
  {
    assert LabelsOf(data) == {HourLabel(14)} by {
      assert data[0] in data;
    }
    var l := HourLabel(14);
    assert Labelled([data[0]], l) == [data[0]] by {
      assert [data[0]][..0] == [];
    }
    assert Labelled(data, l) == Labelled([data[0]], l) + [data[1]] by {
      assert data[..1] == [data[0]];
    }
    var g := GroupsOf(data);
    assert g.Keys == {l} && g[l] == data;
    assert g == map[l := data];
  }

  /** Two readings in one hour, 20.0/22.0 degrees, 40/44 % and AQI 50/60, give one bucket 21.0, 42, 55. */
  lemma SameHourExample()
    ensures HourlyAverages([HistoricalReading(14, 20.0, 40.0, 50.0), HistoricalReading(14, 22.0, 44.0, 60.0)]) ==
      [HourlyBucket("14:00", 21.0, 42.0, 55.0)]
  {
    var data := [HistoricalReading(14, 20.0, 40.0, 50.0), HistoricalReading(14, 22.0, 44.0, 60.0)];
    SameHourExampleGroups(data);
    SingleGroupBuckets(14, data, 0);
    assert HourLabel(14) == "14:00";
    SameHourExampleBucket(data);
  }

  // ---------------------------------------------------------------------
  // The history buffer (the `setSensorData` updater)

  /** How many old readings the buffer keeps in front of a new one. */
  const HistoryKept: nat := 49

  /** The last `n` elements of `s`, or all of it when it is shorter (`slice(-n)` for n > 0). */
  function LastN(s: seq<SensorReading>, n: nat): (t: seq<SensorReading>)
    ensures |t| == if |s| < n then |s| else n
    ensures t == s[|s| - |t|..]
  {
    if |s| <= n then s else s[|s| - n..]
  }

  /** Whether the reading `r` is new, i.e. its timestamp differs from the most recent one's. */
  predicate IsNewReading(prev: seq<SensorReading>, r: SensorReading)
  {
    prev == [] || prev[|prev| - 1].timestamp != r.timestamp
  }

  /**
   * The updater: a reading with the same timestamp as the most recent one
   * leaves the history as it is; any other reading is appended after the
   * last (at most) 49 old readings.
   */
  function AppendReading(prev: seq<SensorReading>, r: SensorReading): (next: seq<SensorReading>)
    ensures !IsNewReading(prev, r) ==> next == prev
    ensures IsNewReading(prev, r) ==>
      |next| == (if |prev| < HistoryKept then |prev| else HistoryKept) + 1 &&
      next[|next| - 1] == r && next[..|next| - 1] == prev[|prev| - (|next| - 1)..]
  {
    if IsNewReading(prev, r) then LastN(prev, HistoryKept) + [r] else prev
  }

  /** The history never holds more than 50 readings, and afterwards its last reading has the new timestamp. */
  lemma HistoryBounded(prev: seq<SensorReading>, r: SensorReading)
    requires |prev| <= 50
    ensures |AppendReading(prev, r)| <= 50
    ensures |AppendReading(prev, r)| > 0
    ensures AppendReading(prev, r)[|AppendReading(prev, r)| - 1].timestamp == r.timestamp
  {
  }

  /** Only the most recent reading is compared: an older reading with the same timestamp does not stop the append. */
  lemma DedupOnlyLast(a: SensorReading, b: SensorReading, r: SensorReading)
    requires a.timestamp == r.timestamp && b.timestamp != r.timestamp
    ensures AppendReading([a, b], r) == [a, b, r]
  {
    assert LastN([a, b], HistoryKept) == [a, b];
  }

  // ---------------------------------------------------------------------
  // One polling round (`fetchSensorData`)

  /** The `data` object of the current-reading response; a missing or empty `status` is `None` or `Some("")`. */
  datatype CurrentData = CurrentData(
    timestamp: int,
    temperature: real,
    humidity: real,
    aqi: real,
    gasConcentration: real,
    status: Option<string>)

  /** The outcome of the current-reading request: it threw, or it answered with `success` and maybe `data`. */
  datatype CurrentFetch = CurrentFailed | CurrentResponse(success: bool, data: Option<CurrentData>)

  /** The outcome of the historical request; `None` data is a missing `data` field. */
  datatype HistoricalFetch = HistoricalFailed | HistoricalResponse(success: bool, data: Option<seq<HistoricalReading>>)

  /** The page's four state variables. */
  datatype PageState = PageState(
    sensorData: seq<SensorReading>,
    hourlyData: seq<HourlyBucket>,
    lastUpdate: string,
    isOnline: bool)

  /** The reading built from the response, with `status || "online"`. */
  function ReadingOf(d: CurrentData): (r: SensorReading)
    ensures r.timestamp == d.timestamp && r.aqi == d.aqi
    ensures r.temperature == d.temperature && r.humidity == d.humidity && r.gasConcentration == d.gasConcentration
    ensures r.status == "online" <==> d.status.None? || d.status.value in {"", "online"}
    ensures d.status.Some? && d.status.value != "" ==> r.status == d.status.value
  {
    var status := if d.status.Some? && d.status.value != "" then d.status.value else "online";
    SensorReading(d.timestamp, d.temperature, d.humidity, d.aqi, d.gasConcentration, status)
  }

  /** Whether the current response has data (`result.success && result.data`). */
  predicate HasCurrentData(current: CurrentFetch)
  {
    current.CurrentResponse? && current.success && current.data.Some?
  }

  /** Whether the historical step throws: the request fails, or it succeeds without a `data` array. */
  predicate HistoricalThrows(historical: HistoricalFetch)
  {
    historical.HistoricalFailed? || (historical.success && historical.data.None?)
  }

  /** Whether the historical step replaces the hourly data (`success && data.length > 0`). */
  predicate HistoricalUsable(historical: HistoricalFetch)
  {
    historical.HistoricalResponse? && historical.success && historical.data.Some? && |historical.data.value| > 0
  }

  /**
   * The state after one round, given both fetch outcomes and the clock text.
   * The historical outcome only matters when the current response has data.
   */
  function Poll(s: PageState, current: CurrentFetch, historical: HistoricalFetch, clockText: string): PageState
  {
    if !HasCurrentData(current) then
      s.(isOnline := false)
    else
      var sensorData := AppendReading(s.sensorData, ReadingOf(current.data.value));
      var hourlyData := if HistoricalUsable(historical) then HourlyAverages(historical.data.value) else s.hourlyData;
      PageState(sensorData, hourlyData, clockText, !HistoricalThrows(historical))
  }

  /** The page is online after a round exactly when the current response had data and the historical step did not throw. */
  lemma OnlineAfterPoll(s: PageState, current: CurrentFetch, historical: HistoricalFetch, clockText: string)
    ensures Poll(s, current, historical, clockText).isOnline <==>
      HasCurrentData(current) && !HistoricalThrows(historical)
  {
  }

  /** A round without current data changes nothing but the online flag, which it clears. */
  lemma NoDataKeepsHistory(s: PageState, current: CurrentFetch, historical: HistoricalFetch, clockText: string)
    requires !HasCurrentData(current)
    ensures Poll(s, current, historical, clockText) == s.(isOnline := false)
  {
  }

  /**
   * The hourly data is replaced only by the aggregate of a successful,
   * non-empty historical result, and then by exactly that aggregate.
   */
  lemma HourlyDataReplacedOnlyOnSuccess(s: PageState, current: CurrentFetch, historical: HistoricalFetch, clockText: string)
    ensures var t := Poll(s, current, historical, clockText);
      t.hourlyData == if HasCurrentData(current) && HistoricalUsable(historical)
                      then HourlyAverages(historical.data.value) else s.hourlyData
  {
  }

  /** A round keeps the history at 50 readings or fewer, and after a round with data its newest reading is that data's. */
  lemma PollKeepsHistoryBounded(s: PageState, current: CurrentFetch, historical: HistoricalFetch, clockText: string)
    requires |s.sensorData| <= 50
    ensures |Poll(s, current, historical, clockText).sensorData| <= 50
    ensures HasCurrentData(current) ==>
      var d := Poll(s, current, historical, clockText).sensorData;
      |d| > 0 && d[|d| - 1].timestamp == current.data.value.timestamp
  {
    if HasCurrentData(current) {
      HistoryBounded(s.sensorData, ReadingOf(current.data.value));
    }
  }

  /** The dashboard component with its state variables. */
  class Dashboard {
    var sensorData: seq<SensorReading>
    var hourlyData: seq<HourlyBucket>
    var lastUpdate: string
    var isOnline: bool

    /** The state variables as one value. */
    function State(): PageState
      reads this
    {
      PageState(sensorData, hourlyData, lastUpdate, isOnline)
    }

    /** The history is bounded by 50 readings. */
    predicate Valid()
      reads this
    {
      |sensorData| <= 50
    }

    /** The initial state: no readings, no hourly data, no update time, online. */
    constructor ()
      ensures State() == PageState([], [], "", true)
      ensures Valid()
    {
      sensorData := [];
      hourlyData := [];
      lastUpdate := "";
      isOnline := true;
    }

    /** One polling round, the fetch outcomes and the clock text given. */
    method FetchSensorData(current: CurrentFetch, historical: HistoricalFetch, clockText: string)
      requires Valid()
      modifies this
      ensures State() == Poll(old(State()), current, historical, clockText)
      ensures Valid()
    {
      PollKeepsHistoryBounded(State(), current, historical, clockText);
      if current.CurrentResponse? && current.success && current.data.Some? {
        var newReading := ReadingOf(current.data.value);
        sensorData := AppendReading(sensorData, newReading);
        lastUpdate := clockText;
        isOnline := true;
        if historical.HistoricalFailed? {
          isOnline := false;
        } else if historical.success {
          if historical.data.None? {
            isOnline := false;
          } else if |historical.data.value| > 0 {
            hourlyData := ProcessHistoricalData(historical.data.value);
          }
        }
      } else {
        isOnline := false;
      }
    }
  }

  // ---------------------------------------------------------------------
  // Alert banner gating

  /** The AQI the page passes to the alert banner, if it shows one: the newest reading's, when above 100. */
  function BannerAqi(sensorData: seq<SensorReading>): (shown: Option<real>)
    ensures shown.Some? <==> |sensorData| > 0 && sensorData[|sensorData| - 1].aqi > 100.0
    ensures shown.Some? ==> shown.value == sensorData[|sensorData| - 1].aqi
  {
    if |sensorData| > 0 && sensorData[|sensorData| - 1].aqi > 100.0 then Some(sensorData[|sensorData| - 1].aqi) else None
  }

  /** Only the destructive, unhealthy tier of the banner can be shown by the page. */
  lemma BannerOnlyDestructive(sensorData: seq<SensorReading>)
    requires BannerAqi(sensorData).Some?
    ensures AlertBanner.GetAlertInfo(BannerAqi(sensorData).value).variant == AlertBanner.Destructive
    ensures AlertBanner.Tier(AlertBanner.GetAlertInfo(BannerAqi(sensorData).value)) == 2
  {
    AlertBanner.DestructiveIffAbove100(BannerAqi(sensorData).value);
    AlertBanner.ExactlyOneTier(BannerAqi(sensorData).value);
  }
}
