/**
 * The data service: its lazily created single instance, the choice between
 * the two export formats, and the text of the CSV export.
 *
 * A row is an object: its own keys in insertion order, each with the text
 * its value turns into when an array of values is joined (`undefined` and
 * `null` turn into the empty text).
 */
module DataService {

  /** One field of an object: its key and its value as joined text. */
  datatype Field = Field(key: string, text: string)

  /** An exported object, its fields in key order. */
  datatype Row = Row(fields: seq<Field>)

  // ---------------------------------------------------------------------
  // Joining and counting separators

  /** How often `c` occurs in `s`. */
  function Occurrences(s: string, c: char): (n: nat)
    ensures n <= |s|
    ensures n == 0 <==> c !in s
  {
    if s == [] then 0
    else
      var n := Occurrences(s[..|s| - 1], c);
      assert s == s[..|s| - 1] + [s[|s| - 1]];
      n + (if s[|s| - 1] == c then 1 else 0)
  }

  lemma {:induction false} OccurrencesOfConcat(s: string, t: string, c: char)
    ensures Occurrences(s + t, c) == Occurrences(s, c) + Occurrences(t, c)
    decreases |t|
  {
    if t == [] {
      assert s + t == s;
    } else {
      assert (s + t)[..|s + t| - 1] == s + t[..|t| - 1];
      OccurrencesOfConcat(s, t[..|t| - 1], c);
    }
  }

  /** How often `c` occurs in all of `parts` together. */
  function TotalOccurrences(parts: seq<string>, c: char): nat
  {
    if parts == [] then 0 else TotalOccurrences(parts[..|parts| - 1], c) + Occurrences(parts[|parts| - 1], c)
  }

  lemma {:induction false} NoneInPartsNoneInTotal(parts: seq<string>, c: char)
    requires forall i :: 0 <= i < |parts| ==> c !in parts[i]
    ensures TotalOccurrences(parts, c) == 0
  {
    if parts != [] {
      NoneInPartsNoneInTotal(parts[..|parts| - 1], c);
    }
  }

  lemma {:induction false} SomeInPartsSomeInTotal(parts: seq<string>, c: char, k: nat)
    requires k < |parts| && c in parts[k]
    ensures TotalOccurrences(parts, c) > 0
  {
    if k < |parts| - 1 {
      SomeInPartsSomeInTotal(parts[..|parts| - 1], c, k);
    }
  }

  /** `Array.prototype.join`: the parts with one `sep` between each two neighbours. */
  function Join(parts: seq<string>, sep: char): string
  {
    if parts == [] then ""
    else if |parts| == 1 then parts[0]
    else Join(parts[..|parts| - 1], sep) + [sep] + parts[|parts| - 1]
  }

  /** The separator occurs once between each two parts, besides where the parts themselves hold it. */
  lemma {:induction false} JoinOccurrences(parts: seq<string>, sep: char)
    requires |parts| > 0
    ensures Occurrences(Join(parts, sep), sep) == |parts| - 1 + TotalOccurrences(parts, sep)
  {
    if |parts| > 1 {
      var init := parts[..|parts| - 1];
      JoinOccurrences(init, sep);
      OccurrencesOfConcat(Join(init, sep), [sep], sep);
      OccurrencesOfConcat(Join(init, sep) + [sep], parts[|parts| - 1], sep);
      assert Occurrences([sep], sep) == 1 by {
        assert [sep][..0] == [];
      }
      assert TotalOccurrences(parts, sep) == TotalOccurrences(init, sep) + Occurrences(parts[|parts| - 1], sep);
    } else {
      assert parts[..0] == [];
    }
  }

  /** The joined text starts with the first part, followed by the separator when there are more. */
  lemma {:induction false} JoinStartsWithFirst(parts: seq<string>, sep: char)
    requires |parts| > 0
    ensures parts[0] <= Join(parts, sep)
    ensures |parts| > 1 ==> parts[0] + [sep] <= Join(parts, sep)
  {
    if |parts| > 1 {
      var init := parts[..|parts| - 1];
      JoinStartsWithFirst(init, sep);
      if |parts| == 2 {
        assert Join(init, sep) == parts[0];
      }
    }
  }

  // ---------------------------------------------------------------------
  // The CSV text

  /** `Object.keys` of a row. */
  function Keys(row: Row): (ks: seq<string>)
    ensures |ks| == |row.fields| && forall i :: 0 <= i < |ks| ==> ks[i] == row.fields[i].key
  {
    seq(|row.fields|, i requires 0 <= i < |row.fields| => row.fields[i].key)
  }

  /** `row[header]` as joined text: the value of the key, or the empty text when the row lacks it. */
  function FieldText(row: Row, header: string): (t: string)
    ensures (forall i :: 0 <= i < |row.fields| ==> row.fields[i].key != header) ==> t == ""
    ensures forall i :: (0 <= i < |row.fields| && row.fields[i].key == header &&
      (forall j :: 0 <= j < i ==> row.fields[j].key != header)) ==> t == row.fields[i].text
  {
    FieldTextFrom(row.fields, header)
  }

  function FieldTextFrom(fields: seq<Field>, header: string): (t: string)
    ensures (forall i :: 0 <= i < |fields| ==> fields[i].key != header) ==> t == ""
    ensures forall i :: (0 <= i < |fields| && fields[i].key == header &&
      (forall j :: 0 <= j < i ==> fields[j].key != header)) ==> t == fields[i].text
  {
    if fields == [] then ""
    else if fields[0].key == header then fields[0].text
    else
      var t := FieldTextFrom(fields[1..], header);
      assert forall i :: 1 <= i < |fields| ==> fields[i] == fields[1..][i - 1];
      t
  }

  /** The header: the keys of the first row, none when there are no rows (`data[0] || {}`). */
  function Headers(data: seq<Row>): (hs: seq<string>)
    ensures data == [] ==> hs == []
    ensures data != [] ==> hs == Keys(data[0])
  {
    if data == [] then [] else Keys(data[0])
  }

  /** The fields of one row, in header order. */
  function LineFields(row: Row, headers: seq<string>): (fs: seq<string>)
    ensures |fs| == |headers| && forall i :: 0 <= i < |headers| ==> fs[i] == FieldText(row, headers[i])
  {
    seq(|headers|, i requires 0 <= i < |headers| => FieldText(row, headers[i]))
  }

  /** The CSV line of one row. */
  function CsvLine(row: Row, headers: seq<string>): string
  {
    Join(LineFields(row, headers), ',')
  }

  /** One line per row, each over the same header. */
  function RowLines(data: seq<Row>, headers: seq<string>): (lines: seq<string>)
    ensures |lines| == |data| && forall i :: 0 <= i < |data| ==> lines[i] == CsvLine(data[i], headers)
  {
    seq(|data|, i requires 0 <= i < |data| => CsvLine(data[i], headers))
  }

  /** All lines: the header line, then one line per row. */
  function CsvLines(data: seq<Row>): (lines: seq<string>)
    ensures |lines| == |data| + 1
    ensures lines[0] == Join(Headers(data), ',')
    ensures lines[1..] == RowLines(data, Headers(data))
  {
    var hs := Headers(data);
    [Join(hs, ',')] + RowLines(data, hs)
  }

  /** `csvContent`: the lines joined by newlines, with no trailing newline. */
  function CsvContent(data: seq<Row>): string
  {
    Join(CsvLines(data), '\n')
  }

  /** No rows give the empty text. */
  lemma EmptyCsv()
    ensures CsvContent([]) == ""
  {
    assert CsvLines([]) == [""];
  }

  /** The text begins with the first row's keys joined by commas, and a newline follows when there are rows. */
  lemma CsvStartsWithHeader(data: seq<Row>)
    ensures Join(Headers(data), ',') <= CsvContent(data)
    ensures data != [] ==> Join(Headers(data), ',') + "\n" <= CsvContent(data)
  {
    JoinStartsWithFirst(CsvLines(data), '\n');
  }

  /** Whether no key of the header and no value of any row holds the character `c`. */
  predicate FreeOf(data: seq<Row>, c: char)
  {
    forall i, j :: 0 <= i < |data| && 0 <= j < |data[i].fields| ==>
      c !in data[i].fields[j].key && c !in data[i].fields[j].text
  }

  /** A text without `c` in its parts has none when joined with another separator. */
  lemma JoinFreeOf(parts: seq<string>, sep: char, c: char)
    requires sep != c
    requires forall j :: 0 <= j < |parts| ==> c !in parts[j]
    ensures c !in Join(parts, sep)
  {
    NoneInPartsNoneInTotal(parts, c);
    if |parts| > 0 {
      JoinCountsOther(parts, sep, c);
    }
  }

  lemma {:induction false} JoinCountsOther(parts: seq<string>, sep: char, c: char)
    requires sep != c && |parts| > 0
    ensures Occurrences(Join(parts, sep), c) == TotalOccurrences(parts, c)
  {
    if |parts| > 1 {
      var init := parts[..|parts| - 1];
      JoinCountsOther(init, sep, c);
      OccurrencesOfConcat(Join(init, sep), [sep], c);
      OccurrencesOfConcat(Join(init, sep) + [sep], parts[|parts| - 1], c);
      assert Occurrences([sep], c) == 0;
    } else {
      assert parts[..0] == [];
    }
  }

  /** A row whose values hold no newline gives a line without one. */
  lemma RowLineFreeOfNewline(row: Row, headers: seq<string>)
    requires forall j :: 0 <= j < |row.fields| ==> '\n' !in row.fields[j].text
    ensures '\n' !in CsvLine(row, headers)
  {
    var fs := LineFields(row, headers);
    forall j | 0 <= j < |fs| ensures '\n' !in fs[j] {
      if exists m :: 0 <= m < |row.fields| && row.fields[m].key == headers[j] {
        var m := FirstWithKey(row.fields, headers[j]);
        assert fs[j] == row.fields[m].text;
      }
    }
    JoinFreeOf(fs, ',', '\n');
  }

  lemma LinesFreeOfNewline(data: seq<Row>)
    requires FreeOf(data, '\n')
    ensures forall k :: 0 <= k < |CsvLines(data)| ==> '\n' !in CsvLines(data)[k]
  {
    var lines := CsvLines(data);
    var hs := Headers(data);
    forall k | 0 <= k < |lines| ensures '\n' !in lines[k] {
      if k == 0 {
        if data != [] {
          assert forall j :: 0 <= j < |hs| ==> '\n' !in hs[j] by {
            forall j | 0 <= j < |hs| ensures '\n' !in hs[j] {
              assert hs[j] == data[0].fields[j].key;
            }
          }
        }
        JoinFreeOf(hs, ',', '\n');
      } else {
        assert lines[k] == lines[1..][k - 1] == CsvLine(data[k - 1], hs);
        RowLineFreeOfNewline(data[k - 1], hs);
      }
    }
  }

  /** The position of the first field with key `key`, when there is one. */
  function FirstWithKey(fields: seq<Field>, key: string): (m: nat)
    requires exists m :: 0 <= m < |fields| && fields[m].key == key
    ensures m < |fields| && fields[m].key == key
    ensures forall j :: 0 <= j < m ==> fields[j].key != key
  {
    if fields[0].key == key then 0
    else
      assert exists m :: 0 <= m < |fields[1..]| && fields[1..][m].key == key by {
        var m :| 0 <= m < |fields| && fields[m].key == key;
        assert fields[1..][m - 1].key == key;
      }
      1 + FirstWithKey(fields[1..], key)
  }

  /**
   * When no key or value holds a newline, the text has exactly one newline
   * per row: `|data| + 1` lines.
   */
  lemma CsvLineCount(data: seq<Row>)
    requires FreeOf(data, '\n')
    ensures Occurrences(CsvContent(data), '\n') == |data|
  {
    LinesFreeOfNewline(data);
    NoneInPartsNoneInTotal(CsvLines(data), '\n');
    JoinOccurrences(CsvLines(data), '\n');
  }

  /** A line whose fields hold no comma has one comma fewer than the header has keys. */
  lemma CsvFieldCount(row: Row, headers: seq<string>)
    requires |headers| > 0
    requires forall i :: 0 <= i < |headers| ==> ',' !in FieldText(row, headers[i])
    ensures Occurrences(CsvLine(row, headers), ',') == |headers| - 1
  {
    NoneInPartsNoneInTotal(LineFields(row, headers), ',');
    JoinOccurrences(LineFields(row, headers), ',');
  }

  /**
   * Nothing is quoted: a field holding a comma gives its line more commas
   * than the header has separators, so a reader splits it into extra fields.
   */
  lemma UnquotedCommaAddsFields(row: Row, headers: seq<string>, k: nat)
    requires k < |headers| && ',' in FieldText(row, headers[k])
    ensures Occurrences(CsvLine(row, headers), ',') > |headers| - 1
  {
    SomeInPartsSomeInTotal(LineFields(row, headers), ',', k);
    JoinOccurrences(LineFields(row, headers), ',');
  }

  /**
   * Nothing is quoted: a value holding a newline that lands in the text
   * under a header key adds a line break, so the text has more newlines
   * than rows and a reader sees more than `data.length + 1` lines.
   */
  lemma UnquotedNewlineAddsLines(data: seq<Row>, i: nat, k: nat)
    requires i < |data| && k < |Headers(data)|
    requires '\n' in FieldText(data[i], Headers(data)[k])
    ensures Occurrences(CsvContent(data), '\n') > |data|
  {
    var hs := Headers(data);
    var lines := CsvLines(data);
    var fs := LineFields(data[i], hs);
    SomeInPartsSomeInTotal(fs, '\n', k);
    JoinCountsOther(fs, ',', '\n');
    assert lines[i + 1] == lines[1..][i] == CsvLine(data[i], hs);
    assert '\n' in lines[i + 1];
    SomeInPartsSomeInTotal(lines, '\n', i + 1);
    JoinOccurrences(lines, '\n');
  }

  /** A line depends only on the header keys: keys that only later rows have are dropped. */
  lemma LineIgnoresOtherKeys(a: Row, b: Row, headers: seq<string>)
    requires forall i :: 0 <= i < |headers| ==> FieldText(a, headers[i]) == FieldText(b, headers[i])
    ensures CsvLine(a, headers) == CsvLine(b, headers)
  {
    assert LineFields(a, headers) == LineFields(b, headers);
  }

  // ---------------------------------------------------------------------
  // Export dispatch

  /** What an export does: download a CSV text, or show the PDF notice. */
  datatype ExportAction = CsvDownload(content: string) | PdfNotice

  /** `exportData`: "csv" downloads the CSV text; every other format goes to the PDF path. */
  function ExportData(format: string, data: seq<Row>): (a: ExportAction)
    ensures a.CsvDownload? <==> format == "csv"
    ensures a.CsvDownload? ==> a.content == CsvContent(data)
  {
    if format == "csv" then CsvDownload(CsvContent(data)) else PdfNotice
  }

  // ---------------------------------------------------------------------
  // The single instance

  /** The service object; its only state, the base URL, is not part of this model. */
  class Service {
    constructor ()
    {
    }
  }

  /** The class-level slot holding the instance once it exists. */
  class ServiceSlot {
    var instance: Service?

    constructor ()
      ensures instance == null
    {
      instance := null;
    }

    /** `getInstance`: creates the instance on the first call only, and returns the stored one. */
    method GetInstance() returns (s: Service)
      modifies this
      ensures instance == s
      ensures old(instance) != null ==> s == old(instance)
      ensures old(instance) == null ==> fresh(s)
    {
      if instance == null {
        instance := new Service();
      }
      s := instance;
    }
  }

  /** Any two calls return the same object. */
  method TwoCallsSameInstance(slot: ServiceSlot) returns (a: Service, b: Service)
    modifies slot
    ensures a == b && slot.instance == a
  {
    a := slot.GetInstance();
    b := slot.GetInstance();
  }
}
