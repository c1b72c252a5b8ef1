/**
 * The ingestion endpoint: `POST` checks a device's request in a fixed
 * order (body parse, API key, presence of the four measurements, that each
 * parses as a number), builds the stored reading with its defaults, and
 * inserts it once into the readings collection.
 *
 * The clock, the configured API key, the outcome of the database insert and
 * the id it assigns are parameters.
 */
module IngestRoute {
  import opened Wrappers
  import opened Numeric

  // ---------------------------------------------------------------------
  // `parseFloat` on text

  /** The white space `parseFloat` skips before the number. */
  predicate IsWhiteSpace(c: char)
  {
    c == ' ' || c == '\t' || c == '\n' || c == '\r' || c as int == 0x0B || c as int == 0x0C ||
    c as int == 0xA0 || c as int == 0xFEFF || c as int == 0x2028 || c as int == 0x2029
  }

  /** The text after its leading white space. */
  function TrimStart(s: string): (t: string)
    ensures |t| <= |s| && t == s[|s| - |t|..]
    ensures t == [] || !IsWhiteSpace(t[0])
  {
    if s != [] && IsWhiteSpace(s[0]) then TrimStart(s[1..]) else s
  }

  /** The length of the run of digits `s` starts with. */
  function DigitRun(s: string): (n: nat)
    ensures n <= |s|
    ensures forall i :: 0 <= i < n ==> IsDigit(s[i])
    ensures n < |s| ==> !IsDigit(s[n])
  {
    if s != [] && IsDigit(s[0]) then
      var n := DigitRun(s[1..]);
      assert forall i :: 1 <= i < n + 1 ==> s[i] == s[1..][i - 1];
      1 + n
    else 0
  }

  /** The value of a run of decimal digits. */
  function DigitsValue(s: string): nat
    requires forall i :: 0 <= i < |s| ==> IsDigit(s[i])
  {
    if s == [] then 0 else DigitsValue(s[..|s| - 1]) * 10 + DigitValue(s[|s| - 1])
  }

  /** The value of the digits after a decimal point: `0.d0 d1 d2 …`. */
  function FractionValue(s: string): (v: real)
    requires forall i :: 0 <= i < |s| ==> IsDigit(s[i])
    ensures 0.0 <= v <= 1.0
  {
    if s == [] then 0.0 else (DigitValue(s[0]) as real + FractionValue(s[1..])) / 10.0
  }

  /**
   * An unsigned decimal at the start of `s`: digits, then optionally a point
   * and digits, at least one digit in all. What follows is ignored.
   */
  function ParseUnsigned(s: string): (r: Option<real>)
    ensures r.Some? ==> r.value >= 0.0
  {
    var n := DigitRun(s);
    var after := s[n..];
    var fraction := if |after| > 0 && after[0] == '.' then after[1..] else "";
    var m := DigitRun(fraction);
    if n == 0 && m == 0 then None
    else Some(DigitsValue(s[..n]) as real + FractionValue(fraction[..m]))
  }

  /** The negated number, NaN staying NaN. */
  function Negate(r: Option<real>): (n: Option<real>)
    ensures n.None? <==> r.None?
    ensures n.Some? ==> n.value == -r.value
  {
    if r.Some? then Some(-r.value) else None
  }

  /** `parseFloat` on a text: white space, an optional sign, an unsigned decimal; `None` is NaN. */
  function ParseFloatText(s: string): Option<real>
  {
    var t := TrimStart(s);
    if |t| > 0 && t[0] == '-' then Negate(ParseUnsigned(t[1..]))
    else if |t| > 0 && t[0] == '+' then ParseUnsigned(t[1..])
    else ParseUnsigned(t)
  }

  /** A text that starts with a sign is parsed by its remainder. */
  lemma ParseSignedText(s: string)
    requires |s| > 0 && (s[0] == '-' || s[0] == '+')
    ensures ParseFloatText(s) == if s[0] == '-' then Negate(ParseUnsigned(s[1..])) else ParseUnsigned(s[1..])
  {
    assert !IsWhiteSpace(s[0]);
    assert TrimStart(s) == s;
  }

  /** The decimal text of a natural number, as `String(n)` writes it. */
  function NatText(n: nat): (s: string)
    ensures |s| > 0 && forall i :: 0 <= i < |s| ==> IsDigit(s[i])
  {
    if n < 10 then [DigitChar(n)] else NatText(n / 10) + [DigitChar(n % 10)]
  }

  lemma {:induction false} NatTextValue(n: nat)
    ensures DigitsValue(NatText(n)) == n
  {
    if n >= 10 {
      NatTextValue(n / 10);
      var s := NatText(n);
      assert s[..|s| - 1] == NatText(n / 10);
    } else {
      assert NatText(n)[..0] == [];
    }
  }

  /** Whether `suffix` cannot continue a number: it is empty, or starts with neither a digit nor a point. */
  predicate EndsNumber(suffix: string)
  {
    suffix == [] || (!IsDigit(suffix[0]) && suffix[0] != '.')
  }

  lemma UnsignedOfNatText(n: nat, suffix: string)
    requires EndsNumber(suffix)
    ensures ParseUnsigned(NatText(n) + suffix) == Some(n as real)
  {
    var s := NatText(n) + suffix;
    var d := NatText(n);
    assert DigitRun(s) == |d| by {
      assert forall i :: 0 <= i < |d| ==> s[i] == d[i];
      DigitRunOfDigits(s, |d|);
    }
    assert s[..|d|] == d;
    assert s[|d|..] == suffix;
    NatTextValue(n);
  }

  lemma {:induction false} DigitRunOfDigits(s: string, k: nat)
    requires k <= |s|
    requires forall i :: 0 <= i < k ==> IsDigit(s[i])
    requires k == |s| || !IsDigit(s[k])
    ensures DigitRun(s) == k
  {
    if k > 0 {
      DigitRunOfDigits(s[1..], k - 1);
    }
  }

  /** A number's text, then anything that cannot continue it, parses back to that number. */
  lemma ParsesNatText(n: nat, suffix: string)
    requires EndsNumber(suffix)
    ensures ParseFloatText(NatText(n) + suffix) == Some(n as real)
  {
    var s := NatText(n) + suffix;
    assert IsDigit(s[0]);
    assert TrimStart(s) == s;
    UnsignedOfNatText(n, suffix);
  }

  /** A minus sign, a number's text, then anything that cannot continue it, parses back to the negative number. */
  lemma ParsesNegatedNatText(n: nat, suffix: string)
    requires EndsNumber(suffix)
    ensures ParseFloatText(['-'] + (NatText(n) + suffix)) == Some(-(n as real))
  {
    var d := NatText(n) + suffix;
    var s := ['-'] + d;
    assert s[0] == '-' && s[1..] == d;
    ParseSignedText(s);
    UnsignedOfNatText(n, suffix);
  }

  /** A text starting with anything but white space, a sign, a digit or a point is not a number. */
  lemma NonNumericStartIsNaN(s: string)
    requires |s| > 0 && !IsWhiteSpace(s[0]) && !IsDigit(s[0]) && s[0] !in {'-', '+', '.'}
    ensures ParseFloatText(s) == None
  {
    assert TrimStart(s) == s;
    assert DigitRun(s) == 0;
    assert s[0..] == s;
    assert DigitRun("") == 0;
  }

  /** A point and a run of digits, then anything but a digit, parses to the fraction they write. */
  lemma UnsignedOfFraction(f: string, suffix: string)
    requires |f| > 0 && forall i :: 0 <= i < |f| ==> IsDigit(f[i])
    requires suffix == [] || !IsDigit(suffix[0])
    ensures ParseUnsigned(['.'] + (f + suffix)) == Some(FractionValue(f))
  {
    var fraction := f + suffix;
    var s := ['.'] + fraction;
    assert DigitRun(s) == 0;
    assert s[0..] == s && s[1..] == fraction;
    assert DigitRun(fraction) == |f| by {
      DigitRunOfDigits(fraction, |f|);
    }
    assert fraction[..|f|] == f;
    assert DigitsValue(s[..0]) == 0;
  }

  /** Fraction digits count: ".25" is 0.25. */
  lemma ParseFractionExample()
    ensures ParseFloatText(".25") == Some(0.25)
  {
    var b := ".25";
    assert TrimStart(b) == b;
    assert b == ['.'] + ("25" + "");
    UnsignedOfFraction("25", "");
    assert "25"[1..] == "5" && "5"[1..] == [];
    assert FractionValue("25") == 0.25;
  }

  /** Leading white space is skipped and trailing text ignored: " -7kg" is -7. */
  lemma ParseSignedExample()
    ensures ParseFloatText(" -7kg") == Some(-7.0)
  {
    var a := " -7kg";
    assert TrimStart(a) == a[1..] by {
      assert IsWhiteSpace(a[0]) && a[1..][0] == '-';
    }
    assert NatText(7) == "7";
    assert a[1..] == ['-'] + (NatText(7) + "kg");
    ParsesNegatedNatText(7, "kg");
  }

  // ---------------------------------------------------------------------
  // Requests

  /** A JSON value the body may hold; objects and arrays are given by the text `String(value)` makes of them. */
  datatype Json = JNull | JBool(b: bool) | JNumber(n: real) | JString(s: string) | JOther(rendered: string)

  /**
   * The body: text that is not JSON, the JSON `null`, or any other JSON value
   * given by its own properties (a number, a text or an array has none of
   * the four measurements).
   */
  datatype Body = Unparseable | NullBody | Value(props: map<string, Json>)

  /** A request: its body and its headers (names in lower case). */
  datatype Request = Request(body: Body, headers: map<string, string>)

  /** `headers.get(name)`: the header, or `None` for null. */
  function Header(req: Request, name: string): (h: Option<string>)
    ensures h.Some? <==> name in req.headers
    ensures h.Some? ==> h.value == req.headers[name]
  {
    if name in req.headers then Some(req.headers[name]) else None
  }

  /** JavaScript truthiness of a JSON value. */
  predicate Truthy(j: Json)
  {
    match j
    case JNull => false
    case JBool(b) => b
    case JNumber(n) => n != 0.0
    case JString(s) => s != ""
    case JOther(_) => true
  }

  /** `parseFloat(value)`: the value is turned into text first; a number's text is that number. */
  function ParseField(j: Json): (r: Option<real>)
    ensures j.JNumber? ==> r == Some(j.n)
    ensures j.JString? ==> r == ParseFloatText(j.s)
  {
    match j
    case JNull => ParseFloatText("null")
    case JBool(b) => ParseFloatText(if b then "true" else "false")
    case JNumber(n) => Some(n)
    case JString(s) => ParseFloatText(s)
    case JOther(rendered) => ParseFloatText(rendered)
  }

  /** `null`, `true` and `false` become the texts "null", "true" and "false", which are NaN. */
  lemma NullAndBooleansAreNaN(j: Json)
    requires j.JNull? || j.JBool?
    ensures ParseField(j).None?
  {
    match j
    case JNull => NonNumericStartIsNaN("null");
    case JBool(b) => NonNumericStartIsNaN(if b then "true" else "false");
  }

  /** The four measurements, in the order they are checked. */
  const Required: seq<string> := ["temperature", "humidity", "aqi", "gasConcentration"]

  /** Whether none of the four measurements is `undefined`. */
  predicate HasRequired(props: map<string, Json>)
  {
    "temperature" in props && "humidity" in props && "aqi" in props && "gasConcentration" in props
  }

  const MissingFieldsError := "Missing required fields: temperature, humidity, aqi, gasConcentration"
  const InvalidTypesError := "Invalid data types - all values must be numbers"
  const UnauthorizedError := "Unauthorized - Invalid API key"
  const StoreFailedError := "Failed to store data"
  const DefaultDeviceId := "ESP32_001"

  /** The configured key matches the header: an unset key (`undefined`) matches no header, not even a missing one (`null`). */
  predicate Authorized(req: Request, configuredKey: Option<string>)
  {
    configuredKey.Some? && Header(req, "x-api-key") == configuredKey
  }

  /** Every one of the four measurements parses as a number. */
  predicate AllParse(props: map<string, Json>)
    requires HasRequired(props)
  {
    ParseField(props["temperature"]).Some? && ParseField(props["humidity"]).Some? &&
    ParseField(props["aqi"]).Some? && ParseField(props["gasConcentration"]).Some?
  }

  /** The checks passed: the four parsed measurements and the body's `deviceId`, if any. */
  datatype Accepted = Accepted(temperature: real, humidity: real, aqi: real, gasConcentration: real, deviceId: Option<Json>)

  /** Where the checks stop: with a status and error text, or with the values to store. */
  datatype Decision = Reject(status: nat, error: string) | Accept(values: Accepted)

  /** The early-return guard chain, in source order. */
  function Decide(req: Request, configuredKey: Option<string>): (d: Decision)
    ensures d.Reject? ==> d.status in {400, 401, 500}
    ensures d.Accept? <==>
      req.body.Value? && Authorized(req, configuredKey) && HasRequired(req.body.props) &&
      AllParse(req.body.props)
    ensures (req.body.Value? && Authorized(req, configuredKey) && HasRequired(req.body.props) &&
      !AllParse(req.body.props)) ==> d == Reject(400, InvalidTypesError)
    ensures d.Accept? ==>
      Some(d.values.temperature) == ParseField(req.body.props["temperature"]) &&
      Some(d.values.humidity) == ParseField(req.body.props["humidity"]) &&
      Some(d.values.aqi) == ParseField(req.body.props["aqi"]) &&
      Some(d.values.gasConcentration) == ParseField(req.body.props["gasConcentration"])
  {
    if req.body.Unparseable? then Reject(500, StoreFailedError)
    else if !Authorized(req, configuredKey) then Reject(401, UnauthorizedError)
    else if req.body.NullBody? then Reject(500, StoreFailedError)
    else
      var props := req.body.props;
      if !HasRequired(props) then Reject(400, MissingFieldsError)
      else
        var temp := ParseField(props["temperature"]);
        var humid := ParseField(props["humidity"]);
        var aqi := ParseField(props["aqi"]);
        var gas := ParseField(props["gasConcentration"]);
        if temp.None? || humid.None? || aqi.None? || gas.None? then Reject(400, InvalidTypesError)
        else
          var deviceId := if "deviceId" in props then Some(props["deviceId"]) else None;
          Accept(Accepted(temp.value, humid.value, aqi.value, gas.value, deviceId))
  }

  /** The first of two headers that is present and not empty (`a || b || fallback`). */
  function FirstHeader(req: Request, first: string, second: string, fallback: string): (v: string)
    ensures Header(req, first).Some? && Header(req, first).value != "" ==> v == req.headers[first]
    ensures (Header(req, first).None? || Header(req, first).value == "") ==>
      v == if Header(req, second).Some? && Header(req, second).value != "" then req.headers[second] else fallback
  {
    if first in req.headers && req.headers[first] != "" then req.headers[first]
    else if second in req.headers && req.headers[second] != "" then req.headers[second]
    else fallback
  }

  /** One header if it is present and not empty, else the fallback (`a || fallback`). */
  function HeaderOr(req: Request, name: string, fallback: string): (v: string)
    ensures Header(req, name).Some? && Header(req, name).value != "" ==> v == req.headers[name]
    ensures (Header(req, name).None? || Header(req, name).value == "") ==> v == fallback
  {
    if name in req.headers && req.headers[name] != "" then req.headers[name] else fallback
  }

  /** A stored document. */
  datatype StoredReading = StoredReading(
    timestamp: int,
    temperature: real,
    humidity: real,
    aqi: real,
    gasConcentration: real,
    status: string,
    deviceId: Json,
    ipAddress: string,
    userAgent: string)

  /** The document built from accepted values, at time `now`. */
  function BuildRecord(req: Request, v: Accepted, now: int): (r: StoredReading)
    ensures r.timestamp == now && r.status == "online"
    ensures r.temperature == v.temperature && r.humidity == v.humidity && r.aqi == v.aqi &&
      r.gasConcentration == v.gasConcentration
    ensures r.deviceId == if v.deviceId.Some? && Truthy(v.deviceId.value) then v.deviceId.value else JString(DefaultDeviceId)
    ensures r.ipAddress == FirstHeader(req, "x-forwarded-for", "x-real-ip", "unknown")
    ensures r.userAgent == HeaderOr(req, "user-agent", "ESP32")
  {
    StoredReading(
      now, v.temperature, v.humidity, v.aqi, v.gasConcentration, "online",
      if v.deviceId.Some? && Truthy(v.deviceId.value) then v.deviceId.value else JString(DefaultDeviceId),
      FirstHeader(req, "x-forwarded-for", "x-real-ip", "unknown"),
      HeaderOr(req, "user-agent", "ESP32"))
  }

  /** The response: stored, with the new id and the stored timestamp, or an error. */
  datatype Response =
    | Stored(message: string, id: string, timestamp: int)
    | Failed(status: nat, error: string)

  /** The response to a request, the insert failing or assigning `insertedId`. */
  function Respond(req: Request, configuredKey: Option<string>, now: int, insertFails: bool, insertedId: string): Response
  {
    match Decide(req, configuredKey)
    case Reject(status, error) => Failed(status, error)
    case Accept(v) =>
      if insertFails then Failed(500, StoreFailedError)
      else Stored("Sensor data stored successfully", insertedId, BuildRecord(req, v, now).timestamp)
  }

  /** The documents a request inserts: one on success, none on any early return or failed insert. */
  function Inserted(req: Request, configuredKey: Option<string>, now: int, insertFails: bool): (docs: seq<StoredReading>)
    ensures |docs| <= 1
  {
    match Decide(req, configuredKey)
    case Reject(_, _) => []
    case Accept(v) => if insertFails then [] else [BuildRecord(req, v, now)]
  }

  /** The readings collection. */
  class ReadingStore {
    var records: seq<StoredReading>

    constructor ()
      ensures records == []
    {
      records := [];
    }

    /** `POST` */
    method Post(req: Request, configuredKey: Option<string>, now: int, insertFails: bool, insertedId: string)
      returns (resp: Response)
      modifies this
      ensures resp == Respond(req, configuredKey, now, insertFails, insertedId)
      ensures records == old(records) + Inserted(req, configuredKey, now, insertFails)
    {
      var decision := Decide(req, configuredKey);
      if decision.Reject? {
        return Failed(decision.status, decision.error);
      }
      if insertFails {
        return Failed(500, StoreFailedError);
      }
      var reading := BuildRecord(req, decision.values, now);
      records := records + [reading];
      resp := Stored("Sensor data stored successfully", insertedId, reading.timestamp);
    }
  }

  // ---------------------------------------------------------------------
  // Properties of the guard chain

  /** Exactly one document is written when the response is a success, and none otherwise. */
  lemma StoredIffOneInsert(req: Request, configuredKey: Option<string>, now: int, insertFails: bool, insertedId: string)
    ensures Respond(req, configuredKey, now, insertFails, insertedId).Stored? <==>
      |Inserted(req, configuredKey, now, insertFails)| == 1
    ensures Respond(req, configuredKey, now, insertFails, insertedId).Stored? ==>
      Respond(req, configuredKey, now, insertFails, insertedId).timestamp ==
      Inserted(req, configuredKey, now, insertFails)[0].timestamp == now
  {
  }

  /** The body is parsed before the key is checked: a malformed body gives 500 whatever the key. */
  lemma MalformedBodyBeforeKey(req: Request, configuredKey: Option<string>, now: int, insertFails: bool, insertedId: string)
    requires req.body.Unparseable?
    ensures Respond(req, configuredKey, now, insertFails, insertedId) == Failed(500, StoreFailedError)
    ensures Inserted(req, configuredKey, now, insertFails) == []
  {
  }

  /** An authorised `null` body passes the key check, then reading its fields throws into the
      catch: 500, and nothing is written. */
  lemma NullBodyIs500(req: Request, configuredKey: Option<string>, now: int, insertFails: bool, insertedId: string)
    requires req.body.NullBody? && Authorized(req, configuredKey)
    ensures Respond(req, configuredKey, now, insertFails, insertedId) == Failed(500, StoreFailedError)
    ensures Inserted(req, configuredKey, now, insertFails) == []
  {
  }

  /** A parseable body with a wrong key is rejected with 401, before any field is looked at, and nothing is written. */
  lemma WrongKeyIs401(req: Request, configuredKey: Option<string>, now: int, insertFails: bool, insertedId: string)
    requires !req.body.Unparseable?
    ensures !Authorized(req, configuredKey) <==>
      Respond(req, configuredKey, now, insertFails, insertedId) == Failed(401, UnauthorizedError)
    ensures !Authorized(req, configuredKey) ==> Inserted(req, configuredKey, now, insertFails) == []
  {
  }

  /** With no key configured, every parseable request is rejected with 401, even one without the header. */
  lemma UnsetKeyRejectsAll(req: Request, now: int, insertFails: bool, insertedId: string)
    requires !req.body.Unparseable?
    ensures Respond(req, None, now, insertFails, insertedId) == Failed(401, UnauthorizedError)
  {
  }

  /** Any missing measurement gives 400 with the one message naming all four. */
  lemma MissingFieldIs400(req: Request, configuredKey: Option<string>, now: int, insertFails: bool, insertedId: string, k: string)
    requires Authorized(req, configuredKey) && req.body.Value?
    requires k in Required && k !in req.body.props
    ensures Respond(req, configuredKey, now, insertFails, insertedId) == Failed(400, MissingFieldsError)
    ensures Inserted(req, configuredKey, now, insertFails) == []
  {
  }

  /**
   * Once the four measurements are present, any one of them that is not a
   * number gives 400 with the one message about all four, and nothing is written.
   */
  lemma NaNFieldIs400(req: Request, configuredKey: Option<string>, now: int, insertFails: bool, insertedId: string, k: string)
    requires Authorized(req, configuredKey) && req.body.Value?
    requires HasRequired(req.body.props)
    requires k in Required && ParseField(req.body.props[k]).None?
    ensures Respond(req, configuredKey, now, insertFails, insertedId) == Failed(400, InvalidTypesError)
    ensures Inserted(req, configuredKey, now, insertFails) == []
  {
  }

  /** A `null` measurement is present, so it passes the presence check, and then fails to parse. */
  lemma NullFieldIsInvalidType(req: Request, configuredKey: Option<string>, now: int, insertFails: bool, insertedId: string, k: string)
    requires Authorized(req, configuredKey) && req.body.Value?
    requires HasRequired(req.body.props)
    requires k in Required && req.body.props[k] == JNull
    ensures Respond(req, configuredKey, now, insertFails, insertedId) == Failed(400, InvalidTypesError)
    ensures Inserted(req, configuredKey, now, insertFails) == []
  {
    NullAndBooleansAreNaN(JNull);
    NaNFieldIs400(req, configuredKey, now, insertFails, insertedId, k);
  }

  /** A measurement sent as the text "abc" is not a number either. */
  lemma TextFieldIsInvalidType(req: Request, configuredKey: Option<string>, now: int, insertFails: bool, insertedId: string)
    requires Authorized(req, configuredKey) && req.body.Value?
    requires HasRequired(req.body.props)
    requires req.body.props["humidity"] == JString("abc")
    ensures Respond(req, configuredKey, now, insertFails, insertedId) == Failed(400, InvalidTypesError)
    ensures Inserted(req, configuredKey, now, insertFails) == []
  {
    NonNumericStartIsNaN("abc");
    NaNFieldIs400(req, configuredKey, now, insertFails, insertedId, "humidity");
  }

  /** There is no range check: numeric measurements are stored as they come, an AQI of 9999 included. */
  lemma NoRangeCheck(req: Request, configuredKey: Option<string>, now: int, t: real, h: real, a: real, g: real)
    requires Authorized(req, configuredKey) && req.body.Value?
    requires req.body.props.Keys == {"temperature", "humidity", "aqi", "gasConcentration"}
    requires req.body.props["temperature"] == JNumber(t) && req.body.props["humidity"] == JNumber(h)
    requires req.body.props["aqi"] == JNumber(a) && req.body.props["gasConcentration"] == JNumber(g)
    ensures var docs := Inserted(req, configuredKey, now, false);
      |docs| == 1 && docs[0].temperature == t && docs[0].humidity == h && docs[0].aqi == a &&
      docs[0].gasConcentration == g && docs[0].deviceId == JString(DefaultDeviceId)
  {
  }

  /** The client address falls back from x-forwarded-for to x-real-ip to "unknown". */
  lemma AddressFallback(req: Request)
    requires "x-forwarded-for" !in req.headers
    ensures "x-real-ip" in req.headers && req.headers["x-real-ip"] != "" ==>
      FirstHeader(req, "x-forwarded-for", "x-real-ip", "unknown") == req.headers["x-real-ip"]
    ensures "x-real-ip" !in req.headers ==> FirstHeader(req, "x-forwarded-for", "x-real-ip", "unknown") == "unknown"
  {
  }
}
