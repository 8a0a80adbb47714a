/**
 * The Flask API routes (`dashboard/flask/routes.py`): sensor POST validation
 * and its side effects, the config endpoint's per-key validation and version
 * bump, the unused latest-reading slot, and the history endpoint's error mapping.
 */
module Routes {
  import opened Wrappers
  import opened JsonValue
  import opened Text
  import opened Python
  import opened CsvFile
  import opened Clock
  import opened SensorUtils
  import opened Shared

  // ------------------------------------------------------------ error replies

  /**
   * `api_response("error", message, code)` as the POST handlers write it: the
   * third positional parameter is `data`, so the code lands in the body and
   * the HTTP status stays at its default.
   */
  function ErrorPositional(message: string, code: int): (r: Response)
    ensures r.status == 200
    ensures "data" in r.body && r.body["data"] == JInt(code)
    ensures "status" in r.body && r.body["status"] == JStr("error")
    ensures ("message" in r.body <==> message != "") && (message != "" ==> r.body["message"] == JStr(message))
  {
    ApiResponse("error", JStr(message), JInt(code))
  }

  /** A rejected POST answers HTTP 200 and carries the intended code as data. */
  lemma PositionalCodeIsNotStatus()
    ensures ErrorPositional("Content-Type must be application/json", 400).status == 200
    ensures ErrorPositional("Content-Type must be application/json", 400).body["data"] == JInt(400)
    ensures ErrorPositional("Content-Type must be application/json", 400) != ErrorReply("Content-Type must be application/json", 400)
  {
    assert ErrorReply("Content-Type must be application/json", 400).status == 400;
  }

  /** The intended error reply, `api_response("error", message, http_status=code)`. */
  function ErrorReply(message: string, code: int): (r: Response)
    ensures r.status == code
    ensures "status" in r.body && r.body["status"] == JStr("error") && "data" !in r.body
    ensures ("message" in r.body <==> message != "") && (message != "" ==> r.body["message"] == JStr(message))
  {
    ApiResponse("error", JStr(message), httpStatus := code)
  }

  // -------------------------------------------------------- POST /api/sensor

  const ReadingFields: seq<string> := ["temp_f", "humidity", "lux", "moisture"]

  /** `v is None or (isinstance(v, str) and v.strip() == "")` for `v = data.get(field)`. */
  predicate MissingOrNull(data: map<string, Json>, field: string) {
    field !in data || data[field] == JNull || (data[field].JStr? && Blank(data[field].s))
  }

  /**
   * `num(field)`: the float, or what it raises. `float()`'s `ValueError` and
   * `TypeError` become the handler's own `ValueError`; an `OverflowError`
   * passes through.
   */
  function Num(rt: Runtime, data: map<string, Json>, field: string): (r: Result<real, PyExc>)
    ensures MissingOrNull(data, field) ==> r == Err(ValueError(field + " is missing or null"))
    ensures !MissingOrNull(data, field) && ToFloat(rt, data[field]).Err? ==>
      if ToFloat(rt, data[field]).error.ConvOverflowError? then r == ToFloat(rt, data[field])
      else r == Err(ValueError(field + " must be numeric"))
    ensures !MissingOrNull(data, field) && ToFloat(rt, data[field]).Ok? ==> r == Ok(ToFloat(rt, data[field]).value)
  {
    var v := Lookup(data, field, JNull);
    if v == JNull || (v.JStr? && Blank(v.s)) then Err(ValueError(field + " is missing or null"))
    else match ToFloat(rt, v)
      case Ok(x) => Ok(x)
      case Err(e) => if e.IsValueError() || e.IsTypeError() then Err(ValueError(field + " must be numeric")) else Err(e)
  }

  /** The `latest_data` dict literal: the server's UTC stamp, then the four fields in order. */
  function BuildReading(rt: Runtime, data: map<string, Json>, now: DateTime): (r: Result<SensorRecord, PyExc>)
    ensures Num(rt, data, "temp_f").Err? ==> r == Err(Num(rt, data, "temp_f").error)
    ensures Num(rt, data, "temp_f").Ok? && Num(rt, data, "humidity").Err? ==> r == Err(Num(rt, data, "humidity").error)
    ensures Num(rt, data, "temp_f").Ok? && Num(rt, data, "humidity").Ok? && Num(rt, data, "lux").Err? ==>
      r == Err(Num(rt, data, "lux").error)
    ensures (Num(rt, data, "temp_f").Ok? && Num(rt, data, "humidity").Ok? && Num(rt, data, "lux").Ok?
      && Num(rt, data, "moisture").Err?) ==> r == Err(Num(rt, data, "moisture").error)
    ensures r.Ok? <==> (Num(rt, data, "temp_f").Ok? && Num(rt, data, "humidity").Ok?
      && Num(rt, data, "lux").Ok? && Num(rt, data, "moisture").Ok?)
    ensures r.Ok? ==> r.value == SensorRecord(FormatIsoZ(now), Num(rt, data, "temp_f").value,
      Num(rt, data, "humidity").value, Num(rt, data, "lux").value, Num(rt, data, "moisture").value)
  {
    var ts := FormatIsoZ(now);
    match Num(rt, data, "temp_f")
    case Err(m) => Err(m)
    case Ok(t) =>
      match Num(rt, data, "humidity")
      case Err(m) => Err(m)
      case Ok(h) =>
        match Num(rt, data, "lux")
        case Err(m) => Err(m)
        case Ok(l) =>
          match Num(rt, data, "moisture")
          case Err(m) => Err(m)
          case Ok(mo) => Ok(SensorRecord(ts, t, h, l, mo))
  }

  /** Whatever the client sends as `timestamp` has no influence on the reading. */
  lemma ClientTimestampIgnored(rt: Runtime, data: map<string, Json>, v: Json, now: DateTime)
    ensures BuildReading(rt, data["timestamp" := v], now) == BuildReading(rt, data, now)
  {
    var d := data["timestamp" := v];
    forall i | 0 <= i < |ReadingFields| ensures Num(rt, d, ReadingFields[i]) == Num(rt, data, ReadingFields[i]) {
      assert Lookup(d, ReadingFields[i], JNull) == Lookup(data, ReadingFields[i], JNull);
    }
    assert Num(rt, d, "temp_f") == Num(rt, data, "temp_f") by { assert ReadingFields[0] == "temp_f"; }
    assert Num(rt, d, "humidity") == Num(rt, data, "humidity") by { assert ReadingFields[1] == "humidity"; }
    assert Num(rt, d, "lux") == Num(rt, data, "lux") by { assert ReadingFields[2] == "lux"; }
    assert Num(rt, d, "moisture") == Num(rt, data, "moisture") by { assert ReadingFields[3] == "moisture"; }
  }

  /** A valid reading is stamped in the `YYYY-MM-DDTHH:MM:SSZ` form of the server clock. */
  lemma ReadingStamp(rt: Runtime, data: map<string, Json>, now: DateTime)
    requires BuildReading(rt, data, now).Ok?
    ensures var ts := BuildReading(rt, data, now).value.timestamp;
      |ts| == 20 && ts[10] == 'T' && ts[19] == 'Z' && EndsWith(ts, "Z")
  {
    IsoZShape(now);
  }

  /**
   * Everything `post_sensor_data` decides before its first side effect: the
   * reading to publish, or the reply that ends the request. Every refusal is
   * written with the code as the third positional argument, so it answers
   * HTTP 200 and carries 400 or 500 as `data`. A field's `ValueError` is
   * answered with its text; an `OverflowError` from `float()` reaches the
   * outer handler's "internal error".
   */
  function PostOutcome(isJson: bool, body: Json, now: DateTime, rt: Runtime): (r: Result<SensorRecord, Response>)
    ensures !isJson ==> r == Err(ErrorPositional("Content-Type must be application/json", 400))
    ensures isJson && !Truthy(body) ==> r == Err(ErrorPositional("Invalid or missing JSON payload", 400))
    ensures isJson && Truthy(body) && !body.JObject? ==> r == Err(ErrorPositional("internal error", 500))
    ensures isJson && body.JObject? && Truthy(body) ==>
      match BuildReading(rt, body.fields, now)
      case Ok(rec) => r == Ok(rec)
      case Err(e) => r == Err(if e.ValueError? then ErrorPositional(e.msg, 400) else ErrorPositional("internal error", 500))
    ensures r.Err? ==> r.error.status == 200
  {
    if !isJson then Err(ErrorPositional("Content-Type must be application/json", 400))
    else if !Truthy(body) then Err(ErrorPositional("Invalid or missing JSON payload", 400))
    else if !body.JObject? then Err(ErrorPositional("internal error", 500))  // `data.get` raises AttributeError
    else match BuildReading(rt, body.fields, now)
      case Ok(rec) => Ok(rec)
      case Err(e) => if e.ValueError? then Err(ErrorPositional(e.msg, 400)) else Err(ErrorPositional("internal error", 500))
  }

  /**
   * A field that fails with a `ValueError` answers HTTP 200 with data 400 and
   * the message naming that field; one whose `float()` overflows answers the
   * "internal error" refusal with data 500.
   */
  lemma FieldRejection(rt: Runtime, fields: map<string, Json>, now: DateTime, field: string)
    requires field in ReadingFields
    requires Num(rt, fields, field).Err?
    requires forall i :: 0 <= i < |ReadingFields| && ReadingFields[i] != field ==> Num(rt, fields, ReadingFields[i]).Ok?
    requires fields != map[]
    ensures Num(rt, fields, field).error.ValueError? ==>
      && PostOutcome(true, JObject(fields), now, rt) == Err(ErrorPositional(Num(rt, fields, field).error.msg, 400))
      && StartsWith(Num(rt, fields, field).error.msg, field)
    ensures !Num(rt, fields, field).error.ValueError? ==>
      && Num(rt, fields, field).error.ConvOverflowError?
      && PostOutcome(true, JObject(fields), now, rt) == Err(ErrorPositional("internal error", 500))
  {
    assert ReadingFields[0] == "temp_f" && ReadingFields[1] == "humidity";
    assert ReadingFields[2] == "lux" && ReadingFields[3] == "moisture";
  }

  /** A reading whose `temp_f` is an int beyond the double range is refused as an internal error. */
  lemma HugeIntIsInternalError(rt: Runtime, fields: map<string, Json>, now: DateTime)
    requires "temp_f" in fields && fields["temp_f"] == JInt(FloatIntLimit)
    ensures PostOutcome(true, JObject(fields), now, rt) == Err(ErrorPositional("internal error", 500))
  {
    assert Num(rt, fields, "temp_f") == Err(ConvOverflowError("float", JInt(FloatIntLimit)));
  }

  /** The `latest_data` dict a valid POST builds, as a JSON object. */
  function RecordJson(rec: SensorRecord): map<string, Json> {
    map["timestamp" := JStr(rec.timestamp), "temp_f" := JFloat(rec.tempF), "humidity" := JFloat(rec.humidity),
        "lux" := JFloat(rec.lux), "moisture" := JFloat(rec.moisture)]
  }

  // --------------------------------------------------------- GET /api/sensor

  function Error500(rt: Runtime, e: PyExc): Response {
    ErrorReply(ExcStr(rt, e), 500)
  }

  /** `float(latest_data[k])`: `KeyError` and `ValueError` are answered, a `TypeError` escapes. */
  function SlotFloat(rt: Runtime, d: map<string, Json>, k: string, default: Option<Json>): Result<real, PyExc> {
    if k in d then ToFloat(rt, d[k])
    else if default.Some? then ToFloat(rt, default.value)
    else Err(KeyError(k))
  }

  predicate Answered(e: PyExc) { e.IsValueError() || e.KeyError? }

  /**
   * The `try` body of `get_sensor_data` for a stored reading `d`: `Ok` is the
   * reply, `Err` an exception the handler does not catch. `fromIso` is
   * `datetime.fromisoformat`.
   */
  function SensorView(rt: Runtime, fromIso: string -> Option<DateTime>, d: map<string, Json>): Result<Response, PyExc> {
    if "timestamp" !in d then Ok(Error500(rt, KeyError("timestamp")))
    else if !d["timestamp"].JStr? then Err(AttributeError("replace"))
    else
      var s := Without(d["timestamp"].s, 'Z');
      match fromIso(s)
      case None => Ok(Error500(rt, ConvValueError("fromisoformat", JStr(s))))
      case Some(dt) =>
        var t := SlotFloat(rt, d, "temp_f", None);
        var h := SlotFloat(rt, d, "humidity", None);
        var l := SlotFloat(rt, d, "lux", None);
        var m := SlotFloat(rt, d, "moisture", Some(JInt(0)));
        if t.Err? then (if Answered(t.error) then Ok(Error500(rt, t.error)) else Err(t.error))
        else if h.Err? then (if Answered(h.error) then Ok(Error500(rt, h.error)) else Err(h.error))
        else if l.Err? then (if Answered(l.error) then Ok(Error500(rt, l.error)) else Err(l.error))
        else if m.Err? then (if Answered(m.error) then Ok(Error500(rt, m.error)) else Err(m.error))
        else Ok(ApiResponse(data := JObject(map[
          "timestamp" := JStr(FormatIso(dt)), "display_time" := JStr(FormatShortDisplay(dt)),
          "temp_f" := JFloat(t.value), "humidity" := JFloat(h.value),
          "lux" := JFloat(l.value), "moisture" := JFloat(m.value)])))
  }

  /**
   * Were a POSTed reading ever stored, GET would answer its values with the
   * stamp rewritten to the ISO form without `Z`.
   */
  lemma SensorViewOfReading(rt: Runtime, fromIso: string -> Option<DateTime>, rec: SensorRecord, now: DateTime)
    requires rec.timestamp == FormatIsoZ(now)
    requires fromIso(FormatIso(now)) == Some(now)
    ensures SensorView(rt, fromIso, RecordJson(rec)) == Ok(ApiResponse(data := JObject(map[
      "timestamp" := JStr(FormatIso(now)), "display_time" := JStr(FormatShortDisplay(now)),
      "temp_f" := JFloat(rec.tempF), "humidity" := JFloat(rec.humidity),
      "lux" := JFloat(rec.lux), "moisture" := JFloat(rec.moisture)])))
  {
    IsoZWithoutZ(now);
  }

  const NoDataYet: Response := ApiResponse("error", JStr("No data received yet"), httpStatus := 200)

  // -------------------------------------------------------------- /api/config

  datatype Rule = IntRange(lo: nat, hi: nat) | AsStr
  datatype Validator = Validator(key: string, rule: Rule)

  /** The `validators` table, in its iteration order. */
  const Validators: seq<Validator> := [
    Validator("sleep", IntRange(1, 6000)), Validator("ssid", AsStr), Validator("password", AsStr),
    Validator("mqtt_broker", AsStr), Validator("mqtt_port", IntRange(1, 65535))]

  /** The outcome of the validation part of the POST handler. */
  datatype Checked = Accepted(validated: map<string, Json>) | Rejected(message: string) | Raised(e: PyExc)

  /** `key in new_cfg` for whatever JSON value the body decoded to. */
  function Contains(container: Json, key: string): Result<bool, PyExc> {
    match container
    case JObject(f) => Ok(key in f)
    case JList(xs) => Ok(JStr(key) in xs)
    case JStr(s) => Ok(Text.Contains(s, key))
    case _ => Err(OpTypeError("in", container))
  }

  /** One validator applied to a value: the value stored, or the 400 message. */
  function Check(rule: Rule, key: string, v: Json, rt: Runtime): (r: Result<Json, string>)
    ensures rule.IntRange? && r.Ok? ==> r.value.JInt? && rule.lo <= r.value.i <= rule.hi
    ensures rule.AsStr? ==> r.Ok? && r.value.JStr?
  {
    match rule
    case AsStr => Ok(JStr(Str(rt, v)))
    case IntRange(lo, hi) =>
      match ToInt(rt, v)
      case Err(_) => Err("Invalid value for " + key)
      case Ok(n) =>
        if n < lo then Err(key + " must be >= " + NatStr(lo))
        else if n > hi then Err(key + " must be <= " + NatStr(hi))
        else Ok(JInt(n))
  }

  /** The legacy `polling_interval` conversion: milliseconds above 6000, then clamped. */
  function ClampSleep(n: int): (r: int)
    ensures 1 <= r <= 6000
    ensures 1 <= n <= 6000 ==> r == n
    ensures n < 1 ==> r == 1
    ensures 6000 < n < 6001000 ==> r == n / 1000
    ensures n >= 6001000 ==> r == 6000
  {
    var v := if n > 6000 then n / 1000 else n;
    if v < 1 then 1 else if v > 6000 then 6000 else v
  }

  /** The backward-compatibility block: `Ok(Some(s))` puts `sleep = s` into `validated`. */
  function PollingSleep(body: Json, rt: Runtime): Result<Option<int>, PyExc> {
    match Contains(body, "polling_interval")
    case Err(e) => Err(e)
    case Ok(false) => Ok(None)
    case Ok(true) =>
      match Contains(body, "sleep")
      case Err(e) => Err(e)
      case Ok(true) => Ok(None)
      case Ok(false) =>
        match Subscript(body, "polling_interval")
        case Err(_) => Ok(None)  // `except Exception: pass`
        case Ok(v) =>
          match ToInt(rt, v)
          case Err(_) => Ok(None)
          case Ok(n) => Ok(Some(ClampSleep(n)))
  }

  /** The validator loop from entry `i` on, with `acc` validated so far. */
  function ValidateFrom(body: Json, rt: Runtime, i: nat, acc: map<string, Json>): Checked
    requires i <= |Validators|
    decreases |Validators| - i
  {
    if i == |Validators| then Accepted(acc)
    else
      var key := Validators[i].key;
      match Contains(body, key)
      case Err(e) => Raised(e)
      case Ok(false) => ValidateFrom(body, rt, i + 1, acc)
      case Ok(true) =>
        match Subscript(body, key)
        case Err(_) => Rejected("Invalid value for " + key)  // a str or list body: TypeError, caught
        case Ok(v) =>
          match Check(Validators[i].rule, key, v, rt)
          case Err(m) => Rejected(m)
          case Ok(j) => ValidateFrom(body, rt, i + 1, acc[key := j])
  }

  function InitialValidated(p: Option<int>): map<string, Json> {
    if p.Some? then map["sleep" := JInt(p.value)] else map[]
  }

  /** What the handler has decided once the validator loop is done. */
  function ValidatedConfig(body: Json, rt: Runtime): Checked {
    match PollingSleep(body, rt)
    case Err(e) => Raised(e)
    case Ok(p) => ValidateFrom(body, rt, 0, InitialValidated(p))
  }

  /**
   * The polling block and the validator loop of `config_handler`, as a loop;
   * its result is the one `ValidatedConfig` specifies.
   */
  method ValidateConfig(body: Json, rt: Runtime) returns (out: Checked)
    ensures out == ValidatedConfig(body, rt)
  {
    var p := PollingSleep(body, rt);
    if p.Err? {
      return Raised(p.error);
    }
    var validated := InitialValidated(p.value);
    var i := 0;
    while i < |Validators|
      invariant 0 <= i <= |Validators|
      invariant ValidateFrom(body, rt, i, validated) == ValidatedConfig(body, rt)
    {
      var key := Validators[i].key;
      var present := Contains(body, key);
      if present.Err? {
        // `"polling_interval" in new_cfg` has already raised for such a body
        assert false;
      }
      if present.value {
        var v := Subscript(body, key);
        if v.Err? {
          return Rejected("Invalid value for " + key);
        }
        var c := Check(Validators[i].rule, key, v.value, rt);
        if c.Err? {
          return Rejected(c.error);
        }
        validated := validated[key := c.value];
      }
      i := i + 1;
    }
    out := Accepted(validated);
  }

  predicate IsValidatorKey(k: string) {
    exists i :: 0 <= i < |Validators| && Validators[i].key == k
  }

  /** Each validated entry fits its rule: an int within the range, or a string. */
  predicate Fits(acc: map<string, Json>) {
    && (forall k :: k in acc ==> IsValidatorKey(k))
    && (forall i :: 0 <= i < |Validators| && Validators[i].key in acc ==>
          match Validators[i].rule
          case IntRange(lo, hi) => acc[Validators[i].key].JInt? && lo <= acc[Validators[i].key].i <= hi
          case AsStr => acc[Validators[i].key].JStr?)
  }

  lemma {:induction false} ValidateFromFits(body: Json, rt: Runtime, i: nat, acc: map<string, Json>)
    requires i <= |Validators| && Fits(acc)
    ensures ValidateFrom(body, rt, i, acc).Accepted? ==> Fits(ValidateFrom(body, rt, i, acc).validated)
    decreases |Validators| - i
  {
    if i < |Validators| {
      var key := Validators[i].key;
      var c := Contains(body, key);
      if c.Ok? && c.value && Subscript(body, key).Ok? {
        var r := Check(Validators[i].rule, key, Subscript(body, key).value, rt);
        if r.Ok? {
          var acc' := acc[key := r.value];
          assert Fits(acc') by {
            forall j | 0 <= j < |Validators| && Validators[j].key == key ensures j == i {
            }
            assert IsValidatorKey(key);
          }
          ValidateFromFits(body, rt, i + 1, acc');
        }
      } else if c.Ok? && !c.value {
        ValidateFromFits(body, rt, i + 1, acc);
      }
    }
  }

  lemma ValidatorKeySet(k: string)
    requires IsValidatorKey(k)
    ensures k in {"sleep", "ssid", "password", "mqtt_broker", "mqtt_port"}
  {
    var i :| 0 <= i < |Validators| && Validators[i].key == k;
  }

  /**
   * Whatever the body, an accepted result holds only validator keys, `sleep`
   * as an int in [1, 6000], `mqtt_port` as an int in [1, 65535] and the
   * other three as strings.
   */
  lemma AcceptedInRange(body: Json, rt: Runtime)
    requires ValidatedConfig(body, rt).Accepted?
    ensures var v := ValidatedConfig(body, rt).validated;
      && (forall k :: k in v ==> k in {"sleep", "ssid", "password", "mqtt_broker", "mqtt_port"})
      && ("sleep" in v ==> v["sleep"].JInt? && 1 <= v["sleep"].i <= 6000)
      && ("mqtt_port" in v ==> v["mqtt_port"].JInt? && 1 <= v["mqtt_port"].i <= 65535)
      && ("ssid" in v ==> v["ssid"].JStr?) && ("password" in v ==> v["password"].JStr?)
      && ("mqtt_broker" in v ==> v["mqtt_broker"].JStr?)
  {
    var p := PollingSleep(body, rt).value;
    var acc := InitialValidated(p);
    assert Fits(acc) by {
      if p.Some? {
        assert Validators[0].key == "sleep";
        assert IsValidatorKey("sleep");
      }
    }
    ValidateFromFits(body, rt, 0, acc);
    var v := ValidatedConfig(body, rt).validated;
    assert Fits(v);
    forall k | k in v ensures k in {"sleep", "ssid", "password", "mqtt_broker", "mqtt_port"} {
      ValidatorKeySet(k);
    }
    assert Validators[0] == Validator("sleep", IntRange(1, 6000));
    assert Validators[1] == Validator("ssid", AsStr);
    assert Validators[2] == Validator("password", AsStr);
    assert Validators[3] == Validator("mqtt_broker", AsStr);
    assert Validators[4] == Validator("mqtt_port", IntRange(1, 65535));
  }

  /** For an object body, the verdict of validator `i` on its present key. */
  function Verdict(f: map<string, Json>, rt: Runtime, i: nat): Result<Json, string>
    requires i < |Validators| && Validators[i].key in f
  {
    Check(Validators[i].rule, Validators[i].key, f[Validators[i].key], rt)
  }

  predicate PassesFrom(f: map<string, Json>, rt: Runtime, i: nat, j: nat)
    requires j <= |Validators|
  {
    forall l :: i <= l < j && Validators[l].key in f ==> Verdict(f, rt, l).Ok?
  }

  lemma ValidatorKeysDistinct()
    ensures forall a, b :: 0 <= a < b < |Validators| ==> Validators[a].key != Validators[b].key
  {
  }

  /**
   * For an object body the loop never raises; it rejects with the message of
   * the first present key (in table order) whose validator fails, and
   * otherwise accepts, storing each present key's validated value and
   * keeping what was validated before.
   */
  lemma {:induction false} ValidateFromObject(f: map<string, Json>, rt: Runtime, i: nat, acc: map<string, Json>)
    requires i <= |Validators|
    ensures var r := ValidateFrom(JObject(f), rt, i, acc);
      && !r.Raised?
      && (r.Accepted? <==> PassesFrom(f, rt, i, |Validators|))
      && (forall j :: i <= j < |Validators| && Validators[j].key in f && Verdict(f, rt, j).Err? && PassesFrom(f, rt, i, j)
            ==> r == Rejected(Verdict(f, rt, j).error))
      && (r.Accepted? ==>
            && (forall j :: i <= j < |Validators| && Validators[j].key in f ==>
                  Validators[j].key in r.validated && r.validated[Validators[j].key] == Verdict(f, rt, j).value)
            && (forall k :: k in acc && (forall j :: i <= j < |Validators| ==> Validators[j].key != k || Validators[j].key !in f)
                  ==> k in r.validated && r.validated[k] == acc[k]))
    decreases |Validators| - i
  {
    if i < |Validators| {
      ValidatorKeysDistinct();
      var key := Validators[i].key;
      assert Contains(JObject(f), key) == Ok(key in f);
      if key in f {
        var r := Verdict(f, rt, i);
        assert Subscript(JObject(f), key) == Ok(f[key]);
        if r.Ok? {
          ValidateFromObject(f, rt, i + 1, acc[key := r.value]);
          assert ValidateFrom(JObject(f), rt, i, acc) == ValidateFrom(JObject(f), rt, i + 1, acc[key := r.value]);
        } else {
          assert ValidateFrom(JObject(f), rt, i, acc) == Rejected(r.error);
          assert !PassesFrom(f, rt, i, |Validators|);
        }
      } else {
        ValidateFromObject(f, rt, i + 1, acc);
        assert ValidateFrom(JObject(f), rt, i, acc) == ValidateFrom(JObject(f), rt, i + 1, acc);
      }
    }
  }

  /**
   * `polling_interval` counts only when `sleep` is absent: an int-convertible
   * value becomes `ClampSleep` of it, anything else is ignored.
   */
  lemma PollingIntervalFallback(f: map<string, Json>, rt: Runtime)
    requires "sleep" !in f
    requires ValidatedConfig(JObject(f), rt).Accepted?
    ensures var v := ValidatedConfig(JObject(f), rt).validated;
      && ("sleep" in v <==> "polling_interval" in f && ToInt(rt, f["polling_interval"]).Ok?)
      && ("sleep" in v ==> v["sleep"] == JInt(ClampSleep(ToInt(rt, f["polling_interval"]).value)))
  {
    var p := PollingSleep(JObject(f), rt).value;
    var acc := InitialValidated(p);
    ValidateFromObject(f, rt, 0, acc);
    ValidatorKeysDistinct();
    var v := ValidatedConfig(JObject(f), rt).validated;
    assert Validators[0].key == "sleep";
    if "sleep" in v {
      // no validator other than the first stores `sleep`, and that one needs `sleep` in the body
      ValidateFromKeys(f, rt, 0, acc);
    }
  }

  /** Keys in the result come from `acc` or from a present validator key. */
  lemma {:induction false} ValidateFromKeys(f: map<string, Json>, rt: Runtime, i: nat, acc: map<string, Json>)
    requires i <= |Validators|
    ensures ValidateFrom(JObject(f), rt, i, acc).Accepted? ==>
      forall k :: k in ValidateFrom(JObject(f), rt, i, acc).validated ==>
        k in acc || exists j :: i <= j < |Validators| && Validators[j].key == k && k in f
    decreases |Validators| - i
  {
    if i < |Validators| {
      var key := Validators[i].key;
      if key in f {
        var r := Verdict(f, rt, i);
        if r.Ok? {
          ValidateFromKeys(f, rt, i + 1, acc[key := r.value]);
        }
      } else {
        ValidateFromKeys(f, rt, i + 1, acc);
      }
    }
  }

  /** `config.update(validated)`, then the version bump and stamp when anything validated. */
  function UpdatedConfig(c: map<string, Json>, v: map<string, Json>, now: DateTime, rt: Runtime)
    : Result<map<string, Json>, PyExc>
  {
    var merged := c + v;
    if v == map[] then Ok(merged)
    else match ToInt(rt, Lookup(merged, "config_version", JInt(0)))
      case Err(e) => Err(e)
      case Ok(ver) => Ok(merged["config_version" := JInt(ver + 1)]["updated_at" := JStr(FormatIsoZ(now))])
  }

  /**
   * With nothing validated the loaded config is saved as it is. Otherwise the
   * validated values win, `config_version` goes up by exactly one, `updated_at`
   * is the server's UTC stamp, and every other key keeps its loaded value.
   */
  lemma UpdatedConfigSpec(c: map<string, Json>, v: map<string, Json>, now: DateTime, rt: Runtime)
    requires "config_version" !in v && "updated_at" !in v
    ensures UpdatedConfig(c, v, now, rt).Ok? <==> v == map[] || ToInt(rt, Lookup(c, "config_version", JInt(0))).Ok?
    ensures UpdatedConfig(c, v, now, rt).Ok? ==>
      var r := UpdatedConfig(c, v, now, rt).value;
      && (v == map[] ==> r == c)
      && (v != map[] ==>
            && r["config_version"] == JInt(ToInt(rt, Lookup(c, "config_version", JInt(0))).value + 1)
            && r["updated_at"] == JStr(FormatIsoZ(now)))
      && (forall k :: k in v ==> k in r && r[k] == v[k])
      && (forall k :: k !in v && k != "config_version" && k != "updated_at" ==>
            (k in r <==> k in c) && (k in c ==> r[k] == c[k]))
  {
    if v == map[] {
      assert c + v == c;
    }
  }

  /**
   * Everything `config_handler` decides for a POST before `save_config`:
   * `Ok(c)` means `c` goes to `save_config`, `Err(resp)` means nothing is
   * saved. The empty body and the exceptions are answered with the keyword
   * `http_status`; a rejected value goes through the positional call, so it
   * answers HTTP 200 with data 400.
   */
  function ConfigPostResult(body: Json, file: ConfigFile, now: DateTime, rt: Runtime): Result<map<string, Json>, Response> {
    if !Truthy(body) then Err(ErrorReply("No JSON Found", 400))
    else match ValidatedConfig(body, rt)
      case Raised(e) => Err(Error500(rt, e))
      case Rejected(m) => Err(ErrorPositional(m, 400))
      case Accepted(v) =>
        match NormalizedConfig(rt, file)
        case Err(e) => Err(Error500(rt, e))
        case Ok(c) =>
          match UpdatedConfig(c, v, now, rt)
          case Err(e) => Err(Error500(rt, e))
          case Ok(c2) => Ok(c2)
  }

  /** A rejected key answers HTTP 200 with data 400 and its validator's message, and stores nothing. */
  lemma ConfigRejection(f: map<string, Json>, file: ConfigFile, now: DateTime, rt: Runtime, i: nat)
    requires f != map[]
    requires i < |Validators| && Validators[i].key in f && Verdict(f, rt, i).Err?
    requires PassesFrom(f, rt, 0, i)
    ensures ConfigPostResult(JObject(f), file, now, rt) == Err(ErrorPositional(Verdict(f, rt, i).error, 400))
  {
    var p := PollingSleep(JObject(f), rt).value;
    ValidateFromObject(f, rt, 0, InitialValidated(p));
  }

  /**
   * An accepted POST bumps the stored version by one exactly when some key
   * validated, and never stores a key outside the validator table other
   * than `config_version` and `updated_at`.
   */
  lemma ConfigVersionBump(body: Json, file: ConfigFile, now: DateTime, rt: Runtime)
    requires ConfigPostResult(body, file, now, rt).Ok?
    ensures var c := NormalizedConfig(rt, file).value;
      var v := ValidatedConfig(body, rt).validated;
      var r := ConfigPostResult(body, file, now, rt).value;
      && (v != map[] ==>
            && ToInt(rt, Lookup(c, "config_version", JInt(0))).Ok?
            && "config_version" in r && "updated_at" in r
            && r["config_version"] == JInt(ToInt(rt, Lookup(c, "config_version", JInt(0))).value + 1)
            && r["updated_at"] == JStr(FormatIsoZ(now)))
      && (v == map[] ==> r == c)
      && (forall k :: k !in {"sleep", "ssid", "password", "mqtt_broker", "mqtt_port", "config_version", "updated_at"} ==>
            (k in r <==> k in c) && (k in c ==> r[k] == c[k]))
  {
    var c := NormalizedConfig(rt, file).value;
    var v := ValidatedConfig(body, rt).validated;
    assert ConfigPostResult(body, file, now, rt).value == UpdatedConfig(c, v, now, rt).value;
    AcceptedInRange(body, rt);
    assert "config_version" !in v && "updated_at" !in v;
    UpdatedConfigSpec(c, v, now, rt);
    var r := UpdatedConfig(c, v, now, rt).value;
    forall k | k !in {"sleep", "ssid", "password", "mqtt_broker", "mqtt_port", "config_version", "updated_at"}
      ensures (k in r <==> k in c) && (k in c ==> r[k] == c[k])
    {
      assert k !in v;
    }
  }

  /** What an accepted POST saves, a later GET loads back unchanged. */
  lemma SavedConfigReloads(body: Json, file: ConfigFile, now: DateTime, rt: Runtime)
    requires ConfigPostResult(body, file, now, rt).Ok?
    ensures NormalizedConfig(rt, Stored(ConfigPostResult(body, file, now, rt).value)) == Ok(ConfigPostResult(body, file, now, rt).value)
  {
    var c := NormalizedConfig(rt, file).value;
    var v := ValidatedConfig(body, rt).validated;
    var r := ConfigPostResult(body, file, now, rt).value;
    NormalizedIsSettled(rt, file);
    AcceptedInRange(body, rt);
    UpdatedConfigSpec(c, v, now, rt);
    assert Settled(r);
    SettledLoadsUnchanged(rt, r);
  }

  // -------------------------------------------------------------- the server

  /** One `EntryJson` per history entry: the dict `load_log_data` builds. */
  function EntryJson(e: LogEntry): Json {
    JObject(map["timestamp" := JStr(e.timestamp), "display_time" := JStr(e.displayTime),
                "temp_f" := JFloat(e.tempF), "humidity" := JFloat(e.humidity),
                "lux" := JFloat(e.lux), "moisture" := JFloat(e.moisture)])
  }

  function EntriesJson(es: seq<LogEntry>): (r: seq<Json>)
    ensures |r| == |es| && forall i :: 0 <= i < |es| ==> r[i] == EntryJson(es[i])
  {
    seq(|es|, i requires 0 <= i < |es| => EntryJson(es[i]))
  }

  /**
   * The state the routes act on: the log file and config file of the
   * settings module, the `latest_data` name as imported into the routes
   * module, and the readings handed to the MQTT and ntfy clients.
   */
  class Server {
    const disk: Disk
    const logPath: string
    var configFile: ConfigFile
    var latestData: Option<map<string, Json>>
    var mqttPublished: seq<SensorRecord>
    var ntfySent: seq<SensorRecord>

    /** `from shared import latest_data` binds the value `None`. */
    constructor (disk: Disk, logPath: string, configFile: ConfigFile)
      ensures this.disk == disk && this.logPath == logPath && this.configFile == configFile
      ensures latestData == None && mqttPublished == [] && ntfySent == []
    {
      this.disk := disk;
      this.logPath := logPath;
      this.configFile := configFile;
      latestData := None;
      mqttPublished := [];
      ntfySent := [];
    }

    /**
     * `post_sensor_data`. `mqttRaises` and `ntfyRaises` say whether the two
     * clients raise; the reply does not depend on them, since both calls sit
     * in a `try` that only logs. `csvError` is what `write_csv_log` raises.
     * The handler's `latest_data` is a local name, so the routes module's
     * slot is left alone.
     */
    method PostSensorData(isJson: bool, body: Json, now: DateTime, rt: Runtime,
                          mqttRaises: bool, ntfyRaises: bool, csvError: Option<WriteFailure>)
      returns (resp: Response)
      modifies this, disk
      ensures latestData == old(latestData) && configFile == old(configFile)
      ensures PostOutcome(isJson, body, now, rt).Err? ==>
        && resp == PostOutcome(isJson, body, now, rt).error
        && mqttPublished == old(mqttPublished) && ntfySent == old(ntfySent)
        && disk.files == old(disk.files)
      ensures PostOutcome(isJson, body, now, rt).Ok? ==>
        var rec := PostOutcome(isJson, body, now, rt).value;
        && mqttPublished == old(mqttPublished) + [rec]
        && ntfySent == old(ntfySent) + [rec]
        && (csvError.Some? ==>
              && disk.files == FailedAppend(old(disk.files), logPath,
                   AppendRows(!NonEmptyFile(old(disk.files), logPath), LogRow(rec, rt)), csvError.value)
              && resp == ErrorPositional("Failed to write log", 500))
        && (csvError.None? ==>
              && disk.files == LogAppend(old(disk.files), logPath, LogRow(rec, rt))
              && resp == ApiResponse("ok", data := JObject(map["received" := JBool(true)])))
    {
      var out := PostOutcome(isJson, body, now, rt);
      if out.Err? {
        return out.error;
      }
      var rec := out.value;
      mqttPublished := mqttPublished + [rec];  // a raising client is logged and ignored
      ntfySent := ntfySent + [rec];
      var raised := WriteCsvLog(disk, logPath, rec, rt, csvError);
      if raised.Some? {
        return ErrorPositional("Failed to write log", 500);
      }
      resp := ApiResponse("ok", data := JObject(map["received" := JBool(true)]));
    }

    /** `get_sensor_data`: `Err` is an exception outside the handled kinds. */
    function GetSensorData(rt: Runtime, fromIso: string -> Option<DateTime>): (r: Result<Response, PyExc>)
      reads this
      ensures latestData.None? ==> r == Ok(NoDataYet)
    {
      match latestData
      case None => Ok(NoDataYet)
      case Some(d) => SensorView(rt, fromIso, d)
    }

    /** GET `/api/config`: the loaded config, or the exception `load_config` raises. */
    method GetConfig(rt: Runtime) returns (r: Result<Response, PyExc>)
      ensures NormalizedConfig(rt, configFile).Ok? ==> r == Ok(ApiResponse(data := JObject(NormalizedConfig(rt, configFile).value)))
      ensures NormalizedConfig(rt, configFile).Err? ==> r == Err(NormalizedConfig(rt, configFile).error)
    {
      var c := LoadConfig(rt, configFile);
      if c.Err? {
        return Err(c.error);
      }
      r := Ok(ApiResponse(data := JObject(c.value)));
    }

    /**
     * POST `/api/config`. `saveError` is how `save_config` raises, if it does;
     * the handler answers that with HTTP 500 and the exception's text.
     */
    method PostConfig(body: Json, now: DateTime, rt: Runtime, saveError: Option<SaveFailure>) returns (resp: Response)
      modifies this
      ensures latestData == old(latestData) && mqttPublished == old(mqttPublished) && ntfySent == old(ntfySent)
      ensures ConfigPostResult(body, old(configFile), now, rt).Ok? ==>
        && configFile == AfterSave(old(configFile), ConfigPostResult(body, old(configFile), now, rt).value, saveError)
        && (saveError.None? ==>
              resp == ApiResponse("ok", data := JObject(ConfigPostResult(body, old(configFile), now, rt).value)))
        && (saveError.Some? ==> resp == Error500(rt, saveError.value.e))
      ensures ConfigPostResult(body, old(configFile), now, rt).Err? ==>
        configFile == old(configFile) && resp == ConfigPostResult(body, old(configFile), now, rt).error
    {
      if !Truthy(body) {
        return ErrorReply("No JSON Found", 400);
      }
      var checked := ValidateConfig(body, rt);
      if checked.Raised? {
        return Error500(rt, checked.e);
      }
      if checked.Rejected? {
        return ErrorPositional(checked.message, 400);
      }
      var loaded := LoadConfig(rt, configFile);
      if loaded.Err? {
        return Error500(rt, loaded.error);
      }
      var config := loaded.value + checked.validated;
      if checked.validated != map[] {
        var oldVer := ToInt(rt, Lookup(config, "config_version", JInt(0)));
        if oldVer.Err? {
          assert UpdatedConfig(loaded.value, checked.validated, now, rt) == Err(oldVer.error);
          return Error500(rt, oldVer.error);
        }
        config := config["config_version" := JInt(oldVer.value + 1)];
        config := config["updated_at" := JStr(FormatIsoZ(now))];
      }
      assert UpdatedConfig(loaded.value, checked.validated, now, rt) == Ok(config);
      assert ConfigPostResult(body, configFile, now, rt) == Ok(config);
      configFile := AfterSave(configFile, config, saveError);
      if saveError.Some? {
        return Error500(rt, saveError.value.e);
      }
      resp := ApiResponse("ok", data := JObject(config));
    }

    /** `get_history`: an error text that is empty counts as no error. */
    method GetHistory(rt: Runtime, isIso: string -> bool, readError: Option<PyExc>,
                      filterRange: string := "24h", day: Option<string> := None)
      returns (resp: Response)
      ensures NonEmptyFile(disk.files, logPath) && readError.Some? && ExcStr(rt, readError.value) != "" ==>
        resp == ErrorReply(ExcStr(rt, readError.value), 404)
      ensures NonEmptyFile(disk.files, logPath) && readError.None? ==>
        resp == ApiResponse(data := JList(EntriesJson(LoadedEntries(disk.files[logPath], rt, isIso))))
      ensures !NonEmptyFile(disk.files, logPath) || (readError.Some? && ExcStr(rt, readError.value) == "") ==>
        resp == ApiResponse(data := JList([]))
    {
      var data, error := LoadLogData(disk, logPath, rt, isIso, readError, filterRange, day);
      if error.Some? && error.value != "" {
        return ErrorReply(error.value, 404);
      }
      resp := ApiResponse(data := JList(EntriesJson(data)));
    }
  }

  /** However a POST goes, a following GET of the reading still answers "No data received yet". */
  method PostThenGet(disk: Disk, logPath: string, configFile: ConfigFile, isJson: bool, body: Json, now: DateTime,
                     rt: Runtime, fromIso: string -> Option<DateTime>, csvError: Option<WriteFailure>)
    returns (answer: Result<Response, PyExc>)
    modifies disk
    ensures answer == Ok(NoDataYet)
  {
    var server := new Server(disk, logPath, configFile);
    var _ := server.PostSensorData(isJson, body, now, rt, false, false, csvError);
    answer := server.GetSensorData(rt, fromIso);
  }
}
