/**
 * `dashboard/flask/shared.py`: the JSON envelope every API route answers
 * with, and the normalisation `load_config` applies to the stored config.
 */
module Shared {
  import opened Wrappers
  import opened JsonValue
  import opened Python

  /** What a route hands back to Flask: the `jsonify`ed body and the HTTP status. */
  datatype Response = Response(body: map<string, Json>, status: int)

  /** `api_response(status, message, data, http_status)`. */
  function ApiResponse(status: string := "ok", message: Json := JNull, data: Json := JNull, httpStatus: int := 200)
    : (r: Response)
    ensures "status" in r.body && r.body["status"] == JStr(status)
    ensures "message" in r.body <==> Truthy(message)
    ensures "message" in r.body ==> r.body["message"] == message
    ensures "data" in r.body <==> data != JNull
    ensures "data" in r.body ==> r.body["data"] == data
    ensures r.body.Keys <= {"status", "message", "data"}
    ensures r.status == httpStatus
  {
    var withMessage := if Truthy(message) then map["status" := JStr(status), "message" := message]
                       else map["status" := JStr(status)];
    Response(if data != JNull then withMessage["data" := data] else withMessage, httpStatus)
  }

  /** A call with no arguments is the bare success envelope. */
  lemma ApiResponseDefaults()
    ensures ApiResponse() == Response(map["status" := JStr("ok")], 200)
  {
  }

  // ------------------------------------------------------------------ config

  /** `CONFIG_FILE` on disk: absent, not decodable by `json.load`, or an object. */
  datatype ConfigFile = NoFile | Undecodable(e: PyExc) | Stored(doc: map<string, Json>)

  const DefaultMqttPort := 1883
  const DefaultPollingInterval := 300000

  /** `int(section.get(key, default))`. */
  function SectionValue(rt: Runtime, f: map<string, Json>, key: string, default: int): Result<int, PyExc> {
    ToInt(rt, Lookup(f, key, JInt(default)))
  }

  /**
   * One `if section in config: try: ... except ValueError:` block: the entry
   * becomes an int, or `default` when `int()` raises `ValueError`. A `TypeError`
   * and a section that is not an object (no `.get`) propagate.
   */
  function NormalizeSection(rt: Runtime, c: map<string, Json>, section: string, key: string, default: int)
    : Result<map<string, Json>, PyExc>
  {
    if section !in c then Ok(c)
    else match c[section]
      case JObject(f) =>
        (match SectionValue(rt, f, key, default)
         case Ok(n) => Ok(c[section := JObject(f[key := JInt(n)])])
         case Err(e) => if e.IsValueError() then Ok(c[section := JObject(f[key := JInt(default)])]) else Err(e))
      case _ => Err(AttributeError("get"))
  }

  /** What `load_config()` returns, or the exception it raises. */
  function NormalizedConfig(rt: Runtime, file: ConfigFile): Result<map<string, Json>, PyExc> {
    match file
    case NoFile => Ok(map[])
    case Undecodable(e) => Err(e)
    case Stored(c) =>
      match NormalizeSection(rt, c, "mqtt_homeassistant", "port", DefaultMqttPort)
      case Err(e) => Err(e)
      case Ok(c1) =>
        match NormalizeSection(rt, c1, "mqtt", "port", DefaultMqttPort)
        case Err(e) => Err(e)
        case Ok(c2) => NormalizeSection(rt, c2, "sensors", "polling_interval", DefaultPollingInterval)
  }

  /** `load_config()`: three in-place updates of the decoded document. */
  method LoadConfig(rt: Runtime, file: ConfigFile) returns (r: Result<map<string, Json>, PyExc>)
    ensures r == NormalizedConfig(rt, file)
  {
    if file.NoFile? {
      return Ok(map[]);
    }
    if file.Undecodable? {
      return Err(file.e);
    }
    var config := file.doc;
    var step := NormalizeSection(rt, config, "mqtt_homeassistant", "port", DefaultMqttPort);
    if step.Err? {
      return step;
    }
    config := step.value;
    step := NormalizeSection(rt, config, "mqtt", "port", DefaultMqttPort);
    if step.Err? {
      return step;
    }
    config := step.value;
    r := NormalizeSection(rt, config, "sensors", "polling_interval", DefaultPollingInterval);
  }

  /** The value a normalised entry takes: the converted int, or the default on `ValueError`. */
  function NormalizedEntry(rt: Runtime, f: map<string, Json>, key: string, default: int): int
    requires SectionValue(rt, f, key, default).Ok? || SectionValue(rt, f, key, default).error.IsValueError()
  {
    if SectionValue(rt, f, key, default).Ok? then SectionValue(rt, f, key, default).value else default
  }

  predicate Normalizable(rt: Runtime, c: map<string, Json>, section: string, key: string, default: int) {
    section in c ==>
      c[section].JObject? &&
      (SectionValue(rt, c[section].fields, key, default).Ok? ||
       SectionValue(rt, c[section].fields, key, default).error.IsValueError())
  }

  /**
   * One block fails exactly when its section is present and is not an object
   * or raises something other than `ValueError`; otherwise it only rewrites
   * that section's entry, leaving every other key and field as it was and
   * creating nothing when the section is absent.
   */
  lemma NormalizeSectionSpec(rt: Runtime, c: map<string, Json>, section: string, key: string, default: int)
    ensures NormalizeSection(rt, c, section, key, default).Ok? <==> Normalizable(rt, c, section, key, default)
    ensures Normalizable(rt, c, section, key, default) ==>
      var r := NormalizeSection(rt, c, section, key, default).value;
      && r.Keys == c.Keys
      && (forall k :: k in c && k != section ==> r[k] == c[k])
      && (section in c ==> r[section] == JObject(c[section].fields[key := JInt(NormalizedEntry(rt, c[section].fields, key, default))]))
  {
  }

  /** No config file reads as the empty config. */
  lemma NoFileIsEmpty(rt: Runtime)
    ensures NormalizedConfig(rt, NoFile) == Ok(map[])
  {
  }

  /** The section is present in normalised form: an object whose entry is already an int. */
  predicate SectionSettled(c: map<string, Json>, section: string, key: string) {
    section in c ==> c[section].JObject? && key in c[section].fields && c[section].fields[key].JInt?
  }

  predicate Settled(c: map<string, Json>) {
    && SectionSettled(c, "mqtt_homeassistant", "port")
    && SectionSettled(c, "mqtt", "port")
    && SectionSettled(c, "sensors", "polling_interval")
  }

  lemma SettledSectionUnchanged(rt: Runtime, c: map<string, Json>, section: string, key: string, default: int)
    requires SectionSettled(c, section, key)
    ensures NormalizeSection(rt, c, section, key, default) == Ok(c)
  {
    if section in c {
      var f := c[section].fields;
      assert f[key := JInt(f[key].i)] == f;
      assert c[section := JObject(f)] == c;
    }
  }

  /** What `load_config` returns is settled, and loading a settled config changes nothing. */
  lemma NormalizedIsSettled(rt: Runtime, file: ConfigFile)
    requires NormalizedConfig(rt, file).Ok?
    ensures Settled(NormalizedConfig(rt, file).value)
  {
    if file.Stored? {
      var c := file.doc;
      NormalizeSectionSpec(rt, c, "mqtt_homeassistant", "port", DefaultMqttPort);
      var c1 := NormalizeSection(rt, c, "mqtt_homeassistant", "port", DefaultMqttPort).value;
      NormalizeSectionSpec(rt, c1, "mqtt", "port", DefaultMqttPort);
      var c2 := NormalizeSection(rt, c1, "mqtt", "port", DefaultMqttPort).value;
      NormalizeSectionSpec(rt, c2, "sensors", "polling_interval", DefaultPollingInterval);
    }
  }

  lemma SettledLoadsUnchanged(rt: Runtime, c: map<string, Json>)
    requires Settled(c)
    ensures NormalizedConfig(rt, Stored(c)) == Ok(c)
  {
    SettledSectionUnchanged(rt, c, "mqtt_homeassistant", "port", DefaultMqttPort);
    SettledSectionUnchanged(rt, c, "mqtt", "port", DefaultMqttPort);
    SettledSectionUnchanged(rt, c, "sensors", "polling_interval", DefaultPollingInterval);
  }

  /** Saving what `load_config` returned and loading it again gives the same config. */
  lemma NormalizeIdempotent(rt: Runtime, file: ConfigFile)
    requires NormalizedConfig(rt, file).Ok?
    ensures NormalizedConfig(rt, Stored(NormalizedConfig(rt, file).value)) == NormalizedConfig(rt, file)
  {
    NormalizedIsSettled(rt, file);
    SettledLoadsUnchanged(rt, NormalizedConfig(rt, file).value);
  }

  // ------------------------------------------------------------------- save

  /**
   * How `save_config` can raise: `open(CONFIG_FILE, "w")` fails and the file
   * is untouched, or `json.dump` fails after `open` has truncated the file,
   * and `json.load` then raises `decodeError` on what is left of it.
   */
  datatype SaveFailure = OpenFailed(e: PyExc) | DumpFailed(e: PyExc, decodeError: PyExc)

  /** `CONFIG_FILE` after `save_config(c)`: written, untouched, or left truncated. */
  function AfterSave(before: ConfigFile, c: map<string, Json>, failure: Option<SaveFailure>): ConfigFile {
    match failure
    case None => Stored(c)
    case Some(OpenFailed(_)) => before
    case Some(DumpFailed(_, d)) => Undecodable(d)
  }

  /**
   * What the next `load_config()` sees after a save: a settled config that was
   * written loads back unchanged; a failed `open` leaves the earlier outcome; a
   * failed `json.dump` makes every later load raise.
   */
  lemma AfterSaveLoads(rt: Runtime, before: ConfigFile, c: map<string, Json>, failure: Option<SaveFailure>)
    requires Settled(c)
    ensures failure.None? ==> NormalizedConfig(rt, AfterSave(before, c, failure)) == Ok(c)
    ensures failure.Some? && failure.value.OpenFailed? ==>
      NormalizedConfig(rt, AfterSave(before, c, failure)) == NormalizedConfig(rt, before)
    ensures failure.Some? && failure.value.DumpFailed? ==>
      NormalizedConfig(rt, AfterSave(before, c, failure)) == Err(failure.value.decodeError)
  {
    if failure.None? {
      SettledLoadsUnchanged(rt, c);
    }
  }
}
