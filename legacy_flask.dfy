/**
 * The original Flask server, `dashboard/flask/flask-dashboard.py`: it keeps
 * the last reading in memory, appends each reading to the CSV log and
 * serves the log back as a history list.
 */
module LegacyFlask {
  import opened Wrappers
  import opened JsonValue
  import opened Python
  import opened CsvFile
  import opened Clock
  import opened Shared
  import opened LegacyLog
  import SensorUtils

  /** The body keys, in the order the handler converts them. */
  const ReadingKeys: seq<string> := ["temp_f", "humidity", "lux", "moisture"]

  /** `float(data[key])`. */
  function FloatAt(body: Json, key: string, rt: Runtime): Result<real, PyExc> {
    match Subscript(body, key)
    case Err(e) => Err(e)
    case Ok(v) => ToFloat(rt, v)
  }

  /**
   * The dictionary the handler builds before touching `latest_data`: all four
   * conversions succeed, or the first one that raises decides the error.
   */
  function ParseReading(body: Json, rt: Runtime): (r: Result<Reading, PyExc>)
    ensures r.Ok? <==> forall k :: k in ReadingKeys ==> FloatAt(body, k, rt).Ok?
    ensures r.Ok? ==> r.value == Reading(FloatAt(body, "temp_f", rt).value, FloatAt(body, "humidity", rt).value,
                                         FloatAt(body, "lux", rt).value, FloatAt(body, "moisture", rt).value)
    ensures r.Err? ==> exists i :: 0 <= i < |ReadingKeys| && FloatAt(body, ReadingKeys[i], rt) == Err(r.error)
                                   && forall j :: 0 <= j < i ==> FloatAt(body, ReadingKeys[j], rt).Ok?
    ensures !body.JObject? ==> r.Err? && r.error.IsTypeError()
  {
    var t := FloatAt(body, "temp_f", rt);
    var h := FloatAt(body, "humidity", rt);
    var l := FloatAt(body, "lux", rt);
    var m := FloatAt(body, "moisture", rt);
    assert ReadingKeys[0] == "temp_f" && ReadingKeys[1] == "humidity" && ReadingKeys[2] == "lux" && ReadingKeys[3] == "moisture";
    if t.Err? then Err(t.error)
    else if h.Err? then Err(h.error)
    else if l.Err? then Err(l.error)
    else if m.Err? then Err(m.error)
    else Ok(Reading(t.value, h.value, l.value, m.value))
  }

  /** `jsonify({"error": str(e)}), 400`. */
  function Rejection(rt: Runtime, e: PyExc): Response {
    Response(map["error" := JStr(ExcStr(rt, e))], 400)
  }

  /** `jsonify({"status": "ok", "received": latest_data}), 201`. */
  function Received(r: Reading): Response {
    Response(map["status" := JStr("ok"), "received" := ReadingJson(r)], 201)
  }

  class FlaskServer {
    const disk: Disk
    const logPath: string
    var latestData: Option<Reading>

    /** Start-up: nothing received yet; the log sits next to the script. */
    constructor (disk: Disk, appDir: string)
      ensures this.disk == disk && logPath == SensorUtils.PathJoin(appDir, "sensor_log.csv")
      ensures latestData == None
    {
      this.disk := disk;
      logPath := SensorUtils.PathJoin(appDir, "sensor_log.csv");
      latestData := None;
    }

    /** `GET /api/sensor`: `jsonify(latest_data)`, `null` before the first reading. */
    function GetSensorData(): (r: Json)
      reads this
      ensures latestData.None? <==> r == JNull
      ensures latestData.Some? ==> r == ReadingJson(latestData.value)
    {
      if latestData.Some? then ReadingJson(latestData.value) else JNull
    }

    /**
     * `POST /api/sensor` on a JSON body. `now` is the local clock; `ioError`
     * is how the append raises, after `latest_data` was replaced.
     */
    method PostSensorData(body: Json, now: DateTime, rt: Runtime, ioError: Option<WriteFailure>) returns (resp: Response)
      modifies this, disk
      ensures ParseReading(body, rt).Err? ==>
        resp == Rejection(rt, ParseReading(body, rt).error)
        && latestData == old(latestData) && disk.files == old(disk.files)
      ensures ParseReading(body, rt).Ok? ==> latestData == Some(ParseReading(body, rt).value)
      ensures ParseReading(body, rt).Ok? && ioError.Some? ==>
        && resp == Rejection(rt, ioError.value.e)
        && disk.files == FailedAppend(old(disk.files), logPath,
             AppendRows(logPath !in old(disk.files), LegacyRow(now, ParseReading(body, rt).value, rt)), ioError.value)
      ensures ParseReading(body, rt).Ok? && ioError.None? ==>
        resp == Received(ParseReading(body, rt).value)
        && disk.files == AppendIfAbsent(old(disk.files), logPath, LegacyRow(now, ParseReading(body, rt).value, rt))
    {
      var parsed := ParseReading(body, rt);
      if parsed.Err? {
        return Rejection(rt, parsed.error);
      }
      latestData := Some(parsed.value);
      if ioError.Some? {
        disk.files := FailedAppend(disk.files, logPath, AppendRows(logPath !in disk.files, LegacyRow(now, parsed.value, rt)), ioError.value);
        return Rejection(rt, ioError.value.e);
      }
      AppendRow(disk, logPath, LegacyRow(now, parsed.value, rt));
      resp := Received(parsed.value);
    }

    /**
     * `GET /api/history`: a missing log is an empty list; otherwise the
     * entries in file order, or the uncaught exception of a short row.
     */
    method GetHistory(rt: Runtime, parse12: string -> Option<DateTime>) returns (r: Result<Json, PyExc>)
      ensures logPath !in disk.files ==> r == Ok(JList([]))
      ensures logPath in disk.files ==> r == HistoryJson(History(DictRows(disk.files[logPath]), rt, parse12))
    {
      if logPath !in disk.files {
        return Ok(JList([]));
      }
      var h := ReadHistory(disk.files[logPath], rt, parse12);
      r := HistoryJson(h);
    }
  }

  /** A rejected body leaves the cached reading and the log as they were; an accepted one is served back. */
  method PostThenGet(disk: Disk, appDir: string, body: Json, now: DateTime, rt: Runtime)
    returns (resp: Response, got: Json)
    modifies disk
    ensures ParseReading(body, rt).Err? ==> resp.status == 400 && got == JNull && disk.files == old(disk.files)
    ensures ParseReading(body, rt).Ok? ==> resp.status == 201 && got == ReadingJson(ParseReading(body, rt).value)
  {
    var server := new FlaskServer(disk, appDir);
    resp := server.PostSensorData(body, now, rt, None);
    got := server.GetSensorData();
  }
}
