/**
 * The FastAPI server, `dashboard/fastapi/fastapi.py`: the same log as the
 * original Flask server, with the request body already validated into four
 * floats by the framework.
 */
module FastApiApp {
  import opened Wrappers
  import opened JsonValue
  import opened Python
  import opened CsvFile
  import opened Clock
  import opened Shared
  import opened LegacyLog

  /** The log path, relative to the working directory. */
  const LogPath: string := "sensor_log.csv"

  const NoDataYet: Json := JObject(map["status" := JStr("no data received yet")])

  /** `{"status": "ok", "received": data}` under the route's `status_code=201`. */
  function Received(r: Reading): Response {
    Response(map["status" := JStr("ok"), "received" := ReadingJson(r)], 201)
  }

  class FastApiServer {
    const disk: Disk
    var latestData: Option<Reading>

    constructor (disk: Disk)
      ensures this.disk == disk && latestData == None
    {
      this.disk := disk;
      latestData := None;
    }

    /** `GET /api/sensor`. */
    function ReadSensor(): (r: Json)
      reads this
      ensures latestData.None? ==> r == NoDataYet
      ensures latestData.Some? ==> r == ReadingJson(latestData.value)
      ensures r.JObject? && ("status" in r.fields <==> latestData.None?)
    {
      if latestData.None? then NoDataYet else ReadingJson(latestData.value)
    }

    /**
     * `POST /api/sensor`: the reading is cached before the log is opened, so
     * an `ioError` (which escapes the handler) still leaves it in place.
     */
    method ReceiveData(data: Reading, now: DateTime, rt: Runtime, ioError: Option<WriteFailure>)
      returns (r: Result<Response, PyExc>)
      modifies this, disk
      ensures latestData == Some(data)
      ensures ioError.Some? ==>
        && r == Err(ioError.value.e)
        && disk.files == FailedAppend(old(disk.files), LogPath,
             AppendRows(LogPath !in old(disk.files), LegacyRow(now, data, rt)), ioError.value)
      ensures ioError.None? ==>
        r == Ok(Received(data)) && disk.files == AppendIfAbsent(old(disk.files), LogPath, LegacyRow(now, data, rt))
    {
      latestData := Some(data);
      if ioError.Some? {
        disk.files := FailedAppend(disk.files, LogPath, AppendRows(LogPath !in disk.files, LegacyRow(now, data, rt)), ioError.value);
        return Err(ioError.value.e);
      }
      AppendRow(disk, LogPath, LegacyRow(now, data, rt));
      r := Ok(Received(data));
    }

    /**
     * `GET /api/history`: unlike the Flask version, a missing log is not
     * caught. The `OSError` text stands in for the interpreter's
     * `[Errno 2] No such file or directory` message.
     */
    method GetHistory(rt: Runtime, parse12: string -> Option<DateTime>) returns (r: Result<Json, PyExc>)
      ensures LogPath !in disk.files ==> r == Err(OSError("FileNotFoundError: " + LogPath))
      ensures LogPath in disk.files ==> r == HistoryJson(History(DictRows(disk.files[LogPath]), rt, parse12))
    {
      if LogPath !in disk.files {
        return Err(OSError("FileNotFoundError: " + LogPath));
      }
      var h := ReadHistory(disk.files[LogPath], rt, parse12);
      r := HistoryJson(h);
    }
  }
}
