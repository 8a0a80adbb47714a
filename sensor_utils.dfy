/**
 * The Flask server's telemetry log (`dashboard/flask/sensor_utils.py`): key
 * validation of a reading, choice of the latest daily log file, the append of
 * one reading to the CSV log, and the two readers of that log.
 */
module SensorUtils {
  import opened Wrappers
  import opened JsonValue
  import opened Text
  import opened StableSort
  import opened Python
  import opened CsvFile

  // ---------------------------------------------------------------- validation

  const RequiredKeys: seq<string> := ["temp_f", "humidity", "lux", "moisture"]

  /** `validate_sensor_data`: only the presence of the keys is looked at. */
  function ValidateSensorData(data: map<string, Json>): (ok: bool)
    ensures ok <==> forall i :: 0 <= i < |RequiredKeys| ==> RequiredKeys[i] in data
    ensures ok <==> "temp_f" in data && "humidity" in data && "lux" in data && "moisture" in data
  {
    AllPresent(RequiredKeys, data)
  }

  /** The loop over the required keys, returning at the first missing one. */
  function AllPresent(keys: seq<string>, data: map<string, Json>): (ok: bool)
    ensures ok <==> forall i :: 0 <= i < |keys| ==> keys[i] in data
    decreases |keys|
  {
    if keys == [] then true
    else if keys[0] !in data then false
    else AllPresent(keys[1..], data)
  }

  // ------------------------------------------------------- latest log file

  predicate IsLogName(f: string) {
    StartsWith(f, "raw_sensorlog_") && EndsWith(f, ".csv")
  }

  /** The list comprehension over `os.listdir(LOG_DIR)`. */
  function LogNames(listing: seq<string>): (r: seq<string>)
    ensures forall f :: f in r <==> f in listing && IsLogName(f)
    decreases |listing|
  {
    if listing == [] then []
    else (if IsLogName(listing[0]) then [listing[0]] else []) + LogNames(listing[1..])
  }

  /** `os.path.join(dir, name)`. */
  function PathJoin(dir: string, name: string): string {
    if StartsWith(name, "/") then name
    else if dir == "" || EndsWith(dir, "/") then dir + name
    else dir + "/" + name
  }

  function Reverse<T>(s: seq<T>): (r: seq<T>)
    ensures |r| == |s|
    ensures forall i :: 0 <= i < |s| ==> r[i] == s[|s| - 1 - i]
    decreases |s|
  {
    if s == [] then [] else [s[|s| - 1]] + Reverse(s[..|s| - 1])
  }

  function Id(s: string): string { s }

  /** `os.path.getsize(path) > 0`; a path without a size raises `OSError`, which is skipped. */
  predicate NonEmptyLog(dir: string, sizes: map<string, nat>, f: string) {
    PathJoin(dir, f) in sizes && sizes[PathJoin(dir, f)] > 0
  }

  /** The `for` loop returning at the first non-empty file, from position `i` on. */
  function FirstNonEmpty(dir: string, s: seq<string>, sizes: map<string, nat>, i: nat): (k: nat)
    requires i <= |s|
    ensures i <= k <= |s|
    ensures forall j :: i <= j < k ==> !NonEmptyLog(dir, sizes, s[j])
    ensures k < |s| ==> NonEmptyLog(dir, sizes, s[k])
    decreases |s| - i
  {
    if i == |s| then i
    else if NonEmptyLog(dir, sizes, s[i]) then i
    else FirstNonEmpty(dir, s, sizes, i + 1)
  }

  /**
   * `get_latest_logfile`, with the directory listing and the file sizes as
   * inputs. `listing` is `None` when `LOG_DIR` does not exist, and then
   * `os.listdir` raises `FileNotFoundError`, an `OSError`, out of the call.
   */
  function GetLatestLogfile(dir: string, listing: Option<seq<string>>, sizes: map<string, nat>): Result<Option<string>, PyExc> {
    if listing.None? then Err(OSError(dir)) else Ok(LatestListed(dir, listing.value, sizes))
  }

  /** The part of `get_latest_logfile` after a successful `os.listdir`. */
  function LatestListed(dir: string, listing: seq<string>, sizes: map<string, nat>): Option<string> {
    var files := LogNames(listing);
    if files == [] then None
    else
      SortFacts(files, Id);
      var desc := Reverse(Sort(files, Id));
      var k := FirstNonEmpty(dir, desc, sizes, 0);
      if k < |desc| then Some(PathJoin(dir, desc[k])) else Some(PathJoin(dir, desc[0]))
  }

  /**
   * `f` is the file chosen: the greatest matching name among the non-empty
   * ones, or the greatest matching name when every match is empty or unsizable.
   */
  predicate IsLatest(dir: string, listing: seq<string>, sizes: map<string, nat>, f: string) {
    && f in listing && IsLogName(f)
    && if exists g :: g in listing && IsLogName(g) && NonEmptyLog(dir, sizes, g)
       then NonEmptyLog(dir, sizes, f)
            && forall g :: g in listing && IsLogName(g) && NonEmptyLog(dir, sizes, g) ==> StrLe(g, f)
       else forall g :: g in listing && IsLogName(g) ==> StrLe(g, f)
  }

  lemma ReverseMembers<T>(s: seq<T>)
    ensures forall g :: g in Reverse(s) <==> g in s
  {
    var r := Reverse(s);
    forall g ensures g in r <==> g in s {
      if g in r {
        var i :| 0 <= i < |r| && r[i] == g;
        assert s[|s| - 1 - i] == g;
      }
      if g in s {
        var i :| 0 <= i < |s| && s[i] == g;
        assert r[|s| - 1 - i] == g;
      }
    }
  }

  lemma ReverseDescending(s: seq<string>)
    requires SortedBy(s, Id)
    ensures forall i, j :: 0 <= i <= j < |s| ==> StrLe(Reverse(s)[j], Reverse(s)[i])
  {
    var r := Reverse(s);
    var n := |s|;
    forall i, j | 0 <= i <= j < n ensures StrLe(r[j], r[i]) {
      if i == j { StrLeRefl(r[i]); } else { assert StrLe(Id(s[n - 1 - j]), Id(s[n - 1 - i])); }
    }
  }

  /** `sorted(files, reverse=True)` holds the matching names, in descending order. */
  lemma DescendingNames(listing: seq<string>)
    ensures var desc := Reverse(Sort(LogNames(listing), Id));
      && (forall g :: g in desc <==> g in listing && IsLogName(g))
      && (forall i, j :: 0 <= i <= j < |desc| ==> StrLe(desc[j], desc[i]))
  {
    var files := LogNames(listing);
    SortFacts(files, Id);
    var sorted := Sort(files, Id);
    ReverseMembers(sorted);
    ReverseDescending(sorted);
    forall g ensures g in sorted <==> g in files {
      assert g in files <==> g in multiset(files);
      assert g in sorted <==> g in multiset(sorted);
    }
  }

  /** The scan of a descending list stops at its greatest non-empty name, or passes them all. */
  lemma ScanPicksGreatest(dir: string, desc: seq<string>, sizes: map<string, nat>)
    requires desc != []
    requires forall i, j :: 0 <= i <= j < |desc| ==> StrLe(desc[j], desc[i])
    ensures var k := FirstNonEmpty(dir, desc, sizes, 0);
      && (k < |desc| <==> exists g :: g in desc && NonEmptyLog(dir, sizes, g))
      && (k < |desc| ==> forall g :: g in desc && NonEmptyLog(dir, sizes, g) ==> StrLe(g, desc[k]))
      && (forall g :: g in desc ==> StrLe(g, desc[0]))
  {
    var k := FirstNonEmpty(dir, desc, sizes, 0);
    forall g | g in desc ensures StrLe(g, desc[0]) {
      var m :| 0 <= m < |desc| && desc[m] == g;
    }
    if exists g :: g in desc && NonEmptyLog(dir, sizes, g) {
      var g0 :| g0 in desc && NonEmptyLog(dir, sizes, g0);
      var m0 :| 0 <= m0 < |desc| && desc[m0] == g0;
      assert k < |desc|;
      forall g | g in desc && NonEmptyLog(dir, sizes, g) ensures StrLe(g, desc[k]) {
        var m :| 0 <= m < |desc| && desc[m] == g;
      }
    }
  }

  /**
   * A missing directory raises; otherwise the result is `None` exactly when no
   * name matches, and else the path of the latest matching file.
   */
  lemma GetLatestLogfileSpec(dir: string, listing: Option<seq<string>>, sizes: map<string, nat>)
    ensures GetLatestLogfile(dir, listing, sizes).Err? <==> listing.None?
    ensures GetLatestLogfile(dir, listing, sizes).Err? ==> GetLatestLogfile(dir, listing, sizes).error.OSError?
    ensures listing.Some? ==>
      (GetLatestLogfile(dir, listing, sizes).value.None? <==> forall f :: f in listing.value ==> !IsLogName(f))
    ensures listing.Some? && GetLatestLogfile(dir, listing, sizes).value.Some? ==>
      exists f :: IsLatest(dir, listing.value, sizes, f) && GetLatestLogfile(dir, listing, sizes).value.value == PathJoin(dir, f)
  {
    if listing.Some? {
      LatestListedSpec(dir, listing.value, sizes);
    }
  }

  lemma LatestListedSpec(dir: string, listing: seq<string>, sizes: map<string, nat>)
    ensures LatestListed(dir, listing, sizes).None? <==> forall f :: f in listing ==> !IsLogName(f)
    ensures LatestListed(dir, listing, sizes).Some? ==>
      exists f :: IsLatest(dir, listing, sizes, f) && LatestListed(dir, listing, sizes).value == PathJoin(dir, f)
  {
    var files := LogNames(listing);
    if files != [] {
      SortFacts(files, Id);
      var desc := Reverse(Sort(files, Id));
      DescendingNames(listing);
      ScanPicksGreatest(dir, desc, sizes);
      var k := FirstNonEmpty(dir, desc, sizes, 0);
      var f := if k < |desc| then desc[k] else desc[0];
      assert f in desc;
      assert IsLatest(dir, listing, sizes, f);
    } else {
      forall f | f in listing ensures !IsLogName(f) {
        assert !(f in files);
      }
    }
  }

  // ------------------------------------------------------------ CSV append

  /** The reading `write_csv_log` receives. */
  datatype SensorRecord = SensorRecord(timestamp: string, tempF: real, humidity: real, lux: real, moisture: real)

  /** The `DictWriter` row: cells in `LogHeader` order, numbers rounded 2, 2, 1, 1. */
  function LogRow(rec: SensorRecord, rt: Runtime): Row {
    [rec.timestamp, rt.roundStr(rec.tempF, 2), rt.roundStr(rec.humidity, 2),
     rt.roundStr(rec.lux, 1), rt.roundStr(rec.moisture, 1)]
  }

  /**
   * Read back under the header it was written after, the row holds the
   * timestamp unchanged under `timestamp` and each rounded number under its own name.
   */
  lemma LogRowColumns(rec: SensorRecord, rt: Runtime)
    ensures RowDict(LogHeader, LogRow(rec, rt)).rest == None
    ensures RowDict(LogHeader, LogRow(rec, rt)).cells == map[
      "timestamp" := Some(rec.timestamp),
      "temp_f" := Some(rt.roundStr(rec.tempF, 2)),
      "humidity" := Some(rt.roundStr(rec.humidity, 2)),
      "lux" := Some(rt.roundStr(rec.lux, 1)),
      "moisture" := Some(rt.roundStr(rec.moisture, 1))]
  {
    LogHeaderRow(LogRow(rec, rt));
  }

  /** The log after one append: a header first only when the file was absent or empty. */
  function LogAppend(files: map<string, seq<Row>>, path: string, row: Row): map<string, seq<Row>> {
    var before := if path in files then Some(files[path]) else None;
    files[path := Appended(before, !NonEmptyFile(files, path), row)]
  }

  /**
   * `write_csv_log`; `ioError` is how it raises, if it does: before the open
   * the disk is unchanged, after it the log holds part of the append.
   */
  method WriteCsvLog(disk: Disk, path: string, rec: SensorRecord, rt: Runtime, ioError: Option<WriteFailure>)
    returns (raised: Option<PyExc>)
    modifies disk
    ensures ioError.Some? ==>
      && raised == Some(ioError.value.e)
      && disk.files == FailedAppend(old(disk.files), path, AppendRows(!NonEmptyFile(old(disk.files), path), LogRow(rec, rt)), ioError.value)
    ensures ioError.None? ==> raised == None && disk.files == LogAppend(old(disk.files), path, LogRow(rec, rt))
  {
    var isNew := path !in disk.files || disk.files[path] == [];
    if ioError.Some? {
      disk.files := FailedAppend(disk.files, path, AppendRows(isNew, LogRow(rec, rt)), ioError.value);
      return Some(ioError.value.e);
    }
    var content := if path in disk.files then disk.files[path] else [];
    if isNew {
      content := content + [LogHeader];
    }
    content := content + [LogRow(rec, rt)];
    assert content == Appended(if path in disk.files then Some(disk.files[path]) else None, isNew, LogRow(rec, rt));
    disk.files := disk.files[path := content];
    raised := None;
  }

  /**
   * One append adds one data row after the old content, preceded by the header
   * exactly when the file was absent or empty; no other file changes.
   */
  lemma LogAppendShape(files: map<string, seq<Row>>, path: string, row: Row)
    ensures var after := LogAppend(files, path, row);
      var before := if path in files then files[path] else [];
      && after[path] == before + (if NonEmptyFile(files, path) then [] else [LogHeader]) + [row]
      && (!NonEmptyFile(files, path) ==> after[path] == [LogHeader, row])
      && after.Keys == files.Keys + {path}
      && forall p :: p in files && p != path ==> after[p] == files[p]
  {
  }

  function LogRows(recs: seq<SensorRecord>, rt: Runtime): seq<Row> {
    seq(|recs|, i requires 0 <= i < |recs| => LogRow(recs[i], rt))
  }

  /** The disk after `write_csv_log` of each record in turn to the same path. */
  function AfterWrites(files: map<string, seq<Row>>, path: string, recs: seq<SensorRecord>, rt: Runtime)
    : map<string, seq<Row>>
    decreases |recs|
  {
    if recs == [] then files
    else LogAppend(AfterWrites(files, path, recs[..|recs| - 1], rt), path, LogRow(recs[|recs| - 1], rt))
  }

  /** N writes to an absent or empty path leave exactly one header and the N rows in call order. */
  lemma {:induction false} WritesFromFresh(files: map<string, seq<Row>>, path: string, recs: seq<SensorRecord>, rt: Runtime)
    requires !NonEmptyFile(files, path)
    requires recs != []
    ensures AfterWrites(files, path, recs, rt)[path] == [LogHeader] + LogRows(recs, rt)
    ensures AfterWrites(files, path, recs, rt).Keys == files.Keys + {path}
    ensures forall p :: p in files && p != path ==> AfterWrites(files, path, recs, rt)[p] == files[p]
    decreases |recs|
  {
    var init := recs[..|recs| - 1];
    var row := LogRow(recs[|recs| - 1], rt);
    assert LogRows(recs, rt) == LogRows(init, rt) + [row];
    if init == [] {
      assert AfterWrites(files, path, init, rt) == files;
      LogAppendShape(files, path, row);
    } else {
      WritesFromFresh(files, path, init, rt);
      var prev := AfterWrites(files, path, init, rt);
      AppendAfterHeader(prev, path, LogRows(init, rt), row);
      assert [LogHeader] + LogRows(init, rt) + [row] == [LogHeader] + LogRows(recs, rt);
    }
  }

  /** An append to a log that already starts with the header adds just the row. */
  lemma AppendAfterHeader(files: map<string, seq<Row>>, path: string, rows: seq<Row>, row: Row)
    requires path in files && files[path] == [LogHeader] + rows
    ensures LogAppend(files, path, row)[path] == [LogHeader] + rows + [row]
    ensures LogAppend(files, path, row).Keys == files.Keys
    ensures forall p :: p in files && p != path ==> LogAppend(files, path, row)[p] == files[p]
  {
    assert NonEmptyFile(files, path);
    LogAppendShape(files, path, row);
  }

  // ------------------------------------------------------------------ readers

  /** `_read_csv_dicts(path)`: `path` is `None` or a string. */
  method ReadCsvDicts(disk: Disk, path: Option<string>) returns (rows: seq<CsvDict>)
    ensures (path.None? || path.value == "" || !NonEmptyFile(disk.files, path.value)) ==> rows == []
    ensures path.Some? && path.value != "" && NonEmptyFile(disk.files, path.value) ==>
      rows == DictRows(disk.files[path.value])
  {
    rows := [];
    if path.None? || path.value == "" || path.value !in disk.files || disk.files[path.value] == [] {
      return;
    }
    var file := disk.files[path.value];
    var names := file[0];
    var body := file[1..];
    var i := 0;
    while i < |body|
      invariant 0 <= i <= |body|
      invariant rows == Records(names, body[..i])
    {
      if body[i] != [] {
        rows := rows + [RowDict(names, body[i])];
      }
      RecordsAppend(names, body[..i], [body[i]]);
      assert body[..i + 1] == body[..i] + [body[i]];
      i := i + 1;
    }
    assert body[..i] == body;
  }

  /** One history entry as `load_log_data` builds it. */
  datatype LogEntry = LogEntry(timestamp: string, displayTime: string, tempF: real, humidity: real, lux: real, moisture: real)

  function TsKey(e: LogEntry): string { e.timestamp }

  /** `float(row[k])`; an absent key raises `KeyError`. */
  function CellFloat(rt: Runtime, d: CsvDict, k: string): Result<real, PyExc> {
    if k in d.cells then ToFloat(rt, CellValue(d.cells[k])) else Err(KeyError(k))
  }

  /** `float(row.get("moisture", 0))`. */
  function MoistureFloat(rt: Runtime, d: CsvDict): Result<real, PyExc> {
    if "moisture" in d.cells then ToFloat(rt, CellValue(d.cells["moisture"])) else ToFloat(rt, JInt(0))
  }

  /** `row.get("timestamp", "")`. */
  function RowTimestamp(d: CsvDict): Option<string> {
    if "timestamp" in d.cells then d.cells["timestamp"] else Some("")
  }

  /** The timestamp check: a `Z` suffix, or else text `datetime.fromisoformat` accepts. */
  predicate TimestampAccepted(d: CsvDict, isIso: string -> bool) {
    RowTimestamp(d).Some? && (EndsWith(RowTimestamp(d).value, "Z") || isIso(RowTimestamp(d).value))
  }

  /**
   * The body of the per-row `try`: `None` when anything in it raises (a `None`
   * timestamp, a rejected timestamp, a missing column, a failed `float()`).
   */
  function ParseLogRow(d: CsvDict, rt: Runtime, isIso: string -> bool): Option<LogEntry> {
    var ts := RowTimestamp(d);
    if ts.None? then None
    else if !EndsWith(ts.value, "Z") && !isIso(ts.value) then None
    else
      var t := CellFloat(rt, d, "temp_f");
      var h := CellFloat(rt, d, "humidity");
      var l := CellFloat(rt, d, "lux");
      var m := MoistureFloat(rt, d);
      if t.Err? || h.Err? || l.Err? || m.Err? then None
      else Some(LogEntry(ts.value, ts.value, t.value, h.value, l.value, m.value))
  }

  /**
   * A row is kept exactly when its timestamp passes and all four numbers
   * convert; the entry carries the stored timestamp twice, the converted
   * numbers, and moisture 0 when the log has no such column.
   */
  lemma ParseLogRowSpec(d: CsvDict, rt: Runtime, isIso: string -> bool)
    ensures var r := ParseLogRow(d, rt, isIso);
      && (r.Some? <==>
        && TimestampAccepted(d, isIso)
        && CellFloat(rt, d, "temp_f").Ok? && CellFloat(rt, d, "humidity").Ok?
        && CellFloat(rt, d, "lux").Ok? && MoistureFloat(rt, d).Ok?)
      && (r.Some? ==>
        && r.value.timestamp == RowTimestamp(d).value
        && r.value.displayTime == RowTimestamp(d).value
        && r.value.tempF == CellFloat(rt, d, "temp_f").value
        && r.value.humidity == CellFloat(rt, d, "humidity").value
        && r.value.lux == CellFloat(rt, d, "lux").value
        && r.value.moisture == (if "moisture" in d.cells then CellFloat(rt, d, "moisture").value else 0.0))
  {
  }

  function Entry(d: CsvDict, rt: Runtime, isIso: string -> bool): seq<LogEntry> {
    var e := ParseLogRow(d, rt, isIso);
    if e.Some? then [e.value] else []
  }

  /** The entries of the rows that parse, in file order. */
  function Kept(ds: seq<CsvDict>, rt: Runtime, isIso: string -> bool): seq<LogEntry>
    decreases |ds|
  {
    if ds == [] then []
    else
  Kept(ds[..|ds| - 1], rt, isIso) + Entry(ds[|ds| - 1], rt, isIso)
  }

  /** What `load_log_data` returns for a readable, non-empty log. */
  function LoadedEntries(file: seq<Row>, rt: Runtime, isIso: string -> bool): seq<LogEntry> {
    Sort(Kept(DictRows(file), rt, isIso), TsKey)
  }

  /**
   * `load_log_data(filter_range, day)`. `readError` is an exception raised
   * while opening or decoding the file; the two filter parameters are accepted
   * and never read.
   */
  method LoadLogData(disk: Disk, path: string, rt: Runtime, isIso: string -> bool, readError: Option<PyExc>,
                     filterRange: string := "24h", day: Option<string> := None)
    returns (data: seq<LogEntry>, error: Option<string>)
    ensures !NonEmptyFile(disk.files, path) ==> data == [] && error == None
    ensures NonEmptyFile(disk.files, path) && readError.Some? ==>
      data == [] && error == Some(ExcStr(rt, readError.value))
    ensures NonEmptyFile(disk.files, path) && readError.None? ==>
      data == LoadedEntries(disk.files[path], rt, isIso) && error == None
  {
    if path !in disk.files || disk.files[path] == [] {
      return [], None;
    }
    if readError.Some? {
      return [], Some(ExcStr(rt, readError.value));
    }
    var reader := DictRows(disk.files[path]);
    data := [];
    var i := 0;
    while i < |reader|
      invariant 0 <= i <= |reader|
      invariant data == Kept(reader[..i], rt, isIso)
    {
      var e := ParseLogRow(reader[i], rt, isIso);
      if e.Some? {
        data := data + [e.value];
      }
      assert reader[..i + 1][..i] == reader[..i];
      i := i + 1;
    }
    assert reader[..i] == reader;
    data := Sort(data, TsKey);
    error := None;
  }

  // ------------------------------------------------------- properties of load

  lemma {:induction false} KeptAppend(a: seq<CsvDict>, b: seq<CsvDict>, rt: Runtime, isIso: string -> bool)
    ensures Kept(a + b, rt, isIso) == Kept(a, rt, isIso) + Kept(b, rt, isIso)
    decreases |b|
  {
    if b == [] {
      assert a + b == a;
    } else {
      var b' := b[..|b| - 1];
      assert (a + b)[..|a + b| - 1] == a + b';
      assert (a + b)[|a + b| - 1] == b[|b| - 1];
      KeptAppend(a, b', rt, isIso);
    }
  }

  /** A row that fails to parse is dropped, and the rows around it are still returned. */
  lemma KeptSingle(d: CsvDict, rt: Runtime, isIso: string -> bool)
    ensures Kept([d], rt, isIso) == Entry(d, rt, isIso)
  {
    assert [d][..0] == [];
  }

  lemma CorruptRowSkipped(a: seq<CsvDict>, d: CsvDict, b: seq<CsvDict>, rt: Runtime, isIso: string -> bool)
    requires ParseLogRow(d, rt, isIso).None?
    ensures Kept(a + [d] + b, rt, isIso) == Kept(a, rt, isIso) + Kept(b, rt, isIso)
  {
    KeptAppend(a + [d], b, rt, isIso);
    KeptAppend(a, [d], rt, isIso);
    KeptSingle(d, rt, isIso);
  }

  /** Every entry comes from a row that parsed to it. */
  lemma {:induction false} KeptFromRows(ds: seq<CsvDict>, rt: Runtime, isIso: string -> bool)
    ensures forall e :: e in Kept(ds, rt, isIso) ==> exists i :: 0 <= i < |ds| && ParseLogRow(ds[i], rt, isIso) == Some(e)
    ensures forall i :: 0 <= i < |ds| && ParseLogRow(ds[i], rt, isIso).Some? ==> ParseLogRow(ds[i], rt, isIso).value in Kept(ds, rt, isIso)
    decreases |ds|
  {
    if ds != [] {
      var init := ds[..|ds| - 1];
      KeptFromRows(init, rt, isIso);
      forall e | e in Kept(ds, rt, isIso)
        ensures exists i :: 0 <= i < |ds| && ParseLogRow(ds[i], rt, isIso) == Some(e)
      {
        if e in Kept(init, rt, isIso) {
          var i :| 0 <= i < |init| && ParseLogRow(init[i], rt, isIso) == Some(e);
          assert ds[i] == init[i];
        } else {
          assert ParseLogRow(ds[|ds| - 1], rt, isIso) == Some(e);
        }
      }
      forall i | 0 <= i < |ds| && ParseLogRow(ds[i], rt, isIso).Some?
        ensures ParseLogRow(ds[i], rt, isIso).value in Kept(ds, rt, isIso)
      {
        if i < |init| { assert ds[i] == init[i]; }
      }
    }
  }

  /**
   * The result is ordered by the raw timestamp string, holds exactly the
   * entries of the parsed rows, and keeps file order among equal timestamps.
   */
  lemma LoadedEntriesSpec(file: seq<Row>, rt: Runtime, isIso: string -> bool)
    ensures SortedBy(LoadedEntries(file, rt, isIso), TsKey)
    ensures multiset(LoadedEntries(file, rt, isIso)) == multiset(Kept(DictRows(file), rt, isIso))
    ensures forall ts :: WithKey(LoadedEntries(file, rt, isIso), TsKey, ts) == WithKey(Kept(DictRows(file), rt, isIso), TsKey, ts)
    ensures forall e :: e in LoadedEntries(file, rt, isIso) ==>
      exists i :: 0 <= i < |DictRows(file)| && ParseLogRow(DictRows(file)[i], rt, isIso) == Some(e)
  {
    var kept := Kept(DictRows(file), rt, isIso);
    SortFacts(kept, TsKey);
    forall ts ensures WithKey(LoadedEntries(file, rt, isIso), TsKey, ts) == WithKey(kept, TsKey, ts) {
      SortStable(kept, TsKey, ts);
    }
    KeptFromRows(DictRows(file), rt, isIso);
    forall e | e in LoadedEntries(file, rt, isIso) ensures e in kept {
      assert e in multiset(LoadedEntries(file, rt, isIso));
    }
  }

  // ------------------------------------------------------------ round trip

  /** The oracle reads back what it wrote for this record. */
  predicate ReadsBack(rt: Runtime, rec: SensorRecord) {
    && rt.parseFloat(rt.roundStr(rec.tempF, 2)).Some?
    && rt.parseFloat(rt.roundStr(rec.humidity, 2)).Some?
    && rt.parseFloat(rt.roundStr(rec.lux, 1)).Some?
    && rt.parseFloat(rt.roundStr(rec.moisture, 1)).Some?
  }

  /** The entry a written record loads back as. */
  function ReadBack(rt: Runtime, rec: SensorRecord): LogEntry
    requires ReadsBack(rt, rec)
  {
    LogEntry(rec.timestamp, rec.timestamp,
      rt.parseFloat(rt.roundStr(rec.tempF, 2)).value, rt.parseFloat(rt.roundStr(rec.humidity, 2)).value,
      rt.parseFloat(rt.roundStr(rec.lux, 1)).value, rt.parseFloat(rt.roundStr(rec.moisture, 1)).value)
  }

  /**
   * A full row of five present cells parses when its timestamp passes and its
   * four numbers convert, whatever extra cells the row carries under `restkey`.
   */
  lemma FullRowParses(ts: string, t: string, h: string, l: string, m: string, rest: Option<seq<string>>,
                      rt: Runtime, isIso: string -> bool)
    requires EndsWith(ts, "Z") || isIso(ts)
    requires rt.parseFloat(t).Some? && rt.parseFloat(h).Some? && rt.parseFloat(l).Some? && rt.parseFloat(m).Some?
    ensures ParseLogRow(CsvDict(map["timestamp" := Some(ts), "temp_f" := Some(t), "humidity" := Some(h),
        "lux" := Some(l), "moisture" := Some(m)], rest), rt, isIso)
      == Some(LogEntry(ts, ts, rt.parseFloat(t).value, rt.parseFloat(h).value, rt.parseFloat(l).value,
        rt.parseFloat(m).value))
  {
    var d := CsvDict(map["timestamp" := Some(ts), "temp_f" := Some(t), "humidity" := Some(h),
      "lux" := Some(l), "moisture" := Some(m)], rest);
    assert RowTimestamp(d) == Some(ts);
    assert CellFloat(rt, d, "temp_f") == ToFloat(rt, JStr(t));
    assert CellFloat(rt, d, "humidity") == ToFloat(rt, JStr(h));
    assert CellFloat(rt, d, "lux") == ToFloat(rt, JStr(l));
    assert MoistureFloat(rt, d) == ToFloat(rt, JStr(m));
  }

  lemma WrittenRowParses(rec: SensorRecord, rt: Runtime, isIso: string -> bool)
    requires ReadsBack(rt, rec)
    requires EndsWith(rec.timestamp, "Z") || isIso(rec.timestamp)
    ensures ParseLogRow(RowDict(LogHeader, LogRow(rec, rt)), rt, isIso) == Some(ReadBack(rt, rec))
  {
    LogRowColumns(rec, rt);
    FullRowParses(rec.timestamp, rt.roundStr(rec.tempF, 2), rt.roundStr(rec.humidity, 2),
      rt.roundStr(rec.lux, 1), rt.roundStr(rec.moisture, 1), None, rt, isIso);
  }

  lemma {:induction false} KeptAll(ds: seq<CsvDict>, rt: Runtime, isIso: string -> bool)
    requires forall i :: 0 <= i < |ds| ==> ParseLogRow(ds[i], rt, isIso).Some?
    ensures |Kept(ds, rt, isIso)| == |ds|
    ensures forall i :: 0 <= i < |ds| ==> Kept(ds, rt, isIso)[i] == ParseLogRow(ds[i], rt, isIso).value
    decreases |ds|
  {
    if ds != [] {
      var init := ds[..|ds| - 1];
      KeptAll(init, rt, isIso);
    }
  }

  lemma WrittenRowsParse(recs: seq<SensorRecord>, rt: Runtime, isIso: string -> bool)
    requires forall i :: 0 <= i < |recs| ==> ReadsBack(rt, recs[i])
    requires forall i :: 0 <= i < |recs| ==> EndsWith(recs[i].timestamp, "Z") || isIso(recs[i].timestamp)
    ensures |Records(LogHeader, LogRows(recs, rt))| == |recs|
    ensures forall i :: 0 <= i < |recs| ==>
      ParseLogRow(Records(LogHeader, LogRows(recs, rt))[i], rt, isIso) == Some(ReadBack(rt, recs[i]))
  {
    var rows := LogRows(recs, rt);
    RecordsOfRows(LogHeader, rows);
    forall i | 0 <= i < |recs|
      ensures ParseLogRow(Records(LogHeader, rows)[i], rt, isIso) == Some(ReadBack(rt, recs[i]))
    {
      WrittenRowParses(recs[i], rt, isIso);
    }
  }

  /** The records of the rows `write_csv_log` wrote load back one entry each, in order. */
  lemma WrittenRowsLoad(recs: seq<SensorRecord>, rt: Runtime, isIso: string -> bool)
    requires forall i :: 0 <= i < |recs| ==> ReadsBack(rt, recs[i])
    requires forall i :: 0 <= i < |recs| ==> EndsWith(recs[i].timestamp, "Z") || isIso(recs[i].timestamp)
    ensures Kept(Records(LogHeader, LogRows(recs, rt)), rt, isIso)
         == seq(|recs|, i requires 0 <= i < |recs| => ReadBack(rt, recs[i]))
  {
    var ds := Records(LogHeader, LogRows(recs, rt));
    var want := seq(|recs|, i requires 0 <= i < |recs| => ReadBack(rt, recs[i]));
    WrittenRowsParse(recs, rt, isIso);
    KeptAll(ds, rt, isIso);
    var kept := Kept(ds, rt, isIso);
    assert |kept| == |want|;
    forall i | 0 <= i < |want| ensures kept[i] == want[i] {
      assert kept[i] == ParseLogRow(ds[i], rt, isIso).value;
    }
  }

  /**
   * A log that only `write_csv_log` has written, starting from an absent or
   * empty file, loads back every record (in timestamp order) when the
   * timestamps pass the check and the rounded text parses.
   */
  lemma WrittenLogLoads(files: map<string, seq<Row>>, path: string, recs: seq<SensorRecord>, rt: Runtime, isIso: string -> bool)
    requires !NonEmptyFile(files, path) && recs != []
    requires forall i :: 0 <= i < |recs| ==> ReadsBack(rt, recs[i])
    requires forall i :: 0 <= i < |recs| ==> EndsWith(recs[i].timestamp, "Z") || isIso(recs[i].timestamp)
    ensures NonEmptyFile(AfterWrites(files, path, recs, rt), path)
    ensures LoadedEntries(AfterWrites(files, path, recs, rt)[path], rt, isIso)
         == Sort(seq(|recs|, i requires 0 <= i < |recs| => ReadBack(rt, recs[i])), TsKey)
  {
    WritesFromFresh(files, path, recs, rt);
    var file := AfterWrites(files, path, recs, rt)[path];
    assert DictRows(file) == Records(LogHeader, LogRows(recs, rt)) by {
      assert file[0] == LogHeader && file[1..] == LogRows(recs, rt);
    }
    WrittenRowsLoad(recs, rt, isIso);
  }
}
