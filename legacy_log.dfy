/**
 * The CSV log as the two older servers (`dashboard/flask/flask-dashboard.py`
 * and `dashboard/fastapi/fastapi.py`) write and read it: a header only when
 * the file does not exist, a local 12-hour timestamp, and a history reader
 * that keeps file order and skips rows raising `ValueError` or `KeyError`,
 * while any other exception ends the request.
 */
module LegacyLog {
  import opened Wrappers
  import opened JsonValue
  import opened Text
  import opened Python
  import opened CsvFile
  import opened Clock

  /** The four numbers of a reading, after `float()`. */
  datatype Reading = Reading(tempF: real, humidity: real, lux: real, moisture: real)

  function ReadingJson(r: Reading): Json {
    JObject(map["temp_f" := JFloat(r.tempF), "humidity" := JFloat(r.humidity),
                "lux" := JFloat(r.lux), "moisture" := JFloat(r.moisture)])
  }

  /** The `csv.writer` row: local 12-hour stamp, numbers rounded 2, 2, 1, 1. */
  function LegacyRow(now: DateTime, r: Reading, rt: Runtime): Row {
    [FormatLocal12(now), rt.roundStr(r.tempF, 2), rt.roundStr(r.humidity, 2),
     rt.roundStr(r.lux, 1), rt.roundStr(r.moisture, 1)]
  }

  /** The log after one append: the header is written only when the file did not exist. */
  function AppendIfAbsent(files: map<string, seq<Row>>, path: string, row: Row): map<string, seq<Row>> {
    var before := if path in files then Some(files[path]) else None;
    files[path := Appended(before, path !in files, row)]
  }

  /** A header exactly when the file was absent; an existing empty file gets the bare row. */
  lemma AppendIfAbsentShape(files: map<string, seq<Row>>, path: string, row: Row)
    ensures path !in files ==> AppendIfAbsent(files, path, row)[path] == [LogHeader, row]
    ensures path in files ==> AppendIfAbsent(files, path, row)[path] == files[path] + [row]
    ensures forall p :: p in files && p != path ==> AppendIfAbsent(files, path, row)[p] == files[p]
  {
  }

  /**
   * Appending to an existing empty log puts the reading where the reader
   * expects the header: the history then has no record for it.
   */
  lemma EmptyFileSwallowsFirstRow(files: map<string, seq<Row>>, path: string, row: Row)
    requires path in files && files[path] == []
    ensures AppendIfAbsent(files, path, row)[path] == [row]
    ensures DictRows(AppendIfAbsent(files, path, row)[path]) == []
  {
    assert [row][1..] == [];
  }

  /** The append both handlers do inline: `isfile` first, then open in append mode and write. */
  method AppendRow(disk: Disk, path: string, row: Row)
    modifies disk
    ensures disk.files == AppendIfAbsent(old(disk.files), path, row)
  {
    var fileExists := path in disk.files;
    var content := if fileExists then disk.files[path] else [];
    if !fileExists {
      content := content + [LogHeader];
    }
    content := content + [row];
    assert content == Appended(if fileExists then Some(disk.files[path]) else None, !fileExists, row);
    disk.files := disk.files[path := content];
  }

  /** One history entry: the relabelled time and the four numbers. */
  datatype LegacyEntry = LegacyEntry(timestamp: string, tempF: real, humidity: real, lux: real, moisture: real)

  /** What the `try` around one row yields. */
  datatype RowOutcome = Keep(entry: LegacyEntry) | Skip | Crash(e: PyExc)

  /** `ValueError` and `KeyError` skip the row; anything else leaves the loop. */
  function Caught(e: PyExc): RowOutcome {
    if e.IsValueError() || e.KeyError? then Skip else Crash(e)
  }

  /** `float(row[k])`, or `float(row.get(k, 0))` when `withDefault`. */
  function Field(rt: Runtime, d: CsvDict, k: string, withDefault: bool): Result<real, PyExc> {
    if k in d.cells then ToFloat(rt, CellValue(d.cells[k]))
    else if withDefault then ToFloat(rt, JInt(0))
    else Err(KeyError(k))
  }

  /**
   * The body of the per-row `try`. `parse12` is `datetime.strptime(s,
   * "%Y-%m-%d %I:%M:%S %p")`; a short row's `None` cell makes `strptime` or
   * `float()` raise `TypeError`, which is not caught.
   */
  function ParseRow(d: CsvDict, rt: Runtime, parse12: string -> Option<DateTime>): RowOutcome {
    if "timestamp" !in d.cells then Skip
    else match d.cells["timestamp"]
      case None => Crash(ConvTypeError("strptime", JNull))
      case Some(s) =>
        match parse12(s)
        case None => Skip
        case Some(dt) =>
          var t := Field(rt, d, "temp_f", false);
          var h := Field(rt, d, "humidity", false);
          var l := Field(rt, d, "lux", false);
          var m := Field(rt, d, "moisture", true);
          if t.Err? then Caught(t.error)
          else if h.Err? then Caught(h.error)
          else if l.Err? then Caught(l.error)
          else if m.Err? then Caught(m.error)
          else Keep(LegacyEntry(FormatHistory12(dt), t.value, h.value, l.value, m.value))
  }

  /** The history loop over the records: the entries in file order, or the first escaping exception. */
  function History(ds: seq<CsvDict>, rt: Runtime, parse12: string -> Option<DateTime>): Result<seq<LegacyEntry>, PyExc>
    decreases |ds|
  {
    if ds == [] then Ok([])
    else match ParseRow(ds[0], rt, parse12)
      case Crash(e) => Err(e)
      case Skip => History(ds[1..], rt, parse12)
      case Keep(x) => Prepend([x], History(ds[1..], rt, parse12))
  }

  function Prepend(xs: seq<LegacyEntry>, r: Result<seq<LegacyEntry>, PyExc>): Result<seq<LegacyEntry>, PyExc> {
    if r.Ok? then Ok(xs + r.value) else r
  }

  lemma PrependNone(r: Result<seq<LegacyEntry>, PyExc>)
    ensures Prepend([], r) == r
  {
    if r.Ok? {
      assert [] + r.value == r.value;
    }
  }

  lemma PrependTwice(xs: seq<LegacyEntry>, ys: seq<LegacyEntry>, r: Result<seq<LegacyEntry>, PyExc>)
    ensures Prepend(xs, Prepend(ys, r)) == Prepend(xs + ys, r)
  {
    if r.Ok? {
      assert xs + (ys + r.value) == (xs + ys) + r.value;
    }
  }

  /** The `for row in reader` loop both older servers run. */
  method ReadHistory(file: seq<Row>, rt: Runtime, parse12: string -> Option<DateTime>)
    returns (r: Result<seq<LegacyEntry>, PyExc>)
    ensures r == History(DictRows(file), rt, parse12)
  {
    var reader := DictRows(file);
    var data: seq<LegacyEntry> := [];
    var i := 0;
    assert reader[0..] == reader;
    PrependNone(History(reader, rt, parse12));
    while i < |reader|
      invariant 0 <= i <= |reader|
      invariant Prepend(data, History(reader[i..], rt, parse12)) == History(reader, rt, parse12)
    {
      var out := ParseRow(reader[i], rt, parse12);
      assert reader[i..][0] == reader[i] && reader[i..][1..] == reader[i + 1..];
      if out.Crash? {
        return Err(out.e);
      }
      if out.Keep? {
        PrependTwice(data, [out.entry], History(reader[i + 1..], rt, parse12));
        data := data + [out.entry];
      }
      i := i + 1;
    }
    assert reader[i..] == [];
    assert data + [] == data;
    r := Ok(data);
  }

  /** History is computed row by row in file order: a split file gives the entries of both parts, in order. */
  lemma {:induction false} HistoryAppend(a: seq<CsvDict>, b: seq<CsvDict>, rt: Runtime, parse12: string -> Option<DateTime>)
    ensures History(a + b, rt, parse12) ==
      if History(a, rt, parse12).Ok? then Prepend(History(a, rt, parse12).value, History(b, rt, parse12))
      else History(a, rt, parse12)
    decreases |a|
  {
    if a == [] {
      assert a + b == b;
      PrependNone(History(b, rt, parse12));
    } else {
      assert (a + b)[0] == a[0] && (a + b)[1..] == a[1..] + b;
      HistoryAppend(a[1..], b, rt, parse12);
      var rest := History(a[1..], rt, parse12);
      match ParseRow(a[0], rt, parse12)
      case Crash(e) =>
      case Skip =>
      case Keep(x) =>
        if rest.Ok? {
          PrependTwice([x], rest.value, History(b, rt, parse12));
        }
    }
  }

  /** A skipped row leaves the history of the rest exactly as it was. */
  lemma SkippedRow(a: seq<CsvDict>, d: CsvDict, b: seq<CsvDict>, rt: Runtime, parse12: string -> Option<DateTime>)
    requires ParseRow(d, rt, parse12).Skip?
    ensures History(a + [d] + b, rt, parse12) == History(a + b, rt, parse12)
  {
    HistoryAppend(a, [d] + b, rt, parse12);
    HistoryAppend(a, b, rt, parse12);
    assert a + [d] + b == a + ([d] + b);
    assert ([d] + b)[0] == d && ([d] + b)[1..] == b;
  }

  /** A row whose exception is not caught ends the request once the rows before it have gone through. */
  lemma CrashingRow(a: seq<CsvDict>, d: CsvDict, b: seq<CsvDict>, rt: Runtime, parse12: string -> Option<DateTime>)
    requires History(a, rt, parse12).Ok?
    requires ParseRow(d, rt, parse12).Crash?
    ensures History(a + [d] + b, rt, parse12) == Err(ParseRow(d, rt, parse12).e)
  {
    HistoryAppend(a, [d] + b, rt, parse12);
    assert a + [d] + b == a + ([d] + b);
    assert ([d] + b)[0] == d;
  }

  /**
   * A row one of these servers wrote reads back relabelled, holding the
   * numbers the oracle parses from the rounded text.
   */
  lemma WrittenRowReads(now: DateTime, r: Reading, rt: Runtime, parse12: string -> Option<DateTime>)
    requires parse12(FormatLocal12(now)) == Some(now)
    requires rt.parseFloat(rt.roundStr(r.tempF, 2)).Some? && rt.parseFloat(rt.roundStr(r.humidity, 2)).Some?
    requires rt.parseFloat(rt.roundStr(r.lux, 1)).Some? && rt.parseFloat(rt.roundStr(r.moisture, 1)).Some?
    ensures ParseRow(RowDict(LogHeader, LegacyRow(now, r, rt)), rt, parse12) == Keep(LegacyEntry(
      FormatHistory12(now), rt.parseFloat(rt.roundStr(r.tempF, 2)).value, rt.parseFloat(rt.roundStr(r.humidity, 2)).value,
      rt.parseFloat(rt.roundStr(r.lux, 1)).value, rt.parseFloat(rt.roundStr(r.moisture, 1)).value))
  {
    var d := RowDict(LogHeader, LegacyRow(now, r, rt));
    RowFields(LegacyRow(now, r, rt), rt);
    ParseRowKeeps(d, rt, parse12, now, rt.parseFloat(rt.roundStr(r.tempF, 2)).value,
      rt.parseFloat(rt.roundStr(r.humidity, 2)).value, rt.parseFloat(rt.roundStr(r.lux, 1)).value,
      rt.parseFloat(rt.roundStr(r.moisture, 1)).value);
  }

  /** The cells of a full row, as the history loop converts them. */
  lemma RowFields(row: Row, rt: Runtime)
    requires |row| == 5
    requires rt.parseFloat(row[1]).Some? && rt.parseFloat(row[2]).Some?
    requires rt.parseFloat(row[3]).Some? && rt.parseFloat(row[4]).Some?
    ensures var d := RowDict(LogHeader, row);
      && "timestamp" in d.cells && d.cells["timestamp"] == Some(row[0])
      && Field(rt, d, "temp_f", false) == Ok(rt.parseFloat(row[1]).value)
      && Field(rt, d, "humidity", false) == Ok(rt.parseFloat(row[2]).value)
      && Field(rt, d, "lux", false) == Ok(rt.parseFloat(row[3]).value)
      && Field(rt, d, "moisture", true) == Ok(rt.parseFloat(row[4]).value)
  {
    LogHeaderRow(row);
  }

  /** A row whose time parses and whose four numbers convert is kept, relabelled. */
  lemma ParseRowKeeps(d: CsvDict, rt: Runtime, parse12: string -> Option<DateTime>, dt: DateTime,
                      t: real, h: real, l: real, m: real)
    requires "timestamp" in d.cells && d.cells["timestamp"].Some? && parse12(d.cells["timestamp"].value) == Some(dt)
    requires Field(rt, d, "temp_f", false) == Ok(t) && Field(rt, d, "humidity", false) == Ok(h)
    requires Field(rt, d, "lux", false) == Ok(l) && Field(rt, d, "moisture", true) == Ok(m)
    ensures ParseRow(d, rt, parse12) == Keep(LegacyEntry(FormatHistory12(dt), t, h, l, m))
  {
  }

  /** A log these servers created holds, after one reading, exactly that reading's entry. */
  lemma FreshLogReadsBack(files: map<string, seq<Row>>, path: string, now: DateTime, r: Reading,
                          rt: Runtime, parse12: string -> Option<DateTime>)
    requires path !in files
    requires parse12(FormatLocal12(now)) == Some(now)
    requires rt.parseFloat(rt.roundStr(r.tempF, 2)).Some? && rt.parseFloat(rt.roundStr(r.humidity, 2)).Some?
    requires rt.parseFloat(rt.roundStr(r.lux, 1)).Some? && rt.parseFloat(rt.roundStr(r.moisture, 1)).Some?
    ensures History(DictRows(AppendIfAbsent(files, path, LegacyRow(now, r, rt))[path]), rt, parse12) == Ok([LegacyEntry(
      FormatHistory12(now), rt.parseFloat(rt.roundStr(r.tempF, 2)).value, rt.parseFloat(rt.roundStr(r.humidity, 2)).value,
      rt.parseFloat(rt.roundStr(r.lux, 1)).value, rt.parseFloat(rt.roundStr(r.moisture, 1)).value)])
  {
    var row := LegacyRow(now, r, rt);
    AppendIfAbsentShape(files, path, row);
    HeaderAndRow(row);
    WrittenRowReads(now, r, rt, parse12);
    OneRowHistory(RowDict(LogHeader, row), rt, parse12);
  }

  /** A header followed by one row reads as one record. */
  lemma HeaderAndRow(row: Row)
    requires row != []
    ensures DictRows([LogHeader, row]) == [RowDict(LogHeader, row)]
  {
    assert [LogHeader, row][1..] == [row] && [row][1..] == [];
    assert Records(LogHeader, [row]) == [RowDict(LogHeader, row)] + Records(LogHeader, []);
  }

  lemma OneRowHistory(d: CsvDict, rt: Runtime, parse12: string -> Option<DateTime>)
    requires ParseRow(d, rt, parse12).Keep?
    ensures History([d], rt, parse12) == Ok([ParseRow(d, rt, parse12).entry])
  {
    assert [d][1..] == [];
    var x := ParseRow(d, rt, parse12).entry;
    assert History([d], rt, parse12) == Prepend([x], History([], rt, parse12));
    assert [x] + [] == [x];
  }

  function EntryJson(e: LegacyEntry): Json {
    JObject(map["timestamp" := JStr(e.timestamp), "temp_f" := JFloat(e.tempF), "humidity" := JFloat(e.humidity),
                "lux" := JFloat(e.lux), "moisture" := JFloat(e.moisture)])
  }

  /** The `data` list as `jsonify` returns it, or the exception that ended the loop. */
  function HistoryJson(h: Result<seq<LegacyEntry>, PyExc>): (r: Result<Json, PyExc>)
    ensures r.Ok? <==> h.Ok?
    ensures h.Ok? ==> (r.value.JList? && |r.value.items| == |h.value|
      && forall i :: 0 <= i < |h.value| ==> r.value.items[i] == EntryJson(h.value[i]))
  {
    if h.Ok? then Ok(JList(seq(|h.value|, i requires 0 <= i < |h.value| => EntryJson(h.value[i])))) else Err(h.error)
  }
}
