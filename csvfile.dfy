/**
 * CSV log files as rows of comma-free fields (the `csv` module's quoting is
 * not modelled), the filesystem as a map from path to file content, and the
 * two readers the servers use: `csv.DictReader` and the header-emission rule
 * of the append paths.
 */
module CsvFile {
  import opened Wrappers
  import opened Python

  type Row = seq<string>

  /** The column order every server writes. */
  const LogHeader: Row := ["timestamp", "temp_f", "humidity", "lux", "moisture"]

  /** The part of the host filesystem the servers read and append to. */
  class Disk {
    var files: map<string, seq<Row>>

    constructor (initial: map<string, seq<Row>>)
      ensures files == initial
    {
      files := initial;
    }
  }

  /** `os.path.exists(p) and os.path.getsize(p) > 0` on the modelled disk. */
  predicate NonEmptyFile(files: map<string, seq<Row>>, path: string) {
    path in files && files[path] != []
  }

  /** What one append writes: `LogHeader` first when `header` is set, then `row`. */
  function AppendRows(header: bool, row: Row): seq<Row> {
    (if header then [LogHeader] else []) + [row]
  }

  /** The file after appending `row`, written after `LogHeader` when `header` is set. */
  function Appended(before: Option<seq<Row>>, header: bool, row: Row): seq<Row> {
    before.GetOr([]) + AppendRows(header, row)
  }

  /**
   * How an append to a log can raise: before the file is opened (creating the
   * directory, or `open` itself), or after `open(path, "a")` has created the
   * file, once the first `written` of the rows to append have reached it.
   */
  datatype WriteFailure = BeforeOpen(e: PyExc) | AfterOpen(e: PyExc, written: nat)

  /** The files after an append of `rows` to `path` that raised `f`. */
  function FailedAppend(files: map<string, seq<Row>>, path: string, rows: seq<Row>, f: WriteFailure)
    : map<string, seq<Row>>
  {
    match f
    case BeforeOpen(_) => files
    case AfterOpen(_, n) =>
      files[path := (if path in files then files[path] else []) + rows[..if n < |rows| then n else |rows|]]
  }

  predicate IsPrefix(a: seq<Row>, b: seq<Row>) {
    |a| <= |b| && a == b[..|a|]
  }

  /**
   * A failed append changes nothing when it fails before the open. After the
   * open the file exists, still starts with its old rows, and holds a prefix
   * of what the completed append writes. No other file changes.
   */
  lemma FailedAppendShape(files: map<string, seq<Row>>, path: string, header: bool, row: Row, f: WriteFailure)
    ensures var before := if path in files then Some(files[path]) else None;
      var after := FailedAppend(files, path, AppendRows(header, row), f);
      && (f.BeforeOpen? ==> after == files)
      && (f.AfterOpen? ==>
            && path in after
            && IsPrefix(before.GetOr([]), after[path])
            && IsPrefix(after[path], Appended(before, header, row))
            && (f.written >= |AppendRows(header, row)| ==> after[path] == Appended(before, header, row)))
      && after.Keys <= files.Keys + {path}
      && forall p :: p in files && p != path ==> after[p] == files[p]
  {
    if f.AfterOpen? {
      var prior := if path in files then files[path] else [];
      var rows := AppendRows(header, row);
      var k := if f.written < |rows| then f.written else |rows|;
      var content := prior + rows[..k];
      assert content[..|prior|] == prior;
      assert (prior + rows)[..|content|] == content;
    }
  }

  /** The string-keyed entries of a record: `None` is the reader's `restval` for a short row. */
  type Cells = map<string, Option<string>>

  /**
   * A `csv.DictReader` record. `rest` is the entry under the reader's default
   * `restkey`, the key `None`: the cells of a row longer than the header.
   */
  datatype CsvDict = CsvDict(cells: Cells, rest: Option<seq<string>>)

  /** `dict(zip(names, row))`: a later duplicate name wins. */
  function Zip(names: seq<string>, row: Row): Cells
    decreases |names|
  {
    if names == [] || row == [] then map[]
    else map[names[0] := Some(row[0])] + Zip(names[1..], row[1..])
  }

  /**
   * One record: zipped fields, then either the extra cells under `restkey`
   * or `restval` for the names beyond the row's end.
   */
  function RowDict(names: seq<string>, row: Row): CsvDict {
    if |names| < |row| then CsvDict(Zip(names, row), Some(row[|names|..]))
    else if |names| == |row| then CsvDict(Zip(names, row), None)
    else CsvDict(Zip(names, row) + map k | k in names[|row|..] :: None, None)
  }

  /** `list(csv.DictReader(f))`: the first row names the fields; blank rows are skipped. */
  function DictRows(file: seq<Row>): seq<CsvDict> {
    if file == [] then [] else Records(file[0], file[1..])
  }

  function Records(names: seq<string>, rows: seq<Row>): seq<CsvDict>
    decreases |rows|
  {
    if rows == [] then []
    else (if rows[0] == [] then [] else [RowDict(names, rows[0])]) + Records(names, rows[1..])
  }

  predicate Distinct(names: seq<string>) {
    forall i, j :: 0 <= i < j < |names| ==> names[i] != names[j]
  }

  lemma LogHeaderDistinct()
    ensures Distinct(LogHeader)
  {
  }

  /** A full five-cell row read under the log header holds each cell under its column name. */
  lemma LogHeaderRow(row: Row)
    requires |row| == 5
    ensures RowDict(LogHeader, row).rest == None
    ensures RowDict(LogHeader, row).cells == map[
      "timestamp" := Some(row[0]), "temp_f" := Some(row[1]), "humidity" := Some(row[2]),
      "lux" := Some(row[3]), "moisture" := Some(row[4])]
  {
    assert LogHeader[1..] == ["temp_f", "humidity", "lux", "moisture"];
    assert LogHeader[1..][1..] == ["humidity", "lux", "moisture"];
    assert LogHeader[1..][1..][1..] == ["lux", "moisture"];
    assert LogHeader[1..][1..][1..][1..] == ["moisture"];
    var z4 := Zip(["moisture"], row[1..][1..][1..][1..]);
    assert z4 == map["moisture" := Some(row[4])];
    var z3 := Zip(["lux", "moisture"], row[1..][1..][1..]);
    assert z3 == map["lux" := Some(row[3])] + z4;
    var z2 := Zip(["humidity", "lux", "moisture"], row[1..][1..]);
    assert z2 == map["humidity" := Some(row[2])] + z3;
    var z1 := Zip(["temp_f", "humidity", "lux", "moisture"], row[1..]);
    assert z1 == map["temp_f" := Some(row[1])] + z2;
    assert RowDict(LogHeader, row).cells == map["timestamp" := Some(row[0])] + z1;
  }

  lemma {:induction false} ZipAt(names: seq<string>, row: Row, i: nat)
    requires Distinct(names) && i < |names|
    ensures names[i] in Zip(names, row) <==> i < |row|
    ensures i < |row| ==> Zip(names, row)[names[i]] == Some(row[i])
    decreases |names|
  {
    ZipKeys(names, row);
    if row != [] {
      ZipKeys(names[1..], row[1..]);
      if i > 0 {
        assert Distinct(names[1..]) by {
          forall a, b | 0 <= a < b < |names[1..]| ensures names[1..][a] != names[1..][b] {
            assert names[1..][a] == names[a + 1] && names[1..][b] == names[b + 1];
          }
        }
        ZipAt(names[1..], row[1..], i - 1);
        assert names[1..][i - 1] == names[i];
      }
    } else {
      assert Zip(names, row) == map[];
    }
  }

  lemma {:induction false} ZipKeys(names: seq<string>, row: Row)
    ensures forall k :: k in Zip(names, row) ==> exists j :: 0 <= j < |names| && j < |row| && names[j] == k
    ensures forall j :: 0 <= j < |names| && j < |row| ==> names[j] in Zip(names, row)
    decreases |names|
  {
    if names != [] && row != [] {
      ZipKeys(names[1..], row[1..]);
      forall k | k in Zip(names, row)
        ensures exists j :: 0 <= j < |names| && j < |row| && names[j] == k
      {
        if k != names[0] {
          assert k in Zip(names[1..], row[1..]);
          var j :| 0 <= j < |names[1..]| && j < |row[1..]| && names[1..][j] == k;
          assert names[j + 1] == k;
        }
      }
      forall j | 0 <= j < |names| && j < |row| ensures names[j] in Zip(names, row) {
        if j > 0 { assert names[1..][j - 1] == names[j]; }
      }
    }
  }

  /**
   * With distinct field names, a record maps exactly the header's names, each to
   * the cell in its column, or to `None` when the row stops before that column.
   */
  lemma RowDictAt(names: seq<string>, row: Row, i: nat)
    requires Distinct(names) && i < |names|
    ensures names[i] in RowDict(names, row).cells
    ensures RowDict(names, row).cells[names[i]] == if i < |row| then Some(row[i]) else None
  {
    ZipAt(names, row, i);
    if |row| < |names| && i >= |row| {
      assert names[i] == names[|row|..][i - |row|];
    }
  }

  /**
   * The string keys of a record are exactly the header's names; the `restkey`
   * entry is there exactly when the row is longer than the header, and holds
   * the cells past the header's end.
   */
  lemma RowDictKeys(names: seq<string>, row: Row)
    ensures forall k :: k in RowDict(names, row).cells <==> k in names
    ensures RowDict(names, row).rest.Some? <==> |row| > |names|
    ensures |row| > |names| ==> RowDict(names, row).rest.value == row[|names|..]
  {
    ZipKeys(names, row);
    forall k | k in names ensures k in RowDict(names, row).cells {
      var j :| 0 <= j < |names| && names[j] == k;
      if j >= |row| { assert names[|row|..][j - |row|] == k; }
    }
  }

  /** One record per non-blank row after the header, in file order. */
  lemma {:induction false} RecordsOfRows(names: seq<string>, rows: seq<Row>)
    requires forall i :: 0 <= i < |rows| ==> rows[i] != []
    ensures |Records(names, rows)| == |rows|
    ensures forall i :: 0 <= i < |rows| ==> Records(names, rows)[i] == RowDict(names, rows[i])
    decreases |rows|
  {
    if rows != [] {
      RecordsOfRows(names, rows[1..]);
      forall i | 0 <= i < |rows| ensures Records(names, rows)[i] == RowDict(names, rows[i]) {
        if i > 0 { assert rows[1..][i - 1] == rows[i]; }
      }
    }
  }

  lemma {:induction false} RecordsAppend(names: seq<string>, a: seq<Row>, b: seq<Row>)
    ensures Records(names, a + b) == Records(names, a) + Records(names, b)
    decreases |a|
  {
    if a == [] {
      assert a + b == b;
    } else {
      assert (a + b)[0] == a[0] && (a + b)[1..] == a[1..] + b;
      RecordsAppend(names, a[1..], b);
    }
  }
}
