/**
 * The chart page's script, `dashboard/flask/static/js/dashboard.js`: the CSV
 * export, the mapping of history entries to chart points, the summary
 * averages, the time-range buttons and the empty-data guard of the
 * `initDashboard` that takes effect (the second definition).
 */
module DashboardJs {
  import opened Wrappers
  import opened JsonValue
  import opened Text

  /** `Boolean(v)`; `None` is `undefined`. Unlike Python, empty arrays and objects are truthy. */
  predicate JsTruthy(v: Option<Json>) {
    match v
    case None => false
    case Some(j) =>
      match j
      case JNull => false
      case JBool(b) => b
      case JInt(i) => i != 0
      case JFloat(f) => f != 0.0
      case JStr(s) => s != ""
      case JList(_) => true
      case JObject(_) => true
  }

  /** `e[key]` on a parsed JSON value: `null` has no properties and throws. */
  function Prop(e: Json, key: string): Result<Option<Json>, string> {
    match e
    case JNull => Err("TypeError")
    case JObject(f) => Ok(if key in f then Some(f[key]) else None)
    case _ => Ok(None)
  }

  /**
   * One CSV field, `row[col] || ''` as `join` renders it; `toStr` is the
   * engine's string conversion of a non-string value.
   */
  function FieldText(v: Option<Json>, toStr: Json -> string): (r: string)
    ensures !JsTruthy(v) ==> r == ""
    ensures v.Some? && v.value.JStr? ==> r == v.value.s
    ensures JsTruthy(v) && !v.value.JStr? ==> r == toStr(v.value)
  {
    if !JsTruthy(v) then "" else if v.value.JStr? then v.value.s else toStr(v.value)
  }

  function Lookup(row: map<string, Json>, col: string): Option<Json> {
    if col in row then Some(row[col]) else None
  }

  /** The fields of one exported line, one per column in column order. */
  function Fields(row: map<string, Json>, columns: seq<string>, toStr: Json -> string): (r: seq<string>)
    ensures |r| == |columns|
    ensures forall i :: 0 <= i < |columns| ==> r[i] == FieldText(Lookup(row, columns[i]), toStr)
  {
    seq(|columns|, i requires 0 <= i < |columns| => FieldText(Lookup(row, columns[i]), toStr))
  }

  function Lines(data: seq<map<string, Json>>, columns: seq<string>, toStr: Json -> string): (r: seq<string>)
    ensures |r| == |data|
    ensures forall i :: 0 <= i < |data| ==> r[i] == Join(Fields(data[i], columns, toStr), ",")
  {
    seq(|data|, i requires 0 <= i < |data| => Join(Fields(data[i], columns, toStr), ","))
  }

  /** `convertToCSV(data, columns)`. */
  function ConvertToCsv(data: seq<map<string, Json>>, columns: seq<string>, toStr: Json -> string): (r: string)
    ensures StartsWith(r, Join(columns, ",") + "\n")
    ensures data == [] ==> r == Join(columns, ",") + "\n"
  {
    var header := Join(columns, ",");
    assert (header + "\n" + Join(Lines(data, columns, toStr), "\n"))[..|header + "\n"|] == header + "\n";
    header + "\n" + Join(Lines(data, columns, toStr), "\n")
  }

  lemma JoinCons(x: string, xs: seq<string>, sep: string)
    requires xs != []
    ensures Join([x] + xs, sep) == x + sep + Join(xs, sep)
  {
    assert ([x] + xs)[1..] == xs;
  }

  /**
   * When no column name or field holds a line break, the export reads back
   * line by line: the header, then one line per object, with no trailing
   * newline; and each line splits back into its fields when none holds a comma.
   */
  lemma ConvertToCsvLines(data: seq<map<string, Json>>, columns: seq<string>, toStr: Json -> string)
    requires data != []
    requires forall i :: 0 <= i < |columns| ==> '\n' !in columns[i]
    requires forall k, i :: 0 <= k < |data| && 0 <= i < |columns| ==> '\n' !in Fields(data[k], columns, toStr)[i]
    ensures Split(ConvertToCsv(data, columns, toStr), '\n') == [Join(columns, ",")] + Lines(data, columns, toStr)
  {
    var lines := Lines(data, columns, toStr);
    JoinNoChar(columns, ",", '\n');
    forall k | 0 <= k < |lines| ensures '\n' !in lines[k] {
      JoinNoChar(Fields(data[k], columns, toStr), ",", '\n');
    }
    HeaderAndLines(Join(columns, ","), lines);
  }

  lemma HeaderAndLines(header: string, lines: seq<string>)
    requires lines != []
    requires '\n' !in header && forall k :: 0 <= k < |lines| ==> '\n' !in lines[k]
    ensures Split(header + "\n" + Join(lines, "\n"), '\n') == [header] + lines
  {
    JoinCons(header, lines, "\n");
    var parts := [header] + lines;
    assert forall i :: 0 <= i < |parts| ==> '\n' !in parts[i];
    SplitJoin(parts, '\n');
  }

  /** A line splits back into the per-column fields when no field holds a comma. */
  lemma CsvLineFields(row: map<string, Json>, columns: seq<string>, toStr: Json -> string)
    requires columns != []
    requires forall i :: 0 <= i < |columns| ==> ',' !in Fields(row, columns, toStr)[i]
    ensures Split(Join(Fields(row, columns, toStr), ","), ',') == Fields(row, columns, toStr)
  {
    SplitJoin(Fields(row, columns, toStr), ',');
  }

  /** Joining parts that lack a character, with a separator that lacks it, gives text without it. */
  lemma {:induction false} JoinNoChar(parts: seq<string>, sep: string, c: char)
    requires c !in sep
    requires forall i :: 0 <= i < |parts| ==> c !in parts[i]
    ensures c !in Join(parts, sep)
    decreases |parts|
  {
    if |parts| > 1 {
      JoinNoChar(parts[1..], sep, c);
    }
  }

  /** One chart point. */
  datatype Point = Point(x: Option<Json>, y: Option<Json>)

  /** `mapData(data, key)`: `None` when an element is `null` and the property access throws. */
  function MapData(data: seq<Json>, key: string): (r: Option<seq<Point>>)
    ensures r.Some? <==> JNull !in data
    ensures r.Some? ==> (|r.value| == |data|
      && forall i :: 0 <= i < |data| ==> r.value[i] == Point(Prop(data[i], "timestamp").value, Prop(data[i], key).value))
    decreases |data|
  {
    if data == [] then Some([])
    else if data[0].JNull? then None
    else
      var rest := MapData(data[1..], key);
      if rest.None? then None
      else Some([Point(Prop(data[0], "timestamp").value, Prop(data[0], key).value)] + rest.value)
  }

  /** Mapping a concatenation maps each part, in order. */
  lemma {:induction false} MapDataAppend(a: seq<Json>, b: seq<Json>, key: string)
    requires JNull !in a && JNull !in b
    ensures MapData(a + b, key) == Some(MapData(a, key).value + MapData(b, key).value)
  {
    var r := MapData(a + b, key);
    var l := MapData(a, key).value + MapData(b, key).value;
    assert JNull !in a + b;
    assert |r.value| == |l|;
    forall i | 0 <= i < |l| ensures r.value[i] == l[i] {
      if i < |a| {
        assert (a + b)[i] == a[i];
      } else {
        assert (a + b)[i] == b[i - |a|];
      }
    }
    assert r.value == l;
  }

  function Sum(ys: seq<real>): real
    decreases |ys|
  {
    if ys == [] then 0.0 else Sum(ys[..|ys| - 1]) + ys[|ys| - 1]
  }

  /** `calcAvg(arr)` for numeric `y` values; `toFixed1` is `toFixed(1)`. */
  function CalcAvg(ys: seq<real>, toFixed1: real -> string): (r: string)
    ensures ys == [] ==> r == "--"
    ensures ys != [] ==> r == toFixed1(Mean(ys))
  {
    if |ys| > 0 then toFixed1(Sum(ys) / |ys| as real) else "--"
  }

  function Mean(ys: seq<real>): real
    requires ys != []
  {
    Sum(ys) / |ys| as real
  }

  lemma {:induction false} SumBounds(ys: seq<real>, lo: real, hi: real)
    requires forall i :: 0 <= i < |ys| ==> lo <= ys[i] <= hi
    ensures |ys| as real * lo <= Sum(ys) <= |ys| as real * hi
    decreases |ys|
  {
    if ys != [] {
      SumBounds(ys[..|ys| - 1], lo, hi);
    }
  }

  /** The average lies between the smallest and the largest value. */
  lemma MeanBounds(ys: seq<real>, lo: real, hi: real)
    requires ys != []
    requires forall i :: 0 <= i < |ys| ==> lo <= ys[i] <= hi
    ensures lo <= Mean(ys) <= hi
  {
    SumBounds(ys, lo, hi);
    var n := |ys| as real;
    assert n * lo <= Sum(ys) <= n * hi;
    assert Mean(ys) * n == Sum(ys);
  }

  const ZoomStartKey: string := "sensorChartZoomStart"
  const ZoomEndKey: string := "sensorChartZoomEnd"

  /** The `ranges` table of `setupChartControls`, in milliseconds. */
  const Ranges: map<string, int> := map["1h" := 60 * 60 * 1000, "1d" := 24 * 60 * 60 * 1000, "1w" := 7 * 24 * 60 * 60 * 1000]

  lemma RangeValues()
    ensures Ranges == map["1h" := 3600000, "1d" := 86400000, "1w" := 604800000]
    ensures Ranges["1d"] == 24 * Ranges["1h"] && Ranges["1w"] == 7 * Ranges["1d"]
  {
  }

  /** `chart.options.scales.x.min`/`max`: unset, a time in ms, or `NaN` from `now - undefined`. */
  datatype Bound = Unset | At(ms: int) | NotANumber

  /** The chart's x-axis bounds and the page's `localStorage`. */
  class ChartControls {
    var xMin: Bound
    var xMax: Bound
    var storage: map<string, string>

    constructor (xMin: Bound, xMax: Bound, storage: map<string, string>)
      ensures this.xMin == xMin && this.xMax == xMax && this.storage == storage
    {
      this.xMin := xMin;
      this.xMax := xMax;
      this.storage := storage;
    }

    /** A click on a time-range button; `range` is its `data-range`, `now` is `Date.now()`. */
    method ClickRange(range: string, now: int)
      modifies this
      ensures range == "all" ==> xMin == Unset && xMax == Unset
      ensures range != "all" && range in Ranges ==> xMin == At(now - Ranges[range]) && xMax == At(now)
      ensures range != "all" && range !in Ranges ==> xMin == NotANumber && xMax == At(now)
      ensures storage == old(storage) - {ZoomStartKey, ZoomEndKey}
    {
      if range == "all" {
        xMin := Unset;
        xMax := Unset;
      } else {
        xMin := if range in Ranges then At(now - Ranges[range]) else NotANumber;
        xMax := At(now);
      }
      storage := storage - {ZoomStartKey};
      storage := storage - {ZoomEndKey};
    }

    /** The reset-zoom button: both bounds cleared and the saved zoom forgotten. */
    method ResetZoom()
      modifies this
      ensures xMin == Unset && xMax == Unset
      ensures storage == old(storage) - {ZoomStartKey, ZoomEndKey}
    {
      xMin := Unset;
      xMax := Unset;
      storage := storage - {ZoomStartKey};
      storage := storage - {ZoomEndKey};
    }
  }

  /**
   * After a range button the window ends at `now` and spans exactly that
   * range; the saved zoom is forgotten and every other stored key stays.
   */
  method RangeWindow(range: string, now: int, storage: map<string, string>)
    returns (width: int, end: int, kept: map<string, string>)
    requires range in Ranges
    ensures width == Ranges[range] && width > 0
    ensures end == now
    ensures ZoomStartKey !in kept && ZoomEndKey !in kept
    ensures forall k :: k in storage && k != ZoomStartKey && k != ZoomEndKey ==> k in kept && kept[k] == storage[k]
    ensures forall k :: k in kept ==> k in storage
  {
    var controls := new ChartControls(Unset, Unset, storage);
    controls.ClickRange(range, now);
    assert range != "all";
    width := controls.xMax.ms - controls.xMin.ms;
    end := controls.xMax.ms;
    kept := controls.storage;
  }

  datatype Datasets = Datasets(temp: seq<Point>, hum: seq<Point>, lux: seq<Point>, moist: seq<Point>)

  /** What the page ends up showing after the history fetch. */
  datatype View = NoDataAvailable | ErrorLoading | Render(latest: Json, datasets: Datasets)

  /** The list under `data` when it is a non-empty array; `None` when the guard trips. */
  function Payload(res: Json): Option<seq<Json>> {
    var status := Prop(res, "status");
    var data := Prop(res, "data");
    if status.Ok? && status.value == Some(JStr("ok")) && data.Ok? && data.value.Some? && data.value.value.JList?
       && data.value.value.items != []
    then Some(data.value.value.items) else None
  }

  /**
   * The second `initDashboard` after the fetch: `res` is the parsed body,
   * `None` when the fetch or the JSON parse rejects. A payload that passes the
   * guard renders unless one of its elements is `null`, where `mapData`
   * throws into the catch that shows "Error Loading Data".
   */
  function DashboardView(res: Option<Json>): (r: View)
    ensures res.None? || res == Some(JNull) ==> r == ErrorLoading
    ensures res.Some? && res.value != JNull ==> (r == NoDataAvailable <==> Payload(res.value).None?)
    ensures res.Some? && res.value != JNull && Payload(res.value).Some? ==>
      (r.Render? <==> JNull !in Payload(res.value).value)
    ensures r.Render? ==> (res.Some? && Payload(res.value).Some?
      && r.latest == Payload(res.value).value[|Payload(res.value).value| - 1]
      && r.datasets == Datasets(MapData(Payload(res.value).value, "temp_f").value,
                                MapData(Payload(res.value).value, "humidity").value,
                                MapData(Payload(res.value).value, "lux").value,
                                MapData(Payload(res.value).value, "moisture").value))
  {
    if res.None? || res.value.JNull? then ErrorLoading
    else match Payload(res.value)
      case None => NoDataAvailable
      case Some(data) =>
        var temp := MapData(data, "temp_f");
        var hum := MapData(data, "humidity");
        var lux := MapData(data, "lux");
        var moist := MapData(data, "moisture");
        if temp.None? || hum.None? || lux.None? || moist.None? then ErrorLoading
        else Render(data[|data| - 1], Datasets(temp.value, hum.value, lux.value, moist.value))
  }

  /** A history response carrying readings renders them, the latest card showing the last one. */
  lemma HistoryRenders(entries: seq<map<string, Json>>)
    requires entries != []
    ensures var items := seq(|entries|, i requires 0 <= i < |entries| => JObject(entries[i]));
      DashboardView(Some(JObject(map["status" := JStr("ok"), "data" := JList(items)]))) ==
        Render(JObject(entries[|entries| - 1]), Datasets(MapData(items, "temp_f").value, MapData(items, "humidity").value,
                                                         MapData(items, "lux").value, MapData(items, "moisture").value))
  {
    var items := seq(|entries|, i requires 0 <= i < |entries| => JObject(entries[i]));
    assert JNull !in items;
    var res := JObject(map["status" := JStr("ok"), "data" := JList(items)]);
    assert Payload(res) == Some(items);
  }
}
