/**
 * `esp32-firmware/deep-sleep.cpp`, the older deep-sleep sketch: its
 * piecewise soil-moisture scale, its WiFi join in priority order and its
 * boot counter.
 */
module DeepSleep {
  import opened Wrappers
  import opened MachineInt

  // ---------------------------------------------------------------------
  // readMoisturePercent()

  /** The curve before `constrain`: five `map` segments, then a flat 125 above 3278. */
  function Curve(raw: int): int
    requires raw >= 0
  {
    if raw <= 1000 then ArduinoMap(raw, 0, 1000, 0, 20)
    else if raw <= 2000 then ArduinoMap(raw, 1000, 2000, 20, 50)
    else if raw <= 2600 then ArduinoMap(raw, 2000, 2600, 50, 85)
    else if raw <= 3000 then ArduinoMap(raw, 2600, 3000, 85, 100)
    else if raw <= 3278 then ArduinoMap(raw, 3000, 3278, 100, 120)
    else 125
  }

  /** `round(constrain(percent, 0, 125))`; `percent` already holds an integer, so the rounding keeps it. */
  function MoisturePercent(raw: Adc12): (p: int)
    ensures 0 <= p <= 125
  {
    Constrain(Curve(raw), 0, 125)
  }

  /** The segment a raw value falls in, 0 to 5. */
  function Segment(raw: int): nat {
    if raw <= 1000 then 0
    else if raw <= 2000 then 1
    else if raw <= 2600 then 2
    else if raw <= 3000 then 3
    else if raw <= 3278 then 4
    else 5
  }

  /** The percentage at each breakpoint, and the flat top. */
  const Levels: seq<int> := [0, 20, 50, 85, 100, 120, 125]

  /** One `map` segment stays between its end values. */
  lemma PieceRange(raw: int, a: int, b: int, lo: int, hi: int)
    requires a <= raw <= b && a < b && lo <= hi
    ensures lo <= ArduinoMap(raw, a, b, lo, hi) <= hi
  {
    ArduinoMapMonotone(a, raw, a, b, lo, hi);
    ArduinoMapMonotone(raw, b, a, b, lo, hi);
    ArduinoMapEnds(a, b, lo, hi);
  }

  /** Each segment lies between the levels at its two ends. */
  lemma {:induction false} CurveBetween(raw: int)
    requires raw >= 0
    ensures Segment(raw) < 6
    ensures Levels[Segment(raw)] <= Curve(raw) <= Levels[Segment(raw) + 1]
  {
    if raw <= 1000 {
      PieceRange(raw, 0, 1000, 0, 20);
    } else if raw <= 2000 {
      PieceRange(raw, 1000, 2000, 20, 50);
    } else if raw <= 2600 {
      PieceRange(raw, 2000, 2600, 50, 85);
    } else if raw <= 3000 {
      PieceRange(raw, 2600, 3000, 85, 100);
    } else if raw <= 3278 {
      PieceRange(raw, 3000, 3278, 100, 120);
    }
  }

  /** The raw curve never leaves 0..125, so the `constrain` never binds. */
  lemma CurveInRange(raw: Adc12)
    ensures MoisturePercent(raw) == Curve(raw)
  {
    CurveBetween(raw);
  }

  /** A probe above 3278 reads 125. */
  lemma SaturatedTop(raw: Adc12)
    requires raw > 3278
    ensures MoisturePercent(raw) == 125
  {
  }

  /** The breakpoints: 1000 gives 20, 2000 gives 50, 2600 gives 85, 3000 gives 100 and 3278 gives 120. */
  lemma Breakpoints()
    ensures MoisturePercent(0) == 0 && MoisturePercent(1000) == 20 && MoisturePercent(2000) == 50
    ensures MoisturePercent(2600) == 85 && MoisturePercent(3000) == 100 && MoisturePercent(3278) == 120
  {
    CurveInRange(0);
    CurveInRange(1000);
    CurveInRange(2000);
    CurveInRange(2600);
    CurveInRange(3000);
    CurveInRange(3278);
    ArduinoMapEnds(0, 1000, 0, 20);
    ArduinoMapEnds(1000, 2000, 20, 50);
    ArduinoMapEnds(2000, 2600, 50, 85);
    ArduinoMapEnds(2600, 3000, 85, 100);
    ArduinoMapEnds(3000, 3278, 100, 120);
  }

  /** Within one segment the curve is non-decreasing. */
  lemma SameSegmentMonotone(raw: int, raw': int)
    requires 0 <= raw <= raw' && Segment(raw) == Segment(raw')
    ensures Curve(raw) <= Curve(raw')
  {
    if raw' <= 1000 {
      ArduinoMapMonotone(raw, raw', 0, 1000, 0, 20);
    } else if raw' <= 2000 {
      ArduinoMapMonotone(raw, raw', 1000, 2000, 20, 50);
    } else if raw' <= 2600 {
      ArduinoMapMonotone(raw, raw', 2000, 2600, 50, 85);
    } else if raw' <= 3000 {
      ArduinoMapMonotone(raw, raw', 2600, 3000, 85, 100);
    } else if raw' <= 3278 {
      ArduinoMapMonotone(raw, raw', 3000, 3278, 100, 120);
    }
  }

  /** The segments meet at the breakpoints, so a higher raw value never reads lower. */
  lemma MoistureMonotone(raw: Adc12, raw': Adc12)
    requires raw <= raw'
    ensures MoisturePercent(raw) <= MoisturePercent(raw')
  {
    CurveInRange(raw);
    CurveInRange(raw');
    if Segment(raw) == Segment(raw') {
      SameSegmentMonotone(raw, raw');
    } else {
      CurveBetween(raw);
      CurveBetween(raw');
      assert Segment(raw) + 1 <= Segment(raw');
      assert Levels[Segment(raw) + 1] <= Levels[Segment(raw')];
    }
  }

  // ---------------------------------------------------------------------
  // connectWiFi()

  /** One `WiFi.begin` on known network `network`, for scan entry `entry`. */
  datatype Attempt = Attempt(network: int, entry: int)

  /** The loops' visiting order: networks in list order, scan entries within each. */
  predicate Earlier(a: Attempt, b: Attempt) {
    a.network < b.network || (a.network == b.network && a.entry < b.entry)
  }

  /** Scan entry `a.entry` carries known network `a.network`, so the loops call `WiFi.begin` for it. */
  predicate Tried(known: seq<string>, scan: seq<string>, a: Attempt) {
    0 <= a.network < |known| && 0 <= a.entry < |scan| && scan[a.entry] == known[a.network]
  }

  /** The attempt is made and the join succeeds; `joins` is the radio's outcome for each attempt. */
  predicate Succeeds(known: seq<string>, scan: seq<string>, joins: Attempt -> bool, a: Attempt) {
    Tried(known, scan, a) && joins(a)
  }

  /** No attempt visited before `a` succeeds. */
  predicate NoneSucceedsBefore(known: seq<string>, scan: seq<string>, joins: Attempt -> bool, a: Attempt) {
    forall n, e :: 0 <= n < |known| && 0 <= e < |scan| && Earlier(Attempt(n, e), a) ==>
      !Succeeds(known, scan, joins, Attempt(n, e))
  }

  /**
   * The nested loops: the first attempt in priority order whose join
   * succeeds, or `None` when none does. A scan that fails (a negative
   * count) is an empty `scan` here, as the loops then never run.
   */
  method JoinInPriorityOrder(known: seq<string>, scan: seq<string>, joins: Attempt -> bool)
    returns (joined: Option<Attempt>)
    ensures joined.Some? ==>
      (Succeeds(known, scan, joins, joined.value) && NoneSucceedsBefore(known, scan, joins, joined.value))
    ensures joined.None? <==> NoneSucceedsBefore(known, scan, joins, Attempt(|known|, 0))
  {
    var i := 0;
    while i < |known|
      invariant 0 <= i <= |known|
      invariant NoneSucceedsBefore(known, scan, joins, Attempt(i, 0))
    {
      var j := 0;
      while j < |scan|
        invariant 0 <= j <= |scan|
        invariant NoneSucceedsBefore(known, scan, joins, Attempt(i, j))
      {
        if scan[j] == known[i] {
          if joins(Attempt(i, j)) {
            return Some(Attempt(i, j));
          }
        }
        j := j + 1;
      }
      i := i + 1;
    }
    return None;
  }

  /** A successful join on a higher-priority network is never passed over for a lower one. */
  lemma PriorityWins(known: seq<string>, scan: seq<string>, joins: Attempt -> bool, a: Attempt, b: Attempt)
    requires Succeeds(known, scan, joins, a) && NoneSucceedsBefore(known, scan, joins, a)
    requires Succeeds(known, scan, joins, b)
    ensures a.network <= b.network
  {
    if b.network < a.network {
      assert Earlier(b, a);
    }
  }

  /** `connectWiFi()`: whether the device ends up connected. */
  method ConnectWiFi(known: seq<string>, scan: seq<string>, joins: Attempt -> bool) returns (connected: bool)
    ensures connected <==> exists n, e :: 0 <= n < |known| && 0 <= e < |scan| && Succeeds(known, scan, joins, Attempt(n, e))
  {
    var joined := JoinInPriorityOrder(known, scan, joins);
    connected := joined.Some?;
    if joined.Some? {
      assert Succeeds(known, scan, joins, Attempt(joined.value.network, joined.value.entry));
    }
  }

  // ---------------------------------------------------------------------
  // bootCount

  /** The `RTC_DATA_ATTR` boot counter of this sketch. */
  class BootCounter {
    var bootCount: int32

    constructor ()
      ensures bootCount == 0
    {
      bootCount := 0;
    }

    /** `++bootCount` at the top of `setup()`. */
    method Boot()
      modifies this
      ensures bootCount == WrapI32(old(bootCount) + 1)
      ensures old(bootCount) < 0x7FFF_FFFF ==> bootCount == old(bootCount) + 1
    {
      bootCount := WrapI32(bootCount + 1);
    }
  }
}
