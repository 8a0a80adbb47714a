/**
 * Fixed-width integers of the ESP32 firmware and the two Arduino core helpers
 * it relies on, `map()` and `constrain()`.
 */
module MachineInt {

  const TWO_32: int := 0x1_0000_0000

  type uint8 = x: int | 0 <= x < 256
  type uint32 = x: int | 0 <= x < 0x1_0000_0000
  type int32 = x: int | -0x8000_0000 <= x < 0x8000_0000
  /** RSSI as the ESP-IDF scan record stores it (`int8_t`). */
  type int8 = x: int | -128 <= x < 128
  /** A 12-bit ADC reading, as `analogRead` returns it. */
  type Adc12 = x: int | 0 <= x < 4096

  /** Unsigned 32-bit wrap-around of an exact result. */
  function Wrap32(x: int): (r: uint32)
    ensures 0 <= x < TWO_32 ==> r == x
    ensures (r - x) % TWO_32 == 0
  {
    x % TWO_32
  }

  /** Signed 32-bit two's-complement wrap-around, as the ESP32 compiler produces it for `int`. */
  function WrapI32(x: int): (r: int32)
    ensures -0x8000_0000 <= x < 0x8000_0000 ==> r == x
    ensures (r - x) % TWO_32 == 0
  {
    (x + 0x8000_0000) % TWO_32 - 0x8000_0000
  }

  /**
   * C's integer division, which truncates toward zero (Dafny's `/` is
   * Euclidean): the quotient has the sign of `a`, and the remainder
   * `a - q * b` has the sign of `a` and is smaller than `b` in magnitude.
   */
  function CDiv(a: int, b: int): (q: int)
    requires b > 0
    ensures a >= 0 ==> q >= 0 && 0 <= a - q * b < b
    ensures a < 0 ==> q <= 0 && -b < a - q * b <= 0
  {
    if a >= 0 then a / b else -((-a) / b)
  }

  lemma {:induction false} CDivMonotone(a: int, a': int, b: int)
    requires b > 0 && a <= a'
    ensures CDiv(a, b) <= CDiv(a', b)
  {
    if a >= 0 {
      DivMonotone(a, a', b);
    } else if a' >= 0 {
      DivMonotone(0, -a, b);
      DivMonotone(0, a', b);
    } else {
      DivMonotone(-a', -a, b);
    }
  }

  lemma {:induction false} DivMonotone(a: int, a': int, b: int)
    requires b > 0 && 0 <= a <= a'
    ensures 0 <= a / b <= a' / b
  {
    var q, q' := a / b, a' / b;
    assert a == b * q + a % b && 0 <= a % b < b;
    assert a' == b * q' + a' % b && 0 <= a' % b < b;
    if q' < q {
      MulLe(q' + 1, q, b);
      assert false;
    }
    if q < 0 {
      MulLe(q, -1, b);
      assert false;
    }
  }

  lemma {:induction false} MulLe(x: int, y: int, b: int)
    requires x <= y && b > 0
    ensures b * x <= b * y
  {
    assert b * y - b * x == b * (y - x);
  }

  /**
   * Arduino `map(x, in_min, in_max, out_min, out_max)`: the linear rescaling
   * `(x - in_min) * (out_max - out_min) / (in_max - in_min) + out_min`
   * on `long`, with C's truncating division.
   */
  function ArduinoMap(x: int, inMin: int, inMax: int, outMin: int, outMax: int): int
    requires inMin < inMax
  {
    CDiv((x - inMin) * (outMax - outMin), inMax - inMin) + outMin
  }

  /** Arduino `constrain(x, lo, hi)`. */
  function Constrain(x: int, lo: int, hi: int): (r: int)
    requires lo <= hi
    ensures lo <= r <= hi
    ensures lo <= x <= hi ==> r == x
    ensures x < lo ==> r == lo
    ensures x > hi ==> r == hi
  {
    if x < lo then lo else if x > hi then hi else x
  }

  /** `map` is non-decreasing in `x` when the output range is non-decreasing. */
  lemma {:induction false} ArduinoMapMonotone(x: int, x': int, inMin: int, inMax: int, outMin: int, outMax: int)
    requires inMin < inMax && outMin <= outMax && x <= x'
    ensures ArduinoMap(x, inMin, inMax, outMin, outMax) <= ArduinoMap(x', inMin, inMax, outMin, outMax)
  {
    var k := outMax - outMin;
    MulLeRight(x - inMin, x' - inMin, k);
    CDivMonotone((x - inMin) * k, (x' - inMin) * k, inMax - inMin);
  }

  lemma {:induction false} MulLeRight(x: int, y: int, k: int)
    requires x <= y && k >= 0
    ensures x * k <= y * k
  {
    assert y * k - x * k == (y - x) * k;
  }

  /** `map` sends the ends of the input range to the ends of the output range. */
  lemma {:induction false} ArduinoMapEnds(inMin: int, inMax: int, outMin: int, outMax: int)
    requires inMin < inMax
    ensures ArduinoMap(inMin, inMin, inMax, outMin, outMax) == outMin
    ensures ArduinoMap(inMax, inMin, inMax, outMin, outMax) == outMax
  {
    var d := inMax - inMin;
    var k := outMax - outMin;
    assert (inMin - inMin) * k == 0;
    if k >= 0 {
      MulDivCancel(k, d);
    } else {
      MulDivCancel(-k, d);
      assert d * k == -(d * -k);
    }
  }

  lemma {:induction false} MulDivCancel(k: int, d: int)
    requires d > 0 && k >= 0
    ensures (d * k) / d == k
  {
    var q, r := (d * k) / d, (d * k) % d;
    assert d * k == d * q + r && 0 <= r < d;
    if q < k {
      MulLe(q + 1, k, d);
      assert false;
    } else if q > k {
      MulLe(k + 1, q, d);
      assert false;
    }
  }
}
