/**
 * The parts of the Python runtime the server code depends on: truthiness,
 * `float()`, `int()`, `str()` and the exceptions they raise. Parsing of
 * numeric text, `str()` of non-string values, `round()` and exception
 * texts are interpreter behaviour and enter through a `Runtime` value.
 */
module Python {
  import opened Wrappers
  import opened JsonValue

  /** A cell as Python sees it: the string, or `None` past the end of a short row. */
  function CellValue(c: Option<string>): Json {
    if c.Some? then JStr(c.value) else JNull
  }

  /** The exceptions the modelled code raises or catches. */
  datatype PyExc =
    | ValueError(msg: string)                   // raised by the server code with this text
    | ConvValueError(target: string, arg: Json) // `float(arg)`/`int(arg)` rejected the text
    | ConvTypeError(target: string, arg: Json)  // `float(arg)`/`int(arg)` on a non-number
    | ConvOverflowError(target: string, arg: Json) // `float(arg)` on an int too large for a double
    | OpTypeError(op: string, arg: Json)        // an operator applied to a value of the wrong type
    | KeyError(key: string)
    | AttributeError(name: string)
    | OSError(detail: string)
  {
    /** Caught by `except ValueError` (and by `except (ValueError, TypeError)`). */
    predicate IsValueError() { ValueError? || ConvValueError? }
    predicate IsTypeError() { ConvTypeError? || OpTypeError? }
  }

  /** Interpreter behaviour taken as given. */
  datatype Runtime = Runtime(
    parseFloat: string -> Option<real>,   // float(s) on a str; None when it raises ValueError
    parseInt: string -> Option<int>,      // int(s) on a str; None when it raises ValueError
    strOf: Json -> string,                // str(v) for a value that is not a str
    excText: PyExc -> string,             // str(e) for an exception the interpreter raised
    roundStr: (real, nat) -> string)      // str(round(x, n)), as the csv module writes it

  /**
   * The least magnitude `float()` refuses for an int: 2^1024 - 2^970, where
   * rounding to the nearest double (ties to even) reaches 2^1024.
   */
  const FloatIntLimit: int := 0xFFFF_FFFF_FFFF_FC00_0000_0000_0000_0000_0000_0000_0000_0000_0000_0000_0000_0000_0000_0000_0000_0000_0000_0000_0000_0000_0000_0000_0000_0000_0000_0000_0000_0000_0000_0000_0000_0000_0000_0000_0000_0000_0000_0000_0000_0000_0000_0000_0000_0000_0000_0000_0000_0000_0000_0000_0000_0000_0000_0000_0000_0000_0000_0000_0000_0000

  /** `float(i)` succeeds on an int: it rounds to a finite double. */
  predicate FitsDouble(i: int) {
    -FloatIntLimit < i < FloatIntLimit
  }

  /** `bool(v)`. */
  predicate Truthy(v: Json) {
    match v
    case JNull => false
    case JBool(b) => b
    case JInt(i) => i != 0
    case JFloat(f) => f != 0.0
    case JStr(s) => s != ""
    case JList(xs) => xs != []
    case JObject(m) => m != map[]
  }

  /**
   * `float(v)`. An int converts exactly (double rounding is not modelled)
   * unless it is too large for a double, which raises `OverflowError`.
   */
  function ToFloat(rt: Runtime, v: Json): (r: Result<real, PyExc>)
    ensures r.Err? ==> r.error.IsValueError() || r.error.IsTypeError() || r.error.ConvOverflowError?
    ensures r.Err? && r.error.IsTypeError() <==> v.JNull? || v.JList? || v.JObject?
    ensures r.Err? && r.error.ConvOverflowError? <==> v.JInt? && !FitsDouble(v.i)
    ensures v.JInt? && FitsDouble(v.i) ==> r == Ok(v.i as real)
    ensures v.JFloat? ==> r == Ok(v.f)
  {
    match v
    case JBool(b) => Ok(if b then 1.0 else 0.0)
    case JInt(i) => if FitsDouble(i) then Ok(i as real) else Err(ConvOverflowError("float", v))
    case JFloat(f) => Ok(f)
    case JStr(s) =>
      (match rt.parseFloat(s)
       case Some(x) => Ok(x)
       case None => Err(ConvValueError("float", v)))
    case _ => Err(ConvTypeError("float", v))
  }

  /** `int(x)` on a float truncates toward zero. */
  function Trunc(x: real): (n: int)
    ensures x >= 0.0 ==> n == x.Floor
    ensures -1.0 < x < 1.0 ==> n == 0
    ensures x >= 0.0 ==> (n as real) <= x < (n as real) + 1.0
    ensures x < 0.0 ==> (n as real) - 1.0 < x <= n as real
  {
    if x >= 0.0 then x.Floor else -((-x).Floor)
  }

  /** Truncation is symmetric about zero, so `int(-x)` is `-int(x)`; `int(-2.5)` is -2. */
  lemma TruncOdd(x: real)
    ensures Trunc(-x) == -Trunc(x)
    ensures Trunc(-2.5) == -2
  {
    if x < 0.0 {
      assert Trunc(x) == -((-x).Floor);
    } else if x > 0.0 {
      assert Trunc(-x) == -(x.Floor);
    }
  }

  /** `int(v)`. */
  function ToInt(rt: Runtime, v: Json): (r: Result<int, PyExc>)
    ensures r.Err? ==> r.error.IsValueError() || r.error.IsTypeError()
    ensures r.Err? && r.error.IsTypeError() <==> v.JNull? || v.JList? || v.JObject?
    ensures v.JInt? ==> r == Ok(v.i)
  {
    match v
    case JBool(b) => Ok(if b then 1 else 0)
    case JInt(i) => Ok(i)
    case JFloat(f) => Ok(Trunc(f))
    case JStr(s) =>
      (match rt.parseInt(s)
       case Some(n) => Ok(n)
       case None => Err(ConvValueError("int", v)))
    case _ => Err(ConvTypeError("int", v))
  }

  /** `str(v)`: a string is itself. */
  function Str(rt: Runtime, v: Json): string {
    if v.JStr? then v.s else rt.strOf(v)
  }

  /** `d[key]` with a string key: only a dict can be indexed by one. */
  function Subscript(container: Json, key: string): (r: Result<Json, PyExc>)
    ensures r.Ok? <==> container.JObject? && key in container.fields
    ensures r.Ok? ==> r.value == container.fields[key]
    ensures container.JObject? && r.Err? ==> r.error == KeyError(key)
    ensures !container.JObject? ==> r.Err? && r.error.IsTypeError()
  {
    match container
    case JObject(f) => if key in f then Ok(f[key]) else Err(KeyError(key))
    case _ => Err(OpTypeError("[]", container))
  }

  /** `str(e)`: the server's own `ValueError`s carry exactly their text. */
  function ExcStr(rt: Runtime, e: PyExc): string {
    if e.ValueError? then e.msg else rt.excText(e)
  }
}
