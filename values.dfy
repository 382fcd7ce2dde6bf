/**
 * Request values and the two conversions the endpoints apply to them: Python's float() and
 * int(). Parsing a string is left abstract: a parser is a partial function, None standing for
 * the ValueError the real parser raises.
 */
module Values {
  import opened Wrappers

  /** A field value of a JSON (or form) request body. */
  datatype Value =
    | Num(x: real)    // a JSON number, integral or not
    | Str(s: string)  // a JSON string; every form field is one
    | Other           // null, an array or an object: float() and int() raise TypeError on it

  /** A request body, and equally the one-row data frame built from it: column name to value. */
  type Row = map<string, Value>

  /** The string parsers behind float(s) and int(s). */
  datatype Parsers = Parsers(parseFloat: string -> Option<real>, parseInt: string -> Option<int>)

  /** The outcome of a conversion: a value, or the exception it raises. */
  datatype Conv<+T> = Converted(value: T) | ValueError | TypeError

  /** dict.get(key, default) */
  function Get(data: Row, key: string, default: Value): Value
  {
    if key in data then data[key] else default
  }

  /** int(x) on a float truncates toward zero. */
  function Trunc(x: real): (n: int)
    ensures 0.0 <= x ==> 0 <= n && n as real <= x < n as real + 1.0
    ensures x < 0.0 ==> n <= 0 && n as real - 1.0 < x <= n as real
  {
    if 0.0 <= x then x.Floor else -((-x).Floor)
  }

  /** float(v) */
  function ToFloat(v: Value, p: Parsers): (c: Conv<real>)
    ensures c.TypeError? <==> v.Other?
    ensures v.Num? ==> c == Converted(v.x)
    ensures c.ValueError? <==> v.Str? && p.parseFloat(v.s).None?
    ensures v.Str? && p.parseFloat(v.s).Some? ==> c == Converted(p.parseFloat(v.s).value)
  {
    match v
    case Num(x) => Converted(x)
    case Str(s) => if p.parseFloat(s).Some? then Converted(p.parseFloat(s).value) else ValueError
    case Other => TypeError
  }

  /** int(v) */
  function ToInt(v: Value, p: Parsers): (c: Conv<int>)
    ensures c.TypeError? <==> v.Other?
    ensures v.Num? ==> c == Converted(Trunc(v.x))
    ensures v.Num? ==> c.Converted? && c.value as real - 1.0 < v.x < c.value as real + 1.0
    ensures c.ValueError? <==> v.Str? && p.parseInt(v.s).None?
    ensures v.Str? && p.parseInt(v.s).Some? ==> c == Converted(p.parseInt(v.s).value)
  {
    match v
    case Num(x) => Converted(Trunc(x))
    case Str(s) => if p.parseInt(s).Some? then Converted(p.parseInt(s).value) else ValueError
    case Other => TypeError
  }
}
