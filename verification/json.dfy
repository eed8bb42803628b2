/** JSON values as `json.load` returns them, and Python's `str`, `int` and `float` on them. */
module Json {
  import opened Wrappers
  import Text

  datatype Value =
    | Null
    | Bool(b: bool)
    | Int(i: int)
    | Real(r: real)
    | Str(s: string)
    | Arr(items: seq<Value>)
    | Obj(fields: map<string, Value>)

  /** A JSON object whose field order does not matter to the scripts. */
  type Record = map<string, Value>

  /**
   * Python's `str(v)`. Strings, integers, booleans and `None` are spelled out;
   * floats, lists and dicts go through `repr`, which stands for Python's own rendering.
   */
  function PyStr(v: Value, repr: Value -> string): (r: string)
    ensures v.Str? ==> r == v.s
    ensures v.Int? ==> r == Text.IntToString(v.i)
  {
    match v
    case Null => "None"
    case Bool(b) => if b then "True" else "False"
    case Int(i) => Text.IntToString(i)
    case Str(s) => s
    case _ => repr(v)
  }

  /** Python's `int(x)` on a float: truncation toward zero. */
  function Truncate(x: real): (n: int)
    ensures x >= 0.0 ==> 0.0 <= n as real <= x < n as real + 1.0
    ensures x < 0.0 ==> n as real - 1.0 < x <= n as real <= 0.0
  {
    if x >= 0.0 then x.Floor else -((-x).Floor)
  }

  /**
   * Python's `int(v)`; `None` where it raises. `parse` stands for `int` on a string
   * (whitespace, sign, digits and underscores).
   */
  function ToInt(v: Value, parse: string -> Option<int>): (r: Option<int>)
    ensures v.Int? ==> r == Some(v.i)
    ensures v.Null? || v.Arr? || v.Obj? ==> r == None
  {
    match v
    case Int(i) => Some(i)
    case Bool(b) => Some(if b then 1 else 0)
    case Real(x) => Some(Truncate(x))
    case Str(s) => parse(s)
    case _ => None
  }

  /** Python's `float(v)`; `None` where it raises. `parse` stands for `float` on a string. */
  function ToFloat(v: Value, parse: string -> Option<real>): (r: Option<real>)
    ensures v.Real? ==> r == Some(v.r)
    ensures v.Null? || v.Arr? || v.Obj? ==> r == None
  {
    match v
    case Int(i) => Some(i as real)
    case Bool(b) => Some(if b then 1.0 else 0.0)
    case Real(x) => Some(x)
    case Str(s) => parse(s)
    case _ => None
  }
}
