/** Decoded JSON values as the program sees them after `resp.json()`, and the
    Python operations it applies to them: truthiness, `dict.get`, `a or b`,
    `float(v)`, `key in v` and `v > 0`. */
module Json {
  import opened Wrappers
  import PyText

  datatype Value =
    | Null
    | Bool(b: bool)
    | Num(r: real)
    | Str(s: string)
    | Arr(items: seq<Value>)
    | Obj(fields: map<string, Value>)

  /** Python's `bool(v)`: `None`, `False`, zero, and empty strings, lists
      and dicts are false; everything else is true. */
  predicate Truthy(v: Value) {
    match v
    case Null => false
    case Bool(b) => b
    case Num(r) => r != 0.0
    case Str(s) => s != ""
    case Arr(items) => items != []
    case Obj(fields) => fields != map[]
  }

  /** `m.get(k)`: JSON null stands for Python's `None` when the key is absent. */
  function Get(m: map<string, Value>, k: string): Value {
    if k in m then m[k] else Null
  }

  /** `m.get(k, default)`. */
  function GetOr(m: map<string, Value>, k: string, default: Value): Value {
    if k in m then m[k] else default
  }

  /** Python's `a or b`: the first operand when it is true, else the second. */
  function Or(a: Value, b: Value): Value {
    if Truthy(a) then a else b
  }

  /** `float(v)` for a value that is not `None`: numbers convert to
      themselves, `True`/`False` to 1 and 0, strings by `parse` (Python's
      string-to-float conversion, a parameter of the model); lists, dicts
      and `None` raise `TypeError`, shown as `None`. */
  function PyFloat(v: Value, parse: string -> Option<real>): Option<real> {
    match v
    case Num(r) => Some(r)
    case Bool(b) => Some(if b then 1.0 else 0.0)
    case Str(s) => parse(s)
    case _ => None
  }

  /** Python's `key in v` for a string key: a dict tests its keys, a list its
      elements, a string its substrings; on a number, a boolean or `None` the
      test raises `TypeError`, shown as `None`. */
  function Contains(v: Value, key: string): Option<bool> {
    match v
    case Obj(fields) => Some(key in fields)
    case Arr(items) => Some(Str(key) in items)
    case Str(s) => Some(PyText.Occurs(key, s))
    case _ => None
  }

  /** Python's `v > 0`. Only numbers and booleans compare with an int;
      anything else raises `TypeError`, shown as `None`. */
  function GreaterThanZero(v: Value): Option<bool> {
    match v
    case Num(r) => Some(r > 0.0)
    case Bool(b) => Some(b)
    case _ => None
  }
}
