/**
  The dynamically typed value the session stores (`serde_json::Value`), as an
  explicit tagged union, together with the two probing accessors the path
  resolver uses: `Value::get` with a `usize` and `Value::get` with a `&str`.
  Numbers are integers here; floating-point numbers are not modelled.
 */
module SerdeJson {
  import opened Wrappers

  datatype Value =
    | Null
    | Bool(b: bool)
    | Num(n: int)
    | Str(s: string)
    | Arr(items: seq<Value>)
    | Obj(fields: map<string, Value>)

  /** A value that is neither an array nor an object. */
  predicate IsScalar(v: Value) {
    !v.Arr? && !v.Obj?
  }

  /** `value.get(index)`: only an array has positions; anything else yields nothing. */
  function AtIndex(v: Value, i: nat): Option<Value> {
    match v
    case Arr(items) => if i < |items| then Some(items[i]) else None
    case _ => None
  }

  /** `value.get(key)`: only an object has keys; anything else yields nothing. */
  function AtKey(v: Value, key: string): Option<Value> {
    match v
    case Obj(fields) => if key in fields then Some(fields[key]) else None
    case _ => None
  }
}
