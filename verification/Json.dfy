/** Parsed JSON values as Python's json module gives them. */
module Json {
  datatype Value =
    | Null
    | Bool(b: bool)
    | Int(n: int)
    | Float(x: real)
    | Str(s: string)
    | List(items: seq<Value>)
    | Obj(fields: map<string, Value>)

  // Python's dict.get without a default: a missing key reads like an explicit null.
  function Get(fields: map<string, Value>, key: string): Value {
    if key in fields then fields[key] else Null
  }

  // Python's == 0: false and 0.0 equal the integer.
  predicate EqualsZero(v: Value) {
    v == Int(0) || v == Bool(false) || (v.Float? && v.x == 0.0)
  }
}
