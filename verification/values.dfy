/** The dynamically typed values the pipeline passes around: decoded JSON,
    Python dicts of column values, and the `datetime` objects the transformer
    produces. */
module Values {
  import opened Timestamps

  datatype Value =
    | Null                             // None / JSON null
    | Bool(b: bool)
    | Int(i: int)
    | Str(s: string)
    | List(items: seq<Value>)
    | Object(fields: map<string, Value>)  // a dict with string keys
    | Time(t: DateTime)                // an aware datetime in UTC

  /** Python truthiness (`bool(v)`): None, False, 0 and empty containers are
      false; a datetime is always true. */
  predicate Truthy(v: Value) {
    match v
    case Null => false
    case Bool(b) => b
    case Int(i) => i != 0
    case Str(s) => s != []
    case List(items) => items != []
    case Object(fields) => fields != map[]
    case Time(_) => true
  }

  /** `d.get(key)`: the value under `key`, or None when the key is absent. */
  function Get(d: map<string, Value>, key: string): Value {
    if key in d then d[key] else Null
  }

  /** `d.get(key, default)`. */
  function GetOr(d: map<string, Value>, key: string, default: Value): Value {
    if key in d then d[key] else default
  }

  /** The dict mapping each key to the value at the same position (the key lists used are distinct). */
  function ZipMap(keys: seq<string>, values: seq<Value>): map<string, Value>
    requires |keys| == |values|
  {
    if keys == [] then map[] else ZipMap(keys[1..], values[1..])[keys[0] := values[0]]
  }
}
