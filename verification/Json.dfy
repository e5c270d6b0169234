/** Decoded JSON values, as Python and JavaScript see them. */
module Json {
  import opened Text

  datatype Json =
    | Null
    | Bool(on: bool)
    | Int(n: int)
    | Float(x: real)
    | Str(s: string)
    | Arr(items: seq<Json>)
    | Dict(fields: Object)

  type Object = map<string, Json>

  /** `o.get(key)`, and a property read; a missing key gives nothing. */
  function Get(o: Object, key: string): Json {
    if key in o then o[key] else Null
  }

  /** Python's truth value. */
  predicate Truthy(v: Json): (t: bool)
    ensures !t <==> v in [Null, Bool(false), Int(0), Float(0.0), Str(""), Arr([]), Dict(map[])]
  {
    match v
    case Null => false
    case Bool(on) => on
    case Int(n) => n != 0
    case Float(x) => x != 0.0
    case Str(s) => s != ""
    case Arr(items) => items != []
    case Dict(fields) => fields != map[]
  }

  /** The value as a Python `int`; a bool is one. */
  function AsInt(v: Json): (n: Option<int>)
    ensures v.Int? ==> n == Some(v.n)
    ensures v == Bool(true) ==> n == Some(1)
    ensures v == Bool(false) ==> n == Some(0)
    ensures !v.Int? && !v.Bool? ==> n == None
  {
    match v
    case Int(n) => Some(n)
    case Bool(on) => Some(if on then 1 else 0)
    case _ => None
  }

  /** The fields of an object, none for anything else. */
  function Fields(v: Json): Object {
    if v.Dict? then v.fields else map[]
  }
}
