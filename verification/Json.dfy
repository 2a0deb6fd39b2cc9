/** JSON values as the gateway handles them after `json.loads`. */
module Json {

  datatype Json =
    | Null
    | Bool(b: bool)
    | Num(n: real)
    | Str(s: string)
    | Arr(elems: seq<Json>)
    | Obj(fields: map<string, Json>)
  {
    // Python's truth value.
    predicate Truthy() {
      match this
      case Null => false
      case Bool(b) => b
      case Num(n) => n != 0.0
      case Str(s) => s != ""
      case Arr(elems) => elems != []
      case Obj(fields) => fields != map[]
    }

    // `value.get(key)` on an object, absent keys read as null.
    function Get(key: string): Json
      requires Obj?
    {
      if key in fields then fields[key] else Null
    }
  }
}
