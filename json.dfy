/** The values `json.loads` produces, and the Python operations the modelled code applies to them. */
module Json {

  /**
   * A decoded JSON value. Numbers are integers only; JSON floats are not modelled.
   * An object's key order is irrelevant to every use made of objects here.
   */
  datatype Json =
    | Null
    | Bool(b: bool)
    | Num(n: int)
    | Str(s: string)
    | Arr(items: seq<Json>)
    | Obj(fields: map<string, Json>)

  /** Python truthiness: `None`, `False`, `0`, `""`, `[]` and `{}` are false. */
  predicate Truthy(v: Json) {
    match v
    case Null => false
    case Bool(b) => b
    case Num(n) => n != 0
    case Str(s) => s != []
    case Arr(items) => items != []
    case Obj(fields) => fields != map[]
  }

  /** `d.get(k)`. */
  function Field(d: map<string, Json>, k: string): Json {
    if k in d then d[k] else Null
  }

  /** `d.get(k, default)`. */
  function FieldOr(d: map<string, Json>, k: string, default: Json): Json {
    if k in d then d[k] else default
  }
}
