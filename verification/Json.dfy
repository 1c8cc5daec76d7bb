/** JSON documents as Python's `json` and dict equality see them: object members are
    unordered and unique, so an object is a map. */
module JsonValues {
  datatype Json =
    | Null
    | Bool(b: bool)
    | Num(n: real)
    | Str(s: string)
    | Arr(items: seq<Json>)
    | Obj(fields: map<string, Json>)

  /** A Python dict with string keys. */
  type Blob = map<string, Json>

  /** `blob.get(key)` */
  function Get(blob: Blob, key: string): Json {
    if key in blob then blob[key] else Null
  }

  /** No `null` anywhere inside the document. */
  predicate NullFree(j: Json) {
    match j
    case Null => false
    case Arr(items) => forall x | x in items :: NullFree(x)
    case Obj(fields) => forall k | k in fields :: NullFree(fields[k])
    case _ => true
  }
}
