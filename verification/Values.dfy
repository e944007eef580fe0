/** The dynamically typed values that policy conditions and request attributes carry. */
module Values {

  /** The numeric Go types that comparisons convert to a float. */
  datatype NumKind = Float64 | Float32 | Int | Int64 | Int32 | Uint | Uint64

  datatype Value =
    | Null
    | Num(kind: NumKind, n: real)
    | Str(s: string)
    | Bool(b: bool)
    | List(items: seq<Value>)
    | Object(fields: map<string, Value>)
}
