/** JSON values as the services handle them: records are plain objects keyed by property name. */
module Json {

  datatype Value =
    | Null
    | Bool(b: bool)
    | Num(n: real)
    | Str(s: string)
    | Arr(elems: seq<Value>)
    | Obj(fields: map<string, Value>)

  /** A plain JavaScript object. `{ ...a, ...b }` is `a + b` (the right operand wins on shared
      keys), `delete o.k` is `o - {k}`, and `o.k = v` is `o[k := v]`. */
  type Record = map<string, Value>
}
