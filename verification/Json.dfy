/** Decoded JSON values, shared by the stateful resources, the schema pipeline
    and the prompt renderer. Numbers are the reals a JSON decoder would yield
    without rounding. */
module Json {

  datatype Json =
    | Null
    | Bool(b: bool)
    | Num(n: real)
    | Str(s: string)
    | Arr(elems: seq<Json>)
    | Obj(fields: map<string, Json>)

  /** A decoded JSON object: Go's map[string]any. */
  type Object = j: Json | j.Obj? witness Obj(map[])

  /** A number without fractional part, which section 6.1.1 of JSON Schema
      Validation (draft 2020-12) counts as an integer. */
  predicate IsIntegral(r: real) {
    r.Floor as real == r
  }
}
