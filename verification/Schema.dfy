/** Validity of a JSON value against a schema, for the keywords the generators
    support: sections 6.1.1 (type), 6.1.2 (enum), 6.1.3 (const), 6.2.2 (maximum),
    6.2.4 (minimum), 6.4.1 (maxItems), 6.4.2 (minItems) and 6.5.3 (required) of
    JSON Schema Validation and sections 10.3.1.2 (items) and 10.3.2.1
    (properties) of JSON Schema Core, both draft 2020-12. */
module Schema {
  import opened Json

  type Keywords = map<string, Json>

  const TYPE_NAMES: set<string> := {"null", "boolean", "object", "array", "number", "string", "integer"}

  const KEYWORDS: set<string> :=
    {"type", "properties", "required", "items", "enum", "const", "minItems", "maxItems", "minimum", "maximum"}

  predicate HasType(name: string, v: Json) {
    match name
    case "null" => v.Null?
    case "boolean" => v.Bool?
    case "object" => v.Obj?
    case "array" => v.Arr?
    case "number" => v.Num?
    case "string" => v.Str?
    case "integer" => v.Num? && IsIntegral(v.n)
    case _ => false
  }

  predicate TypeAllows(t: Json, v: Json) {
    match t
    case Str(name) => HasType(name, v)
    case Arr(names) => exists i :: 0 <= i < |names| && names[i].Str? && HasType(names[i].s, v)
    case _ => false
  }

  /** The keywords that look at the value as a whole. */
  predicate ValidShallow(kw: Keywords, v: Json) {
    && ("type" in kw ==> TypeAllows(kw["type"], v))
    && ("enum" in kw ==> kw["enum"].Arr? && v in kw["enum"].elems)
    && ("const" in kw ==> v == kw["const"])
    && ("minimum" in kw && kw["minimum"].Num? && v.Num? ==> kw["minimum"].n <= v.n)
    && ("maximum" in kw && kw["maximum"].Num? && v.Num? ==> v.n <= kw["maximum"].n)
    && ("minItems" in kw && kw["minItems"].Num? && v.Arr? ==> kw["minItems"].n <= |v.elems| as real)
    && ("maxItems" in kw && kw["maxItems"].Num? && v.Arr? ==> |v.elems| as real <= kw["maxItems"].n)
    && ("required" in kw && kw["required"].Arr? && v.Obj? ==>
          forall name :: name in kw["required"].elems && name.Str? ==> name.s in v.fields)
  }

  /** v is valid against schema. */
  predicate Valid(schema: Json, v: Json)
    decreases schema
  {
    match schema
    case Bool(b) => b
    case Obj(kw) =>
      && ValidShallow(kw, v)
      && ("properties" in kw && kw["properties"].Obj? && v.Obj? ==>
            forall k :: k in kw["properties"].fields && k in v.fields ==>
              Valid(kw["properties"].fields[k], v.fields[k]))
      && ("items" in kw && v.Arr? ==>
            forall i :: 0 <= i < |v.elems| ==> Valid(kw["items"], v.elems[i]))
    case _ => false
  }

  predicate IsCount(j: Json) {
    j.Num? && IsIntegral(j.n) && j.n >= 0.0
  }

  predicate IsTypeName(j: Json) {
    j.Str? && j.s in TYPE_NAMES
  }

  /** schema uses only the supported keywords, each with the shape its section
      requires. */
  predicate WellFormed(schema: Json)
    decreases schema
  {
    match schema
    case Bool(_) => true
    case Obj(kw) =>
      && kw.Keys <= KEYWORDS
      && ("type" in kw ==>
            (IsTypeName(kw["type"]) ||
             (kw["type"].Arr? && forall j :: j in kw["type"].elems ==> IsTypeName(j))))
      && ("enum" in kw ==> kw["enum"].Arr?)
      && ("minimum" in kw ==> kw["minimum"].Num?)
      && ("maximum" in kw ==> kw["maximum"].Num?)
      && ("minItems" in kw ==> IsCount(kw["minItems"]))
      && ("maxItems" in kw ==> IsCount(kw["maxItems"]))
      && ("required" in kw ==> kw["required"].Arr? && forall j :: j in kw["required"].elems ==> j.Str?)
      && ("properties" in kw ==>
            (kw["properties"].Obj? &&
             forall k :: k in kw["properties"].fields ==> WellFormed(kw["properties"].fields[k])))
      && ("items" in kw ==> WellFormed(kw["items"]))
    case _ => false
  }
}
