/** The schema-driven filler: which values it can return, the loops that build
    them, and exactly when all of them are valid. */
module Filler {
  import opened Json
  import opened Schema

  const MAX_FILL_DEPTH: nat := 10

  // ------------------------------------------------------ keyword readers

  /** Go's conversion of a float to an int: truncation toward zero. */
  function Trunc(r: real): int {
    if r >= 0.0 then r.Floor else -((-r).Floor)
  }

  function NumOr(kw: Keywords, name: string, default: real): real {
    if name in kw && kw[name].Num? then kw[name].n else default
  }

  function IntBound(kw: Keywords, name: string, default: int): int {
    if name in kw && kw[name].Num? then Trunc(kw[name].n) else default
  }

  function Clamp(lo: int, hi: int): (int, int) {
    if lo > hi then (hi, lo) else (lo, hi)
  }

  function ClampReal(lo: real, hi: real): (real, real) {
    if lo > hi then (hi, lo) else (lo, hi)
  }

  function IntRange(kw: Keywords): (int, int) {
    Clamp(IntBound(kw, "minimum", 1), IntBound(kw, "maximum", 1000))
  }

  function RealRange(kw: Keywords): (real, real) {
    ClampReal(NumOr(kw, "minimum", 0.0), NumOr(kw, "maximum", 100.0))
  }

  function TypeOf(kw: Keywords): string {
    if "type" in kw && kw["type"].Str? then kw["type"].s
    else if "properties" in kw then "object"
    else "string"
  }

  /** The number of elements an array is filled with. */
  method ArrayLength(kw: Keywords) returns (length: int)
    ensures length == FillLength(kw)
  {
    length := 1;
    if "minItems" in kw && kw["minItems"].Num? {
      length := Trunc(kw["minItems"].n);
    }
    if "maxItems" in kw && kw["maxItems"].Num? && Trunc(kw["maxItems"].n) < length {
      length := Trunc(kw["maxItems"].n);
    }
    if length < 0 {
      length := 0;
    }
  }

  function FillLength(kw: Keywords): nat {
    var least := IntBound(kw, "minItems", 1);
    var n := if IntBound(kw, "maxItems", least) < least then IntBound(kw, "maxItems", least) else least;
    if n < 0 then 0 else n
  }

  function Properties(kw: Keywords): map<string, Json> {
    if "properties" in kw && kw["properties"].Obj? then kw["properties"].fields else map[]
  }

  function Items(kw: Keywords): Json {
    if "items" in kw then kw["items"] else Null
  }

  // ---------------------------------------------------------- composition

  function Overlay(kw: Keywords, members: seq<Json>): Keywords
    decreases |members|
  {
    if members == [] then kw
    else Overlay(if members[0].Obj? then kw + members[0].fields else kw, members[1..])
  }

  /** allOf members overwrite their parent's keywords; oneOf and anyOf stand for
      their first member. */
  function Composed(kw: Keywords): Keywords {
    if "allOf" in kw && kw["allOf"].Arr? && |kw["allOf"].elems| > 0 then
      Overlay(kw - {"allOf"}, kw["allOf"].elems)
    else if FirstChoice(kw, "oneOf").Obj? then FirstChoice(kw, "oneOf").fields
    else if FirstChoice(kw, "anyOf").Obj? then FirstChoice(kw, "anyOf").fields
    else kw
  }

  function FirstChoice(kw: Keywords, name: string): Json {
    if name in kw && kw[name].Arr? && |kw[name].elems| > 0 then kw[name].elems[0] else Null
  }

  method ComposedOf(kw: Keywords) returns (r: Keywords)
    ensures r == Composed(kw)
  {
    if "allOf" in kw && kw["allOf"].Arr? && |kw["allOf"].elems| > 0 {
      var members := kw["allOf"].elems;
      r := kw - {"allOf"};
      var i := 0;
      while i < |members|
        invariant 0 <= i <= |members|
        invariant Overlay(r, members[i..]) == Composed(kw)
      {
        if members[i].Obj? {
          r := r + members[i].fields;
        }
        i := i + 1;
      }
      return;
    }
    if FirstChoice(kw, "oneOf").Obj? {
      return FirstChoice(kw, "oneOf").fields;
    }
    if FirstChoice(kw, "anyOf").Obj? {
      return FirstChoice(kw, "anyOf").fields;
    }
    r := kw;
  }

  // -------------------------------------------------------------- filling

  /** v is one of the values the filler can return for schema at this depth. */
  predicate CanFill(schema: Json, depth: nat, v: Json)
    decreases MAX_FILL_DEPTH - depth
  {
    if depth >= MAX_FILL_DEPTH || !schema.Obj? then v == Null
    else
      var kw := Composed(schema.fields);
      if "const" in kw then v == kw["const"]
      else if "enum" in kw && kw["enum"].Arr? && |kw["enum"].elems| > 0 then v in kw["enum"].elems
      else
        match TypeOf(kw)
        case "object" =>
          && v.Obj?
          && v.fields.Keys == Properties(kw).Keys
          && forall k :: k in v.fields ==> CanFill(Properties(kw)[k], depth + 1, v.fields[k])
        case "array" =>
          && v.Arr?
          && |v.elems| == FillLength(kw)
          && forall i :: 0 <= i < |v.elems| ==> CanFill(Items(kw), depth + 1, v.elems[i])
        case "integer" =>
          v.Num? && IsIntegral(v.n) && IntRange(kw).0 as real <= v.n <= IntRange(kw).1 as real
        case "number" =>
          v.Num? && RealRange(kw).0 <= v.n <= RealRange(kw).1
        case "boolean" => v.Bool?
        case "null" => v.Null?
        case _ => v.Str?
  }

  method PickInt(lo: int, hi: int) returns (n: int)
    requires lo <= hi
    ensures lo <= n <= hi
  {
    n := *;
    if n < lo || hi < n { n := lo; }
  }

  method PickReal(lo: real, hi: real) returns (r: real)
    requires lo <= hi
    ensures lo <= r <= hi
  {
    r := *;
    if r < lo || hi < r { r := lo; }
  }

  /** The filler. Properties are visited in an arbitrary order, and every random
      draw may come out anywhere in its range. */
  method FillValue(schema: Json, depth: nat) returns (v: Json)
    ensures CanFill(schema, depth, v)
    decreases MAX_FILL_DEPTH - depth
  {
    if depth >= MAX_FILL_DEPTH || !schema.Obj? {
      return Null;
    }
    var kw := ComposedOf(schema.fields);
    if "const" in kw {
      return kw["const"];
    }
    if "enum" in kw && kw["enum"].Arr? && |kw["enum"].elems| > 0 {
      var pick := PickInt(0, |kw["enum"].elems| - 1);
      return kw["enum"].elems[pick];
    }
    match TypeOf(kw) {
      case "object" =>
        var fields := FillProperties(Properties(kw), depth);
        return Obj(fields);
      case "array" =>
        var n := ArrayLength(kw);
        var elems := FillElements(Items(kw), n, depth);
        return Arr(elems);
      case "integer" =>
        var i := PickInt(IntRange(kw).0, IntRange(kw).1);
        return Num(i as real);
      case "number" =>
        var r := PickReal(RealRange(kw).0, RealRange(kw).1);
        return Num(r);
      case "boolean" =>
        var b: bool := *;
        return Bool(b);
      case "null" =>
        return Null;
      case _ =>
        var s: string := *;
        return Str(s);
    }
  }

  method FillProperties(properties: map<string, Json>, depth: nat) returns (out: map<string, Json>)
    requires depth < MAX_FILL_DEPTH
    ensures out.Keys == properties.Keys
    ensures forall k :: k in out ==> CanFill(properties[k], depth + 1, out[k])
    decreases MAX_FILL_DEPTH - depth, 0
  {
    out := map[];
    var pending := properties.Keys;
    while pending != {}
      invariant pending <= properties.Keys
      invariant out.Keys == properties.Keys - pending
      invariant forall k :: k in out ==> CanFill(properties[k], depth + 1, out[k])
      decreases pending
    {
      var name :| name in pending;
      pending := pending - {name};
      var value := FillValue(properties[name], depth + 1);
      out := out[name := value];
    }
  }

  method FillElements(items: Json, n: nat, depth: nat) returns (out: seq<Json>)
    requires depth < MAX_FILL_DEPTH
    ensures |out| == n
    ensures forall i :: 0 <= i < n ==> CanFill(items, depth + 1, out[i])
    decreases MAX_FILL_DEPTH - depth, 0
  {
    out := [];
    while |out| < n
      invariant |out| <= n
      invariant forall i :: 0 <= i < |out| ==> CanFill(items, depth + 1, out[i])
    {
      var value := FillValue(items, depth + 1);
      out := out + [value];
    }
  }

  // ------------------------------------------------- when fills are valid

  /** The bounds a filled integer is drawn from are in order, and truncating
      them does not step outside them. */
  predicate IntegerBoundsOk(kw: Keywords) {
    && IntBound(kw, "minimum", 1) <= IntBound(kw, "maximum", 1000)
    && NumOr(kw, "minimum", 1.0) <= IntBound(kw, "minimum", 1) as real
    && IntBound(kw, "maximum", 1000) as real <= NumOr(kw, "maximum", 1000.0)
  }

  /** minItems does not exceed maxItems. */
  predicate CountsOk(kw: Keywords) {
    IntBound(kw, "minItems", 0) <= IntBound(kw, "maxItems", IntBound(kw, "minItems", 0))
  }

  /** Every required name is a declared property, which the filler always sets. */
  predicate RequiredDeclared(kw: Keywords) {
    "required" in kw && kw["required"].Arr? ==>
      forall name :: name in kw["required"].elems && name.Str? ==> name.s in Properties(kw)
  }

  /** A condition on the schema alone under which every fill is valid: fixed
      values obey their sibling keywords, bounds are in order once defaulted,
      required names are declared, and what lies at the depth limit accepts null. */
  predicate Fillable(schema: Json, depth: nat)
    decreases MAX_FILL_DEPTH - depth
  {
    if depth >= MAX_FILL_DEPTH || !schema.Obj? then Valid(schema, Null)
    else
      var kw := schema.fields;
      if "const" in kw then Valid(Obj(kw - {"const"}), kw["const"])
      else if "enum" in kw then
        && kw["enum"].Arr?
        && |kw["enum"].elems| > 0
        && forall v :: v in kw["enum"].elems ==> Valid(Obj(kw - {"enum"}), v)
      else
        && ("type" in kw && kw["type"].Arr? ==> Str(TypeOf(kw)) in kw["type"].elems)
        && match TypeOf(kw)
           case "object" =>
             && RequiredDeclared(kw)
             && forall k :: k in Properties(kw) ==> Fillable(Properties(kw)[k], depth + 1)
           case "array" =>
             && CountsOk(kw)
             && (FillLength(kw) > 0 && "items" in kw ==> Fillable(kw["items"], depth + 1))
           case "integer" => IntegerBoundsOk(kw)
           case "number" => NumOr(kw, "minimum", 0.0) <= NumOr(kw, "maximum", 100.0)
           case _ => true
  }

  lemma NotComposed(kw: Keywords)
    requires kw.Keys <= KEYWORDS
    ensures Composed(kw) == kw
  {
    assert "allOf" !in KEYWORDS && "oneOf" !in KEYWORDS && "anyOf" !in KEYWORDS;
  }

  /** Removing a keyword and adding it back. */
  lemma ValidWithoutConst(kw: Keywords, v: Json)
    requires "const" in kw && v == kw["const"]
    ensures Valid(Obj(kw), v) <==> Valid(Obj(kw - {"const"}), v)
  {
  }

  lemma ValidWithoutEnum(kw: Keywords, v: Json)
    requires "enum" in kw && kw["enum"].Arr? && v in kw["enum"].elems
    ensures Valid(Obj(kw), v) <==> Valid(Obj(kw - {"enum"}), v)
  {
  }

  /** Every value the filler can return for a fillable schema is valid. */
  lemma {:induction false} FillIsValid(schema: Json, depth: nat, v: Json)
    requires WellFormed(schema) && Fillable(schema, depth) && CanFill(schema, depth, v)
    ensures Valid(schema, v)
    decreases MAX_FILL_DEPTH - depth
  {
    if depth < MAX_FILL_DEPTH && schema.Obj? {
      var kw := schema.fields;
      NotComposed(kw);
      if "const" in kw {
        ValidWithoutConst(kw, v);
      } else if "enum" in kw {
        ValidWithoutEnum(kw, v);
      } else {
        ContentsAreValid(kw, depth, v);
        TypedFillIsValid(kw, depth, v);
      }
    }
  }

  lemma {:induction false} ContentsAreValid(kw: Keywords, depth: nat, v: Json)
    requires depth < MAX_FILL_DEPTH && "const" !in kw && "enum" !in kw && Composed(kw) == kw
    requires WellFormed(Obj(kw)) && Fillable(Obj(kw), depth) && CanFill(Obj(kw), depth, v)
    ensures TypeOf(kw) == "object" ==> forall k :: k in v.fields ==> Valid(Properties(kw)[k], v.fields[k])
    ensures TypeOf(kw) == "array" && "items" in kw ==>
      forall i :: 0 <= i < |v.elems| ==> Valid(kw["items"], v.elems[i])
    decreases MAX_FILL_DEPTH - depth, 0
  {
    if TypeOf(kw) == "object" {
      forall k | k in v.fields {
        FillIsValid(Properties(kw)[k], depth + 1, v.fields[k]);
      }
    } else if TypeOf(kw) == "array" && "items" in kw {
      forall i | 0 <= i < |v.elems| {
        FillIsValid(kw["items"], depth + 1, v.elems[i]);
      }
    }
  }

  /** The step for a generated value, given the validity of what it contains. */
  lemma TypedFillIsValid(kw: Keywords, depth: nat, v: Json)
    requires depth < MAX_FILL_DEPTH && "const" !in kw && "enum" !in kw && Composed(kw) == kw
    requires WellFormed(Obj(kw)) && Fillable(Obj(kw), depth) && CanFill(Obj(kw), depth, v)
    requires TypeOf(kw) == "object" ==> forall k :: k in v.fields ==> Valid(Properties(kw)[k], v.fields[k])
    requires TypeOf(kw) == "array" && "items" in kw ==>
      forall i :: 0 <= i < |v.elems| ==> Valid(kw["items"], v.elems[i])
    ensures Valid(Obj(kw), v)
  {
    assert "type" in kw ==> TypeAllows(kw["type"], v);
    assert ValidShallow(kw, v);
  }

  // ------------------------------------------ and when some fill is not

  /** One value the filler can return. */
  function SomeFill(schema: Json, depth: nat): (v: Json)
    ensures CanFill(schema, depth, v)
    decreases MAX_FILL_DEPTH - depth
  {
    if depth >= MAX_FILL_DEPTH || !schema.Obj? then Null
    else
      var kw := Composed(schema.fields);
      if "const" in kw then kw["const"]
      else if "enum" in kw && kw["enum"].Arr? && |kw["enum"].elems| > 0 then kw["enum"].elems[0]
      else
        match TypeOf(kw)
        case "object" => Obj(map k | k in Properties(kw) :: SomeFill(Properties(kw)[k], depth + 1))
        case "array" => Arr(seq(FillLength(kw), i => SomeFill(Items(kw), depth + 1)))
        case "integer" => Num(IntRange(kw).0 as real)
        case "number" => Num(RealRange(kw).0)
        case "boolean" => Bool(true)
        case "null" => Null
        case _ => Str("")
  }

  /** An integer the filler can draw that its bounds reject. */
  lemma BadInteger(kw: Keywords) returns (v: Json)
    requires "minimum" in kw ==> kw["minimum"].Num?
    requires "maximum" in kw ==> kw["maximum"].Num?
    requires !IntegerBoundsOk(kw)
    ensures v.Num? && IsIntegral(v.n) && IntRange(kw).0 as real <= v.n <= IntRange(kw).1 as real
    ensures !ValidShallow(kw, v)
  {
    var lo, hi := IntBound(kw, "minimum", 1), IntBound(kw, "maximum", 1000);
    if lo > hi {
      // The clamp swaps the bounds; whichever bound is declared is violated.
      if "minimum" in kw && hi as real < kw["minimum"].n { v := Num(hi as real); }
      else { v := Num(lo as real); }
    } else if NumOr(kw, "minimum", 1.0) > lo as real {
      v := Num(lo as real);
    } else {
      v := Num(hi as real);
    }
  }

  lemma BadNumber(kw: Keywords) returns (v: Json)
    requires "minimum" in kw ==> kw["minimum"].Num?
    requires "maximum" in kw ==> kw["maximum"].Num?
    requires NumOr(kw, "minimum", 0.0) > NumOr(kw, "maximum", 100.0)
    ensures v.Num? && RealRange(kw).0 < v.n < RealRange(kw).1
    ensures !ValidShallow(kw, v)
  {
    // Strictly between the swapped bounds: below the minimum, above the maximum.
    v := Num((RealRange(kw).0 + RealRange(kw).1) / 2.0);
  }

  /** A well-formed schema that is not fillable has a fill that is invalid. */
  lemma {:induction false} BadFill(schema: Json, depth: nat) returns (v: Json)
    requires WellFormed(schema) && !Fillable(schema, depth)
    ensures CanFill(schema, depth, v) && !Valid(schema, v)
    decreases MAX_FILL_DEPTH - depth
  {
    v := SomeFill(schema, depth);
    if depth < MAX_FILL_DEPTH && schema.Obj? {
      var kw := schema.fields;
      NotComposed(kw);
      if "const" in kw {
        ValidWithoutConst(kw, v);
      } else if "enum" in kw {
        if |kw["enum"].elems| > 0 {
          v :| v in kw["enum"].elems && !Valid(Obj(kw - {"enum"}), v);
          ValidWithoutEnum(kw, v);
        }
      } else if "type" in kw && kw["type"].Arr? && Str(TypeOf(kw)) !in kw["type"].elems {
        assert !TypeAllows(kw["type"], v);
      } else {
        v := BadTypedFill(kw, depth);
      }
    }
  }

  lemma {:induction false} BadTypedFill(kw: Keywords, depth: nat) returns (v: Json)
    requires WellFormed(Obj(kw)) && !Fillable(Obj(kw), depth) && depth < MAX_FILL_DEPTH
    requires "const" !in kw && "enum" !in kw
    requires "type" in kw && kw["type"].Arr? ==> Str(TypeOf(kw)) in kw["type"].elems
    ensures CanFill(Obj(kw), depth, v) && !Valid(Obj(kw), v)
    decreases MAX_FILL_DEPTH - depth, 1
  {
    NotComposed(kw);
    if TypeOf(kw) == "object" {
      v := BadObject(kw, depth);
    } else if TypeOf(kw) == "array" {
      v := BadArray(kw, depth);
    } else if TypeOf(kw) == "integer" {
      v := BadInteger(kw);
    } else {
      v := BadNumber(kw);
    }
  }

  /** The properties of a fill of an object schema, one of them filled anew. */
  lemma ReplacedFill(kw: Keywords, depth: nat, some: Json, k: string, bad: Json) returns (v: Object)
    requires depth < MAX_FILL_DEPTH && TypeOf(kw) == "object" && Composed(kw) == kw
    requires "const" !in kw && "enum" !in kw
    requires CanFill(Obj(kw), depth, some) && k in Properties(kw) && CanFill(Properties(kw)[k], depth + 1, bad)
    ensures CanFill(Obj(kw), depth, v) && k in v.fields && v.fields[k] == bad
  {
    v := Obj(some.fields[k := bad]);
    assert v.fields.Keys == Properties(kw).Keys;
  }

  lemma BadProperty(kw: Keywords, v: Object, k: string)
    requires k in Properties(kw) && k in v.fields && !Valid(Properties(kw)[k], v.fields[k])
    ensures !Valid(Obj(kw), v)
  {
    assert !Valid(kw["properties"].fields[k], v.fields[k]);
  }

  /** A fill of an object schema lacks the names that are no properties. */
  lemma MissingName(kw: Keywords, depth: nat, v: Json)
    requires WellFormed(Obj(kw)) && depth < MAX_FILL_DEPTH && TypeOf(kw) == "object" && Composed(kw) == kw
    requires "const" !in kw && "enum" !in kw && !RequiredDeclared(kw) && CanFill(Obj(kw), depth, v)
    ensures !Valid(Obj(kw), v)
  {
    assert !ValidShallow(kw, v);
  }

  lemma {:induction false} BadObject(kw: Keywords, depth: nat) returns (v: Json)
    requires WellFormed(Obj(kw)) && depth < MAX_FILL_DEPTH && TypeOf(kw) == "object"
    requires "const" !in kw && "enum" !in kw
    requires !RequiredDeclared(kw) || exists k :: k in Properties(kw) && !Fillable(Properties(kw)[k], depth + 1)
    ensures CanFill(Obj(kw), depth, v) && !Valid(Obj(kw), v)
    decreases MAX_FILL_DEPTH - depth, 0
  {
    NotComposed(kw);
    v := SomeFill(Obj(kw), depth);
    if RequiredDeclared(kw) {
      var k :| k in Properties(kw) && !Fillable(Properties(kw)[k], depth + 1);
      var bad := BadFill(Properties(kw)[k], depth + 1);
      v := ReplacedFill(kw, depth, v, k, bad);
      BadProperty(kw, v, k);
    } else {
      MissingName(kw, depth, v);
    }
  }

  lemma RepeatedFill(kw: Keywords, depth: nat, bad: Json)
    requires depth < MAX_FILL_DEPTH && TypeOf(kw) == "array" && Composed(kw) == kw
    requires "const" !in kw && "enum" !in kw
    requires "items" in kw && CanFill(kw["items"], depth + 1, bad)
    ensures CanFill(Obj(kw), depth, Arr(seq(FillLength(kw), i => bad)))
  {
  }

  lemma BadElement(kw: Keywords, v: Json)
    requires "items" in kw && v.Arr? && v.elems != [] && !Valid(kw["items"], v.elems[0])
    ensures !Valid(Obj(kw), v)
  {
  }

  /** An array filled with fewer elements than minItems. */
  lemma ShortArray(kw: Keywords, v: Json)
    requires WellFormed(Obj(kw)) && !CountsOk(kw)
    requires v.Arr? && |v.elems| == FillLength(kw)
    ensures !Valid(Obj(kw), v)
  {
    assert !ValidShallow(kw, v);
  }

  lemma {:induction false} BadArray(kw: Keywords, depth: nat) returns (v: Json)
    requires WellFormed(Obj(kw)) && depth < MAX_FILL_DEPTH && TypeOf(kw) == "array"
    requires "const" !in kw && "enum" !in kw
    requires CountsOk(kw) ==> FillLength(kw) > 0 && "items" in kw && !Fillable(kw["items"], depth + 1)
    ensures CanFill(Obj(kw), depth, v) && !Valid(Obj(kw), v)
    decreases MAX_FILL_DEPTH - depth, 0
  {
    NotComposed(kw);
    if CountsOk(kw) {
      var bad := BadFill(kw["items"], depth + 1);
      v := Arr(seq(FillLength(kw), i => bad));
      RepeatedFill(kw, depth, bad);
      BadElement(kw, v);
    } else {
      v := SomeFill(Obj(kw), depth);
      ShortArray(kw, v);
    }
  }

  /** A schema in the supported fragment is fillable exactly when the filler
      cannot return an invalid value for it. */
  lemma FillsValidIff(schema: Json, depth: nat)
    requires WellFormed(schema)
    ensures Fillable(schema, depth) <==> forall v :: CanFill(schema, depth, v) ==> Valid(schema, v)
  {
    if Fillable(schema, depth) {
      forall v | CanFill(schema, depth, v) {
        FillIsValid(schema, depth, v);
      }
    } else {
      var v := BadFill(schema, depth);
    }
  }

  // ------------------------------------------------------- nesting bound

  /** schema nests properties and items at most n levels deep. */
  predicate NestedWithin(schema: Json, n: nat)
    decreases schema
  {
    n > 0 && (schema.Obj? ==>
                (forall k :: k in Properties(schema.fields) ==> NestedWithin(Properties(schema.fields)[k], n - 1)) &&
                ("items" in schema.fields ==> NestedWithin(schema.fields["items"], n - 1)))
  }

  /** The part of Fillable that does not depend on the depth. */
  predicate Conforming(schema: Json)
    decreases schema
  {
    match schema
    case Bool(b) => b
    case Obj(kw) =>
      if "const" in kw then Valid(Obj(kw - {"const"}), kw["const"])
      else if "enum" in kw then
        && kw["enum"].Arr?
        && |kw["enum"].elems| > 0
        && forall v :: v in kw["enum"].elems ==> Valid(Obj(kw - {"enum"}), v)
      else
        && ("type" in kw && kw["type"].Arr? ==> Str(TypeOf(kw)) in kw["type"].elems)
        && (TypeOf(kw) == "object" ==>
              RequiredDeclared(kw) && forall k :: k in Properties(kw) ==> Conforming(Properties(kw)[k]))
        && (TypeOf(kw) == "array" ==> CountsOk(kw) && ("items" in kw ==> Conforming(kw["items"])))
        && (TypeOf(kw) == "integer" ==> IntegerBoundsOk(kw))
        && (TypeOf(kw) == "number" ==> NumOr(kw, "minimum", 0.0) <= NumOr(kw, "maximum", 100.0))
    case _ => false
  }

  /** The depth limit does not matter to a conforming schema nested less deeply. */
  lemma {:induction false} ConformingIsFillable(schema: Json, depth: nat)
    requires Conforming(schema) && depth < MAX_FILL_DEPTH && NestedWithin(schema, MAX_FILL_DEPTH - depth)
    ensures Fillable(schema, depth)
    decreases MAX_FILL_DEPTH - depth
  {
    if schema.Obj? {
      var kw := schema.fields;
      if "const" !in kw && "enum" !in kw {
        if TypeOf(kw) == "object" {
          forall k | k in Properties(kw) {
            ConformingIsFillable(Properties(kw)[k], depth + 1);
          }
        } else if TypeOf(kw) == "array" && "items" in kw {
          ConformingIsFillable(kw["items"], depth + 1);
        }
      }
    }
  }

  /** The limit matters: one level deeper, a conforming schema is filled with a
      null its type rejects. */
  lemma LimitMatters()
    ensures
      var leaf := Obj(map["type" := Str("string")]);
      !Fillable(leaf, MAX_FILL_DEPTH) && Conforming(leaf) && CanFill(leaf, MAX_FILL_DEPTH, Null) && !Valid(leaf, Null)
  {
    var leaf := Obj(map["type" := Str("string")]);
    assert !TypeAllows(Str("string"), Null);
  }
}
