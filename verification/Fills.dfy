/** What the filler returns for each kind of schema, in terms of the schema's own
    keywords: fixed values, objects, arrays, numbers, the default type, and what
    composed schemas stand for. */
module Fills {
  import opened Json
  import opened Schema
  import opened Filler

  /** No composed schema: its keywords are what it is filled from. */
  predicate Simple(kw: Keywords) {
    "allOf" !in kw && "oneOf" !in kw && "anyOf" !in kw
  }

  /** A schema with a non-empty enumeration. */
  predicate Enumerates(kw: Keywords) {
    "enum" in kw && kw["enum"].Arr? && kw["enum"].elems != []
  }

  /** A schema without fixed values, so that its type decides. */
  predicate Typed(kw: Keywords) {
    Simple(kw) && "const" !in kw && !Enumerates(kw)
  }

  predicate NamesType(kw: Keywords, name: string) {
    "type" in kw && kw["type"] == Str(name)
  }

  predicate NamesNoType(kw: Keywords) {
    "type" in kw ==> !kw["type"].Str?
  }

  // --------------------------------------------------------- fixed values

  /** Ten levels down, and for what is no schema object, the fill is null. */
  lemma FillAtLimit(schema: Json, depth: nat, v: Json)
    requires depth >= 10 || !schema.Obj?
    ensures CanFill(schema, depth, v) <==> v == Null
  {
  }

  /** A constant is the fill, else one of the enumerated values is. */
  lemma FixedFillIff(kw: Keywords, depth: nat, v: Json)
    requires depth < 10 && Simple(kw) && ("const" in kw || Enumerates(kw))
    ensures CanFill(Obj(kw), depth, v) <==> if "const" in kw then v == kw["const"] else v in kw["enum"].elems
  {
  }

  // ------------------------------------------------------------ by type

  /** A schema of type object, or with properties and no type, is filled with an
      object of exactly its properties, each with a fill of its own schema. */
  lemma ObjectFillIff(kw: Keywords, depth: nat, v: Json)
    requires depth < 10 && Typed(kw)
    requires NamesType(kw, "object") || (NamesNoType(kw) && "properties" in kw)
    requires "properties" in kw ==> kw["properties"].Obj?
    ensures
      var properties := if "properties" in kw then kw["properties"].fields else map[];
      CanFill(Obj(kw), depth, v) <==>
        && v.Obj? && v.fields.Keys == properties.Keys
        && forall k :: k in v.fields ==> CanFill(properties[k], depth + 1, v.fields[k])
  {
  }

  /** A schema without type and properties, and one of type string, is filled with a
      string, boolean and null likewise. */
  lemma ScalarFillIff(kw: Keywords, depth: nat, v: Json)
    requires depth < 10 && Typed(kw)
    ensures (NamesNoType(kw) && "properties" !in kw) || NamesType(kw, "string") ==>
      (CanFill(Obj(kw), depth, v) <==> v.Str?)
    ensures NamesType(kw, "boolean") ==> (CanFill(Obj(kw), depth, v) <==> v.Bool?)
    ensures NamesType(kw, "null") ==> (CanFill(Obj(kw), depth, v) <==> v.Null?)
  {
  }

  /** n is r without its fraction. */
  predicate Truncates(r: real, n: int) {
    if r >= 0.0 then n as real <= r < n as real + 1.0 else n as real - 1.0 < r <= n as real
  }

  lemma TruncatesIff(r: real, n: int)
    ensures Truncates(r, n) <==> Trunc(r) == n
  {
  }

  /** n is the named number without its fraction, or the default. */
  predicate CountIs(kw: Keywords, name: string, default: int, n: int) {
    if name in kw && kw[name].Num? then Truncates(kw[name].n, n) else n == default
  }

  /** r is the named number, or the default. */
  predicate NumberIs(kw: Keywords, name: string, default: real, r: real) {
    r == if name in kw && kw[name].Num? then kw[name].n else default
  }

  /** A list of minItems elements, or one, but no more than maxItems, each a fill
      of the items' schema. */
  lemma ArrayFillIff(kw: Keywords, depth: nat, v: Json, least: int, most: int)
    requires depth < 10 && Typed(kw) && NamesType(kw, "array")
    requires CountIs(kw, "minItems", 1, least) && CountIs(kw, "maxItems", least, most)
    ensures
      var items := if "items" in kw then kw["items"] else Null;
      CanFill(Obj(kw), depth, v) <==>
        && v.Arr?
        && |v.elems| == (if least <= 0 || most <= 0 then 0 else if most < least then most else least)
        && forall i :: 0 <= i < |v.elems| ==> CanFill(items, depth + 1, v.elems[i])
  {
    if "minItems" in kw && kw["minItems"].Num? {
      TruncatesIff(kw["minItems"].n, least);
    }
    if "maxItems" in kw && kw["maxItems"].Num? {
      TruncatesIff(kw["maxItems"].n, most);
    }
    assert FillLength(kw) == (if least <= 0 || most <= 0 then 0 else if most < least then most else least);
  }

  /** The integers between the bounds, in whichever order they are; 1 and 1000 where
      they are not given. */
  lemma IntegerFillIff(kw: Keywords, depth: nat, v: Json, lo: int, hi: int)
    requires depth < 10 && Typed(kw) && NamesType(kw, "integer")
    requires CountIs(kw, "minimum", 1, lo) && CountIs(kw, "maximum", 1000, hi)
    ensures CanFill(Obj(kw), depth, v) <==>
      v.Num? && IsIntegral(v.n) && (lo as real <= v.n <= hi as real || hi as real <= v.n <= lo as real)
  {
    if "minimum" in kw && kw["minimum"].Num? {
      TruncatesIff(kw["minimum"].n, lo);
    }
    if "maximum" in kw && kw["maximum"].Num? {
      TruncatesIff(kw["maximum"].n, hi);
    }
  }

  /** The numbers between the bounds; 0 and 100 where they are not given. */
  lemma NumberFillIff(kw: Keywords, depth: nat, v: Json, lo: real, hi: real)
    requires depth < 10 && Typed(kw) && NamesType(kw, "number")
    requires NumberIs(kw, "minimum", 0.0, lo) && NumberIs(kw, "maximum", 100.0, hi)
    ensures CanFill(Obj(kw), depth, v) <==> v.Num? && (lo <= v.n <= hi || hi <= v.n <= lo)
  {
  }

  /** A fill under a named type has that type, whether or not it is valid. */
  lemma FillHasType(kw: Keywords, depth: nat, v: Json, name: string)
    requires depth < 10 && Typed(kw) && name in TYPE_NAMES && NamesType(kw, name) && CanFill(Obj(kw), depth, v)
    ensures HasType(name, v)
  {
  }

  // ----------------------------------------------------------- composition

  /** The last of the members that is an object with this keyword. */
  predicate LastWith(members: seq<Json>, k: string, i: int) {
    && 0 <= i < |members| && members[i].Obj? && k in members[i].fields
    && forall j :: i < j < |members| ==> !(members[j].Obj? && k in members[j].fields)
  }

  predicate NoneWith(members: seq<Json>, k: string) {
    forall j :: 0 <= j < |members| ==> !(members[j].Obj? && k in members[j].fields)
  }

  /** merged holds the members' keywords, the last member's where they share one,
      and kw's own where none has it. */
  ghost predicate Overlaid(kw: Keywords, members: seq<Json>, merged: Keywords) {
    && (forall k, i :: LastWith(members, k, i) ==> k in merged && merged[k] == members[i].fields[k])
    && (forall k :: NoneWith(members, k) ==> (k in merged <==> k in kw) && (k in merged ==> merged[k] == kw[k]))
  }

  lemma {:induction false} LastOrNone(members: seq<Json>, k: string) returns (i: int)
    ensures LastWith(members, k, i) || NoneWith(members, k)
    decreases |members|
  {
    if members == [] {
      i := -1;
    } else {
      var n := |members| - 1;
      if members[n].Obj? && k in members[n].fields {
        i := n;
      } else {
        i := LastOrNone(members[..n], k);
      }
    }
  }

  lemma {:induction false} OverlayIsOverlaid(kw: Keywords, members: seq<Json>)
    ensures Overlaid(kw, members, Overlay(kw, members))
    decreases |members|
  {
    if members == [] {
    } else {
      var first := if members[0].Obj? then kw + members[0].fields else kw;
      OverlayIsOverlaid(first, members[1..]);
      var merged := Overlay(first, members[1..]);
      forall k, i | LastWith(members, k, i)
        ensures k in merged && merged[k] == members[i].fields[k]
      {
        if i > 0 {
          assert LastWith(members[1..], k, i - 1);
        } else {
          assert NoneWith(members[1..], k);
        }
      }
      forall k | NoneWith(members, k)
        ensures (k in merged <==> k in kw) && (k in merged ==> merged[k] == kw[k])
      {
        assert !(members[0].Obj? && k in members[0].fields);
        assert NoneWith(members[1..], k);
      }
    }
  }

  /** There is one overlay. */
  lemma OverlaidIsUnique(kw: Keywords, members: seq<Json>, a: Keywords, b: Keywords)
    requires Overlaid(kw, members, a) && Overlaid(kw, members, b)
    ensures a == b
  {
    forall k
      ensures (k in a <==> k in b) && (k in a ==> a[k] == b[k])
    {
      var i := LastOrNone(members, k);
    }
  }

  /** An allOf schema is filled as the overlay of its members over its other
      keywords. */
  lemma AllOfFillIff(kw: Keywords, merged: Keywords, depth: nat, v: Json)
    requires "allOf" in kw && kw["allOf"].Arr? && kw["allOf"].elems != []
    requires Overlaid(kw - {"allOf"}, kw["allOf"].elems, merged) && Simple(merged)
    ensures CanFill(Obj(kw), depth, v) <==> CanFill(Obj(merged), depth, v)
  {
    OverlayIsOverlaid(kw - {"allOf"}, kw["allOf"].elems);
    OverlaidIsUnique(kw - {"allOf"}, kw["allOf"].elems, merged, Composed(kw));
    ComposedAlike(kw, merged, depth, v);
  }

  lemma ComposedAlike(a: Keywords, b: Keywords, depth: nat, v: Json)
    requires Composed(a) == Composed(b)
    ensures CanFill(Obj(a), depth, v) <==> CanFill(Obj(b), depth, v)
  {
  }

  /** The first of several choices, if it is a schema object. */
  predicate Chooses(kw: Keywords, name: string, first: Keywords) {
    name in kw && kw[name].Arr? && kw[name].elems != [] && kw[name].elems[0] == Obj(first)
  }

  predicate ChoosesNothing(kw: Keywords, name: string) {
    name in kw && kw[name].Arr? && kw[name].elems != [] ==> !kw[name].elems[0].Obj?
  }

  predicate CombinesNothing(kw: Keywords) {
    "allOf" in kw && kw["allOf"].Arr? ==> kw["allOf"].elems == []
  }

  /** A schema with choices is filled as its first choice, from oneOf before anyOf;
      its other keywords are ignored. */
  lemma ChoiceFillIff(kw: Keywords, first: Keywords, depth: nat, v: Json)
    requires CombinesNothing(kw) && Simple(first)
    requires Chooses(kw, "oneOf", first) || (ChoosesNothing(kw, "oneOf") && Chooses(kw, "anyOf", first))
    ensures CanFill(Obj(kw), depth, v) <==> CanFill(Obj(first), depth, v)
  {
  }

  /** Without a usable allOf, oneOf or anyOf the three are ignored. */
  lemma UncomposedFillIff(kw: Keywords, depth: nat, v: Json)
    requires CombinesNothing(kw) && ChoosesNothing(kw, "oneOf") && ChoosesNothing(kw, "anyOf")
    ensures CanFill(Obj(kw), depth, v) <==> CanFill(Obj(kw - {"allOf", "oneOf", "anyOf"}), depth, v)
  {
    SameOtherKeywords(kw, kw - {"allOf", "oneOf", "anyOf"});
    ReadAlike(kw, kw - {"allOf", "oneOf", "anyOf"}, depth, v);
  }

  lemma SameOtherKeywords(kw: Keywords, plain: Keywords)
    requires plain == kw - {"allOf", "oneOf", "anyOf"}
    ensures Enumerates(plain) == Enumerates(kw) && ("enum" in kw <==> "enum" in plain)
    ensures "enum" in kw ==> plain["enum"] == kw["enum"]
    ensures ("const" in kw <==> "const" in plain) && ("const" in kw ==> plain["const"] == kw["const"])
    ensures TypeOf(plain) == TypeOf(kw) && Properties(plain) == Properties(kw) && Items(plain) == Items(kw)
    ensures IntRange(plain) == IntRange(kw) && RealRange(plain) == RealRange(kw) && FillLength(plain) == FillLength(kw)
  {
  }

  /** Only these parts of a schema matter to its fill. */
  lemma ReadAlike(a: Keywords, b: Keywords, depth: nat, v: Json)
    requires Composed(a) == a && Composed(b) == b
    requires Enumerates(a) == Enumerates(b) && ("enum" in a && "enum" in b ==> a["enum"] == b["enum"])
    requires ("const" in a <==> "const" in b) && ("const" in a ==> a["const"] == b["const"])
    requires TypeOf(a) == TypeOf(b) && Properties(a) == Properties(b) && Items(a) == Items(b)
    requires IntRange(a) == IntRange(b) && RealRange(a) == RealRange(b) && FillLength(a) == FillLength(b)
    ensures CanFill(Obj(a), depth, v) <==> CanFill(Obj(b), depth, v)
  {
  }
}
