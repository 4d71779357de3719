/** Inferring a schema from a recorded JSON sample. */
module Infer {
  import opened Basics
  import opened Json
  import opened Schema
  import opened Filler

  // -------------------------------------------------- sorted key listings

  /** Lexicographic order of strings, as sort.Strings uses it. */
  predicate Leq(a: string, b: string) {
    a == [] || (b != [] && (a[0] < b[0] || (a[0] == b[0] && Leq(a[1..], b[1..]))))
  }

  lemma LeqTotal(a: string, b: string)
    ensures Leq(a, b) || Leq(b, a)
    ensures Leq(a, b) && Leq(b, a) ==> a == b
  {
    if a != [] && b != [] && a[0] == b[0] {
      LeqTotal(a[1..], b[1..]);
      assert a == [a[0]] + a[1..] && b == [b[0]] + b[1..];
    }
  }

  lemma LeqTransitive(a: string, b: string, c: string)
    requires Leq(a, b) && Leq(b, c)
    ensures Leq(a, c)
  {
  }

  lemma {:induction false} PrefixFirst(p: string, s: string)
    ensures Leq(p, p + s)
    decreases |p|
  {
    if p == "" {
    } else {
      PrefixFirst(p[1..], s);
      assert (p + s)[1..] == p[1..] + s;
    }
  }

  /** Otherwise the first difference decides. */
  lemma {:induction false} FirstDifferenceDecides(p: string, a: string, b: string)
    requires a != "" && b != "" && a[0] != b[0]
    ensures Leq(p + a, p + b) <==> a[0] < b[0]
    decreases |p|
  {
    if p == "" {
      assert p + a == a && p + b == b;
    } else {
      FirstDifferenceDecides(p[1..], a, b);
      assert (p + a)[1..] == p[1..] + a && (p + b)[1..] == p[1..] + b;
    }
  }

  predicate Sorted(keys: seq<string>) {
    forall i, j :: 0 <= i < j < |keys| ==> Leq(keys[i], keys[j])
  }

  lemma SortedCons(first: string, keys: seq<string>)
    requires Sorted(keys) && forall k :: k in keys ==> Leq(first, k)
    ensures Sorted([first] + keys)
  {
    assert forall j :: 0 <= j < |keys| ==> keys[j] in keys;
  }

  lemma LeastOfMore(key: string, keys: seq<string>, rest: seq<string>)
    requires Sorted(keys) && keys != [] && Leq(keys[0], key)
    requires multiset(rest) == multiset(keys[1..]) + multiset{key}
    ensures forall k :: k in rest ==> Leq(keys[0], k)
  {
    forall k | k in rest
      ensures Leq(keys[0], k)
    {
      assert k in multiset(rest);
      if k != key {
        assert k in multiset(keys[1..]);
        HeadIsLeast(keys, k);
      }
    }
  }

  lemma LeastOfAll(key: string, keys: seq<string>)
    requires Sorted(keys) && keys != [] && Leq(key, keys[0])
    ensures forall k :: k in keys ==> Leq(key, k)
  {
    forall k | k in keys
      ensures Leq(key, k)
    {
      HeadIsLeast(keys, k);
      LeqTransitive(key, keys[0], k);
    }
  }

  function Insert(key: string, keys: seq<string>): (r: seq<string>)
    requires Sorted(keys)
    ensures Sorted(r)
    ensures multiset(r) == multiset(keys) + multiset{key}
  {
    if keys == [] then [key]
    else if Leq(key, keys[0]) then
      LeastOfAll(key, keys);
      SortedCons(key, keys);
      [key] + keys
    else
      var rest := Insert(key, keys[1..]);
      LeqTotal(key, keys[0]);
      LeastOfMore(key, keys, rest);
      SortedCons(keys[0], rest);
      assert keys == [keys[0]] + keys[1..];
      [keys[0]] + rest
  }

  /** sort.Strings. */
  function Sort(keys: seq<string>): (r: seq<string>)
    ensures Sorted(r)
    ensures multiset(r) == multiset(keys)
  {
    if keys == [] then []
    else
      assert keys == [keys[0]] + keys[1..];
      Insert(keys[0], Sort(keys[1..]))
  }

  lemma HeadIsLeast(keys: seq<string>, k: string)
    requires Sorted(keys) && k in keys
    ensures Leq(keys[0], k)
  {
    LeqTotal(k, k);
  }

  lemma Uncons(keys: seq<string>)
    requires keys != []
    ensures keys == [keys[0]] + keys[1..]
    ensures multiset(keys[1..]) == multiset(keys) - multiset{keys[0]}
    ensures Sorted(keys) ==> Sorted(keys[1..])
  {
    assert keys == [keys[0]] + keys[1..];
  }

  /** A collection of keys has one sorted listing. */
  lemma {:induction false} SortedListingUnique(a: seq<string>, b: seq<string>)
    requires Sorted(a) && Sorted(b) && multiset(a) == multiset(b)
    ensures a == b
    decreases |a|
  {
    assert |a| == |multiset(a)| == |b|;
    if a != [] {
      assert a[0] == b[0] by {
        assert a[0] in multiset(b) && b[0] in multiset(a);
        HeadIsLeast(a, b[0]);
        HeadIsLeast(b, a[0]);
        LeqTotal(a[0], b[0]);
      }
      Uncons(a);
      Uncons(b);
      SortedListingUnique(a[1..], b[1..]);
    }
  }

  /** The keys of a set in sorted order. */
  ghost function SortedKeys(keys: set<string>): (r: seq<string>)
    ensures Sorted(r)
    ensures multiset(r) == multiset(keys)
    ensures forall k :: k in r <==> k in keys
  {
    var r := if keys == {} then [] else var k :| k in keys; Insert(k, SortedKeys(keys - {k}));
    assert multiset(r) == multiset(keys);
    assert forall k :: k in r <==> k in multiset(r);
    r
  }

  // ------------------------------------------------------------ inference

  function FirstNonNull(elems: seq<Json>): (r: Option<Json>)
    ensures r.Some? ==> r.value in elems && r.value != Null
    ensures r.None? ==> forall e :: e in elems ==> e == Null
  {
    if elems == [] then None
    else if elems[0] != Null then Some(elems[0])
    else
      assert elems == [elems[0]] + elems[1..];
      FirstNonNull(elems[1..])
  }

  function Scalar(name: string): Json {
    Obj(map["type" := Str(name)])
  }

  function ArraySchema(items: Json): Json {
    Obj(map["type" := Str("array"), "items" := items])
  }

  function Names(keys: seq<string>): Json {
    Arr(seq(|keys|, i requires 0 <= i < |keys| => Str(keys[i])))
  }

  /** The required keyword is left out when there is nothing to require. */
  function ObjectSchema(props: map<string, Json>, keys: seq<string>): Json {
    var schema := map["type" := Str("object"), "properties" := Obj(props)];
    Obj(if keys == [] then schema else schema["required" := Names(keys)])
  }

  /** The schema a sample is turned into. */
  ghost function InferSchema(v: Json): Json
    decreases v, 1
  {
    match v
    case Null => Scalar("null")
    case Bool(_) => Scalar("boolean")
    case Num(n) => Scalar(if IsIntegral(n) then "integer" else "number")
    case Str(_) => Scalar("string")
    case Arr(_) => ArraySchema(InferredItems(v))
    case Obj(fields) =>
      ObjectSchema(InferredMembers(v), SortedKeys(fields.Keys))
  }

  ghost function InferredItems(v: Json): Json
    requires v.Arr?
    decreases v, 0
  {
    var first := FirstNonNull(v.elems);
    if first.Some? then InferSchema(first.value) else Obj(map[])
  }

  ghost function InferredMembers(v: Object): map<string, Json>
    decreases v, 0
  {
    map k | k in v.fields :: InferSchema(v.fields[k])
  }

  /** The source's inference: an array's schema comes from its first non-null
      element. */
  method InferJSONSchema(v: Json) returns (schema: Json)
    ensures schema == InferSchema(v)
    decreases v, 2
  {
    match v {
      case Null => schema := Scalar("null");
      case Bool(_) => schema := Scalar("boolean");
      case Num(n) => schema := Scalar(if n == Trunc(n) as real then "integer" else "number");
      case Str(_) => schema := Scalar("string");
      case Arr(elems) =>
        var items := InferItems(elems, v);
        schema := ArraySchema(items);
      case Obj(fields) =>
        schema := InferObject(fields, v);
    }
  }

  /** The array case: the schema of the first non-null element, if any. */
  method InferItems(elems: seq<Json>, ghost v: Json) returns (items: Json)
    requires v == Arr(elems)
    ensures items == InferredItems(v)
    decreases v, 1
  {
    items := Obj(map[]);
    var i := 0;
    while i < |elems|
      invariant 0 <= i <= |elems|
      invariant items == Obj(map[]) && FirstNonNull(elems[i..]) == FirstNonNull(elems)
    {
      if elems[i] != Null {
        items := InferJSONSchema(elems[i]);
        break;
      }
      i := i + 1;
    }
  }

  /** The object case: the sorted keys are required. */
  method InferObject(fields: map<string, Json>, ghost v: Json) returns (schema: Json)
    requires v == Obj(fields)
    ensures schema == InferSchema(v)
    decreases v, 1
  {
    var props, keys := InferMembers(fields, v);
    ListsMultiset(keys, fields.Keys);
    keys := Sort(keys);
    SortedListingUnique(keys, SortedKeys(fields.Keys));
    schema := ObjectSchema(props, keys);
  }

  /** keys holds the keys of visited, each once, in the order of the visit. */
  ghost predicate Lists(keys: seq<string>, visited: set<string>) {
    if keys == [] then visited == {}
    else
      var last := keys[|keys| - 1];
      last in visited && Lists(keys[..|keys| - 1], visited - {last})
  }

  lemma {:induction false} ListsMultiset(keys: seq<string>, visited: set<string>)
    requires Lists(keys, visited)
    ensures multiset(keys) == multiset(visited)
    decreases |keys|
  {
    if keys == [] {
    } else {
      var last := keys[|keys| - 1];
      ListsMultiset(keys[..|keys| - 1], visited - {last});
      assert keys == keys[..|keys| - 1] + [last];
      assert multiset(visited) == multiset(visited - {last}) + multiset{last};
    }
  }

  /** Members are visited in an arbitrary order. */
  method InferMembers(fields: map<string, Json>, ghost v: Json) returns (props: map<string, Json>, keys: seq<string>)
    requires v == Obj(fields)
    ensures props == InferredMembers(v)
    ensures Lists(keys, fields.Keys)
    decreases v, 0
  {
    props, keys := map[], [];
    var pending := fields.Keys;
    ghost var visited: set<string> := {};
    while pending != {}
      invariant visited == fields.Keys - pending && pending <= fields.Keys
      invariant props.Keys == visited
      invariant forall k :: k in visited ==> props[k] == InferSchema(fields[k])
      invariant Lists(keys, visited)
      decreases pending
    {
      var k :| k in pending;
      pending := pending - {k};
      var child := InferJSONSchema(fields[k]);
      props := props[k := child];
      assert (keys + [k])[..|keys|] == keys && visited + {k} - {k} == visited;
      keys := keys + [k];
      visited := visited + {k};
    }
    assert visited == fields.Keys;
  }

  // ------------------------------------------------------------ soundness

  /** v nests arrays and objects at most n levels deep. */
  predicate SampleWithin(v: Json, n: nat)
    decreases v
  {
    match v
    case Arr(elems) => n > 0 && forall e :: e in elems ==> SampleWithin(e, n - 1)
    case Obj(fields) => n > 0 && forall k :: k in fields ==> SampleWithin(fields[k], n - 1)
    case _ => true
  }

  lemma ScalarSchema(name: string)
    requires name in TYPE_NAMES
    ensures WellFormed(Scalar(name)) && Conforming(Scalar(name))
    ensures forall v :: Valid(Scalar(name), v) <==> HasType(name, v)
  {
  }

  lemma ArraySchemaMeaning(items: Json)
    ensures WellFormed(ArraySchema(items)) <==> WellFormed(items)
    ensures Conforming(items) ==> Conforming(ArraySchema(items))
    ensures forall v :: Valid(ArraySchema(items), v) <==>
      v.Arr? && forall i :: 0 <= i < |v.elems| ==> Valid(items, v.elems[i])
  {
    assert TypeAllows(Str("array"), Arr([]));
  }

  lemma NamesHold(keys: seq<string>)
    ensures forall j :: j in Names(keys).elems ==> j.Str? && j.s in keys
    ensures forall k :: k in keys ==> Str(k) in Names(keys).elems
  {
    forall k | k in keys ensures Str(k) in Names(keys).elems {
      var i :| 0 <= i < |keys| && keys[i] == k;
      assert Names(keys).elems[i] == Str(k);
    }
  }

  lemma ObjectKeywords(props: map<string, Json>, keys: seq<string>)
    ensures
      var kw := ObjectSchema(props, keys).fields;
      && Properties(kw) == props
      && TypeOf(kw) == "object"
      && "properties" in kw && kw["properties"] == Obj(props)
      && kw.Keys == {"type", "properties"} + (if keys == [] then {} else {"required"})
      && (keys != [] ==> kw["required"] == Names(keys))
  {
  }

  lemma ObjectSchemaWellFormed(props: map<string, Json>, keys: seq<string>)
    requires forall k :: k in props ==> WellFormed(props[k])
    ensures WellFormed(ObjectSchema(props, keys))
  {
    NamesHold(keys);
    ObjectKeywords(props, keys);
  }

  lemma ObjectSchemaConforming(props: map<string, Json>, keys: seq<string>)
    requires forall k :: k in keys ==> k in props
    requires forall k :: k in props ==> Conforming(props[k])
    ensures Conforming(ObjectSchema(props, keys))
  {
    NamesHold(keys);
    ObjectKeywords(props, keys);
  }

  lemma MembersConform(props: map<string, Json>, keys: seq<string>)
    requires forall k :: k in keys ==> k in props
    requires forall k :: k in props ==> WellFormed(props[k]) && Conforming(props[k])
    ensures WellFormed(ObjectSchema(props, keys)) && Conforming(ObjectSchema(props, keys))
  {
    ObjectSchemaWellFormed(props, keys);
    ObjectSchemaConforming(props, keys);
  }

  lemma ObjectSchemaAccepts(props: map<string, Json>, keys: seq<string>, v: Json)
    ensures Valid(ObjectSchema(props, keys), v) <==>
      v.Obj?
      && (forall k :: k in keys ==> k in v.fields)
      && (forall k :: k in props && k in v.fields ==> Valid(props[k], v.fields[k]))
  {
    NamesHold(keys);
    ObjectKeywords(props, keys);
  }

  lemma {:induction false} InferredIsConforming(v: Json)
    ensures WellFormed(InferSchema(v)) && Conforming(InferSchema(v))
    decreases v
  {
    match v
    case Null => ScalarSchema("null");
    case Bool(_) => ScalarSchema("boolean");
    case Num(n) => ScalarSchema(if IsIntegral(n) then "integer" else "number");
    case Str(_) => ScalarSchema("string");
    case Arr(elems) =>
      var first := FirstNonNull(elems);
      if first.Some? {
        InferredIsConforming(first.value);
      }
      ArraySchemaMeaning(InferredItems(v));
    case Obj(fields) =>
      forall k | k in fields {
        InferredIsConforming(fields[k]);
      }
      MembersConform(InferredMembers(v), SortedKeys(fields.Keys));
  }

  lemma NestedOneMore(props: map<string, Json>, keys: seq<string>, items: Json, n: nat)
    ensures (forall k :: k in props ==> NestedWithin(props[k], n)) ==> NestedWithin(ObjectSchema(props, keys), n + 1)
    ensures NestedWithin(items, n) ==> NestedWithin(ArraySchema(items), n + 1)
  {
    ObjectKeywords(props, keys);
    var kw := ArraySchema(items).fields;
    assert kw["items"] == items && "properties" !in kw;
  }

  lemma {:induction false} InferredIsNestedWithin(v: Json, n: nat)
    requires SampleWithin(v, n)
    ensures NestedWithin(InferSchema(v), n + 1)
    decreases v
  {
    match v
    case Arr(elems) =>
      var first := FirstNonNull(elems);
      if first.Some? {
        InferredIsNestedWithin(first.value, n - 1);
      }
      NestedOneMore(map[], [], InferredItems(v), n);
    case Obj(fields) =>
      forall k | k in fields {
        InferredIsNestedWithin(fields[k], n - 1);
      }
      NestedOneMore(InferredMembers(v), SortedKeys(fields.Keys), Null, n);
    case _ =>
  }

  /** Whatever the filler returns for the schema of a sample nested less than ten
      deep is valid against it. */
  lemma FillOfInferredIsValid(sample: Json, filled: Json)
    requires SampleWithin(sample, MAX_FILL_DEPTH - 1)
    requires CanFill(InferSchema(sample), 0, filled)
    ensures Valid(InferSchema(sample), filled)
  {
    InferredIsConforming(sample);
    InferredIsNestedWithin(sample, MAX_FILL_DEPTH - 1);
    ConformingIsFillable(InferSchema(sample), 0);
    FillIsValid(InferSchema(sample), 0, filled);
  }

  /** What a sample's schema accepts, read off the sample itself: values of the
      same shape, where an integer stands for integers and a fraction for all
      numbers, an array for arrays whose elements are like its first non-null
      one, and an object for objects with at least its members. */
  predicate Covers(sample: Json, v: Json)
    decreases sample
  {
    match sample
    case Null => v.Null?
    case Bool(_) => v.Bool?
    case Num(n) => v.Num? && (IsIntegral(n) ==> IsIntegral(v.n))
    case Str(_) => v.Str?
    case Arr(elems) =>
      var first := FirstNonNull(elems);
      v.Arr? && (first.Some? ==> forall e :: e in v.elems ==> Covers(first.value, e))
    case Obj(fields) =>
      v.Obj? && forall k :: k in fields ==> k in v.fields && Covers(fields[k], v.fields[k])
  }

  lemma ScalarAcceptsIff(sample: Json, v: Json)
    requires !sample.Arr? && !sample.Obj?
    ensures Valid(InferSchema(sample), v) <==> Covers(sample, v)
  {
    match sample
    case Null => ScalarSchema("null");
    case Bool(_) => ScalarSchema("boolean");
    case Num(n) => ScalarSchema(if IsIntegral(n) then "integer" else "number");
    case Str(_) => ScalarSchema("string");
  }

  lemma ArrayAcceptsIff(first: Option<Json>, items: Json, v: Json)
    requires first.Some? ==>
      forall e :: e in (if v.Arr? then v.elems else []) ==> (Valid(items, e) <==> Covers(first.value, e))
    requires first.None? ==> items == Obj(map[])
    ensures Valid(ArraySchema(items), v) <==>
      v.Arr? && (first.Some? ==> forall e :: e in v.elems ==> Covers(first.value, e))
  {
    ArraySchemaMeaning(items);
    if v.Arr? {
      assert forall i :: 0 <= i < |v.elems| ==> v.elems[i] in v.elems;
    }
  }

  lemma MembersAccept(props: map<string, Json>, keys: seq<string>, fields: map<string, Json>, v: Json)
    requires props.Keys == fields.Keys && forall k :: k in keys <==> k in fields
    requires forall k :: k in fields && v.Obj? && k in v.fields ==>
      (Valid(props[k], v.fields[k]) <==> Covers(fields[k], v.fields[k]))
    ensures Valid(ObjectSchema(props, keys), v) <==>
      v.Obj? && forall k :: k in fields ==> k in v.fields && Covers(fields[k], v.fields[k])
  {
    ObjectSchemaAccepts(props, keys, v);
  }

  /** The schema of a sample accepts exactly what the sample covers. */
  lemma {:induction false} InferredAcceptsIff(sample: Json, v: Json)
    ensures Valid(InferSchema(sample), v) <==> Covers(sample, v)
    decreases sample
  {
    match sample
    case Arr(elems) =>
      var first := FirstNonNull(elems);
      if first.Some? && v.Arr? {
        forall e | e in v.elems
          ensures Valid(InferSchema(first.value), e) <==> Covers(first.value, e)
        {
          InferredAcceptsIff(first.value, e);
        }
      }
      ArrayAcceptsIff(first, InferredItems(sample), v);
    case Obj(fields) =>
      if v.Obj? {
        forall k | k in fields && k in v.fields
          ensures Valid(InferSchema(fields[k]), v.fields[k]) <==> Covers(fields[k], v.fields[k])
        {
          InferredAcceptsIff(fields[k], v.fields[k]);
        }
      }
      MembersAccept(InferredMembers(sample), SortedKeys(fields.Keys), fields, v);
    case _ => ScalarAcceptsIff(sample, v);
  }

  /** Within every array of v, all elements infer to the same schema. */
  ghost predicate Homogeneous(v: Json)
    decreases v
  {
    match v
    case Arr(elems) =>
      && (forall e :: e in elems ==> Homogeneous(e))
      && (forall a, b :: a in elems && b in elems ==> InferSchema(a) == InferSchema(b))
    case Obj(fields) => forall k :: k in fields ==> Homogeneous(fields[k])
    case _ => true
  }

  /** A homogeneous sample is valid against its own schema. */
  lemma {:induction false} SampleIsValid(v: Json)
    requires Homogeneous(v)
    ensures Valid(InferSchema(v), v)
    decreases v
  {
    InferredAcceptsIff(v, v);
    match v
    case Arr(elems) =>
      var first := FirstNonNull(elems);
      if first.Some? {
        forall e | e in elems
          ensures Covers(first.value, e)
        {
          SampleIsValid(e);
          assert InferSchema(e) == InferSchema(first.value);
          InferredAcceptsIff(first.value, e);
        }
      }
    case Obj(fields) =>
      forall k | k in fields
        ensures Covers(fields[k], fields[k])
      {
        SampleIsValid(fields[k]);
        InferredAcceptsIff(fields[k], fields[k]);
      }
    case _ =>
  }

  /** Exactly the samples that cover themselves are valid against their schema:
      those whose arrays' elements are all like the first non-null one. */
  lemma SampleIsValidIff(v: Json)
    ensures Valid(InferSchema(v), v) <==> Covers(v, v)
    ensures Homogeneous(v) ==> Covers(v, v)
  {
    InferredAcceptsIff(v, v);
    if Homogeneous(v) {
      SampleIsValid(v);
    }
  }

  /** An integer followed by a fraction is not covered; the other way round the
      sample is valid although its elements infer to different schemas. */
  lemma MixedSamples()
    ensures !Covers(Arr([Num(1.0), Num(1.5)]), Arr([Num(1.0), Num(1.5)]))
    ensures Covers(Arr([Num(1.5), Num(1.0)]), Arr([Num(1.5), Num(1.0)]))
  {
    var down, up := [Num(1.0), Num(1.5)], [Num(1.5), Num(1.0)];
    assert down[0] in down && down[1] in down;
    assert FirstNonNull(down) == Some(Num(1.0)) && FirstNonNull(up) == Some(Num(1.5));
    assert IsIntegral(1.0) && !IsIntegral(1.5);
  }
}
