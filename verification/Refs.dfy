/** Resolving $ref objects in place, over a document whose arrays and objects are
    shared, mutable heap nodes. */
module Refs {
  import opened Basics
  import opened Json

  const MAX_REF_DEPTH: nat := 10

  // ------------------------------------------------------------- the heap

  type Addr = nat

  /** A decoded YAML value: a scalar, or a reference to an array or object. */
  datatype Value = Leaf(j: Json) | Ptr(addr: Addr)

  datatype Node = ArrNode(elems: seq<Value>) | ObjNode(members: map<string, Value>)

  type Heap = map<Addr, Node>

  /** A place inside a node. */
  datatype Slot = Index(i: nat) | Member(k: string)

  function Indices(n: nat): set<Slot> {
    set i | 0 <= i < n :: Index(i)
  }

  function Slots(node: Node): set<Slot> {
    match node
    case ArrNode(elems) => Indices(|elems|)
    case ObjNode(members) => set k | k in members :: Member(k)
  }

  function At(node: Node, slot: Slot): Value
    requires slot in Slots(node)
  {
    if node.ArrNode? then node.elems[slot.i] else node.members[slot.k]
  }

  function Put(node: Node, slot: Slot, v: Value): (r: Node)
    requires slot in Slots(node)
    ensures Slots(r) == Slots(node) && r.ArrNode? == node.ArrNode?
    ensures forall s :: s in Slots(r) ==> At(r, s) == if s == slot then v else At(node, s)
  {
    if node.ArrNode? then ArrNode(node.elems[slot.i := v]) else ObjNode(node.members[slot.k := v])
  }

  function TrimPrefix(s: string, prefix: string): string {
    if prefix <= s then s[|prefix|..] else s
  }

  /** The table key a $ref names. */
  function RefName(ref: string): string {
    TrimPrefix(TrimPrefix(ref, "#/components/schemas/"), "#/definitions/")
  }

  /** What a $ref names: the entry behind either prefix, or behind both in this
      order; without one of them, the entry of the whole text. */
  predicate RefersTo(text: string, name: string) {
    || text == "#/components/schemas/" + ("#/definitions/" + name)
    || (text == "#/components/schemas/" + name && !("#/definitions/" <= name))
    || text == "#/definitions/" + name
    || (text == name && !("#/components/schemas/" <= name) && !("#/definitions/" <= name))
  }

  lemma PrefixesDiffer(a: string, b: string)
    ensures "#/components/schemas/" + a != "#/definitions/" + b
    ensures !("#/components/schemas/" <= "#/definitions/" + b)
  {
    assert ("#/components/schemas/" + a)[2] != ("#/definitions/" + b)[2];
  }

  lemma TrimsPrefix(prefix: string, s: string, rest: string)
    ensures TrimPrefix(prefix + rest, prefix) == rest
    ensures prefix <= s ==> s == prefix + TrimPrefix(s, prefix)
    ensures !(prefix <= s) ==> TrimPrefix(s, prefix) == s
  {
    assert (prefix + rest)[|prefix|..] == rest;
  }

  /** The importer looks up exactly the entry a $ref names. */
  lemma RefersToIff(text: string, name: string)
    ensures RefersTo(text, name) <==> RefName(text) == name
  {
    var components, definitions := "#/components/schemas/", "#/definitions/";
    PrefixesDiffer("", name);
    PrefixesDiffer(name, name);
    PrefixesDiffer(definitions + name, name);
    TrimsPrefix(components, text, name);
    TrimsPrefix(components, text, definitions + name);
    TrimsPrefix(definitions, TrimPrefix(text, components), name);
  }

  /** The text of a $ref object. */
  function RefOf(node: Node): Option<string> {
    if node.ObjNode? && "$ref" in node.members && node.members["$ref"].Leaf? && node.members["$ref"].j.Str?
    then Some(node.members["$ref"].j.s) else None
  }

  /** The document's schemas by name. */
  type Table = map<string, Value>

  predicate InHeap(h: Heap, v: Value) {
    v.Ptr? ==> v.addr in h
  }

  // ----------------------------------------------------------- acyclicity

  /** A rank for every node that decreases along children and along $refs. */
  type Rank = map<Addr, nat>

  function RankOf(rank: Rank, v: Value): nat {
    if v.Ptr? && v.addr in rank then rank[v.addr] + 1 else 0
  }

  predicate NodeRanked(h: Heap, table: Table, rank: Rank, a: Addr)
    requires a in h
  {
    && a in rank
    && (forall s :: s in Slots(h[a]) ==> InHeap(h, At(h[a], s)) && RankOf(rank, At(h[a], s)) <= rank[a])
    && (RefOf(h[a]).Some? && RefName(RefOf(h[a]).value) in table ==>
          RankOf(rank, table[RefName(RefOf(h[a]).value)]) <= rank[a])
  }

  /** The document has no cycle through children and $refs. */
  predicate Acyclic(h: Heap, table: Table, rank: Rank) {
    && (forall a :: a in h ==> NodeRanked(h, table, rank, a))
    && (forall name :: name in table ==> InHeap(h, table[name]))
  }

  // -------------------------------------------------------------- meaning

  /** What a value stands for once every reference is followed. A $ref object
      stands for its target whatever else it holds; one without a target stands
      for itself. */
  datatype Tree = TLeaf(j: Json) | TNode(array: bool, children: map<Slot, Tree>) | TDangling(ref: string)

  function Unfold(h: Heap, table: Table, rank: Rank, v: Value): Tree
    requires Acyclic(h, table, rank) && InHeap(h, v)
    decreases RankOf(rank, v)
  {
    if v.Leaf? then TLeaf(v.j)
    else
      var node := h[v.addr];
      assert NodeRanked(h, table, rank, v.addr);
      if RefOf(node).Some? then
        var name := RefName(RefOf(node).value);
        if name in table then Unfold(h, table, rank, table[name]) else TDangling(RefOf(node).value)
      else
        TNode(node.ArrNode?, map s | s in Slots(node) :: Unfold(h, table, rank, At(node, s)))
  }

  /** What is written out for a value: references are not followed. */
  function Written(h: Heap, table: Table, rank: Rank, v: Value): Tree
    requires Acyclic(h, table, rank) && InHeap(h, v)
    decreases RankOf(rank, v)
  {
    if v.Leaf? then TLeaf(v.j)
    else
      var node := h[v.addr];
      assert NodeRanked(h, table, rank, v.addr);
      if RefOf(node).Some? then TDangling(RefOf(node).value)
      else TNode(node.ArrNode?, map s | s in Slots(node) :: Written(h, table, rank, At(node, s)))
  }

  /** Every resolvable $ref under v is reached in fewer than n steps, a step being
      one level of nesting or one $ref. With n == 0 there is none. */
  predicate Fits(h: Heap, table: Table, rank: Rank, v: Value, n: nat)
    requires Acyclic(h, table, rank) && InHeap(h, v)
    decreases RankOf(rank, v)
  {
    v.Ptr? ==>
      var node := h[v.addr];
      assert NodeRanked(h, table, rank, v.addr);
      if RefOf(node).Some? then
        var name := RefName(RefOf(node).value);
        name in table ==> n > 0 && Fits(h, table, rank, table[name], n - 1)
      else
        forall s :: s in Slots(node) ==> Fits(h, table, rank, At(node, s), if n > 0 then n - 1 else 0)
  }

  predicate TextTree(t: Tree) {
    t.TLeaf? && t.j.Str?
  }

  /** If a's $ref member is an array or object, it does not stand for a text. */
  predicate RefGuarded(h: Heap, table: Table, rank: Rank, a: Addr)
    requires Acyclic(h, table, rank) && a in h
  {
    assert NodeRanked(h, table, rank, a);
    Member("$ref") in Slots(h[a]) && At(h[a], Member("$ref")).Ptr? ==>
      !TextTree(Unfold(h, table, rank, At(h[a], Member("$ref"))))
  }

  /** No $ref member becomes a text by following references. */
  predicate Guarded(h: Heap, table: Table, rank: Rank)
    requires Acyclic(h, table, rank)
  {
    forall a :: a in h ==> RefGuarded(h, table, rank, a)
  }

  /** Nothing resolvable is left under v. */
  predicate Resolved(h: Heap, table: Table, rank: Rank, v: Value)
    requires Acyclic(h, table, rank) && InHeap(h, v)
  {
    Fits(h, table, rank, v, 0)
  }

  lemma {:induction false} FitsMonotone(h: Heap, table: Table, rank: Rank, v: Value, m: nat, n: nat)
    requires Acyclic(h, table, rank) && InHeap(h, v) && m <= n
    ensures Fits(h, table, rank, v, m) ==> Fits(h, table, rank, v, n)
    decreases RankOf(rank, v)
  {
    if v.Ptr? && Fits(h, table, rank, v, m) {
      var node := h[v.addr];
      assert NodeRanked(h, table, rank, v.addr);
      if RefOf(node).Some? {
        var name := RefName(RefOf(node).value);
        if name in table {
          FitsMonotone(h, table, rank, table[name], m - 1, n - 1);
        }
      } else {
        forall s | s in Slots(node)
          ensures Fits(h, table, rank, At(node, s), if n > 0 then n - 1 else 0)
        {
          FitsMonotone(h, table, rank, At(node, s), if m > 0 then m - 1 else 0, if n > 0 then n - 1 else 0);
        }
      }
    }
  }

  /** A resolved value is written out as what it stands for. */
  lemma {:induction false} ResolvedIsWritten(h: Heap, table: Table, rank: Rank, v: Value)
    requires Acyclic(h, table, rank) && InHeap(h, v) && Resolved(h, table, rank, v)
    ensures Written(h, table, rank, v) == Unfold(h, table, rank, v)
    decreases RankOf(rank, v)
  {
    if v.Ptr? {
      var node := h[v.addr];
      assert NodeRanked(h, table, rank, v.addr);
      if RefOf(node).None? {
        forall s | s in Slots(node) {
          ResolvedIsWritten(h, table, rank, At(node, s));
        }
      }
    }
  }

  // ------------------------------------------------------ one slot write

  /** v means in h' what it means in h. */
  ghost predicate SameMeaning(h: Heap, h': Heap, table: Table, rank: Rank, v: Value)
    requires Acyclic(h, table, rank) && Acyclic(h', table, rank) && InHeap(h, v) && InHeap(h', v)
  {
    Unfold(h', table, rank, v) == Unfold(h, table, rank, v)
  }

  /** v needs no more steps in h' than in h. */
  ghost predicate NoMoreSteps(h: Heap, h': Heap, table: Table, rank: Rank, v: Value)
    requires Acyclic(h, table, rank) && Acyclic(h', table, rank) && InHeap(h, v) && InHeap(h', v)
  {
    forall n: nat :: Fits(h, table, rank, v, n) ==> Fits(h', table, rank, v, n)
  }

  /** h' gives every value the meaning h gives it, and nothing in it needs more
      steps to resolve. */
  ghost predicate Refines(h: Heap, h': Heap, table: Table, rank: Rank) {
    && Acyclic(h, table, rank) && Acyclic(h', table, rank) && h'.Keys == h.Keys
    && Guarded(h, table, rank) && Guarded(h', table, rank)
    && (forall a :: a in h ==> RefOf(h'[a]) == RefOf(h[a]))
    && (forall v {:trigger SameMeaning(h, h', table, rank, v)} ::
          InHeap(h, v) ==> SameMeaning(h, h', table, rank, v))
    && (forall v {:trigger NoMoreSteps(h, h', table, rank, v)} ::
          InHeap(h, v) ==> NoMoreSteps(h, h', table, rank, v))
  }

  /** c may replace b: same meaning, no more steps, no higher rank. */
  ghost predicate Replaces(h: Heap, table: Table, rank: Rank, b: Value, c: Value) {
    && Acyclic(h, table, rank) && InHeap(h, b) && InHeap(h, c)
    && RankOf(rank, c) <= RankOf(rank, b)
    && Unfold(h, table, rank, c) == Unfold(h, table, rank, b)
    && (forall n: nat :: Fits(h, table, rank, b, n) ==> Fits(h, table, rank, c, n))
  }

  lemma PutKeepsRef(h: Heap, table: Table, rank: Rank, p: Addr, slot: Slot, c: Value)
    requires Acyclic(h, table, rank) && p in h && slot in Slots(h[p]) && RefOf(h[p]).None?
    requires RefGuarded(h, table, rank, p) && Replaces(h, table, rank, At(h[p], slot), c)
    ensures RefOf(Put(h[p], slot, c)).None?
  {
    if slot == Member("$ref") && c.Leaf? && c.j.Str? {
      assert TextTree(Unfold(h, table, rank, At(h[p], slot)));
      assert At(h[p], slot) == Leaf(c.j);
    }
  }

  lemma WriteKeepsAcyclic(h: Heap, table: Table, rank: Rank, p: Addr, slot: Slot, c: Value)
    requires Acyclic(h, table, rank) && p in h && slot in Slots(h[p]) && RefOf(h[p]).None?
    requires Guarded(h, table, rank)
    requires Replaces(h, table, rank, At(h[p], slot), c)
    ensures Acyclic(h[p := Put(h[p], slot, c)], table, rank)
  {
    var h' := h[p := Put(h[p], slot, c)];
    assert RefGuarded(h, table, rank, p);
    PutKeepsRef(h, table, rank, p, slot, c);
    assert NodeRanked(h, table, rank, p);
    forall a | a in h'
      ensures NodeRanked(h', table, rank, a)
    {
      assert NodeRanked(h, table, rank, a);
    }
  }

  lemma {:induction false} WriteKeepsUnfold(h: Heap, table: Table, rank: Rank, p: Addr, slot: Slot, c: Value, v: Value)
    requires Acyclic(h, table, rank) && p in h && slot in Slots(h[p]) && RefOf(h[p]).None?
    requires Guarded(h, table, rank)
    requires Replaces(h, table, rank, At(h[p], slot), c)
    requires Acyclic(h[p := Put(h[p], slot, c)], table, rank) && InHeap(h, v)
    ensures Unfold(h[p := Put(h[p], slot, c)], table, rank, v) == Unfold(h, table, rank, v)
    decreases RankOf(rank, v)
  {
    var h' := h[p := Put(h[p], slot, c)];
    if v.Ptr? {
      var a := v.addr;
      assert NodeRanked(h, table, rank, a) && NodeRanked(h', table, rank, a);
      assert RefGuarded(h, table, rank, p);
      PutKeepsRef(h, table, rank, p, slot, c);
      assert RefOf(h'[a]) == RefOf(h[a]);
      if RefOf(h[a]).Some? {
        var name := RefName(RefOf(h[a]).value);
        if name in table {
          WriteKeepsUnfold(h, table, rank, p, slot, c, table[name]);
        }
      } else {
        forall s | s in Slots(h[a])
          ensures Unfold(h', table, rank, At(h'[a], s)) == Unfold(h, table, rank, At(h[a], s))
        {
          assert InHeap(h, At(h'[a], s)) && RankOf(rank, At(h'[a], s)) < RankOf(rank, v);
          WriteKeepsUnfold(h, table, rank, p, slot, c, At(h'[a], s));
          assert a != p || s != slot ==> At(h'[a], s) == At(h[a], s);
        }
        assert Slots(h'[a]) == Slots(h[a]) && h'[a].ArrNode? == h[a].ArrNode?;
        assert Unfold(h', table, rank, v).children == Unfold(h, table, rank, v).children;
      }
    }
  }

  lemma {:induction false} WriteKeepsFits(h: Heap, table: Table, rank: Rank, p: Addr, slot: Slot, c: Value, v: Value,
      n: nat)
    requires Acyclic(h, table, rank) && p in h && slot in Slots(h[p]) && RefOf(h[p]).None?
    requires Guarded(h, table, rank)
    requires Replaces(h, table, rank, At(h[p], slot), c)
    requires Acyclic(h[p := Put(h[p], slot, c)], table, rank) && InHeap(h, v) && Fits(h, table, rank, v, n)
    ensures Fits(h[p := Put(h[p], slot, c)], table, rank, v, n)
    decreases RankOf(rank, v)
  {
    var h' := h[p := Put(h[p], slot, c)];
    if v.Ptr? {
      var a := v.addr;
      assert NodeRanked(h, table, rank, a) && NodeRanked(h', table, rank, a);
      assert RefGuarded(h, table, rank, p);
      PutKeepsRef(h, table, rank, p, slot, c);
      assert RefOf(h'[a]) == RefOf(h[a]);
      if RefOf(h[a]).Some? {
        var name := RefName(RefOf(h[a]).value);
        if name in table {
          WriteKeepsFits(h, table, rank, p, slot, c, table[name], n - 1);
        }
      } else {
        var m := if n > 0 then n - 1 else 0;
        forall s | s in Slots(h[a])
          ensures Fits(h', table, rank, At(h'[a], s), m)
        {
          assert Fits(h, table, rank, At(h[a], s), m);
          WriteKeepsFits(h, table, rank, p, slot, c, At(h'[a], s), m);
        }
      }
    }
  }

  lemma WriteKeepsGuarded(h: Heap, table: Table, rank: Rank, p: Addr, slot: Slot, c: Value)
    requires Acyclic(h, table, rank) && p in h && slot in Slots(h[p]) && RefOf(h[p]).None?
    requires Guarded(h, table, rank)
    requires Replaces(h, table, rank, At(h[p], slot), c)
    requires Acyclic(h[p := Put(h[p], slot, c)], table, rank)
    ensures Guarded(h[p := Put(h[p], slot, c)], table, rank)
  {
    var h' := h[p := Put(h[p], slot, c)];
    var ref := Member("$ref");
    forall a | a in h'
      ensures RefGuarded(h', table, rank, a)
    {
      assert NodeRanked(h, table, rank, a) && RefGuarded(h, table, rank, a);
      if ref in Slots(h[a]) && At(h'[a], ref).Ptr? {
        assert InHeap(h, At(h'[a], ref));
        WriteKeepsUnfold(h, table, rank, p, slot, c, At(h'[a], ref));
        if a == p && slot == ref {
          assert RefOf(h[a]).None?;
        }
      }
    }
  }

  /** Replacing a slot of a node that is no $ref by a value of the same meaning
      refines the heap. */
  lemma WriteRefines(h: Heap, table: Table, rank: Rank, p: Addr, slot: Slot, c: Value)
    requires Acyclic(h, table, rank) && p in h && slot in Slots(h[p]) && RefOf(h[p]).None?
    requires Guarded(h, table, rank)
    requires Replaces(h, table, rank, At(h[p], slot), c)
    ensures Refines(h, h[p := Put(h[p], slot, c)], table, rank)
  {
    var h' := h[p := Put(h[p], slot, c)];
    WriteKeepsAcyclic(h, table, rank, p, slot, c);
    WriteKeepsGuarded(h, table, rank, p, slot, c);
    assert RefGuarded(h, table, rank, p);
    PutKeepsRef(h, table, rank, p, slot, c);
    forall v | InHeap(h, v)
      ensures SameMeaning(h, h', table, rank, v) && NoMoreSteps(h, h', table, rank, v)
    {
      WriteKeepsUnfold(h, table, rank, p, slot, c, v);
      forall n: nat | Fits(h, table, rank, v, n)
        ensures Fits(h', table, rank, v, n)
      {
        WriteKeepsFits(h, table, rank, p, slot, c, v, n);
      }
    }
  }

  lemma RefinesTransitive(a: Heap, b: Heap, c: Heap, table: Table, rank: Rank)
    requires Refines(a, b, table, rank) && Refines(b, c, table, rank)
    ensures Refines(a, c, table, rank)
  {
    forall v | InHeap(a, v)
      ensures SameMeaning(a, c, table, rank, v) && NoMoreSteps(a, c, table, rank, v)
    {
      assert SameMeaning(a, b, table, rank, v) && SameMeaning(b, c, table, rank, v);
      assert NoMoreSteps(a, b, table, rank, v) && NoMoreSteps(b, c, table, rank, v);
    }
  }

  // ------------------------------------------------ steps of a resolution

  /** Nodes ranked above v are as they were. */
  ghost predicate Above(h: Heap, h': Heap, rank: Rank, v: Value) {
    forall a :: a in h && RankOf(rank, Ptr(a)) > RankOf(rank, v) ==> a in h' && h'[a] == h[a]
  }

  /** What resolving v with budget n has achieved. */
  ghost predicate Achieved(h: Heap, h': Heap, table: Table, rank: Rank, v: Value, r: Value, n: nat)
    requires Refines(h, h', table, rank) && InHeap(h, v)
  {
    && Replaces(h', table, rank, v, r)
    && (Fits(h, table, rank, v, n) ==> Resolved(h', table, rank, r))
    && Above(h, h', rank, v)
  }

  /** Where a node's slots stand when those in done have been resolved. */
  ghost predicate Progress(h: Heap, h': Heap, table: Table, rank: Rank, a: Addr, done: set<Slot>, n: nat) {
    && a in h && Refines(h, h', table, rank)
    && RefOf(h[a]).None?
    && Slots(h'[a]) == Slots(h[a]) && h'[a].ArrNode? == h[a].ArrNode?
    && (forall s :: s in Slots(h[a]) && s !in done ==> At(h'[a], s) == At(h[a], s))
    && (forall s :: s in done && s in Slots(h[a]) ==>
          InHeap(h, At(h[a], s)) && InHeap(h', At(h'[a], s))
          && (Fits(h, table, rank, At(h[a], s), n) ==> Resolved(h', table, rank, At(h'[a], s))))
    && Above(h, h', rank, Ptr(a))
  }

  lemma RefinesSelf(h: Heap, table: Table, rank: Rank)
    requires Acyclic(h, table, rank)
    requires Guarded(h, table, rank)
    ensures Refines(h, h, table, rank)
  {
    forall v | InHeap(h, v)
      ensures SameMeaning(h, h, table, rank, v) && NoMoreSteps(h, h, table, rank, v)
    {
    }
  }

  /** Leaving a value alone, without budget or as a scalar. */
  lemma Untouched(h: Heap, table: Table, rank: Rank, v: Value, n: nat)
    requires Acyclic(h, table, rank) && InHeap(h, v)
    requires Guarded(h, table, rank)
    ensures Refines(h, h, table, rank)
    ensures n == 0 || v.Leaf? ==> Achieved(h, h, table, rank, v, v, n)
  {
    RefinesSelf(h, table, rank);
  }

  /** Leaving a $ref without a target alone. */
  lemma DanglingRef(h: Heap, table: Table, rank: Rank, v: Value, n: nat)
    requires Refines(h, h, table, rank) && v.Ptr? && v.addr in h
    requires RefOf(h[v.addr]).Some? && RefName(RefOf(h[v.addr]).value) !in table
    ensures Achieved(h, h, table, rank, v, v, n)
  {
  }

  lemma RankedTarget(h: Heap, table: Table, rank: Rank, v: Value)
    requires Acyclic(h, table, rank) && v.Ptr? && v.addr in h
    requires RefOf(h[v.addr]).Some? && RefName(RefOf(h[v.addr]).value) in table
    ensures InHeap(h, table[RefName(RefOf(h[v.addr]).value)])
    ensures RankOf(rank, table[RefName(RefOf(h[v.addr]).value)]) < RankOf(rank, v)
  {
    assert NodeRanked(h, table, rank, v.addr);
  }

  /** A loop that has resolved no slot yet. */
  lemma Starting(h: Heap, table: Table, rank: Rank, a: Addr, n: nat)
    requires Acyclic(h, table, rank) && a in h && RefOf(h[a]).None?
    requires Guarded(h, table, rank)
    ensures Progress(h, h, table, rank, a, {}, n)
  {
    RefinesSelf(h, table, rank);
  }

  /** Following a $ref, given what resolving its target achieved. */
  lemma FollowedRef(h: Heap, h': Heap, table: Table, rank: Rank, v: Value, r: Value, n: nat)
    requires Refines(h, h', table, rank) && v.Ptr? && v.addr in h && n > 0
    requires RefOf(h[v.addr]).Some? && RefName(RefOf(h[v.addr]).value) in table
    requires Achieved(h, h', table, rank, table[RefName(RefOf(h[v.addr]).value)], r, n - 1)
    ensures Achieved(h, h', table, rank, v, r, n)
  {
    var t := table[RefName(RefOf(h[v.addr]).value)];
    assert NodeRanked(h, table, rank, v.addr) && NodeRanked(h', table, rank, v.addr);
    assert RankOf(rank, t) < RankOf(rank, v);
    assert Unfold(h', table, rank, v) == Unfold(h', table, rank, t);
    forall k: nat | Fits(h', table, rank, v, k)
      ensures Fits(h', table, rank, r, k)
    {
      assert Fits(h', table, rank, t, k - 1);
      FitsMonotone(h', table, rank, r, k - 1, k);
    }
  }

  /** A node with all slots resolved. */
  lemma FinishedNode(h: Heap, h': Heap, table: Table, rank: Rank, a: Addr, done: set<Slot>, n: nat)
    requires n > 0 && Progress(h, h', table, rank, a, done, n - 1) && done == Slots(h[a])
    ensures Achieved(h, h', table, rank, Ptr(a), Ptr(a), n)
  {
    assert NodeRanked(h, table, rank, a) && NodeRanked(h', table, rank, a);
    assert RefOf(h'[a]).None?;
    if Fits(h, table, rank, Ptr(a), n) {
      forall s | s in Slots(h'[a])
        ensures Fits(h', table, rank, At(h'[a], s), 0)
      {
        assert Fits(h, table, rank, At(h[a], s), n - 1);
      }
    }
  }

  lemma FitsCarries(h: Heap, h': Heap, table: Table, rank: Rank, v: Value, n: nat)
    requires Refines(h, h', table, rank) && InHeap(h, v) && Fits(h, table, rank, v, n)
    ensures Fits(h', table, rank, v, n)
  {
    assert NoMoreSteps(h, h', table, rank, v);
  }

  /** Where the next slot stands before it is resolved. */
  lemma NextSlot(h: Heap, h1: Heap, table: Table, rank: Rank, a: Addr, done: set<Slot>, slot: Slot, n: nat)
    requires Progress(h, h1, table, rank, a, done, n) && slot in Slots(h[a]) && slot !in done
    ensures a in h1 && slot in Slots(h1[a]) && Acyclic(h1, table, rank)
    ensures At(h1[a], slot) == At(h[a], slot)
    ensures InHeap(h, At(h[a], slot)) && InHeap(h1, At(h1[a], slot))
    ensures RankOf(rank, At(h1[a], slot)) < RankOf(rank, Ptr(a))
    ensures RefOf(h1[a]).None?
  {
    assert NodeRanked(h, table, rank, a) && NodeRanked(h1, table, rank, a);
  }

  lemma AboveTransitive(h: Heap, h1: Heap, h3: Heap, rank: Rank, a: Addr)
    requires Above(h, h1, rank, Ptr(a)) && h1.Keys == h.Keys == h3.Keys
    requires forall b :: b in h1 && RankOf(rank, Ptr(b)) > RankOf(rank, Ptr(a)) ==> h3[b] == h1[b]
    ensures Above(h, h3, rank, Ptr(a))
  {
  }

  /** The slot's new value is resolved if its old one fitted the budget. */
  lemma SlotResolved(h: Heap, h1: Heap, h2: Heap, h3: Heap, table: Table, rank: Rank, b: Value, r: Value, n: nat)
    requires Refines(h, h1, table, rank) && Refines(h1, h2, table, rank) && Refines(h2, h3, table, rank)
    requires InHeap(h, b) && InHeap(h1, b) && InHeap(h2, r)
    requires Fits(h1, table, rank, b, n) ==> Resolved(h2, table, rank, r)
    ensures InHeap(h3, r)
    ensures Fits(h, table, rank, b, n) ==> Resolved(h3, table, rank, r)
  {
    if Fits(h, table, rank, b, n) {
      FitsCarries(h, h1, table, rank, b, n);
      FitsCarries(h2, h3, table, rank, r, 0);
    }
  }

  lemma OtherSlotsStay(h: Heap, h1: Heap, h3: Heap, table: Table, rank: Rank, a: Addr, done: set<Slot>, slot: Slot,
      r: Value, n: nat)
    requires Progress(h, h1, table, rank, a, done, n) && slot in Slots(h[a]) && slot !in done
    requires Refines(h1, h3, table, rank) && slot in Slots(h1[a]) && h3[a] == Put(h1[a], slot, r)
    ensures forall s :: s in done && s in Slots(h[a]) ==>
      InHeap(h, At(h[a], s)) && InHeap(h3, At(h3[a], s))
      && (Fits(h, table, rank, At(h[a], s), n) ==> Resolved(h3, table, rank, At(h3[a], s)))
  {
    forall s | s in done && s in Slots(h[a])
      ensures InHeap(h, At(h[a], s)) && InHeap(h3, At(h3[a], s))
      ensures Fits(h, table, rank, At(h[a], s), n) ==> Resolved(h3, table, rank, At(h3[a], s))
    {
      assert At(h3[a], s) == At(h1[a], s);
      if Fits(h, table, rank, At(h[a], s), n) {
        FitsCarries(h1, h3, table, rank, At(h1[a], s), 0);
      }
    }
  }

  /** Writing a resolved child back into its slot. */
  lemma SlotWritten(h1: Heap, h2: Heap, table: Table, rank: Rank, a: Addr, slot: Slot, r: Value, n: nat)
    requires Refines(h1, h2, table, rank) && a in h1 && slot in Slots(h1[a]) && RefOf(h1[a]).None?
    requires InHeap(h1, At(h1[a], slot)) && RankOf(rank, At(h1[a], slot)) < RankOf(rank, Ptr(a))
    requires Achieved(h1, h2, table, rank, At(h1[a], slot), r, n)
    ensures a in h2 && h2[a] == h1[a]
    ensures
      var h3 := h2[a := Put(h1[a], slot, r)];
      && Refines(h2, h3, table, rank) && Refines(h1, h3, table, rank)
      && forall b :: b in h1 && RankOf(rank, Ptr(b)) > RankOf(rank, Ptr(a)) ==> h3[b] == h1[b]
  {
    assert h2[a] == h1[a];
    WriteRefines(h2, table, rank, a, slot, r);
    RefinesTransitive(h1, h2, h2[a := Put(h1[a], slot, r)], table, rank);
  }

  /** One more slot: the child was resolved to r, then r was written back. */
  lemma ProgressOne(h: Heap, h1: Heap, h2: Heap, table: Table, rank: Rank, a: Addr, done: set<Slot>, slot: Slot,
      r: Value, n: nat)
    requires Progress(h, h1, table, rank, a, done, n) && slot in Slots(h[a]) && slot !in done
    requires Refines(h1, h2, table, rank) && InHeap(h1, At(h1[a], slot))
    requires Achieved(h1, h2, table, rank, At(h1[a], slot), r, n)
    ensures a in h2 && slot in Slots(h2[a])
    ensures Progress(h, h2[a := Put(h2[a], slot, r)], table, rank, a, done + {slot}, n)
  {
    NextSlot(h, h1, table, rank, a, done, slot, n);
    SlotWritten(h1, h2, table, rank, a, slot, r, n);
    var h3 := h2[a := Put(h2[a], slot, r)];
    RefinesTransitive(h, h1, h3, table, rank);
    SlotResolved(h, h1, h2, h3, table, rank, At(h[a], slot), r, n);
    OtherSlotsStay(h, h1, h3, table, rank, a, done, slot, r, n);
    AboveTransitive(h, h1, h3, rank, a);
    SlotAdded(h, h3, table, rank, a, done, slot, n);
  }

  lemma SlotAdded(h: Heap, h3: Heap, table: Table, rank: Rank, a: Addr, done: set<Slot>, slot: Slot, n: nat)
    requires a in h && Refines(h, h3, table, rank) && RefOf(h[a]).None?
    requires Slots(h3[a]) == Slots(h[a]) && h3[a].ArrNode? == h[a].ArrNode?
    requires forall s :: s in Slots(h[a]) && s !in done && s != slot ==> At(h3[a], s) == At(h[a], s)
    requires forall s :: s in done && s in Slots(h[a]) ==>
      InHeap(h, At(h[a], s)) && InHeap(h3, At(h3[a], s))
      && (Fits(h, table, rank, At(h[a], s), n) ==> Resolved(h3, table, rank, At(h3[a], s)))
    requires slot in Slots(h[a]) && InHeap(h, At(h[a], slot)) && InHeap(h3, At(h3[a], slot))
    requires Fits(h, table, rank, At(h[a], slot), n) ==> Resolved(h3, table, rank, At(h3[a], slot))
    requires Above(h, h3, rank, Ptr(a))
    ensures Progress(h, h3, table, rank, a, done + {slot}, n)
  {
  }

  // --------------------------------------------------------- the resolver

  /** Pointers lead into the heap: what decoding a document gives, cyclic or not. */
  predicate Closed(h: Heap, table: Table) {
    && (forall a, s :: a in h && s in Slots(h[a]) ==> InHeap(h, At(h[a], s)))
    && (forall name :: name in table ==> InHeap(h, table[name]))
  }

  function Indexed(n: nat): seq<Slot> {
    seq(n, i requires 0 <= i < n => Index(i))
  }

  function Passed(slots: seq<Slot>): set<Slot> {
    set s | s in slots
  }

  /** The slots of a node in an order the resolver's loops can visit them: by
      index, or for an object in any order. */
  predicate OrderOf(order: seq<Slot>, node: Node) {
    match node
    case ArrNode(elems) => order == Indexed(|elems|)
    case ObjNode(_) => Distinct(order) && Passed(order) == Slots(node)
  }

  /** Resolving v may leave the heap h' and return r. */
  ghost predicate Resolves(h: Heap, table: Table, v: Value, depth: nat, h': Heap, r: Value)
    requires depth <= MAX_REF_DEPTH
    decreases MAX_REF_DEPTH - depth, 1, 0
  {
    if depth == MAX_REF_DEPTH || v.Leaf? || v.addr !in h then h' == h && r == v
    else if RefOf(h[v.addr]).Some? then
      var name := RefName(RefOf(h[v.addr]).value);
      if name in table then Resolves(h, table, table[name], depth + 1, h', r) else h' == h && r == v
    else
      r == v && exists order :: OrderOf(order, h[v.addr]) && ResolvesSlots(h, table, v.addr, order, depth, h')
  }

  /** Resolving the slots of the node at a in this order may leave the heap h'. */
  ghost predicate ResolvesSlots(h: Heap, table: Table, a: Addr, slots: seq<Slot>, depth: nat, h': Heap)
    requires depth < MAX_REF_DEPTH
    decreases MAX_REF_DEPTH - depth, 0, |slots|
  {
    if slots == [] then h' == h
    else
      var n := |slots| - 1;
      exists before ::
        ResolvesSlots(h, table, a, slots[..n], depth, before) && WritesSlot(before, table, a, slots[n], depth, h')
  }

  /** Resolving the child in a slot and writing the result back. */
  ghost predicate WritesSlot(h: Heap, table: Table, a: Addr, slot: Slot, depth: nat, h': Heap)
    requires depth < MAX_REF_DEPTH
    decreases MAX_REF_DEPTH - depth, 0, 0
  {
    && a in h && slot in Slots(h[a])
    && exists after, r ::
      && Resolves(h, table, At(h[a], slot), depth + 1, after, r)
      && a in after && slot in Slots(after[a])
      && h' == after[a := Put(after[a], slot, r)]
  }

  /** Resolving keeps which nodes there are and which slots they have. */
  predicate SameShape(h: Heap, h': Heap) {
    h'.Keys == h.Keys && forall a :: a in h ==> Slots(h'[a]) == Slots(h[a]) && h'[a].ArrNode? == h[a].ArrNode?
  }

  /** The document being imported. */
  class Document {
    var heap: Heap
    const table: Table

    constructor (heap: Heap, table: Table)
      ensures this.heap == heap && this.table == table
    {
      this.heap, this.table := heap, table;
    }

    /** resolveRefs: rewrites the children of arrays and objects in place, and
        returns the target of a $ref instead of the $ref. It ends on every document. */
    method ResolveRefs(v: Value, depth: nat) returns (r: Value)
      requires depth <= MAX_REF_DEPTH && Closed(heap, table) && InHeap(heap, v)
      modifies this`heap
      ensures Resolves(old(heap), table, v, depth, heap, r)
      ensures Closed(heap, table) && InHeap(heap, r) && SameShape(old(heap), heap)
      decreases MAX_REF_DEPTH - depth, 1, 0
    {
      if depth >= MAX_REF_DEPTH || v.Leaf? {
        return v;
      }
      if heap[v.addr].ArrNode? {
        ResolveElements(v.addr, depth);
        return v;
      }
      var ref := RefOf(heap[v.addr]);
      if ref.Some? {
        var name := RefName(ref.value);
        if name in table {
          r := ResolveRefs(table[name], depth + 1);
          return;
        }
        return v;
      }
      ghost var order := ResolveMembers(v.addr, depth);
      r := v;
    }

    /** One assignment of the resolver's loops. */
    method ResolveSlot(a: Addr, slot: Slot, depth: nat)
      requires depth < MAX_REF_DEPTH && Closed(heap, table) && a in heap && slot in Slots(heap[a])
      modifies this`heap
      ensures WritesSlot(old(heap), table, a, slot, depth, heap)
      ensures Closed(heap, table) && SameShape(old(heap), heap)
      decreases MAX_REF_DEPTH - depth, 0, 0
    {
      var child := At(heap[a], slot);
      var resolved := ResolveRefs(child, depth + 1);
      PutKeepsClosed(heap, table, a, slot, resolved);
      heap := heap[a := Put(heap[a], slot, resolved)];
    }

    /** The next slot of a loop that started from the heap h. */
    method ResolveNext(a: Addr, slot: Slot, depth: nat, ghost h: Heap, ghost done: seq<Slot>)
      requires depth < MAX_REF_DEPTH && Closed(heap, table) && SameShape(h, heap) && a in h && slot in Slots(h[a])
      requires ResolvesSlots(h, table, a, done, depth, heap)
      modifies this`heap
      ensures ResolvesSlots(h, table, a, done + [slot], depth, heap)
      ensures Closed(heap, table) && SameShape(h, heap)
      decreases MAX_REF_DEPTH - depth, 0, 1
    {
      ghost var before := heap;
      ResolveSlot(a, slot, depth);
      OneSlotMore(h, table, a, done, slot, depth, before, heap);
    }

    method ResolveElements(a: Addr, depth: nat)
      requires depth < MAX_REF_DEPTH && Closed(heap, table) && a in heap && heap[a].ArrNode?
      modifies this`heap
      ensures ResolvesSlots(old(heap), table, a, Indexed(|old(heap)[a].elems|), depth, heap)
      ensures Closed(heap, table) && SameShape(old(heap), heap)
      decreases MAX_REF_DEPTH - depth, 0, 2
    {
      var length := |heap[a].elems|;
      for i := 0 to length
        invariant Closed(heap, table) && SameShape(old(heap), heap)
        invariant ResolvesSlots(old(heap), table, a, Indexed(i), depth, heap)
      {
        IndexedNext(i);
        assert Index(i) in Slots(old(heap)[a]);
        ResolveNext(a, Index(i), depth, old(heap), Indexed(i));
      }
    }

    method ResolveMembers(a: Addr, depth: nat) returns (ghost order: seq<Slot>)
      requires depth < MAX_REF_DEPTH && Closed(heap, table) && a in heap && heap[a].ObjNode?
      modifies this`heap
      ensures Distinct(order) && Passed(order) == Slots(old(heap)[a])
      ensures ResolvesSlots(old(heap), table, a, order, depth, heap)
      ensures Closed(heap, table) && SameShape(old(heap), heap)
      decreases MAX_REF_DEPTH - depth, 0, 2
    {
      order := [];
      ghost var all := Slots(heap[a]);
      var pending := Slots(heap[a]);
      while pending != {}
        invariant pending <= all && Passed(order) == all - pending && Distinct(order)
        invariant Closed(heap, table) && SameShape(old(heap), heap)
        invariant ResolvesSlots(old(heap), table, a, order, depth, heap)
        decreases pending
      {
        var slot :| slot in pending;
        ResolveNext(a, slot, depth, old(heap), order);
        PassedMore(order, all, pending, slot);
        order := order + [slot];
        pending := pending - {slot};
      }
    }

    /** The operations of a document resolved one after the other on the shared
        heap, as the importer does. heaps lists the heap before the first and after
        each of them: the state each result is marshalled in. */
    method ResolveAll(roots: seq<Value>) returns (out: seq<Value>, ghost heaps: seq<Heap>)
      requires Closed(heap, table) && forall i :: 0 <= i < |roots| ==> InHeap(heap, roots[i])
      modifies this`heap
      ensures ResolvesInTurn(table, roots, out, heaps) && heaps[0] == old(heap)
    {
      out, heaps := [], [heap];
      for i := 0 to |roots|
        invariant Closed(heap, table) && heap.Keys == old(heap).Keys
        invariant heaps != [] && heaps[0] == old(heap) && heaps[|heaps| - 1] == heap
        invariant ResolvesInTurn(table, roots[..i], out, heaps)
      {
        var resolved := ResolveRefs(roots[i], 0);
        OneRootMore(table, roots, i, out, heaps, heap, resolved);
        out, heaps := out + [resolved], heaps + [heap];
      }
      assert roots[..|roots|] == roots;
    }
  }

  /** heaps are the heaps around resolving each root in turn. */
  ghost predicate ResolvesInTurn(table: Table, roots: seq<Value>, out: seq<Value>, heaps: seq<Heap>) {
    && |out| == |roots| && |heaps| == |roots| + 1
    && forall i :: 0 <= i < |roots| ==> Resolves(heaps[i], table, roots[i], 0, heaps[i + 1], out[i])
  }

  lemma OneRootMore(table: Table, roots: seq<Value>, i: nat, out: seq<Value>, heaps: seq<Heap>, h': Heap, r: Value)
    requires i < |roots| && ResolvesInTurn(table, roots[..i], out, heaps)
    requires Resolves(heaps[i], table, roots[i], 0, h', r)
    ensures ResolvesInTurn(table, roots[..i + 1], out + [r], heaps + [h'])
  {
    var next, more := out + [r], heaps + [h'];
    forall j | 0 <= j < i + 1
      ensures Resolves(more[j], table, roots[..i + 1][j], 0, more[j + 1], next[j])
    {
      if j < i {
        assert Resolves(heaps[j], table, roots[..i][j], 0, heaps[j + 1], out[j]);
      }
    }
  }

  lemma OneSlotMore(h: Heap, table: Table, a: Addr, done: seq<Slot>, slot: Slot, depth: nat, before: Heap, h': Heap)
    requires depth < MAX_REF_DEPTH && ResolvesSlots(h, table, a, done, depth, before)
    requires WritesSlot(before, table, a, slot, depth, h')
    ensures ResolvesSlots(h, table, a, done + [slot], depth, h')
  {
    assert (done + [slot])[..|done|] == done;
  }

  lemma PutKeepsClosed(h: Heap, table: Table, a: Addr, slot: Slot, v: Value)
    requires Closed(h, table) && a in h && slot in Slots(h[a]) && InHeap(h, v)
    ensures Closed(h[a := Put(h[a], slot, v)], table)
  {
  }

  lemma PassedMore(slots: seq<Slot>, all: set<Slot>, pending: set<Slot>, slot: Slot)
    requires Distinct(slots) && Passed(slots) == all - pending && slot in pending && pending <= all
    ensures Passed(slots + [slot]) == all - (pending - {slot}) && Distinct(slots + [slot])
  {
    assert slot !in Passed(slots);
    assert Passed(slots + [slot]) == Passed(slots) + {slot};
  }

  lemma IndexedNext(n: nat)
    ensures Indexed(n + 1) == Indexed(n) + [Index(n)]
  {
  }

  // ---------------------------------------------- what resolving achieves

  /** Resolving a value of an acyclic document whose $refs are guarded keeps every
      meaning; the result stands for the same and, if its expansion fits what is
      left of the limit, nothing resolvable is left in it. */
  lemma {:induction false} ResolvingAchieves(h: Heap, table: Table, rank: Rank, v: Value, depth: nat, h': Heap,
      r: Value, n: nat)
    requires depth <= MAX_REF_DEPTH && n == MAX_REF_DEPTH - depth
    requires Acyclic(h, table, rank) && InHeap(h, v) && Guarded(h, table, rank)
    requires Resolves(h, table, v, depth, h', r)
    ensures Refines(h, h', table, rank) && Achieved(h, h', table, rank, v, r, n)
    decreases MAX_REF_DEPTH - depth, 2, 0
  {
    Untouched(h, table, rank, v, n);
    if depth < MAX_REF_DEPTH && v.Ptr? {
      var ref := RefOf(h[v.addr]);
      if ref.Some? && RefName(ref.value) in table {
        RankedTarget(h, table, rank, v);
        ResolvingAchieves(h, table, rank, table[RefName(ref.value)], depth + 1, h', r, n - 1);
        FollowedRef(h, h', table, rank, v, r, n);
      } else if ref.Some? {
        DanglingRef(h, table, rank, v, n);
      } else {
        var order := SlotOrder(h, table, v, depth, h', r);
        assert v == Ptr(v.addr);
        NodeAchieves(h, table, rank, v.addr, order, depth, h', n);
      }
    }
  }

  lemma {:induction false} NodeAchieves(h: Heap, table: Table, rank: Rank, a: Addr, order: seq<Slot>, depth: nat,
      h': Heap, n: nat)
    requires depth < MAX_REF_DEPTH && n == MAX_REF_DEPTH - depth
    requires Acyclic(h, table, rank) && a in h && RefOf(h[a]).None? && Guarded(h, table, rank)
    requires Distinct(order) && Passed(order) == Slots(h[a]) && ResolvesSlots(h, table, a, order, depth, h')
    ensures Refines(h, h', table, rank) && Achieved(h, h', table, rank, Ptr(a), Ptr(a), n)
    decreases MAX_REF_DEPTH - depth, 1, 0
  {
    SlotsProgress(h, table, rank, a, order, Slots(h[a]), depth, h', n - 1);
    FinishedNode(h, h', table, rank, a, Slots(h[a]), n);
  }

  lemma SlotOrder(h: Heap, table: Table, v: Value, depth: nat, h': Heap, r: Value) returns (order: seq<Slot>)
    requires depth < MAX_REF_DEPTH && v.Ptr? && v.addr in h && RefOf(h[v.addr]).None?
    requires Resolves(h, table, v, depth, h', r)
    ensures r == v && Passed(order) == Slots(h[v.addr]) && Distinct(order)
    ensures ResolvesSlots(h, table, v.addr, order, depth, h')
  {
    order :| OrderOf(order, h[v.addr]) && ResolvesSlots(h, table, v.addr, order, depth, h');
    OrderCovers(order, h[v.addr]);
  }

  lemma OrderCovers(order: seq<Slot>, node: Node)
    requires OrderOf(order, node)
    ensures Passed(order) == Slots(node) && Distinct(order)
  {
    match node
    case ArrNode(elems) =>
      forall s | s in Slots(node)
        ensures s in order
      {
        assert order[s.i] == s;
      }
    case ObjNode(_) =>
  }

  /** The loop over a node's slots, as far as it has come. */
  lemma {:induction false} SlotsProgress(h: Heap, table: Table, rank: Rank, a: Addr, slots: seq<Slot>,
      done: set<Slot>, depth: nat, h': Heap, n: nat)
    requires depth < MAX_REF_DEPTH && n == MAX_REF_DEPTH - (depth + 1)
    requires Acyclic(h, table, rank) && a in h && RefOf(h[a]).None? && Guarded(h, table, rank)
    requires done == Passed(slots) <= Slots(h[a]) && Distinct(slots)
    requires ResolvesSlots(h, table, a, slots, depth, h')
    ensures Progress(h, h', table, rank, a, done, n)
    decreases MAX_REF_DEPTH - depth, 0, |slots|
  {
    if slots == [] {
      assert done == {};
      Starting(h, table, rank, a, n);
    } else {
      var k := |slots| - 1;
      var before, after, r := LastWrite(h, table, a, slots, depth, h');
      var front := done - {slots[k]};
      PassedLast(slots);
      assert front == Passed(slots[..k]);
      SlotsProgress(h, table, rank, a, slots[..k], front, depth, before, n);
      WriteProgress(h, before, after, h', table, rank, a, front, done, slots[k], r, depth + 1, n);
    }
  }

  lemma SlotWitness(h: Heap, table: Table, a: Addr, slot: Slot, depth: nat, h': Heap) returns (after: Heap, r: Value)
    requires depth < MAX_REF_DEPTH && WritesSlot(h, table, a, slot, depth, h')
    ensures a in h && slot in Slots(h[a]) && Resolves(h, table, At(h[a], slot), depth + 1, after, r)
    ensures a in after && slot in Slots(after[a]) && h' == after[a := Put(after[a], slot, r)]
  {
    after, r :|
      && Resolves(h, table, At(h[a], slot), depth + 1, after, r)
      && a in after && slot in Slots(after[a])
      && h' == after[a := Put(after[a], slot, r)];
  }

  /** The heaps around the last assignment of a loop. */
  lemma LastWrite(h: Heap, table: Table, a: Addr, slots: seq<Slot>, depth: nat, h': Heap)
      returns (before: Heap, after: Heap, r: Value)
    requires depth < MAX_REF_DEPTH && slots != [] && ResolvesSlots(h, table, a, slots, depth, h')
    ensures ResolvesSlots(h, table, a, slots[..|slots| - 1], depth, before)
    ensures
      var slot := slots[|slots| - 1];
      && a in before && slot in Slots(before[a]) && Resolves(before, table, At(before[a], slot), depth + 1, after, r)
      && a in after && slot in Slots(after[a]) && h' == after[a := Put(after[a], slot, r)]
  {
    var k := |slots| - 1;
    before :|
      && ResolvesSlots(h, table, a, slots[..k], depth, before)
      && WritesSlot(before, table, a, slots[k], depth, h');
    after, r := SlotWitness(before, table, a, slots[k], depth, h');
  }

  lemma {:induction false} WriteProgress(h: Heap, before: Heap, after: Heap, h': Heap, table: Table, rank: Rank,
      a: Addr, done: set<Slot>, next: set<Slot>, slot: Slot, r: Value, depth: nat, n: nat)
    requires depth <= MAX_REF_DEPTH && n == MAX_REF_DEPTH - depth
    requires Progress(h, before, table, rank, a, done, n) && slot in Slots(h[a]) && slot !in done
    requires a in before && slot in Slots(before[a])
    requires Resolves(before, table, At(before[a], slot), depth, after, r)
    requires a in after && slot in Slots(after[a]) && h' == after[a := Put(after[a], slot, r)]
    requires next == done + {slot}
    ensures Progress(h, h', table, rank, a, next, n)
    decreases MAX_REF_DEPTH - depth, 3, 0
  {
    NextSlot(h, before, table, rank, a, done, slot, n);
    ResolvingAchieves(before, table, rank, At(before[a], slot), depth, after, r, n);
    ProgressOne(h, before, after, table, rank, a, done, slot, r, n);
  }

  lemma PassedLast(slots: seq<Slot>)
    requires slots != [] && Distinct(slots)
    ensures
      var k := |slots| - 1;
      && Passed(slots) == Passed(slots[..k]) + {slots[k]} && slots[k] !in Passed(slots[..k])
      && Distinct(slots[..k])
  {
    var k := |slots| - 1;
    assert slots == slots[..k] + [slots[k]];
  }

  /** w is the full unfolding of v in h, if that fits the limit. */
  ghost predicate WrittenAsFresh(h: Heap, table: Table, rank: Rank, v: Value, w: Tree)
    requires Acyclic(h, table, rank) && InHeap(h, v)
  {
    Fits(h, table, rank, v, MAX_REF_DEPTH) ==> w == Unfold(h, table, rank, v)
  }

  /** Resolving after any earlier resolutions writes what the original document
      means. */
  lemma ResolvedAsFresh(h: Heap, h1: Heap, h2: Heap, table: Table, rank: Rank, v: Value, r: Value)
    requires Refines(h, h1, table, rank) && InHeap(h, v) && Resolves(h1, table, v, 0, h2, r)
    ensures Refines(h, h2, table, rank) && InHeap(h2, r)
    ensures WrittenAsFresh(h, table, rank, v, Written(h2, table, rank, r))
  {
    ResolvingAchieves(h1, table, rank, v, 0, h2, r, MAX_REF_DEPTH);
    RefinesTransitive(h, h1, h2, table, rank);
    assert SameMeaning(h, h2, table, rank, v);
    if Fits(h, table, rank, v, MAX_REF_DEPTH) {
      FitsCarries(h, h1, table, rank, v, MAX_REF_DEPTH);
      ResolvedIsWritten(h2, table, rank, r);
    }
  }

  /** All resolutions together keep every meaning. */
  lemma {:induction false} InTurnRefines(table: Table, rank: Rank, roots: seq<Value>, out: seq<Value>,
      heaps: seq<Heap>, i: nat)
    requires ResolvesInTurn(table, roots, out, heaps) && i <= |roots|
    requires Acyclic(heaps[0], table, rank) && Guarded(heaps[0], table, rank)
    requires forall j :: 0 <= j < |roots| ==> InHeap(heaps[0], roots[j])
    ensures Refines(heaps[0], heaps[i], table, rank)
    decreases i
  {
    if i == 0 {
      RefinesSelf(heaps[0], table, rank);
    } else {
      InTurnRefines(table, rank, roots, out, heaps, i - 1);
      ResolvingAchieves(heaps[i - 1], table, rank, roots[i - 1], 0, heaps[i], out[i - 1], MAX_REF_DEPTH);
      RefinesTransitive(heaps[0], heaps[i - 1], heaps[i], table, rank);
    }
  }

  /** For the operations of a document in turn, each schema that fits the limit is
      written out as its full unfolding in the document as it was parsed. */
  lemma AllWrittenAsFresh(table: Table, rank: Rank, roots: seq<Value>, out: seq<Value>, heaps: seq<Heap>, i: nat)
    requires ResolvesInTurn(table, roots, out, heaps) && i < |roots|
    requires Acyclic(heaps[0], table, rank) && Guarded(heaps[0], table, rank)
    requires forall j :: 0 <= j < |roots| ==> InHeap(heaps[0], roots[j])
    ensures Refines(heaps[0], heaps[i + 1], table, rank) && InHeap(heaps[i + 1], out[i])
    ensures WrittenAsFresh(heaps[0], table, rank, roots[i], Written(heaps[i + 1], table, rank, out[i]))
  {
    InTurnRefines(table, rank, roots, out, heaps, i);
    ResolvedAsFresh(heaps[0], heaps[i], heaps[i + 1], table, rank, roots[i], out[i]);
  }

  // --------------------------------------------------- what a $ref names

  /** A $ref object stands for the table entry it names. */
  lemma RefStandsForEntry(h: Heap, table: Table, rank: Rank, a: Addr, name: string)
    requires Acyclic(h, table, rank) && a in h && RefOf(h[a]).Some? && RefersTo(RefOf(h[a]).value, name)
    requires name in table
    ensures Unfold(h, table, rank, Ptr(a)) == Unfold(h, table, rank, table[name])
  {
    RefersToIff(RefOf(h[a]).value, name);
    assert NodeRanked(h, table, rank, a);
  }

  /** Resolving a $ref object is resolving the entry it names, one level deeper; a
      name that is no entry leaves everything alone. Cyclic documents included. */
  lemma RefIsFollowed(h: Heap, table: Table, a: Addr, name: string, depth: nat, h': Heap, r: Value)
    requires depth < 10 && a in h && RefOf(h[a]).Some? && RefersTo(RefOf(h[a]).value, name)
    ensures Resolves(h, table, Ptr(a), depth, h', r) <==>
      if name in table then Resolves(h, table, table[name], depth + 1, h', r) else h' == h && r == Ptr(a)
  {
    RefersToIff(RefOf(h[a]).value, name);
  }

  /** What the resolver returns for a $ref object is written as the full unfolding
      of the entry it names, if that fits the limit. */
  lemma RefIsWrittenAsEntry(h: Heap, table: Table, rank: Rank, a: Addr, name: string, h': Heap, r: Value)
    requires Acyclic(h, table, rank) && Guarded(h, table, rank)
    requires a in h && RefOf(h[a]).Some? && RefersTo(RefOf(h[a]).value, name) && name in table
    requires Resolves(h, table, Ptr(a), 0, h', r) && Fits(h, table, rank, Ptr(a), 10)
    ensures Acyclic(h', table, rank) && InHeap(h', r)
    ensures Written(h', table, rank, r) == Unfold(h, table, rank, table[name])
  {
    RefinesSelf(h, table, rank);
    ResolvedAsFresh(h, h, h', table, rank, Ptr(a), r);
    RefStandsForEntry(h, table, rank, a, name);
  }
}
