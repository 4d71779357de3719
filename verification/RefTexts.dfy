/** Exactly which documents the resolver turns an object into a `$ref` of: those in
    which an object's `$ref` member leads through `$ref`s to a text. */
module RefTexts {
  import opened Basics
  import opened Json
  import opened Refs

  // ------------------------------------------------------ following $refs

  /** v is a $ref whose target is in the table. */
  predicate Followed(h: Heap, table: Table, v: Value) {
    v.Ptr? && v.addr in h && RefOf(h[v.addr]).Some? && RefName(RefOf(h[v.addr]).value) in table
  }

  function Target(h: Heap, table: Table, v: Value): Value
    requires Followed(h, table, v)
  {
    table[RefName(RefOf(h[v.addr]).value)]
  }

  /** v is the text, or leads to it through at most k $refs. */
  predicate Leads(h: Heap, table: Table, v: Value, text: string, k: nat)
    decreases k
  {
    v == Leaf(Str(text)) || (k > 0 && Followed(h, table, v) && Leads(h, table, Target(h, table, v), text, k - 1))
  }

  /** v is followed through at least k $refs. */
  predicate Chain(h: Heap, table: Table, v: Value, k: nat)
    decreases k
  {
    k > 0 ==> Followed(h, table, v) && Chain(h, table, Target(h, table, v), k - 1)
  }

  function Less(k: nat, n: nat): nat {
    if k > n then k - n else 0
  }

  /** What is a $ref in g is the same $ref in h. */
  predicate RefsStay(g: Heap, h: Heap) {
    forall b :: b in g ==> b in h && (RefOf(g[b]).Some? ==> RefOf(h[b]) == RefOf(g[b]))
  }

  /** Resolving what leads to a text writes nothing and comes as much closer as
      the limit allows. */
  lemma {:induction false} ResolvingShortens(
      g: Heap, h: Heap, table: Table, v: Value, text: string, k: nat, depth: nat, h': Heap, r: Value)
    requires depth <= MAX_REF_DEPTH && RefsStay(g, h) && Leads(g, table, v, text, k)
    requires Resolves(h, table, v, depth, h', r)
    ensures h' == h && Leads(g, table, r, text, Less(k, MAX_REF_DEPTH - depth))
    decreases k
  {
    if v != Leaf(Str(text)) && depth < MAX_REF_DEPTH {
      ResolvingShortens(g, h, table, Target(g, table, v), text, k - 1, depth + 1, h', r);
    }
  }

  lemma LeafStays(h: Heap, table: Table, v: Value, depth: nat, h': Heap, r: Value)
    requires depth <= MAX_REF_DEPTH && Resolves(h, table, v, depth, h', r)
    ensures v.Leaf? ==> r == v
  {
  }

  /** A $ref that takes more steps than are left is resolved to a $ref that could be
      followed further. */
  lemma {:induction false} LimitStopsFollowing(h: Heap, table: Table, v: Value, depth: nat, h': Heap, r: Value)
    requires depth <= MAX_REF_DEPTH && Chain(h, table, v, MAX_REF_DEPTH - depth + 1)
    requires Resolves(h, table, v, depth, h', r)
    ensures h' == h && Followed(h, table, r)
    decreases MAX_REF_DEPTH - depth
  {
    if depth < MAX_REF_DEPTH {
      LimitStopsFollowing(h, table, Target(h, table, v), depth + 1, h', r);
    }
  }

  /** So the limit is ten: a text is reached through ten $refs and not through more. */
  lemma TenAreFollowed(h: Heap, table: Table, v: Value, text: string, h': Heap, r: Value)
    requires Resolves(h, table, v, 0, h', r)
    ensures Leads(h, table, v, text, 10) ==> h' == h && r == Leaf(Str(text))
    ensures Chain(h, table, v, 11) ==> h' == h && Followed(h, table, r)
  {
    if Leads(h, table, v, text, 10) {
      ResolvingShortens(h, h, table, v, text, 10, 0, h', r);
    }
    if Chain(h, table, v, 11) {
      LimitStopsFollowing(h, table, v, 0, h', r);
    }
  }

  // --------------------------------------------------- the member under $ref

  function RefMember(node: Node): Option<Value> {
    if node.ObjNode? && "$ref" in node.members then Some(node.members["$ref"]) else None
  }

  lemma RefMemberOfPut(node: Node, slot: Slot, v: Value)
    requires slot in Slots(node)
    ensures RefMember(Put(node, slot, v)) == if slot == Member("$ref") then Some(v) else RefMember(node)
    ensures slot == Member("$ref") ==> RefMember(node) == Some(At(node, slot))
  {
  }

  lemma {:induction false} LeadsMonotone(h: Heap, table: Table, v: Value, text: string, k: nat, n: nat)
    requires Leads(h, table, v, text, k) && k <= n
    ensures Leads(h, table, v, text, n)
    decreases k
  {
    if v != Leaf(Str(text)) {
      LeadsMonotone(h, table, Target(h, table, v), text, k - 1, n - 1);
    }
  }

  /** h still has g's $refs, and a's $ref member leads in g to the text. */
  predicate Led(g: Heap, h: Heap, table: Table, a: Addr, text: string, k: nat) {
    && RefsStay(g, h)
    && a in h && RefMember(h[a]).Some? && Leads(g, table, RefMember(h[a]).value, text, k)
  }

  lemma {:induction false} ResolvingKeepsLed(
      g: Heap, h: Heap, table: Table, v: Value, depth: nat, h': Heap, r: Value, a: Addr, text: string, k: nat)
    requires depth <= MAX_REF_DEPTH && Resolves(h, table, v, depth, h', r) && Led(g, h, table, a, text, k)
    ensures Led(g, h', table, a, text, k)
    decreases MAX_REF_DEPTH - depth, 1, 0
  {
    if depth == MAX_REF_DEPTH || v.Leaf? || v.addr !in h {
    } else if Followed(h, table, v) {
      ResolvingKeepsLed(g, h, table, Target(h, table, v), depth + 1, h', r, a, text, k);
    } else if RefOf(h[v.addr]).None? {
      var order := SlotOrder(h, table, v, depth, h', r);
      SlotsKeepLed(g, h, table, v.addr, order, depth, h', a, text, k);
    }
  }

  lemma {:induction false} SlotsKeepLed(
      g: Heap, h: Heap, table: Table, b: Addr, slots: seq<Slot>, depth: nat, h': Heap, a: Addr, text: string, k: nat)
    requires depth < MAX_REF_DEPTH && ResolvesSlots(h, table, b, slots, depth, h') && Led(g, h, table, a, text, k)
    ensures Led(g, h', table, a, text, k)
    decreases MAX_REF_DEPTH - depth, 0, |slots|
  {
    if slots == [] {
    } else {
      var before, after, r := LastWrite(h, table, b, slots, depth, h');
      SlotsKeepLed(g, h, table, b, slots[..|slots| - 1], depth, before, a, text, k);
      WriteKeepsLed(g, before, table, b, slots[|slots| - 1], depth, after, r, h', a, text, k);
    }
  }

  lemma {:induction false} WriteKeepsLed(g: Heap, h: Heap, table: Table, b: Addr, slot: Slot, depth: nat, after: Heap,
                                         r: Value, h': Heap, a: Addr, text: string, k: nat)
    requires depth < MAX_REF_DEPTH && b in h && slot in Slots(h[b]) && Led(g, h, table, a, text, k)
    requires Resolves(h, table, At(h[b], slot), depth + 1, after, r) && b in after && slot in Slots(after[b])
    requires h' == after[b := Put(after[b], slot, r)]
    ensures Led(g, h', table, a, text, k)
    decreases MAX_REF_DEPTH - depth, 0, 0
  {
    ResolvingKeepsLed(g, h, table, At(h[b], slot), depth + 1, after, r, a, text, k);
    LeafStays(h, table, At(h[b], slot), depth + 1, after, r);
    RefMemberOfPut(h[b], slot, r);
    if a == b && slot == Member("$ref") {
      ResolvingShortens(g, h, table, At(h[b], slot), text, k, depth + 1, after, r);
      LeadsMonotone(g, table, r, text, Less(k, MAX_REF_DEPTH - (depth + 1)), k);
    }
    PutKeepsLed(g, h, after, table, b, slot, r, h', a, text, k);
  }

  lemma PutKeepsLed(g: Heap, h: Heap, after: Heap, table: Table, b: Addr, slot: Slot, r: Value, h': Heap,
                    a: Addr, text: string, k: nat)
    requires Led(g, h, table, a, text, k) && Led(g, after, table, a, text, k)
    requires b in h && b in after && slot in Slots(after[b]) && h' == after[b := Put(after[b], slot, r)]
    requires slot == Member("$ref") ==>
      && RefMember(h[b]).Some? && (RefMember(h[b]).value.Leaf? ==> r == RefMember(h[b]).value)
      && (a == b ==> Leads(g, table, r, text, k))
    ensures Led(g, h', table, a, text, k)
  {
    RefMemberOfPut(after[b], slot, r);
  }

  /** A loop over a's slots at the top of a resolution comes closer to the text. */
  lemma {:induction false} SlotsShorten(
      g: Heap, h: Heap, table: Table, a: Addr, slots: seq<Slot>, depth: nat, h': Heap, text: string, k: nat)
    requires depth == 0 && ResolvesSlots(h, table, a, slots, depth, h')
    requires Member("$ref") in slots && Led(g, h, table, a, text, k)
    ensures Led(g, h', table, a, text, Less(k, MAX_REF_DEPTH - 1))
    decreases |slots|
  {
    var n := |slots| - 1;
    var before, after, r := LastWrite(h, table, a, slots, depth, h');
    if slots[n] == Member("$ref") {
      SlotsKeepLed(g, h, table, a, slots[..n], depth, before, a, text, k);
      WriteShortens(g, before, table, a, slots[n], depth, after, r, h', text, k);
    } else {
      SlotsShorten(g, h, table, a, slots[..n], depth, before, text, k);
      WriteKeepsLed(g, before, table, a, slots[n], depth, after, r, h', a, text, Less(k, MAX_REF_DEPTH - 1));
    }
  }

  lemma WriteShortens(g: Heap, h: Heap, table: Table, a: Addr, slot: Slot, depth: nat, after: Heap, r: Value,
                      h': Heap, text: string, k: nat)
    requires slot == Member("$ref") && depth == 0 && a in h && slot in Slots(h[a]) && Led(g, h, table, a, text, k)
    requires Resolves(h, table, At(h[a], slot), depth + 1, after, r) && a in after && slot in Slots(after[a])
    requires h' == after[a := Put(after[a], slot, r)]
    ensures Led(g, h', table, a, text, Less(k, MAX_REF_DEPTH - 1))
  {
    RefMemberOfPut(h[a], slot, r);
    ResolvingShortens(g, h, table, At(h[a], slot), text, k, 1, after, r);
    LeafStays(h, table, At(h[a], slot), 1, after, r);
    PutShortens(g, h, table, a, r, h', text, k, Less(k, MAX_REF_DEPTH - 1));
  }

  lemma PutShortens(g: Heap, h: Heap, table: Table, a: Addr, r: Value, h': Heap, text: string, k: nat, n: nat)
    requires Led(g, h, table, a, text, k) && Leads(g, table, r, text, n)
    requires RefMember(h[a]).value.Leaf? ==> r == RefMember(h[a]).value
    requires Member("$ref") in Slots(h[a]) && h' == h[a := Put(h[a], Member("$ref"), r)]
    ensures Led(g, h', table, a, text, n)
  {
    RefMemberOfPut(h[a], Member("$ref"), r);
  }

  /** Resolving an object brings its $ref member closer to the text. */
  lemma ObjectShortens(g: Heap, h: Heap, table: Table, a: Addr, h': Heap, r: Value, text: string, k: nat)
    requires Led(g, h, table, a, text, k) && RefOf(h[a]).None? && Resolves(h, table, Ptr(a), 0, h', r)
    ensures Led(g, h', table, a, text, Less(k, MAX_REF_DEPTH - 1))
  {
    var order := SlotOrder(h, table, Ptr(a), 0, h', r);
    assert Member("$ref") in Passed(order);
    SlotsShorten(g, h, table, a, order, 0, h', text, k);
  }

  /** In every document, cyclic ones included: resolving an object whose $ref member
      leads to a text makes it the $ref to that text. */
  lemma ObjectBecomesRef(h: Heap, table: Table, a: Addr, h': Heap, r: Value, text: string, k: nat)
    requires a in h && RefOf(h[a]).None? && Member("$ref") in Slots(h[a]) && k < MAX_REF_DEPTH
    requires Leads(h, table, At(h[a], Member("$ref")), text, k) && Resolves(h, table, Ptr(a), 0, h', r)
    ensures a in h' && RefOf(h'[a]) == Some(text)
  {
    ObjectShortens(h, h, table, a, h', r, text, k);
  }

  // ------------------------------------------------ some resolution exists

  lemma {:induction false} OrderExists(slots: set<Slot>) returns (order: seq<Slot>)
    ensures Distinct(order) && Passed(order) == slots
  {
    if slots == {} {
      order := [];
    } else {
      var slot :| slot in slots;
      var front := OrderExists(slots - {slot});
      PassedMore(front, slots, {slot}, slot);
      order := front + [slot];
    }
  }

  lemma NodeOrderExists(node: Node) returns (order: seq<Slot>)
    ensures OrderOf(order, node) && Passed(order) == Slots(node)
  {
    if node.ArrNode? {
      order := Indexed(|node.elems|);
    } else {
      order := OrderExists(Slots(node));
    }
    OrderCovers(order, node);
  }

  /** Every value of every document has a resolution. */
  lemma {:induction false} ResolutionExists(h: Heap, table: Table, v: Value, depth: nat) returns (h': Heap, r: Value)
    requires depth <= MAX_REF_DEPTH && Closed(h, table) && InHeap(h, v)
    ensures Resolves(h, table, v, depth, h', r)
    ensures Closed(h', table) && InHeap(h', r) && SameShape(h, h')
    decreases MAX_REF_DEPTH - depth, 1, 0
  {
    if depth == MAX_REF_DEPTH || v.Leaf? || (RefOf(h[v.addr]).Some? && !Followed(h, table, v)) {
      h', r := h, v;
    } else if Followed(h, table, v) {
      h', r := ResolutionExists(h, table, Target(h, table, v), depth + 1);
    } else {
      var order := NodeOrderExists(h[v.addr]);
      h' := SlotsResolutionExists(h, table, v.addr, order, depth);
      r := v;
    }
  }

  lemma {:induction false} SlotsResolutionExists(h: Heap, table: Table, a: Addr, slots: seq<Slot>, depth: nat)
      returns (h': Heap)
    requires depth < MAX_REF_DEPTH && Closed(h, table) && a in h && Passed(slots) <= Slots(h[a])
    ensures ResolvesSlots(h, table, a, slots, depth, h')
    ensures Closed(h', table) && SameShape(h, h')
    decreases MAX_REF_DEPTH - depth, 0, |slots|
  {
    if slots == [] {
      h' := h;
    } else {
      var n := |slots| - 1;
      PassedFront(slots);
      var before := SlotsResolutionExists(h, table, a, slots[..n], depth);
      h' := WriteExists(before, table, a, slots[n], depth);
    }
  }

  lemma PassedFront(slots: seq<Slot>)
    requires slots != []
    ensures slots[|slots| - 1] in Passed(slots) && Passed(slots[..|slots| - 1]) <= Passed(slots)
  {
  }

  lemma {:induction false} WriteExists(h: Heap, table: Table, a: Addr, slot: Slot, depth: nat) returns (h': Heap)
    requires depth < MAX_REF_DEPTH && Closed(h, table) && a in h && slot in Slots(h[a])
    ensures WritesSlot(h, table, a, slot, depth, h')
    ensures Closed(h', table) && SameShape(h, h')
    decreases MAX_REF_DEPTH - depth, 0, 0
  {
    var after, r := ResolutionExists(h, table, At(h[a], slot), depth + 1);
    PutKeepsClosed(after, table, a, slot, r);
    h' := after[a := Put(after[a], slot, r)];
  }

  // --------------------------------------------------- the exact condition

  /** v leads to a text, through any number of $refs. */
  ghost predicate LeadsToText(h: Heap, table: Table, v: Value) {
    exists text, k: nat :: Leads(h, table, v, text, k)
  }

  lemma LeadsOneMore(h: Heap, table: Table, v: Value)
    requires Followed(h, table, v) && LeadsToText(h, table, Target(h, table, v))
    ensures LeadsToText(h, table, v)
  {
    var text, k: nat :| Leads(h, table, Target(h, table, v), text, k);
    assert Leads(h, table, v, text, k + 1);
  }

  lemma TextLeads(h: Heap, table: Table, text: string)
    ensures LeadsToText(h, table, Leaf(Str(text)))
  {
    assert Leads(h, table, Leaf(Str(text)), text, 0);
  }

  /** If h has an array or object under a's $ref, it does not lead to a text in g. */
  ghost predicate NoTextUnderRef(g: Heap, h: Heap, table: Table, a: Addr)
    requires a in h
  {
    RefMember(h[a]).Some? && RefMember(h[a]).value.Ptr? ==> !LeadsToText(g, table, RefMember(h[a]).value)
  }

  /** No array or object under a $ref leads to a text. */
  ghost predicate TextFree(h: Heap, table: Table) {
    forall a :: a in h ==> NoTextUnderRef(h, h, table, a)
  }

  /** Every node is a $ref in h if it is one in g, and then the same. */
  predicate SameRefs(g: Heap, h: Heap) {
    h.Keys == g.Keys && forall a :: a in g ==> RefOf(h[a]) == RefOf(g[a])
  }

  /** h has the $refs of g, and what stands under them leads to no text in g. */
  ghost predicate Free(g: Heap, h: Heap, table: Table) {
    SameRefs(g, h) && forall a :: a in h ==> NoTextUnderRef(g, h, table, a)
  }

  lemma {:induction false} ResolvingKeepsFree(
      g: Heap, h: Heap, table: Table, v: Value, depth: nat, h': Heap, r: Value)
    requires depth <= MAX_REF_DEPTH && Resolves(h, table, v, depth, h', r) && Free(g, h, table)
    ensures Free(g, h', table)
    ensures LeadsToText(g, table, r) ==> LeadsToText(g, table, v)
    decreases MAX_REF_DEPTH - depth, 1, 0
  {
    if depth == MAX_REF_DEPTH || v.Leaf? || v.addr !in h {
    } else if Followed(h, table, v) {
      ResolvingKeepsFree(g, h, table, Target(h, table, v), depth + 1, h', r);
      if LeadsToText(g, table, r) {
        LeadsOneMore(g, table, v);
      }
    } else if RefOf(h[v.addr]).None? {
      var order := SlotOrder(h, table, v, depth, h', r);
      SlotsKeepFree(g, h, table, v.addr, order, depth, h');
    }
  }

  lemma {:induction false} SlotsKeepFree(
      g: Heap, h: Heap, table: Table, b: Addr, slots: seq<Slot>, depth: nat, h': Heap)
    requires depth < MAX_REF_DEPTH && ResolvesSlots(h, table, b, slots, depth, h') && Free(g, h, table)
    ensures Free(g, h', table)
    decreases MAX_REF_DEPTH - depth, 0, |slots|
  {
    if slots == [] {
    } else {
      var slot := slots[|slots| - 1];
      var before, after, r := LastWrite(h, table, b, slots, depth, h');
      SlotsKeepFree(g, h, table, b, slots[..|slots| - 1], depth, before);
      ResolvingKeepsFree(g, before, table, At(before[b], slot), depth + 1, after, r);
      LeafStays(before, table, At(before[b], slot), depth + 1, after, r);
      RefMemberOfPut(before[b], slot, r);
      PutKeepsFree(g, before, after, table, b, slot, r, h');
    }
  }

  lemma PutKeepsFree(g: Heap, h: Heap, after: Heap, table: Table, b: Addr, slot: Slot, r: Value, h': Heap)
    requires Free(g, h, table) && Free(g, after, table) && b in h && b in after && slot in Slots(after[b])
    requires slot == Member("$ref") ==>
      && RefMember(h[b]).Some? && (RefMember(h[b]).value.Leaf? ==> r == RefMember(h[b]).value)
      && (LeadsToText(g, table, r) ==> LeadsToText(g, table, RefMember(h[b]).value))
    requires h' == after[b := Put(after[b], slot, r)]
    ensures Free(g, h', table)
  {
    RefMemberOfPut(after[b], slot, r);
    assert NoTextUnderRef(g, h, table, b) && NoTextUnderRef(g, after, table, b);
    if r.Leaf? && r.j.Str? {
      TextLeads(g, table, r.j.s);
    }
    assert RefOf(h'[b]) == RefOf(g[b]);
    assert NoTextUnderRef(g, h', table, b);
    forall a | a in h' && a != b
      ensures NoTextUnderRef(g, h', table, a)
    {
      assert NoTextUnderRef(g, after, table, a);
    }
  }

  // ------------------------------------------------ all operations in turn

  /** A run of the importer on the document: values of it resolved in turn. */
  ghost predicate RunFrom(h: Heap, table: Table, roots: seq<Value>, out: seq<Value>, heaps: seq<Heap>) {
    && ResolvesInTurn(table, roots, out, heaps) && heaps[0] == h
    && forall i :: 0 <= i < |roots| ==> InHeap(h, roots[i])
  }

  /** No run makes a $ref of a node, or changes one. */
  ghost predicate KeepsRefs(h: Heap, table: Table) {
    forall roots, out, heaps :: RunFrom(h, table, roots, out, heaps) ==> SameRefs(h, heaps[|roots|])
  }

  lemma {:induction false} RunKeepsFree(
      h: Heap, table: Table, roots: seq<Value>, out: seq<Value>, heaps: seq<Heap>, i: nat)
    requires TextFree(h, table) && RunFrom(h, table, roots, out, heaps) && i <= |roots|
    ensures Free(h, heaps[i], table)
    decreases i
  {
    if i == 0 {
    } else {
      RunKeepsFree(h, table, roots, out, heaps, i - 1);
      ResolvingKeepsFree(h, heaps[i - 1], table, roots[i - 1], 0, heaps[i], out[i - 1]);
    }
  }

  lemma RunsCons(h: Heap, table: Table, v: Value, r: Value, roots: seq<Value>, out: seq<Value>, heaps: seq<Heap>)
    requires heaps != [] && Resolves(h, table, v, 0, heaps[0], r) && ResolvesInTurn(table, roots, out, heaps)
    ensures ResolvesInTurn(table, [v] + roots, [r] + out, [h] + heaps)
  {
    var all, more, outs := [v] + roots, [h] + heaps, [r] + out;
    forall i | 0 <= i < |all|
      ensures Resolves(more[i], table, all[i], 0, more[i + 1], outs[i])
    {
      if i == 0 {
        assert more[1] == heaps[0];
      } else {
        assert more[i] == heaps[i - 1] && more[i + 1] == heaps[i] && all[i] == roots[i - 1] && outs[i] == out[i - 1];
        assert Resolves(heaps[i - 1], table, roots[i - 1], 0, heaps[i], out[i - 1]);
      }
    }
  }

  /** Resolving an object again and again makes it a $ref in the end, if its $ref
      member leads to a text. */
  lemma {:induction false} RunToText(g: Heap, h: Heap, table: Table, a: Addr, text: string, k: nat)
      returns (roots: seq<Value>, out: seq<Value>, heaps: seq<Heap>)
    requires Closed(h, table) && Led(g, h, table, a, text, k)
    ensures RunFrom(h, table, roots, out, heaps)
    ensures a in heaps[|roots|] && RefOf(heaps[|roots|][a]) == Some(text)
    decreases k
  {
    if RefOf(h[a]).Some? {
      roots, out, heaps := [], [], [h];
    } else {
      var h1, r := ResolutionExists(h, table, Ptr(a), 0);
      ObjectShortens(g, h, table, a, h1, r, text, k);
      var roots1, out1, heaps1 := RunToText(g, h1, table, a, text, Less(k, MAX_REF_DEPTH - 1));
      RunsCons(h, table, Ptr(a), r, roots1, out1, heaps1);
      roots, out, heaps := [Ptr(a)] + roots1, [r] + out1, [h] + heaps1;
    }
  }

  /** Exactly the documents without a text under a $ref keep their $refs in every
      run, cyclic documents included. */
  lemma RefsKeptIff(h: Heap, table: Table)
    requires Closed(h, table)
    ensures KeepsRefs(h, table) <==> TextFree(h, table)
  {
    if TextFree(h, table) {
      forall roots, out, heaps | RunFrom(h, table, roots, out, heaps)
        ensures SameRefs(h, heaps[|roots|])
      {
        RunKeepsFree(h, table, roots, out, heaps, |roots|);
      }
    } else {
      var a :| a in h && !NoTextUnderRef(h, h, table, a);
      var text, k: nat :| Leads(h, table, RefMember(h[a]).value, text, k);
      var roots, out, heaps := RunToText(h, h, table, a, text, k);
      assert !SameRefs(h, heaps[|roots|]);
    }
  }

  // ------------------------------------------------------- acyclic documents

  lemma {:induction false} LeadsUnfolds(h: Heap, table: Table, rank: Rank, v: Value, text: string, k: nat)
    requires Acyclic(h, table, rank) && InHeap(h, v) && Leads(h, table, v, text, k)
    ensures Unfold(h, table, rank, v) == TLeaf(Str(text))
    decreases k
  {
    if v != Leaf(Str(text)) {
      RankedTarget(h, table, rank, v);
      LeadsUnfolds(h, table, rank, Target(h, table, v), text, k - 1);
    }
  }

  lemma {:induction false} UnfoldsLead(h: Heap, table: Table, rank: Rank, v: Value, text: string)
    requires Acyclic(h, table, rank) && InHeap(h, v) && Unfold(h, table, rank, v) == TLeaf(Str(text))
    ensures Leads(h, table, v, text, RankOf(rank, v))
    decreases RankOf(rank, v)
  {
    if v.Ptr? {
      assert NodeRanked(h, table, rank, v.addr);
      RankedTarget(h, table, rank, v);
      UnfoldsLead(h, table, rank, Target(h, table, v), text);
      LeadsMonotone(h, table, Target(h, table, v), text, RankOf(rank, Target(h, table, v)), RankOf(rank, v) - 1);
    }
  }

  /** For acyclic documents the condition is that of the theorems about meaning. */
  lemma GuardedIsTextFree(h: Heap, table: Table, rank: Rank)
    requires Acyclic(h, table, rank)
    ensures Guarded(h, table, rank) <==> TextFree(h, table)
  {
    forall a | a in h
      ensures RefGuarded(h, table, rank, a) <==> NoTextUnderRef(h, h, table, a)
    {
      assert NodeRanked(h, table, rank, a);
      if Member("$ref") in Slots(h[a]) {
        TextIsLeadTo(h, table, rank, At(h[a], Member("$ref")));
      }
    }
  }

  lemma TextIsLeadTo(h: Heap, table: Table, rank: Rank, v: Value)
    requires Acyclic(h, table, rank) && InHeap(h, v)
    ensures TextTree(Unfold(h, table, rank, v)) <==> LeadsToText(h, table, v)
  {
    if LeadsToText(h, table, v) {
      var text, k: nat :| Leads(h, table, v, text, k);
      LeadsUnfolds(h, table, rank, v, text, k);
    } else if TextTree(Unfold(h, table, rank, v)) {
      UnfoldsLead(h, table, rank, v, Unfold(h, table, rank, v).j.s);
    }
  }

  lemma {:induction false} LeadsWithinFit(h: Heap, table: Table, rank: Rank, v: Value, text: string, k: nat, n: nat)
    requires Acyclic(h, table, rank) && InHeap(h, v) && Leads(h, table, v, text, k) && Fits(h, table, rank, v, n)
    ensures Leads(h, table, v, text, n)
    decreases k
  {
    if v != Leaf(Str(text)) {
      RankedTarget(h, table, rank, v);
      LeadsWithinFit(h, table, rank, Target(h, table, v), text, k - 1, n - 1);
    }
  }

  /** A text under a $ref that fits the limit is written by one resolution. */
  lemma TextIsWritten(h: Heap, table: Table, rank: Rank, a: Addr) returns (h': Heap, r: Value)
    requires Acyclic(h, table, rank) && Closed(h, table) && a in h && !NoTextUnderRef(h, h, table, a)
    requires RefOf(h[a]).None? && RefMember(h[a]) == Some(At(h[a], Member("$ref")))
    requires InHeap(h, At(h[a], Member("$ref")))
    requires Fits(h, table, rank, At(h[a], Member("$ref")), MAX_REF_DEPTH - 1)
    ensures Resolves(h, table, Ptr(a), 0, h', r) && !SameRefs(h, h')
  {
    var v := At(h[a], Member("$ref"));
    var text, k: nat :| Leads(h, table, v, text, k);
    LeadsWithinFit(h, table, rank, v, text, k, MAX_REF_DEPTH - 1);
    h', r := ResolutionExists(h, table, Ptr(a), 0);
    ObjectBecomesRef(h, table, a, h', r, text, MAX_REF_DEPTH - 1);
  }

  lemma AcyclicIsClosed(h: Heap, table: Table, rank: Rank)
    requires Acyclic(h, table, rank)
    ensures Closed(h, table)
  {
    assert forall a :: a in h ==> NodeRanked(h, table, rank, a);
  }

  lemma MemberFits(h: Heap, table: Table, rank: Rank, a: Addr)
    requires Acyclic(h, table, rank) && a in h && Fits(h, table, rank, Ptr(a), MAX_REF_DEPTH)
    requires RefMember(h[a]).Some? && RefMember(h[a]).value.Ptr?
    ensures RefOf(h[a]).None? && RefMember(h[a]) == Some(At(h[a], Member("$ref")))
    ensures InHeap(h, At(h[a], Member("$ref")))
    ensures Fits(h, table, rank, At(h[a], Member("$ref")), MAX_REF_DEPTH - 1)
  {
    assert NodeRanked(h, table, rank, a);
  }

  /** Resolving any one node keeps every $ref. */
  ghost predicate EachKeepsRefs(h: Heap, table: Table) {
    forall a, h', r :: a in h && Resolves(h, table, Ptr(a), 0, h', r) ==> SameRefs(h, h')
  }

  /** Where everything fits the limit, one resolution is enough to tell. */
  lemma GuardedIffEachKeepsRefs(h: Heap, table: Table, rank: Rank)
    requires Acyclic(h, table, rank) && forall a :: a in h ==> Fits(h, table, rank, Ptr(a), MAX_REF_DEPTH)
    ensures Guarded(h, table, rank) <==> EachKeepsRefs(h, table)
  {
    GuardedIsTextFree(h, table, rank);
    AcyclicIsClosed(h, table, rank);
    if TextFree(h, table) {
      forall a, h', r | a in h && Resolves(h, table, Ptr(a), 0, h', r)
        ensures SameRefs(h, h')
      {
        ResolvingKeepsFree(h, h, table, Ptr(a), 0, h', r);
      }
    } else {
      var a :| a in h && !NoTextUnderRef(h, h, table, a);
      MemberFits(h, table, rank, a);
      var h', r := TextIsWritten(h, table, rank, a);
    }
  }

  // ----------------------------------------------------------- an input

  const REF_TO_A := "#/definitions/A"

  /** The table entry A is the text B2, and C's $ref is an object that refers
      to A. */
  function TextTable(): Table {
    map["A" := Leaf(Str("B2")), "B2" := Ptr(2)]
  }

  function TextHeap(cRef: Value): Heap {
    map[0 := ObjNode(map["$ref" := Leaf(Str(REF_TO_A))]), 1 := ObjNode(map["$ref" := cRef]), 2 := ObjNode(map[])]
  }

  const TEXT_RANK: Rank := map[0 := 0, 1 := 1, 2 := 0]

  lemma NamesOfText()
    ensures RefName(REF_TO_A) == "A" && RefName("B2") == "B2"
  {
    assert REF_TO_A[0] == '#' && REF_TO_A[2] == 'd' && |REF_TO_A| == 15;
    assert "#/components/schemas/"[2] == 'c' && "#/components/schemas/"[0] == '#' && "#/definitions/"[0] == '#';
    assert REF_TO_A == "#/definitions/" + "A";
    assert REF_TO_A[|"#/definitions/"|..] == "A";
    assert "B2"[0] == 'B';
  }

  /** With this value under C's $ref the document is acyclic. */
  lemma TextIsAcyclic(h: Heap, cRef: Value)
    requires h == TextHeap(cRef) && (cRef == Ptr(0) || cRef == Leaf(Str("B2")))
    ensures Acyclic(h, TextTable(), TEXT_RANK)
  {
    NamesOfText();
    assert RefOf(h[0]) == Some(REF_TO_A) && RefOf(h[2]) == None;
    assert RefOf(h[1]) == if cRef.Ptr? then None else Some("B2");
    assert forall a :: a in h ==> NodeRanked(h, TextTable(), TEXT_RANK, a);
  }

  lemma TextAcyclic()
    ensures Acyclic(TextHeap(Ptr(0)), TextTable(), TEXT_RANK)
    ensures Acyclic(TextHeap(Leaf(Str("B2"))), TextTable(), TEXT_RANK)
  {
    TextIsAcyclic(TextHeap(Ptr(0)), Ptr(0));
    TextIsAcyclic(TextHeap(Leaf(Str("B2"))), Leaf(Str("B2")));
  }

  /** b is a $ref to a table entry that is a bare text. */
  predicate RefersToText(h: Heap, table: Table, b: Addr, text: string) {
    && b in h && RefOf(h[b]).Some?
    && RefName(RefOf(h[b]).value) in table && table[RefName(RefOf(h[b]).value)] == Leaf(Str(text))
  }

  lemma RefToText(h: Heap, table: Table, b: Addr, text: string, depth: nat, h': Heap, r: Value)
    requires RefersToText(h, table, b, text)
    requires depth < MAX_REF_DEPTH && Resolves(h, table, Ptr(b), depth, h', r)
    ensures h' == h && r == Leaf(Str(text))
  {
    assert Resolves(h, table, Leaf(Str(text)), depth + 1, h', r);
  }

  /** A slot that holds such a $ref gets the text. */
  lemma SlotGetsText(h: Heap, table: Table, a: Addr, slot: Slot, text: string, h': Heap)
    requires WritesSlot(h, table, a, slot, 0, h')
    requires At(h[a], slot).Ptr? && RefersToText(h, table, At(h[a], slot).addr, text)
    ensures h' == h[a := Put(h[a], slot, Leaf(Str(text)))]
  {
    var b := At(h[a], slot).addr;
    var after, r := SlotWitness(h, table, a, slot, 0, h');
    RefToText(h, table, b, text, 1, after, r);
  }

  /** Resolving an object whose only member is such a slot writes the text. */
  lemma ObjectGetsText(h: Heap, table: Table, a: Addr, slot: Slot, text: string, h': Heap, r: Value)
    requires a in h && RefOf(h[a]).None? && Slots(h[a]) == {slot}
    requires At(h[a], slot).Ptr? && RefersToText(h, table, At(h[a], slot).addr, text)
    requires Resolves(h, table, Ptr(a), 0, h', r)
    ensures r == Ptr(a) && h' == h[a := Put(h[a], slot, Leaf(Str(text)))]
  {
    var order := SlotOrder(h, table, Ptr(a), 0, h', r);
    OnlySlot(order, slot);
    OneSlotOnly(h, table, a, slot, h');
    SlotGetsText(h, table, a, slot, text, h');
  }

  lemma FirstPassed(slots: seq<Slot>)
    requires slots != []
    ensures slots[0] in Passed(slots)
  {
  }

  lemma NonePassed(slots: seq<Slot>)
    requires Passed(slots) == {}
    ensures slots == []
  {
    if slots != [] {
      FirstPassed(slots);
    }
  }

  lemma OnlySlot(order: seq<Slot>, slot: Slot)
    requires Distinct(order) && Passed(order) == {slot}
    ensures order == [slot]
  {
    assert slot in Passed(order);
    PassedLast(order);
    NonePassed(order[..|order| - 1]);
    assert order == order[..|order| - 1] + [order[|order| - 1]];
  }

  lemma OneSlotOnly(h: Heap, table: Table, a: Addr, slot: Slot, h': Heap)
    requires ResolvesSlots(h, table, a, [slot], 0, h')
    ensures WritesSlot(h, table, a, slot, 0, h')
  {
    assert [slot][..0] == [];
  }

  const TEXT_BEFORE := TextHeap(Ptr(0))
  const TEXT_AFTER := TextHeap(Leaf(Str("B2")))

  lemma TextNode()
    ensures 1 in TEXT_BEFORE && RefOf(TEXT_BEFORE[1]) == None && Slots(TEXT_BEFORE[1]) == {Member("$ref")}
    ensures At(TEXT_BEFORE[1], Member("$ref")) == Ptr(0) && RefersToText(TEXT_BEFORE, TextTable(), 0, "B2")
  {
    NamesOfText();
    assert RefOf(TEXT_BEFORE[0]) == Some(REF_TO_A);
  }

  lemma PutText()
    ensures Member("$ref") in Slots(TEXT_BEFORE[1])
    ensures TEXT_BEFORE[1 := Put(TEXT_BEFORE[1], Member("$ref"), Leaf(Str("B2")))] == TEXT_AFTER
  {
    assert map["$ref" := Ptr(0)]["$ref" := Leaf(Str("B2"))] == map["$ref" := Leaf(Str("B2"))];
  }

  lemma MeaningBefore()
    requires Acyclic(TEXT_BEFORE, TextTable(), TEXT_RANK)
    ensures 1 in TEXT_BEFORE
    ensures Unfold(TEXT_BEFORE, TextTable(), TEXT_RANK, Ptr(1)) == TNode(false, map[Member("$ref") := TLeaf(Str("B2"))])
    ensures !Guarded(TEXT_BEFORE, TextTable(), TEXT_RANK)
  {
    var h, table, slot := TEXT_BEFORE, TextTable(), Member("$ref");
    NamesOfText();
    assert RefOf(h[0]) == Some(REF_TO_A) && RefOf(h[1]) == None && Slots(h[1]) == {slot} && At(h[1], slot) == Ptr(0);
    assert Unfold(h, table, TEXT_RANK, table["A"]) == TLeaf(Str("B2"));
    assert Unfold(h, table, TEXT_RANK, Ptr(0)) == TLeaf(Str("B2"));
    assert !RefGuarded(h, table, TEXT_RANK, 1);
  }

  lemma MeaningAfter()
    requires Acyclic(TEXT_AFTER, TextTable(), TEXT_RANK)
    ensures 1 in TEXT_AFTER
    ensures Unfold(TEXT_AFTER, TextTable(), TEXT_RANK, Ptr(1)) == TNode(false, map[])
  {
    var h, table := TEXT_AFTER, TextTable();
    NamesOfText();
    assert RefOf(h[1]) == Some("B2") && RefOf(h[2]) == None && Slots(h[2]) == {};
    assert Unfold(h, table, TEXT_RANK, table["B2"]) == TNode(false, map[]);
  }

  /** Resolving C makes it a $ref to another schema: it stood for an object with a
      text under $ref, and afterwards stands for the empty schema B2. */
  lemma TextUnderRefChangesMeaning(h': Heap, r: Value)
    requires Resolves(TEXT_BEFORE, TextTable(), Ptr(1), 0, h', r)
    ensures Acyclic(TEXT_BEFORE, TextTable(), TEXT_RANK) && 1 in TEXT_BEFORE
    ensures !Guarded(TEXT_BEFORE, TextTable(), TEXT_RANK)
    ensures h' == TEXT_AFTER && r == Ptr(1) && Acyclic(TEXT_AFTER, TextTable(), TEXT_RANK) && 1 in TEXT_AFTER
    ensures Unfold(TEXT_BEFORE, TextTable(), TEXT_RANK, Ptr(1)) != Unfold(TEXT_AFTER, TextTable(), TEXT_RANK, Ptr(1))
  {
    TextAcyclic();
    TextNode();
    ObjectGetsText(TEXT_BEFORE, TextTable(), 1, Member("$ref"), "B2", h', r);
    PutText();
    MeaningBefore();
    MeaningAfter();
    assert Member("$ref") in map[Member("$ref") := TLeaf(Str("B2"))];
  }
}
