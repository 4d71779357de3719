/** The deep merge on maps that live in memory: members are pointers, the merge
    writes into the destination's maps, and the result shares the patch's. */
module SharedMerge {
  import opened Json
  import Merge

  type Addr = nat

  /** A member of a map: a pointer to another map, or any other JSON value. */
  datatype Value = Plain(j: Json) | Ptr(addr: Addr)

  type Heap = map<Addr, map<string, Value>>

  /** What a value looks like in memory: which map lies where. */
  datatype Layout = Leaf(j: Json) | Map(addr: Addr, members: map<string, Layout>)

  function ValueOf(l: Layout): Value {
    if l.Leaf? then Plain(l.j) else Ptr(l.addr)
  }

  /** The maps of a layout. */
  function Nodes(l: Layout): set<Addr>
    decreases l
  {
    match l
    case Leaf(_) => {}
    case Map(addr, members) => {addr} + set k, a | k in members && a in Nodes(members[k]) :: a
  }

  /** The heap holds this layout. */
  predicate Holds(h: Heap, l: Layout)
    decreases l
  {
    match l
    case Leaf(j) => !j.Obj?
    case Map(addr, members) =>
      && addr in h && h[addr].Keys == members.Keys
      && (forall k :: k in members ==> h[addr][k] == ValueOf(members[k]))
      && (forall k :: k in members ==> Holds(h, members[k]))
  }

  /** No map of the layout is reached twice, as after decoding JSON. */
  predicate Unshared(l: Layout)
    decreases l
  {
    match l
    case Leaf(_) => true
    case Map(addr, members) =>
      && (forall k :: k in members ==> Unshared(members[k]) && addr !in Nodes(members[k]))
      && (forall k, m :: k in members && m in members && k != m ==> Nodes(members[k]) !! Nodes(members[m]))
  }

  /** The JSON value of a layout. */
  function Decoded(l: Layout): Json
    decreases l
  {
    match l
    case Leaf(j) => j
    case Map(_, members) => Obj(map k | k in members :: Decoded(members[k]))
  }

  /** A member of the merged layout. */
  function Member(d: Layout, s: Layout, k: string): Layout
    requires d.Map? && s.Map? && (k in d.members || k in s.members)
    decreases s, 0
  {
    if k !in s.members then d.members[k]
    else if s.members[k].Map? && k in d.members && d.members[k].Map? then Merged(d.members[k], s.members[k])
    else s.members[k]
  }

  /** The destination's maps with the patch's members merged in; members that are
      replaced are the patch's own maps. */
  function Merged(d: Layout, s: Layout): (l: Layout)
    requires d.Map? && s.Map?
    ensures l.Map? && l.addr == d.addr
    decreases s, 1
  {
    Map(d.addr, map k | k in d.members.Keys + s.members.Keys :: Member(d, s, k))
  }

  /** What lies under a key of the destination when the keys in done were visited. */
  function At(d: Layout, s: Layout, done: set<string>, k: string): Layout
    requires d.Map? && s.Map? && done <= s.members.Keys && k in d.members.Keys + done
  {
    if k in done then Member(d, s, k) else d.members[k]
  }

  predicate KeyStands(h: Heap, d: Layout, s: Layout, done: set<string>, k: string)
    requires d.Map? && s.Map? && done <= s.members.Keys && k in d.members.Keys + done
  {
    d.addr in h && k in h[d.addr] && h[d.addr][k] == ValueOf(At(d, s, done, k)) && Holds(h, At(d, s, done, k))
  }

  /** The destination when the patch's keys in done were visited. */
  predicate Stands(h: Heap, d: Layout, s: Layout, done: set<string>)
    requires d.Map? && s.Map? && done <= s.members.Keys
  {
    && d.addr in h && h[d.addr].Keys == d.members.Keys + done
    && forall k :: k in d.members.Keys + done ==> KeyStands(h, d, s, done, k)
  }

  // ----------------------------------------------------------------- framing

  predicate SameOn(h: Heap, h': Heap, nodes: set<Addr>) {
    forall a :: a in nodes && a in h ==> a in h' && h'[a] == h[a]
  }

  lemma {:induction false} HoldsElsewhere(h: Heap, h': Heap, l: Layout)
    requires Holds(h, l) && SameOn(h, h', Nodes(l))
    ensures Holds(h', l)
    decreases l
  {
    match l
    case Leaf(_) =>
    case Map(addr, members) =>
      assert addr in Nodes(l);
      forall k | k in members
        ensures Holds(h', members[k])
      {
        assert Nodes(members[k]) <= Nodes(l);
        HoldsElsewhere(h, h', members[k]);
      }
  }

  lemma {:induction false} MergedNodes(d: Layout, s: Layout)
    requires d.Map? && s.Map?
    ensures Nodes(Merged(d, s)) <= Nodes(d) + Nodes(s)
    decreases s
  {
    forall k | k in Merged(d, s).members
      ensures Nodes(Merged(d, s).members[k]) <= Nodes(d) + Nodes(s)
    {
      MemberNodes(d, s, k);
    }
  }

  lemma {:induction false} MemberNodes(d: Layout, s: Layout, k: string)
    requires d.Map? && s.Map? && (k in d.members || k in s.members)
    ensures Nodes(Member(d, s, k)) <= (if k in d.members then Nodes(d.members[k]) else {}) + Nodes(s)
    ensures Nodes(Member(d, s, k)) <= Nodes(d) + Nodes(s)
    decreases s, 0
  {
    if k in s.members && s.members[k].Map? && k in d.members && d.members[k].Map? {
      MergedNodes(d.members[k], s.members[k]);
    }
  }

  lemma StandsAtFirst(h: Heap, d: Layout, s: Layout)
    requires d.Map? && s.Map? && Holds(h, d)
    ensures Stands(h, d, s, {})
  {
    assert d.members.Keys + {} == d.members.Keys;
  }

  lemma StandsAtLast(h: Heap, d: Layout, s: Layout)
    requires d.Map? && s.Map? && Stands(h, d, s, s.members.Keys)
    ensures Holds(h, Merged(d, s))
  {
    forall k | k in Merged(d, s).members
      ensures h[d.addr][k] == ValueOf(Merged(d, s).members[k]) && Holds(h, Merged(d, s).members[k])
    {
      assert KeyStands(h, d, s, s.members.Keys, k);
    }
  }

  lemma ChildNodes(d: Layout, key: string)
    requires d.Map? && Unshared(d) && key in d.members
    ensures Nodes(d.members[key]) <= Nodes(d) && d.addr !in Nodes(d.members[key]) && d.addr in Nodes(d)
    ensures Unshared(d.members[key])
  {
  }

  /** What lies under one key shares no map with what lay under another, and none
      with the destination itself. */
  lemma KeysApart(d: Layout, s: Layout, done: set<string>, k: string, key: string)
    requires d.Map? && s.Map? && done <= s.members.Keys && k in d.members.Keys + done
    requires Unshared(d) && Nodes(d) !! Nodes(s) && k != key
    ensures d.addr !in Nodes(At(d, s, done, k))
    ensures key in d.members ==> Nodes(At(d, s, done, k)) !! Nodes(d.members[key])
  {
    assert d.addr in Nodes(d);
    MemberNodes(d, s, k);
    if k in d.members {
      ChildNodes(d, k);
    }
    if key in d.members {
      ChildNodes(d, key);
    }
  }

  function Touched(d: Layout, key: string): set<Addr>
    requires d.Map?
  {
    {d.addr} + if key in d.members then Nodes(d.members[key]) else {}
  }

  lemma OtherKeyStands(h: Heap, h': Heap, d: Layout, s: Layout, done: set<string>, key: string, k: string)
    requires d.Map? && s.Map? && done <= s.members.Keys && k in d.members.Keys + done
    requires key in s.members && k != key && Unshared(d) && Nodes(d) !! Nodes(s)
    requires KeyStands(h, d, s, done, k) && SameOn(h, h', h.Keys - Touched(d, key))
    requires d.addr in h' && k in h'[d.addr] && h'[d.addr][k] == h[d.addr][k]
    ensures KeyStands(h', d, s, done + {key}, k)
  {
    KeysApart(d, s, done, k, key);
    HoldsElsewhere(h, h', At(d, s, done, k));
  }

  lemma PatchStays(h: Heap, h': Heap, d: Layout, s: Layout, key: string)
    requires d.Map? && s.Map? && Unshared(d) && Nodes(d) !! Nodes(s)
    requires Holds(h, s) && SameOn(h, h', h.Keys - Touched(d, key))
    ensures Holds(h', s)
  {
    assert d.addr in Nodes(d);
    if key in d.members {
      ChildNodes(d, key);
    }
    HoldsElsewhere(h, h', s);
  }

  /** After a key was visited: merged in its own map, or assigned. */
  lemma Visited(h: Heap, h': Heap, d: Layout, s: Layout, done: set<string>, key: string)
    requires d.Map? && s.Map? && done <= s.members.Keys && Unshared(d) && Nodes(d) !! Nodes(s)
    requires Stands(h, d, s, done) && key in s.members && SameOn(h, h', h.Keys - Touched(d, key))
    requires d.addr in h' && key in h'[d.addr] && h'[d.addr] == h[d.addr][key := h'[d.addr][key]]
    requires h'[d.addr][key] == ValueOf(Member(d, s, key)) && Holds(h', Member(d, s, key))
    ensures Stands(h', d, s, done + {key})
  {
    forall k | k in d.members.Keys + (done + {key})
      ensures KeyStands(h', d, s, done + {key}, k)
    {
      if k != key {
        assert KeyStands(h, d, s, done, k);
        OtherKeyStands(h, h', d, s, done, key, k);
      }
    }
  }

  lemma BelowMember(h: Heap, d: Layout, s: Layout, done: set<string>, key: string)
    requires d.Map? && s.Map? && done <= s.members.Keys && Stands(h, d, s, done)
    requires key in s.members && key !in done && key in d.members && d.members[key].Map? && s.members[key].Map?
    ensures Member(d, s, key) == Merged(d.members[key], s.members[key])
    ensures key in h[d.addr] && h[d.addr][key] == ValueOf(Member(d, s, key))
  {
    assert KeyStands(h, d, s, done, key);
  }

  lemma DestinationKept(h: Heap, h': Heap, d: Layout, key: string)
    requires d.Map? && Unshared(d) && key in d.members && d.addr in h
    requires SameOn(h, h', h.Keys - Nodes(d.members[key]))
    ensures d.addr in h' && h'[d.addr] == h[d.addr] && SameOn(h, h', h.Keys - Touched(d, key))
  {
    ChildNodes(d, key);
  }

  /** A key that holds a map on both sides, after those were merged. */
  lemma VisitedBelow(h: Heap, h': Heap, d: Layout, s: Layout, done: set<string>, key: string)
    requires d.Map? && s.Map? && done <= s.members.Keys && Unshared(d) && Nodes(d) !! Nodes(s)
    requires Stands(h, d, s, done) && Holds(h, s) && key in s.members && key !in done
    requires key in d.members && d.members[key].Map? && s.members[key].Map?
    requires Holds(h', Merged(d.members[key], s.members[key])) && SameOn(h, h', h.Keys - Nodes(d.members[key]))
    ensures Stands(h', d, s, done + {key}) && Holds(h', s)
  {
    BelowMember(h, d, s, done, key);
    DestinationKept(h, h', d, key);
    PatchStays(h, h', d, s, key);
    Visited(h, h', d, s, done, key);
  }

  /** Any other key, after it was assigned. */
  lemma VisitedHere(h: Heap, h': Heap, d: Layout, s: Layout, done: set<string>, key: string)
    requires d.Map? && s.Map? && done <= s.members.Keys && Unshared(d) && Nodes(d) !! Nodes(s)
    requires Stands(h, d, s, done) && Holds(h, s) && key in s.members
    requires !(s.members[key].Map? && key in d.members && d.members[key].Map?)
    requires h' == h[d.addr := h[d.addr][key := ValueOf(s.members[key])]]
    ensures Stands(h', d, s, done + {key}) && Holds(h', s)
  {
    PatchStays(h, h', d, s, key);
    assert Holds(h', s.members[key]);
    Visited(h, h', d, s, done, key);
  }

  // --------------------------------------------------------------- the merge

  class Memory {
    var heap: Heap

    constructor (heap: Heap)
      ensures this.heap == heap
    {
      this.heap := heap;
    }

    /** mergeObjects: dst and src name the maps, d and s are their layouts. Only
        dst's maps are written, so the patch stays as it was although the result
        shares its maps; MergedDecodes says what the result means. */
    method MergeObjects(dst: Addr, src: Addr, ghost d: Layout, ghost s: Layout)
      requires d.Map? && s.Map? && d.addr == dst && s.addr == src
      requires Holds(heap, d) && Holds(heap, s) && Unshared(d) && Nodes(d) !! Nodes(s)
      modifies this
      ensures Holds(heap, Merged(d, s)) && Holds(heap, s)
      ensures heap.Keys == old(heap).Keys && SameOn(old(heap), heap, old(heap).Keys - Nodes(d))
      decreases s, 1
    {
      var pending := heap[src].Keys;
      ghost var done: set<string> := {};
      StandsAtFirst(heap, d, s);
      while pending != {}
        invariant pending <= s.members.Keys && done == s.members.Keys - pending
        invariant heap.Keys == old(heap).Keys && SameOn(old(heap), heap, old(heap).Keys - Nodes(d))
        invariant Stands(heap, d, s, done) && Holds(heap, s)
        decreases pending
      {
        var key :| key in pending;
        MergeKey(dst, src, key, d, s, done);
        done := done + {key};
        pending := pending - {key};
      }
      StandsAtLast(heap, d, s);
    }

    /** One turn of the loop. */
    method MergeKey(dst: Addr, src: Addr, key: string, ghost d: Layout, ghost s: Layout, ghost done: set<string>)
      requires d.Map? && s.Map? && d.addr == dst && s.addr == src && Unshared(d) && Nodes(d) !! Nodes(s)
      requires done <= s.members.Keys && key in s.members && key !in done
      requires Stands(heap, d, s, done) && Holds(heap, s)
      modifies this
      ensures Stands(heap, d, s, done + {key}) && Holds(heap, s)
      ensures heap.Keys == old(heap).Keys && SameOn(old(heap), heap, old(heap).Keys - Nodes(d))
      decreases s, 0
    {
      var value := heap[src][key];
      assert key in d.members ==> KeyStands(heap, d, s, done, key);
      assert key in heap[dst] <==> key in d.members;
      if value.Ptr? && key in heap[dst] && heap[dst][key].Ptr? {
        ChildNodes(d, key);
        assert Nodes(s.members[key]) <= Nodes(s);
        MergeObjects(heap[dst][key].addr, value.addr, d.members[key], s.members[key]);
        VisitedBelow(old(heap), heap, d, s, done, key);
      } else {
        assert d.addr in Nodes(d);
        heap := heap[dst := heap[dst][key := value]];
        VisitedHere(old(heap), heap, d, s, done, key);
      }
    }
  }

  // ---------------------------------------------------------- its meaning

  lemma DecodedMember(l: Layout, k: string)
    requires l.Map? && k in l.members
    ensures Decoded(l).Obj? && k in Decoded(l).fields && Decoded(l).fields[k] == Decoded(l.members[k])
  {
  }

  lemma DecodedKeys(l: Layout)
    requires l.Map?
    ensures Decoded(l).Obj? && Decoded(l).fields.Keys == l.members.Keys
  {
  }

  lemma SameMembers(l: Layout, o: Object)
    requires l.Map? && l.members.Keys == o.fields.Keys
    requires forall k :: k in l.members ==> Decoded(l.members[k]) == o.fields[k]
    ensures Decoded(l) == o
  {
    assert Decoded(l).fields == o.fields;
  }

  lemma DecodedIsObject(h: Heap, l: Layout)
    requires Holds(h, l)
    ensures Decoded(l).Obj? <==> l.Map?
  {
  }

  lemma {:induction false} MemberDecodes(h: Heap, d: Layout, s: Layout, k: string)
    requires d.Map? && s.Map? && Holds(h, d) && Holds(h, s) && k in d.members.Keys + s.members.Keys
    ensures Decoded(d).Obj? && Decoded(s).Obj?
    ensures Decoded(Member(d, s, k)) == Merge.MergeObjects(Decoded(d), Decoded(s)).fields[k]
    decreases s, 0
  {
    if k in d.members {
      DecodedMember(d, k);
      DecodedIsObject(h, d.members[k]);
    }
    if k in s.members {
      DecodedMember(s, k);
      DecodedIsObject(h, s.members[k]);
      if s.members[k].Map? && k in d.members && d.members[k].Map? {
        MergedDecodes(h, d.members[k], s.members[k]);
      }
    }
  }

  /** The merged maps hold the merged value. */
  lemma {:induction false} MergedDecodes(h: Heap, d: Layout, s: Layout)
    requires d.Map? && s.Map? && Holds(h, d) && Holds(h, s)
    ensures Decoded(d).Obj? && Decoded(s).Obj? && Decoded(Merged(d, s)) == Merge.MergeObjects(Decoded(d), Decoded(s))
    decreases s, 1
  {
    DecodedIsObject(h, d);
    DecodedIsObject(h, s);
    DecodedKeys(d);
    DecodedKeys(s);
    var merged: Object := Merge.MergeObjects(Decoded(d), Decoded(s));
    forall k | k in d.members.Keys + s.members.Keys
      ensures Decoded(Member(d, s, k)) == merged.fields[k]
    {
      MemberDecodes(h, d, s, k);
    }
    SameMembers(Merged(d, s), merged);
  }
}
