/** The read-through cache of the active endpoints per method is invisible as long
    as requests do not overlap. */
module ListCache {
  import opened Basics
  import opened Text
  import opened Registry
  import opened History
  import opened Interleaving
  import opened Requests

  const PREFIX := "mocksvr:endpoints:"

  function EndpointListKey(verb: string): string {
    PREFIX + ToUpper(verb)
  }

  lemma KeysInjective(a: string, b: string)
    requires IsUpper(a) && IsUpper(b) && EndpointListKey(a) == EndpointListKey(b)
    ensures a == b
  {
    assert EndpointListKey(a)[|PREFIX|..] == a && EndpointListKey(b)[|PREFIX|..] == b;
  }

  // ------------------------------------------ which lists a request changes

  /** What an id contributes to a method's list. */
  function Shown(endpoints: map<Uuid, Endpoint>, id: Uuid, verb: string): Option<Endpoint> {
    if id in endpoints && endpoints[id].verb == verb && endpoints[id].status == ACTIVE then Some(endpoints[id])
    else None
  }

  lemma {:induction false} SameShownSameList(a: map<Uuid, Endpoint>, b: map<Uuid, Endpoint>, ids: seq<Uuid>,
      verb: string)
    requires forall id :: id in ids ==> Shown(a, id, verb) == Shown(b, id, verb)
    ensures ActiveIn(a, ids, verb) == ActiveIn(b, ids, verb)
    decreases |ids|
  {
    if ids == [] {
    } else {
      assert Shown(a, ids[0], verb) == Shown(b, ids[0], verb);
      SameShownSameList(a, b, ids[1..], verb);
    }
  }

  lemma {:induction false} ActiveInAppend(endpoints: map<Uuid, Endpoint>, ids: seq<Uuid>, id: Uuid, verb: string)
    requires Shown(endpoints, id, verb) == None
    ensures ActiveIn(endpoints, ids + [id], verb) == ActiveIn(endpoints, ids, verb)
    decreases |ids|
  {
    if ids != [] {
      assert (ids + [id])[1..] == ids[1..] + [id];
      ActiveInAppend(endpoints, ids[1..], id, verb);
    } else {
      assert ids + [id] == [id];
      assert ActiveIn(endpoints, [id][1..], verb) == [];
    }
  }

  /** Storing an endpoint changes no list but those of its old and new method. */
  lemma StoringChangesOwnLists(endpoints: map<Uuid, Endpoint>, e: Endpoint, ids: seq<Uuid>, verb: string)
    requires e.verb != verb && (e.id in endpoints ==> endpoints[e.id].verb != verb)
    ensures ActiveIn(endpoints[e.id := e], ids, verb) == ActiveIn(endpoints, ids, verb)
    ensures ActiveIn(endpoints[e.id := e], ids + [e.id], verb) == ActiveIn(endpoints, ids, verb)
  {
    SameShownSameList(endpoints, endpoints[e.id := e], ids, verb);
    ActiveInAppend(endpoints[e.id := e], ids, e.id, verb);
  }

  lemma RemovingChangesOwnList(endpoints: map<Uuid, Endpoint>, id: Uuid, ids: seq<Uuid>, verb: string)
    requires id in endpoints ==> endpoints[id].verb != verb
    ensures ActiveIn(endpoints - {id}, ids, verb) == ActiveIn(endpoints, ids, verb)
  {
    SameShownSameList(endpoints, endpoints - {id}, ids, verb);
  }

  function VerbsOf(endpoints: seq<Endpoint>): set<string> {
    set i | 0 <= i < |endpoints| :: endpoints[i].verb
  }

  /** The methods whose cached list the service drops after a request. */
  function Invalidated(t: Tables, r: Request): set<string>
    requires r.ImportRequest? ==> |r.ids| == |r.items|
  {
    match r
    case CreateRequest(owner, id, p, vet, generated) =>
      var answer := CreateOp(t, owner, id, p, vet, generated).0;
      if answer.Ok? then {answer.value.verb} else {}
    case UpdateRequest(owner, id, p, vet, generated) =>
      var answer := UpdateOp(t, owner, id, p, vet, generated).0;
      var found := FindById(t, owner, id);
      if answer.Ok? && found.Ok? && !EndpointSnapshotEqual(found.value, answer.value)
      then {found.value.verb, answer.value.verb} else {}
    case RollbackRequest(owner, id, version) =>
      var answer := RollbackOp(t, owner, id, version).0;
      var found := FindById(t, owner, id);
      if answer.Ok? && found.Ok? then {found.value.verb, answer.value.verb} else {}
    case DeleteRequest(owner, id) =>
      var answer := DeleteOp(t, owner, id).0;
      if answer.Ok? then {answer.value.verb} else {}
    case ImportRequest(owner, items, ids, failAt) =>
      var result := ImportOp(t, owner, items, ids, failAt).0;
      if result.Ok? then VerbsOf(result.value.endpoints) else {}
  }

  // --------------------------------------- nothing is dropped needlessly

  /** The endpoint got or lost a version, and has or had the method. */
  predicate Touched(t: Tables, t': Tables, id: Uuid, verb: string) {
    && VersionRows(t', id) != VersionRows(t, id)
    && ((id in t.endpoints && t.endpoints[id].verb == verb) || (id in t'.endpoints && t'.endpoints[id].verb == verb))
  }

  lemma SettledTouches(t: Tables, owner: Uuid, e: Endpoint, schema: string, version: int, verb: string)
    requires e.id in t.endpoints && verb in {t.endpoints[e.id].verb, e.verb}
    requires CommitTx(t, owner, e, schema, version).Ok?
    ensures Touched(t, Settle(t, CommitTx(t, owner, e, schema, version), e).1, e.id, verb)
  {
  }

  /** The endpoint is new in t', with a version. */
  predicate New(t: Tables, t': Tables, e: Endpoint) {
    e.id !in t.endpoints && e.id in t'.endpoints && t'.endpoints[e.id] == e && VersionRows(t', e.id) != []
  }

  lemma FirstIsNew(t: Tables, e: Endpoint, item: ImportItem, after: Tables, used: set<Uuid>)
    requires e.id !in t.endpoints && Adds(WithImported(t, e, item), after, used)
    ensures New(t, after, e)
  {
    assert VersionRows(WithImported(t, e, item), e.id) != [];
  }

  /** Every endpoint an import reports was created by it. */
  lemma {:induction false} ReportedAreNew(t: Tables, used: set<Uuid>, owner: Uuid, items: seq<ImportItem>,
      ids: seq<Uuid>, done: ImportResult, e: Endpoint)
    requires Intact(t) && t.endpoints.Keys <= used && FreshIds(used, items, ids)
    ensures
      var r := ImportAll(t, owner, items, ids, done);
      r.Ok? && (e in r.value.1.endpoints ==> e in done.endpoints || New(t, r.value.0, e))
    decreases |items|
  {
    if items == [] {
    } else {
      var first := Imported(owner, ids[0], items[0]);
      ImportUnfold(t, owner, items, ids, done);
      FreshTail(used, items, ids);
      if KeyTaken(t, first) {
        ReportedAreNew(t, used, owner, items[1..], ids[1..], done.(skipped := done.skipped + 1), e);
      } else {
        var t2 := WithImported(t, first, items[0]);
        var done2 := ImportResult(done.created + 1, done.skipped, done.endpoints + [first]);
        ImportedItemKeepsIntact(t, used, owner, ids[0], items[0]);
        ReportedAreNew(t2, used + {ids[0]}, owner, items[1..], ids[1..], done2, e);
        ImportKeepsIntact(t2, used + {ids[0]}, owner, items[1..], ids[1..], done2);
        var rest := ImportAll(t2, owner, items[1..], ids[1..], done2).value;
        ReportedAfterFirst(t, t2, rest.0, used + {ids[0]}, items[0], done.endpoints, rest.1.endpoints, first, e);
      }
    }
  }

  lemma ReportedAfterFirst(t: Tables, t2: Tables, after: Tables, used: set<Uuid>, item: ImportItem,
      before: seq<Endpoint>, reported: seq<Endpoint>, first: Endpoint, e: Endpoint)
    requires first.id !in t.endpoints && t2 == WithImported(t, first, item) && Adds(t2, after, used)
    requires e in reported ==> e in before + [first] || New(t2, after, e)
    ensures e in reported ==> e in before || New(t, after, e)
  {
    FirstIsNew(t, first, item, after, used);
  }

  lemma CreateTouches(t: Tables, r: Request, verb: string)
    requires Intact(t) && r.CreateRequest? && r.id !in t.endpoints && verb in Invalidated(t, r)
    ensures Touched(t, TablesAfter(t, r), r.id, verb)
  {
    var CreateRequest(owner, id, p, vet, generated) := r;
    NewIsDefaulted(owner, id, p);
    CreateKeepsIntact(t, NewEndpoint(owner, id, p), generated);
  }

  lemma UpdateIsListed(t: Tables, owner: Uuid, id: Uuid, p: UpdateParams, vet: Vetting, generated: string)
    requires Owns(t, owner, id) && ValidateUpdate(p, vet).None?
    requires !EndpointSnapshotEqual(t.endpoints[id], Edited(t.endpoints[id], p))
    ensures UpdateOp(t, owner, id, p, vet, generated) ==
      UpdateListed(t, owner, t.endpoints[id], ListVersions(t, owner, id), p, generated)
  {
  }

  lemma ListedTouches(t: Tables, owner: Uuid, found: Endpoint, listed: seq<Version>, p: UpdateParams,
      generated: string, verb: string)
    requires found.id in t.endpoints && t.endpoints[found.id] == found
    requires
      var settled := UpdateListed(t, owner, found, listed, p, generated);
      settled.0.Ok? && verb in {found.verb, settled.0.value.verb}
    ensures Touched(t, UpdateListed(t, owner, found, listed, p, generated).1, found.id, verb)
  {
    SettledTouches(t, owner, Edited(found, p), UpdatedSchema(found, p, listed, generated), Highest(listed) + 1, verb);
  }

  lemma UpdateTouches(t: Tables, r: Request, verb: string)
    requires Intact(t) && r.UpdateRequest? && verb in Invalidated(t, r)
    ensures Touched(t, TablesAfter(t, r), r.id, verb)
  {
    var UpdateRequest(owner, id, p, vet, generated) := r;
    UpdateIsListed(t, owner, id, p, vet, generated);
    ListedTouches(t, owner, t.endpoints[id], ListVersions(t, owner, id), p, generated, verb);
  }

  lemma RollbackTouches(t: Tables, r: Request, verb: string)
    requires Intact(t) && r.RollbackRequest? && verb in Invalidated(t, r)
    ensures Touched(t, TablesAfter(t, r), r.id, verb)
  {
    var found, listed := t.endpoints[r.id], ListVersions(t, r.owner, r.id);
    var target := RollbackTarget(listed, r.version).value;
    SettledTouches(t, r.owner, Restored(found, target), target.schema, Highest(listed) + 1, verb);
  }

  lemma DeleteTouches(t: Tables, r: Request, verb: string)
    requires Intact(t) && r.DeleteRequest? && verb in Invalidated(t, r)
    ensures Touched(t, TablesAfter(t, r), r.id, verb)
  {
    assert IsHistory(t.versions[r.id], t.endpoints[r.id]);
  }

  lemma ImportTouches(t: Tables, used: set<Uuid>, r: Request, verb: string) returns (id: Uuid)
    requires Intact(t) && t.endpoints.Keys <= used
    requires r.ImportRequest? && FreshIds(used, r.items, r.ids) && verb in Invalidated(t, r)
    ensures Touched(t, TablesAfter(t, r), id, verb)
  {
    var reported := ImportAll(t, r.owner, r.items, r.ids, NOTHING).value.1.endpoints;
    var i :| 0 <= i < |reported| && reported[i].verb == verb;
    id := reported[i].id;
    ReportedAreNew(t, used, r.owner, r.items, r.ids, NOTHING, reported[i]);
  }

  /** A list is dropped only if the request gave or took a version of an endpoint
      that has or had its method; a request that changes nothing drops none. */
  lemma DroppedIsTouched(s: State, r: Request, verb: string) returns (id: Uuid)
    requires Inv(s) && Servable(s, r) && verb in Invalidated(s.tables, r)
    ensures Touched(s.tables, TablesAfter(s.tables, r), id, verb)
  {
    match r
    case CreateRequest(_, created, _, _, _) =>
      id := created;
      CreateTouches(s.tables, r, verb);
    case UpdateRequest(_, edited, _, _, _) =>
      id := edited;
      UpdateTouches(s.tables, r, verb);
    case RollbackRequest(_, restored, _) =>
      id := restored;
      RollbackTouches(s.tables, r, verb);
    case DeleteRequest(_, gone) =>
      id := gone;
      DeleteTouches(s.tables, r, verb);
    case ImportRequest(_, _, _, _) =>
      id := ImportTouches(s.tables, s.used, r, verb);
  }

  lemma CreateChangesOwnList(t: Tables, e: Endpoint, schema: string, verb: string)
    requires e.id !in t.endpoints && e.id !in t.versions && verb != e.verb
    ensures CreateTx(t, e, schema).Ok? ==> ListActive(CreateTx(t, e, schema).value, verb) == ListActive(t, verb)
  {
    if !KeyTaken(t, e) {
      CreateInserts(t, e, SnapshotVersion(e, schema, 1));
      StoringChangesOwnLists(t.endpoints, e, t.created, verb);
    }
  }

  lemma CommitChangesOwnLists(t: Tables, owner: Uuid, e: Endpoint, schema: string, version: int, verb: string)
    requires verb != e.verb && (e.id in t.endpoints ==> verb != t.endpoints[e.id].verb)
    ensures CommitTx(t, owner, e, schema, version).Ok? ==>
      ListActive(CommitTx(t, owner, e, schema, version).value, verb) == ListActive(t, verb)
  {
    StoringChangesOwnLists(t.endpoints, e, t.created, verb);
  }

  lemma {:induction false} ImportChangesOwnLists(t: Tables, used: set<Uuid>, owner: Uuid, items: seq<ImportItem>,
      ids: seq<Uuid>, done: ImportResult, verb: string)
    requires t.versions.Keys == t.endpoints.Keys <= used && FreshIds(used, items, ids)
    ensures
      var r := ImportAll(t, owner, items, ids, done);
      && r.Ok?
      && done.endpoints <= r.value.1.endpoints
      && (verb !in VerbsOf(r.value.1.endpoints) ==> ListActive(r.value.0, verb) == ListActive(t, verb))
    decreases |items|
  {
    if items == [] {
    } else {
      var e := Imported(owner, ids[0], items[0]);
      ImportUnfold(t, owner, items, ids, done);
      FreshTail(used, items, ids);
      if KeyTaken(t, e) {
        ImportChangesOwnLists(t, used, owner, items[1..], ids[1..], done.(skipped := done.skipped + 1), verb);
      } else {
        var t2 := WithImported(t, e, items[0]);
        var done2 := ImportResult(done.created + 1, done.skipped, done.endpoints + [e]);
        ImportChangesOwnLists(t2, used + {ids[0]}, owner, items[1..], ids[1..], done2, verb);
        var all := ImportAll(t2, owner, items[1..], ids[1..], done2).value.1.endpoints;
        assert all[|done.endpoints|] == e;
        if verb != e.verb {
          StoringChangesOwnLists(t.endpoints, e, t.created, verb);
        }
      }
    }
  }

  lemma SettlingChangesOwnLists(t: Tables, owner: Uuid, e: Endpoint, schema: string, version: int, verb: string)
    requires
      var settled := Settle(t, CommitTx(t, owner, e, schema, version), e);
      settled.0.Ok? ==> verb != e.verb && (e.id in t.endpoints ==> verb != t.endpoints[e.id].verb)
    ensures ListActive(Settle(t, CommitTx(t, owner, e, schema, version), e).1, verb) == ListActive(t, verb)
  {
    if CommitTx(t, owner, e, schema, version).Ok? {
      CommitChangesOwnLists(t, owner, e, schema, version, verb);
    }
  }

  lemma UpdateChangesOwnLists(t: Tables, r: Request, verb: string)
    requires Intact(t) && r.UpdateRequest? && verb !in Invalidated(t, r)
    ensures ListActive(TablesAfter(t, r), verb) == ListActive(t, verb)
  {
    var UpdateRequest(owner, id, p, vet, generated) := r;
    var found := FindById(t, owner, id);
    if ValidateUpdate(p, vet).None? && found.Ok? {
      var e := Edited(found.value, p);
      if !EndpointSnapshotEqual(found.value, e) {
        var listed := ListVersions(t, owner, id);
        var schema := UpdatedSchema(found.value, p, listed, generated);
        SettlingChangesOwnLists(t, owner, e, schema, Highest(listed) + 1, verb);
      }
    }
  }

  lemma RollbackListedChangesOwnLists(t: Tables, owner: Uuid, found: Endpoint, listed: seq<Version>, version: int,
      verb: string)
    requires found.id in t.endpoints && t.endpoints[found.id] == found
    requires
      var answer := RollbackListed(t, owner, found, listed, version).0;
      answer.Ok? ==> verb != found.verb && verb != answer.value.verb
    ensures ListActive(RollbackListed(t, owner, found, listed, version).1, verb) == ListActive(t, verb)
  {
    var target := RollbackTarget(listed, version);
    if target.Ok? {
      SettlingChangesOwnLists(t, owner, Restored(found, target.value), target.value.schema, Highest(listed) + 1, verb);
    }
  }

  lemma RollbackChangesOwnLists(t: Tables, r: Request, verb: string)
    requires Intact(t) && r.RollbackRequest? && verb !in Invalidated(t, r)
    ensures ListActive(TablesAfter(t, r), verb) == ListActive(t, verb)
  {
    var RollbackRequest(owner, id, version) := r;
    var found := FindById(t, owner, id);
    if found.Ok? {
      RollbackListedChangesOwnLists(t, owner, found.value, ListVersions(t, owner, id), version, verb);
    }
  }

  /** A request changes the lists of no methods but those it invalidates. */
  lemma InvalidationCovers(s: State, r: Request, verb: string)
    requires Inv(s) && Servable(s, r) && verb !in Invalidated(s.tables, r)
    ensures ListActive(TablesAfter(s.tables, r), verb) == ListActive(s.tables, verb)
  {
    match r
    case CreateRequest(owner, id, p, vet, generated) =>
      var e := NewEndpoint(owner, id, p);
      if ValidateCreate(p, vet).None? && CreateTx(s.tables, e, generated).Ok? {
        CreateChangesOwnList(s.tables, e, generated, verb);
      }
    case UpdateRequest(_, _, _, _, _) => UpdateChangesOwnLists(s.tables, r, verb);
    case RollbackRequest(_, _, _) => RollbackChangesOwnLists(s.tables, r, verb);
    case DeleteRequest(owner, id) =>
      if DeleteEndpoint(s.tables, owner, id).Ok? {
        RemovingChangesOwnList(s.tables.endpoints, id, s.tables.created, verb);
      }
    case ImportRequest(owner, items, ids, failAt) =>
      ImportChangesOwnLists(s.tables, s.used, owner, items, ids, NOTHING, verb);
  }

  // ---------------------------------------------- requests one after another

  type Entries = map<string, seq<Endpoint>>

  /** The service with its cache; no request under way. */
  datatype Deployment = Deployment(state: State, entries: Entries)

  /** A request with its invalidations, a cached read whose cache accesses may
      fail, or the expiry of an entry. */
  datatype Event =
    | Mutate(request: Request)
    | Read(verb: string, getFails: bool, setFails: bool)
    | Expire(key: string)

  function Invalidate(entries: Entries, verbs: set<string>): Entries {
    entries - set verb | verb in verbs :: EndpointListKey(verb)
  }

  /** What the cached store answers, and the entries it leaves. */
  function CachedList(t: Tables, entries: Entries, verb: string, getFails: bool,
      setFails: bool): (seq<Endpoint>, Entries)
  {
    var key := EndpointListKey(verb);
    if !getFails && key in entries then (entries[key], entries)
    else
      var list := ListActive(t, verb);
      (list, if setFails then entries else entries[key := list])
  }

  predicate Possible(d: Deployment, event: Event) {
    Idle(d.state) && (event.Mutate? ==> Servable(d.state, event.request))
  }

  function Happen(d: Deployment, event: Event): Deployment
    requires Possible(d, event)
  {
    match event
    case Mutate(r) =>
      Deployment(Serve(d.state, r).0, Invalidate(d.entries, Invalidated(d.state.tables, r)))
    case Read(verb, getFails, setFails) =>
      d.(entries := CachedList(d.state.tables, d.entries, verb, getFails, setFails).1)
    case Expire(key) => d.(entries := d.entries - {key})
  }

  /** Every entry a read of an upper-case method can hit holds the list the
      repository would return. */
  ghost predicate Agrees(d: Deployment) {
    forall verb :: IsUpper(verb) && EndpointListKey(verb) in d.entries ==>
      d.entries[EndpointListKey(verb)] == ListActive(d.state.tables, verb)
  }

  ghost predicate Sound(d: Deployment) {
    Idle(d.state) && Inv(d.state) && Agrees(d)
  }

  predicate UpperReads(event: Event) {
    event.Read? ==> IsUpper(event.verb)
  }

  lemma MutateKeepsSound(d: Deployment, r: Request)
    requires Sound(d) && Servable(d.state, r)
    ensures Sound(Happen(d, Mutate(r)))
  {
    ServeRefinesOperation(d.state, r);
    var d' := Happen(d, Mutate(r));
    forall verb | IsUpper(verb) && EndpointListKey(verb) in d'.entries
      ensures d'.entries[EndpointListKey(verb)] == ListActive(d'.state.tables, verb)
    {
      if verb !in Invalidated(d.state.tables, r) {
        InvalidationCovers(d.state, r, verb);
      }
    }
  }

  lemma ReadKeepsSound(d: Deployment, verb: string, getFails: bool, setFails: bool)
    requires Sound(d) && IsUpper(verb)
    ensures Sound(Happen(d, Read(verb, getFails, setFails)))
    ensures CachedList(d.state.tables, d.entries, verb, getFails, setFails).0 == ListActive(d.state.tables, verb)
  {
    var d' := Happen(d, Read(verb, getFails, setFails));
    forall other | IsUpper(other) && EndpointListKey(other) in d'.entries
      ensures d'.entries[EndpointListKey(other)] == ListActive(d'.state.tables, other)
    {
      if EndpointListKey(other) == EndpointListKey(verb) {
        KeysInjective(other, verb);
      }
    }
  }

  predicate Happens(d: Deployment, events: seq<Event>)
    decreases |events|
  {
    events == [] || (Possible(d, events[0]) && UpperReads(events[0]) && Happens(Happen(d, events[0]), events[1..]))
  }

  function After(d: Deployment, events: seq<Event>): Deployment
    requires Happens(d, events)
    decreases |events|
  {
    if events == [] then d else After(Happen(d, events[0]), events[1..])
  }

  /** After any sequence of requests, reads and expiries, with arbitrary failures
      of the cache's Get and Set, a cached read of an upper-case method returns
      exactly what the repository would. */
  lemma {:induction false} CacheIsInvisible(d: Deployment, events: seq<Event>, verb: string, getFails: bool,
      setFails: bool)
    requires Sound(d) && Happens(d, events) && IsUpper(verb)
    ensures
      var d' := After(d, events);
      CachedList(d'.state.tables, d'.entries, verb, getFails, setFails).0 == ListActive(d'.state.tables, verb)
    decreases |events|
  {
    if events == [] {
      ReadKeepsSound(d, verb, getFails, setFails);
    } else {
      match events[0] {
        case Mutate(r) => MutateKeepsSound(d, r);
        case Read(v, g, f) => ReadKeepsSound(d, v, g, f);
        case Expire(_) =>
      }
      CacheIsInvisible(Happen(d, events[0]), events[1..], verb, getFails, setFails);
    }
  }
}
