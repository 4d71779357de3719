/** Cached reads of a method that is not in upper case: stored methods always are,
    so such a read caches an empty list under the upper-case method's key. */
module Spelling {
  import opened Text
  import opened Registry
  import opened History
  import opened Interleaving
  import opened Requests
  import opened ListCache
  import Overtaking

  predicate UpperRows(rows: seq<Version>) {
    forall i :: 0 <= i < |rows| ==> IsUpper(rows[i].verb)
  }

  /** Every stored endpoint and version has an upper-case method. */
  predicate UpperTables(t: Tables) {
    && (forall id :: id in t.endpoints ==> IsUpper(t.endpoints[id].verb))
    && (forall id :: id in t.versions ==> UpperRows(t.versions[id]))
  }

  // ----------------------------------------------------------- the invariant

  lemma StoringKeepsUpper(t: Tables, e: Endpoint, rows: seq<Version>, v: Version, created: seq<Uuid>)
    requires UpperTables(t) && UpperRows(rows) && IsUpper(e.verb) && v.verb == e.verb
    ensures UpperTables(Tables(t.endpoints[e.id := e], t.versions[e.id := rows + [v]], created))
  {
  }

  lemma CreateTxKeepsUpper(t: Tables, e: Endpoint, schema: string)
    requires t.versions.Keys == t.endpoints.Keys && UpperTables(t) && e.id !in t.endpoints && IsUpper(e.verb)
    ensures CreateTx(t, e, schema).Ok? ==> UpperTables(CreateTx(t, e, schema).value)
  {
    if !KeyTaken(t, e) {
      var v := SnapshotVersion(e, schema, 1);
      CreateInserts(t, e, v);
      assert [] + [v] == [v];
      StoringKeepsUpper(t, e, [], v, t.created + [e.id]);
    }
  }

  lemma CommitKeepsUpper(t: Tables, owner: Uuid, e: Endpoint, schema: string, version: int)
    requires UpperTables(t) && IsUpper(e.verb)
    ensures UpperTables(Settle(t, CommitTx(t, owner, e, schema, version), e).1)
  {
    if CommitTx(t, owner, e, schema, version).Ok? {
      StoringKeepsUpper(t, e, VersionRows(t, e.id), SnapshotVersion(e, schema, version), t.created);
    }
  }

  lemma {:induction false} InsertIsUpper(v: Version, sorted: seq<Version>)
    requires IsUpper(v.verb) && UpperRows(sorted)
    ensures UpperRows(InsertDescending(v, sorted))
    decreases |sorted|
  {
    if sorted == [] {
    } else {
      InsertIsUpper(v, sorted[1..]);
    }
  }

  lemma {:induction false} DescendingIsUpper(rows: seq<Version>)
    requires UpperRows(rows)
    ensures UpperRows(Descending(rows))
    decreases |rows|
  {
    if rows == [] {
    } else {
      DescendingIsUpper(rows[1..]);
      InsertIsUpper(rows[0], Descending(rows[1..]));
    }
  }

  lemma {:induction false} OwnedIsUpper(rows: seq<Version>, account: Uuid)
    requires UpperRows(rows)
    ensures UpperRows(OwnedBy(rows, account))
    decreases |rows|
  {
    if rows == [] {
    } else {
      OwnedIsUpper(rows[1..], account);
    }
  }

  lemma ListedIsUpper(t: Tables, owner: Uuid, id: Uuid)
    requires UpperTables(t)
    ensures UpperRows(ListVersions(t, owner, id))
  {
    OwnedIsUpper(VersionRows(t, id), owner);
    DescendingIsUpper(OwnedBy(VersionRows(t, id), owner));
  }

  lemma {:induction false} FoundIsUpper(listed: seq<Version>, version: int)
    requires UpperRows(listed)
    ensures FindVersion(listed, version).Ok? ==> IsUpper(FindVersion(listed, version).value.verb)
    decreases |listed|
  {
    if listed == [] {
    } else {
      FoundIsUpper(listed[1..], version);
    }
  }

  lemma {:induction false} ImportKeepsUpper(t: Tables, used: set<Uuid>, owner: Uuid, items: seq<ImportItem>,
      ids: seq<Uuid>, done: ImportResult)
    requires t.versions.Keys == t.endpoints.Keys <= used && FreshIds(used, items, ids) && UpperTables(t)
    ensures
      var r := ImportAll(t, owner, items, ids, done);
      r.Ok? && UpperTables(r.value.0)
    decreases |items|
  {
    if items == [] {
    } else {
      var e := Imported(owner, ids[0], items[0]);
      ImportUnfold(t, owner, items, ids, done);
      FreshTail(used, items, ids);
      if KeyTaken(t, e) {
        ImportKeepsUpper(t, used, owner, items[1..], ids[1..], done.(skipped := done.skipped + 1));
      } else {
        var v := SnapshotVersion(e, ImportedSchema(items[0]), 1);
        ToUpperIsUpper(items[0].verb);
        assert [] + [v] == [v];
        StoringKeepsUpper(t, e, [], v, t.created + [e.id]);
        ImportKeepsUpper(WithImported(t, e, items[0]), used + {ids[0]}, owner, items[1..], ids[1..],
                         ImportResult(done.created + 1, done.skipped, done.endpoints + [e]));
      }
    }
  }

  lemma UpdateKeepsUpper(t: Tables, owner: Uuid, found: Endpoint, listed: seq<Version>, p: UpdateParams,
      generated: string)
    requires UpperTables(t)
    ensures UpperTables(UpdateListed(t, owner, found, listed, p, generated).1)
  {
    ToUpperIsUpper(p.verb);
    CommitKeepsUpper(t, owner, Edited(found, p), UpdatedSchema(found, p, listed, generated), Highest(listed) + 1);
  }

  lemma RollbackKeepsUpper(t: Tables, owner: Uuid, found: Endpoint, listed: seq<Version>, version: int)
    requires UpperTables(t) && UpperRows(listed)
    ensures UpperTables(RollbackListed(t, owner, found, listed, version).1)
  {
    FoundIsUpper(listed, version);
    var target := RollbackTarget(listed, version);
    if target.Ok? {
      CommitKeepsUpper(t, owner, Restored(found, target.value), target.value.schema, Highest(listed) + 1);
    }
  }

  /** Create, Update and Import write methods in upper case, Rollback copies one. */
  lemma RequestKeepsUpper(s: State, r: Request)
    requires s.tables.versions.Keys == s.tables.endpoints.Keys <= s.used && UpperTables(s.tables) && Servable(s, r)
    ensures UpperTables(TablesAfter(s.tables, r))
  {
    var t := s.tables;
    match r
    case CreateRequest(owner, id, p, vet, generated) =>
      ToUpperIsUpper(p.verb);
      CreateTxKeepsUpper(t, NewEndpoint(owner, id, p), generated);
    case UpdateRequest(owner, id, p, vet, generated) =>
      var found := FindById(t, owner, id);
      if found.Ok? {
        UpdateKeepsUpper(t, owner, found.value, ListVersions(t, owner, id), p, generated);
      }
    case RollbackRequest(owner, id, version) =>
      var found := FindById(t, owner, id);
      ListedIsUpper(t, owner, id);
      if found.Ok? {
        RollbackKeepsUpper(t, owner, found.value, ListVersions(t, owner, id), version);
      }
    case DeleteRequest(_, _) =>
    case ImportRequest(owner, items, ids, failAt) => ImportKeepsUpper(t, s.used, owner, items, ids, NOTHING);
  }

  /** In every run of requests, reads and expiries. */
  lemma {:induction false} EventsKeepUpper(d: Deployment, events: seq<Event>)
    requires Sound(d) && UpperTables(d.state.tables) && Happens(d, events)
    ensures Sound(After(d, events)) && UpperTables(After(d, events).state.tables)
    decreases |events|
  {
    if events == [] {
    } else {
      match events[0] {
        case Mutate(r) =>
          MutateKeepsSound(d, r);
          ServeRefinesOperation(d.state, r);
          RequestKeepsUpper(d.state, r);
        case Read(v, g, f) => ReadKeepsSound(d, v, g, f);
        case Expire(_) =>
      }
      EventsKeepUpper(Happen(d, events[0]), events[1..]);
    }
  }

  // ------------------------------------------------------ other spellings

  lemma {:induction false} NothingListed(endpoints: map<Uuid, Endpoint>, ids: seq<Uuid>, verb: string)
    requires forall id :: id in endpoints ==> endpoints[id].verb != verb
    ensures ActiveIn(endpoints, ids, verb) == []
    decreases |ids|
  {
    if ids == [] {
    } else {
      NothingListed(endpoints, ids[1..], verb);
    }
  }

  /** A cached read of a method that is not in upper case keeps the cache in
      agreement with the repository exactly if nothing is listed for the method in
      upper case. */
  lemma OtherSpellingKeepsAgreementIff(d: Deployment, verb: string, getFails: bool)
    requires Sound(d) && UpperTables(d.state.tables) && !IsUpper(verb)
    requires getFails || EndpointListKey(verb) !in d.entries
    ensures Agrees(Happen(d, Read(verb, getFails, false))) <==> ListActive(d.state.tables, ToUpper(verb)) == []
  {
    var upper := ToUpper(verb);
    var d' := Happen(d, Read(verb, getFails, false));
    ToUpperIsUpper(verb);
    assert EndpointListKey(upper) == EndpointListKey(verb);
    NothingListed(d.state.tables.endpoints, d.state.tables.created, verb);
    assert d'.entries[EndpointListKey(upper)] == [];
    if ListActive(d.state.tables, upper) == [] {
      forall other | IsUpper(other) && EndpointListKey(other) in d'.entries
        ensures d'.entries[EndpointListKey(other)] == ListActive(d'.state.tables, other)
      {
        if EndpointListKey(other) == EndpointListKey(upper) {
          KeysInjective(other, upper);
        }
      }
    }
  }

  /** From the empty registry: a read in lower case hides a new endpoint from every
      cached read until the entry expires or is dropped. */
  lemma LowerReadHidesEndpoint(owner: Uuid, id: Uuid, c: CreateParams, vet: Vetting, generated: string, verb: string)
    requires ValidateCreate(c, vet).None? && NewEndpoint(owner, id, c).status == ACTIVE
    requires !IsUpper(verb) && ToUpper(verb) == ToUpper(c.verb)
    ensures
      var e := NewEndpoint(owner, id, c);
      var created := Happen(Deployment(START, map[]), Mutate(CreateRequest(owner, id, c, vet, generated)));
      && Idle(created.state)
      && var d := Happen(created, Read(verb, false, false));
      && ListActive(d.state.tables, ToUpper(verb)) == [e]
      && CachedList(d.state.tables, d.entries, ToUpper(verb), false, false).0 == []
  {
    var e := NewEndpoint(owner, id, c);
    var start := Deployment(START, map[]);
    var created := Happen(start, Mutate(CreateRequest(owner, id, c, vet, generated)));
    Overtaking.AfterCreate(owner, id, c, vet, generated);
    var t := created.state.tables;
    assert t.endpoints == map[id := e] && t.created == [id];
    ToUpperIsUpper(verb);
    assert created.entries == map[];
    assert EndpointListKey(ToUpper(verb)) == EndpointListKey(verb);
    NothingListed(t.endpoints, t.created, verb);
    assert t.created[1..] == [];
    assert ActiveIn(t.endpoints, t.created, ToUpper(verb)) == [e] + ActiveIn(t.endpoints, [], ToUpper(verb));
  }

  /** One such read: GET /users is created, then listed as "get". */
  lemma LowerReadExample()
    ensures
      var start := Deployment(START, map[]);
      var create := CreateRequest(0, 0, Overtaking.UsersCreated(), Overtaking.FULL_VETTING, "a");
      var created := Happen(start, Mutate(create));
      && Idle(created.state)
      && var d := Happen(created, Read("get", false, false));
      && ListActive(d.state.tables, "GET") != []
      && CachedList(d.state.tables, d.entries, "GET", false, false).0 == []
  {
    var c := Overtaking.UsersCreated();
    Overtaking.UsersAreValid("", "list");
    assert ToUpper("get")[0] == 'G';
    assert ToUpper("get") == "GET" && ToUpper("GET") == "GET";
    LowerReadHidesEndpoint(0, 0, c, Overtaking.FULL_VETTING, "a", "get");
  }
}
