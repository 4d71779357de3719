/** The repository, the cache and the endpoint service as objects that update their
    state in place, proved against the operations on tables. */
module Service {
  import opened Basics
  import opened Text
  import opened Registry
  import opened Requests
  import opened ListCache
  import Rollback

  // ------------------------------------------------------------ repository

  /** The two tables, one statement at a time. */
  class Repository {
    var endpoints: map<Uuid, Endpoint>
    var versions: map<Uuid, seq<Version>>
    var created: seq<Uuid>

    constructor ()
      ensures View() == Tables(map[], map[], [])
    {
      endpoints, versions, created := map[], map[], [];
    }

    function View(): Tables
      reads this
    {
      Tables(endpoints, versions, created)
    }

    /** Puts the tables back to what they were when a transaction began. */
    method Restore(t: Tables)
      modifies this
      ensures View() == t
    {
      endpoints, versions, created := t.endpoints, t.versions, t.created;
    }

    method Create(e: Endpoint) returns (error: Option<Error>)
      modifies this
      ensures InsertEndpoint(old(View()), e) == if error.None? then Ok(View()) else Err(error.value)
      ensures error.Some? ==> View() == old(View())
    {
      if e.id in endpoints || KeyTaken(View(), e) { return Some(Conflict); }
      endpoints := endpoints[e.id := e];
      created := created + [e.id];
      error := None;
    }

    method Update(account: Uuid, e: Endpoint) returns (error: Option<Error>)
      modifies this
      ensures UpdateEndpoint(old(View()), account, e) == if error.None? then Ok(View()) else Err(error.value)
      ensures error.Some? ==> View() == old(View())
    {
      if e.id !in endpoints || endpoints[e.id].account != account { return Some(NotFound); }
      if KeyTaken(View(), e) { return Some(Conflict); }
      endpoints := endpoints[e.id := e];
      error := None;
    }

    method Delete(account: Uuid, id: Uuid) returns (error: Option<Error>)
      modifies this
      ensures DeleteEndpoint(old(View()), account, id) == if error.None? then Ok(View()) else Err(error.value)
      ensures error.Some? ==> View() == old(View())
    {
      if id !in endpoints || endpoints[id].account != account { return Some(NotFound); }
      endpoints := endpoints - {id};
      versions := versions - {id};
      error := None;
    }

    method CreateVersion(v: Version) returns (error: Option<Error>)
      modifies this
      ensures InsertVersion(old(View()), v) == if error.None? then Ok(View()) else Err(error.value)
      ensures error.Some? ==> View() == old(View())
    {
      var rows := VersionRows(View(), v.endpointId);
      if v.endpointId !in endpoints || exists i :: 0 <= i < |rows| && rows[i].version == v.version {
        return Some(Storage);
      }
      versions := versions[v.endpointId := rows + [v]];
      error := None;
    }
  }

  // ----------------------------------------------------------------- cache

  /** The key/value cache; its accesses may fail. */
  class Cache {
    var entries: Entries

    constructor ()
      ensures entries == map[]
    {
      entries := map[];
    }

    method Get(key: string, fails: bool) returns (hit: Option<seq<Endpoint>>)
      ensures hit == if !fails && key in entries then Some(entries[key]) else None
    {
      hit := if !fails && key in entries then Some(entries[key]) else None;
    }

    method Set(key: string, list: seq<Endpoint>, fails: bool)
      modifies this
      ensures entries == if fails then old(entries) else old(entries)[key := list]
    {
      if !fails {
        entries := entries[key := list];
      }
    }

    method Delete(key: string)
      modifies this
      ensures entries == old(entries) - {key}
    {
      entries := entries - {key};
    }
  }

  /** The read-through store in front of the repository. */
  class CachedEndpointStore {
    const next: Repository
    const cache: Cache

    constructor (next: Repository, cache: Cache)
      ensures this.next == next && this.cache == cache
    {
      this.next, this.cache := next, cache;
    }

    /** A cache that fails is passed over; a repository that fails is an error. */
    method ListActiveByMethod(verb: string, getFails: bool, setFails: bool, nextFails: bool)
      returns (endpoints: Result<seq<Endpoint>, Error>)
      modifies cache
      ensures
        var hit := !getFails && EndpointListKey(verb) in old(cache.entries);
        if nextFails && !hit then endpoints == Err(Storage) && cache.entries == old(cache.entries)
        else endpoints.Ok?
             && (endpoints.value, cache.entries)
                == CachedList(next.View(), old(cache.entries), verb, getFails, setFails)
    {
      var key := EndpointListKey(verb);
      var hit := cache.Get(key, getFails);
      if hit.Some? {
        return Ok(hit.value);
      }
      if nextFails {
        return Err(Storage);
      }
      var list := ListActive(next.View(), verb);
      cache.Set(key, list, setFails);
      endpoints := Ok(list);
    }
  }

  // --------------------------------------------------------------- service

  /** findVersion's scan. */
  method ScanVersions(versions: seq<Version>, version: int) returns (r: Result<Version, Error>)
    ensures r == FindVersion(versions, version)
  {
    for i := 0 to |versions|
      invariant FindVersion(versions, version) == FindVersion(versions[i..], version)
    {
      if versions[i].version == version {
        return Ok(versions[i]);
      }
    }
    r := Err(Invalid("version"));
  }

  lemma InvalidateMore(entries: Entries, verbs: set<string>, verb: string)
    ensures Invalidate(entries, verbs) - {EndpointListKey(verb)} == Invalidate(entries, verbs + {verb})
    ensures Invalidate(entries, {}) == entries
  {
    var more := set v | v in verbs + {verb} :: EndpointListKey(v);
    assert more == (set v | v in verbs :: EndpointListKey(v)) + {EndpointListKey(verb)};
  }

  /** The business logic, each operation in the source's order of calls. */
  class EndpointService {
    const repo: Repository
    const cache: Cache

    constructor (repo: Repository, cache: Cache)
      ensures this.repo == repo && this.cache == cache
    {
      this.repo, this.cache := repo, cache;
    }

    method InvalidateMethod(verb: string)
      modifies cache
      ensures cache.entries == Invalidate(old(cache.entries), {verb})
    {
      InvalidateMore(cache.entries, {}, verb);
      cache.Delete(EndpointListKey(verb));
      assert {} + {verb} == {verb};
    }

    method InvalidateMethods(a: string, b: string)
      modifies cache
      ensures cache.entries == Invalidate(old(cache.entries), {a, b})
    {
      InvalidateMethod(a);
      InvalidateMore(old(cache.entries), {a}, b);
      cache.Delete(EndpointListKey(b));
      assert {a} + {b} == {a, b};
    }

    /** The transaction of Update and Rollback: both statements, or neither. */
    method CommitEdit(owner: Uuid, e: Endpoint, schema: string, version: int) returns (error: Option<Error>)
      modifies repo
      ensures CommitTx(old(repo.View()), owner, e, schema, version) ==
        if error.None? then Ok(repo.View()) else Err(error.value)
      ensures error.Some? ==> repo.View() == old(repo.View())
    {
      var before := repo.View();
      error := repo.Update(owner, e);
      if error.None? {
        error := repo.CreateVersion(SnapshotVersion(e, schema, version));
        if error.Some? {
          repo.Restore(before);
        }
      }
    }

    method Create(owner: Uuid, id: Uuid, p: CreateParams, vet: Vetting, generated: string) returns (answer: Answer)
      modifies repo, cache
      ensures (answer, repo.View()) == CreateOp(old(repo.View()), owner, id, p, vet, generated)
      ensures cache.entries == Invalidate(old(cache.entries),
                Invalidated(old(repo.View()), CreateRequest(owner, id, p, vet, generated)))
    {
      InvalidateMore(cache.entries, {}, "");
      var invalid := ValidateCreate(p, vet);
      if invalid.Some? { return Err(invalid.value); }
      var e := NewEndpoint(owner, id, p);
      var before := repo.View();
      var error := repo.Create(e);
      if error.Some? { return Err(error.value); }
      error := repo.CreateVersion(SnapshotVersion(e, generated, 1));
      if error.Some? {
        repo.Restore(before);
        return Err(error.value);
      }
      InvalidateMethod(e.verb);
      answer := Ok(e);
    }

    /** The field assignments of an update. */
    method Edit(found: Endpoint, p: UpdateParams) returns (existing: Endpoint)
      ensures existing == Edited(found, p)
    {
      existing := found;
      existing := existing.(verb := ToUpper(p.verb));
      existing := existing.(path := p.path);
      existing := existing.(description := p.description);
      existing := existing.(prompt := p.prompt);
      existing := existing.(responseType := DefaultString(p.responseType, JSON));
      if p.stateful.Some? { existing := existing.(stateful := p.stateful.value); }
      existing := existing.(status := DefaultString(p.status, ACTIVE));
      if p.requestSchema.Some? { existing := existing.(requestSchema := TrimSpace(p.requestSchema.value)); }
      if p.errorSim.Some? { existing := existing.(errorSim := TrimSpace(p.errorSim.value)); }
      if p.public.Some? { existing := existing.(public := p.public.value); }
    }

    /** An update up to its commit; replaced is the row it replaced, if it did. */
    method UpdateRows(owner: Uuid, id: Uuid, p: UpdateParams, vet: Vetting, generated: string)
      returns (answer: Answer, replaced: Option<Endpoint>)
      modifies repo
      ensures (answer, repo.View()) == UpdateOp(old(repo.View()), owner, id, p, vet, generated)
      ensures
        var found := FindById(old(repo.View()), owner, id);
        replaced == if answer.Ok? && found.Ok? && !EndpointSnapshotEqual(found.value, answer.value)
                    then Some(found.value) else None
    {
      var invalid := ValidateUpdate(p, vet);
      if invalid.Some? { return Err(invalid.value), None; }
      var found := FindById(repo.View(), owner, id);
      if found.Err? { return Err(found.error), None; }
      var existing := Edit(found.value, p);
      if EndpointSnapshotEqual(found.value, existing) { return Ok(existing), None; }

      var versions := ListVersions(repo.View(), owner, id);
      var schema := "";
      if p.prompt != found.value.prompt {
        schema := generated;
      } else if |versions| > 0 {
        schema := versions[0].schema;
      }
      var next := NextVersion(versions);
      var error := CommitEdit(owner, existing, schema, next);
      if error.Some? { return Err(error.value), None; }
      answer, replaced := Ok(existing), Some(found.value);
    }

    method Update(owner: Uuid, id: Uuid, p: UpdateParams, vet: Vetting, generated: string) returns (answer: Answer)
      modifies repo, cache
      ensures (answer, repo.View()) == UpdateOp(old(repo.View()), owner, id, p, vet, generated)
      ensures cache.entries == Invalidate(old(cache.entries),
                Invalidated(old(repo.View()), UpdateRequest(owner, id, p, vet, generated)))
    {
      InvalidateMore(cache.entries, {}, "");
      var replaced;
      answer, replaced := UpdateRows(owner, id, p, vet, generated);
      if replaced.Some? {
        InvalidateMethods(replaced.value.verb, answer.value.verb);
      }
    }

    /** The field assignments of a rollback. */
    method TakeBack(found: Endpoint, target: Version) returns (existing: Endpoint)
      ensures existing == Restored(found, target)
    {
      existing := found;
      existing := existing.(verb := target.verb);
      existing := existing.(path := target.path);
      existing := existing.(description := target.description);
      existing := existing.(prompt := target.prompt);
      existing := existing.(responseType := DefaultString(target.responseType, JSON));
      existing := existing.(stateful := target.stateful);
      existing := existing.(status := DefaultString(target.status, ACTIVE));
      existing := existing.(requestSchema := target.requestSchema);
      existing := existing.(errorSim := target.errorSim);
      existing := existing.(public := target.public);
    }

    /** A rollback up to its commit; replaced is the row it replaced, if it did. */
    method RollbackRows(owner: Uuid, id: Uuid, version: int) returns (answer: Answer, replaced: Option<Endpoint>)
      modifies repo
      ensures (answer, repo.View()) == RollbackOp(old(repo.View()), owner, id, version)
      ensures
        var found := FindById(old(repo.View()), owner, id);
        replaced == if answer.Ok? && found.Ok? then Some(found.value) else None
    {
      var found := FindById(repo.View(), owner, id);
      if found.Err? { return Err(found.error), None; }
      var versions := ListVersions(repo.View(), owner, id);
      var target := ScanVersions(versions, version);
      if target.Err? { return Err(target.error), None; }
      if target.value.version >= versions[0].version { return Err(Invalid("version")), None; }

      var existing := TakeBack(found.value, target.value);
      var next := NextVersion(versions);
      var error := CommitEdit(owner, existing, target.value.schema, next);
      if error.Some? { return Err(error.value), None; }
      answer, replaced := Ok(existing), Some(found.value);
    }

    method RollbackTo(owner: Uuid, id: Uuid, version: int) returns (answer: Answer)
      modifies repo, cache
      ensures (answer, repo.View()) == RollbackOp(old(repo.View()), owner, id, version)
      ensures cache.entries == Invalidate(old(cache.entries),
                Invalidated(old(repo.View()), RollbackRequest(owner, id, version)))
    {
      InvalidateMore(cache.entries, {}, "");
      var replaced;
      answer, replaced := RollbackRows(owner, id, version);
      if replaced.Some? {
        InvalidateMethods(replaced.value.verb, answer.value.verb);
      }
    }

    method Diff(owner: Uuid, id: Uuid, version: int) returns (r: Result<seq<Rollback.FieldChange>, Error>)
      ensures r == Rollback.DiffOp(repo.View(), owner, id, version)
    {
      var found := FindById(repo.View(), owner, id);
      if found.Err? { return Err(found.error); }
      var versions := ListVersions(repo.View(), owner, id);
      var target := ScanVersions(versions, version);
      if target.Err? {
        assert target.error == Invalid("version") by { NotFoundIsInvalid(versions, version); }
        return Err(target.error);
      }
      var changes := Rollback.DiffVersions(target.value, versions[0]);
      r := Ok(changes);
    }

    method Delete(owner: Uuid, id: Uuid) returns (answer: Answer)
      modifies repo, cache
      ensures (answer, repo.View()) == DeleteOp(old(repo.View()), owner, id)
      ensures cache.entries == Invalidate(old(cache.entries), Invalidated(old(repo.View()), DeleteRequest(owner, id)))
    {
      InvalidateMore(cache.entries, {}, "");
      var found := FindById(repo.View(), owner, id);
      if found.Err? { return Err(found.error); }
      var error := repo.Delete(owner, id);
      if error.None? {
        InvalidateMethod(found.value.verb);
      }
      answer := if error.None? then Ok(found.value) else Err(error.GetOr(NotFound));
    }

    /** One item of an import: both statements, a conflict counted as skipped. */
    method ImportItem(owner: Uuid, item: ImportItem, id: Uuid, done: ImportResult)
      returns (next: ImportResult, error: Option<Error>)
      modifies repo
      ensures
        match ImportOne(old(repo.View()), owner, item, id, done)
        case Ok((t', counted)) => error == None && next == counted && repo.View() == t'
        case Err(why) => error == Some(why) && next == done
    {
      var e := Imported(owner, id, item);
      error := repo.Create(e);
      if error == Some(Conflict) {
        return done.(skipped := done.skipped + 1), None;
      }
      if error.None? {
        error := repo.CreateVersion(SnapshotVersion(e, ImportedSchema(item), 1));
      }
      if error.Some? {
        return done, error;
      }
      next := ImportResult(done.created + 1, done.skipped, done.endpoints + [e]);
    }

    /** The import transaction: items one after the other, conflicts skipped, and
        everything undone when the database fails. */
    method ImportItems(owner: Uuid, items: seq<ImportItem>, ids: seq<Uuid>, failAt: Option<nat>)
      returns (done: ImportResult, error: Option<Error>)
      requires |ids| == |items|
      modifies repo
      ensures
        (if error.None? then Ok(done) else Err(error.value), repo.View())
        == ImportOp(old(repo.View()), owner, items, ids, failAt)
      ensures
        var n := Attempted(items, failAt);
        done == ImportProgress(old(repo.View()), owner, items[..n], ids[..n], NOTHING)
    {
      var before := repo.View();
      done := NOTHING;
      ghost var n := Attempted(items, failAt);
      ghost var all := ImportAll(before, owner, items, ids, NOTHING);
      ghost var counted := ImportProgress(before, owner, items[..n], ids[..n], NOTHING);
      assert items[0..n] == items[..n] && ids[0..n] == ids[..n];
      for i := 0 to |items|
        invariant i <= n
        invariant ImportAll(repo.View(), owner, items[i..], ids[i..], done) == all
        invariant ImportProgress(repo.View(), owner, items[i..n], ids[i..n], done) == counted
      {
        if failAt == Some(i) {
          repo.Restore(before);
          return done, Some(Storage);
        }
        assert items[i..][1..] == items[i + 1..] && ids[i..][1..] == ids[i + 1..];
        assert items[i..n][1..] == items[i + 1..n] && ids[i..n][1..] == ids[i + 1..n];
        done, error := ImportItem(owner, items[i], ids[i], done);
        if error.Some? {
          repo.Restore(before);
          return done, if failAt.Some? && failAt.value < |items| then Some(Storage) else error;
        }
      }
      error := None;
    }

    /** As in the source, the counts are returned beside an error too. */
    method Import(owner: Uuid, items: seq<ImportItem>, ids: seq<Uuid>, failAt: Option<nat>)
      returns (done: ImportResult, error: Option<Error>)
      requires |ids| == |items|
      modifies repo, cache
      ensures
        (if error.None? then Ok(done) else Err(error.value), repo.View())
        == ImportOp(old(repo.View()), owner, items, ids, failAt)
      ensures
        var n := Attempted(items, failAt);
        done == ImportProgress(old(repo.View()), owner, items[..n], ids[..n], NOTHING)
      ensures cache.entries == Invalidate(old(cache.entries),
                Invalidated(old(repo.View()), ImportRequest(owner, items, ids, failAt)))
    {
      InvalidateMore(cache.entries, {}, "");
      done, error := ImportItems(owner, items, ids, failAt);
      if error.Some? { return; }
      var pending := VerbsOf(done.endpoints);
      ghost var verbs := pending;
      while pending != {}
        invariant pending <= verbs
        invariant cache.entries == Invalidate(old(cache.entries), verbs - pending)
        invariant repo.View() == ImportOp(old(repo.View()), owner, items, ids, failAt).1
        decreases pending
      {
        var verb :| verb in pending;
        InvalidateMore(old(cache.entries), verbs - pending, verb);
        assert verbs - pending + {verb} == verbs - (pending - {verb});
        cache.Delete(EndpointListKey(verb));
        pending := pending - {verb};
      }
      assert verbs - {} == verbs;
    }
  }

  lemma {:induction false} NotFoundIsInvalid(versions: seq<Version>, version: int)
    requires FindVersion(versions, version).Err?
    ensures FindVersion(versions, version) == Err(Invalid("version"))
    decreases |versions|
  {
    if versions == [] {
    } else {
      NotFoundIsInvalid(versions[1..], version);
    }
  }
}
