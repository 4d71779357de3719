/** The registry's operations as the repository calls that concurrent requests
    interleave: reads happen outside the transaction, and the transaction commits
    atomically later. */
module Interleaving {
  import opened Basics
  import opened Registry
  import opened History
  import Rollback

  // ------------------------------------------------------------ the steps

  /** A request between two of its repository calls. */
  datatype Pending =
    | Editing(found: Endpoint, params: UpdateParams)
    | Restoring(found: Endpoint, version: int)
    | Committing(edited: Endpoint, schema: string, version: int)
    | Deleting(found: Endpoint)

  /** Requests are named by their account and a number. */
  type Op = (Uuid, nat)

  /** used holds every endpoint id ever handed out; produced every (prompt, schema)
      pair a schema generation or an import item brought in. */
  datatype State = State(
    tables: Tables,
    pending: map<Op, Pending>,
    used: set<Uuid>,
    produced: set<(string, string)>)

  const START := State(NO_TABLES, map[], {}, {})

  /** One repository call, with the request's inputs, the fresh ids it draws and
      what the AI provider generated for it. */
  datatype Step =
    | Create(owner: Uuid, id: Uuid, params: CreateParams, vet: Vetting, generated: string)
    | FindForUpdate(owner: Uuid, op: nat, id: Uuid, edit: UpdateParams, vet: Vetting)
    | ListForUpdate(owner: Uuid, op: nat, generated: string)
    | FindForRollback(owner: Uuid, op: nat, id: Uuid, version: int)
    | ListForRollback(owner: Uuid, op: nat)
    | Commit(owner: Uuid, op: nat)
    | FindForDelete(owner: Uuid, op: nat, id: Uuid)
    | CommitDelete(owner: Uuid, op: nat)
    | Import(owner: Uuid, items: seq<ImportItem>, ids: seq<Uuid>, failAt: Option<nat>)
    | Abandon(owner: Uuid, op: nat)
    | Get(owner: Uuid, id: Uuid)
    | Versions(owner: Uuid, id: Uuid)
    | Diff(owner: Uuid, id: Uuid, version: int)
    | List(owner: Uuid, page: int, limit: int)

  /** What a step answers its request. */
  datatype Outcome =
    | Settled(answer: Answer)
    | Continues
    | Abandoned
    | ImportedItems(result: Result<ImportResult, Error>)
    | Listed(versions: Result<seq<Version>, Error>)
    | Compared(changes: Result<seq<Rollback.FieldChange>, Error>)
    | Paged(page: seq<Endpoint>, count: nat)

  /** A request takes its steps in order, with ids never handed out before. */
  predicate Enabled(s: State, step: Step) {
    match step
    case Create(_, id, _, _, _) => id !in s.used
    case FindForUpdate(owner, op, _, _, _) => (owner, op) !in s.pending
    case ListForUpdate(owner, op, _) => (owner, op) in s.pending && s.pending[(owner, op)].Editing?
    case FindForRollback(owner, op, _, _) => (owner, op) !in s.pending
    case ListForRollback(owner, op) => (owner, op) in s.pending && s.pending[(owner, op)].Restoring?
    case Commit(owner, op) => (owner, op) in s.pending && s.pending[(owner, op)].Committing?
    case FindForDelete(owner, op, _) => (owner, op) !in s.pending
    case CommitDelete(owner, op) => (owner, op) in s.pending && s.pending[(owner, op)].Deleting?
    case Import(_, items, ids, _) => FreshIds(s.used, items, ids)
    case Abandon(_, _) => true
    case Get(_, _) => true
    case Versions(_, _) => true
    case Diff(_, _, _) => true
    case List(_, _, _) => true
  }

  predicate FreshIds(used: set<Uuid>, items: seq<ImportItem>, ids: seq<Uuid>) {
    && |ids| == |items|
    && (forall i :: 0 <= i < |ids| ==> ids[i] !in used)
    && (forall i, j :: 0 <= i < j < |ids| ==> ids[i] != ids[j])
  }

  function IdSet(ids: seq<Uuid>): set<Uuid> {
    set i | 0 <= i < |ids| :: ids[i]
  }

  function ItemPairs(items: seq<ImportItem>): set<(string, string)> {
    set i | 0 <= i < |items| :: (items[i].prompt, ImportedSchema(items[i]))
  }

  function ApplyCreate(s: State, owner: Uuid, id: Uuid, p: CreateParams, vet: Vetting,
      generated: string): (State, Outcome)
  {
    var (answer, t) := CreateOp(s.tables, owner, id, p, vet, generated);
    (State(t, s.pending, s.used + {id},
           if ValidateCreate(p, vet).Some? then s.produced else s.produced + {(p.prompt, generated)}),
     Settled(answer))
  }

  function ApplyFindForUpdate(s: State, op: Op, id: Uuid, p: UpdateParams, vet: Vetting): (State, Outcome) {
    var invalid := ValidateUpdate(p, vet);
    if invalid.Some? then (s, Settled(Err(invalid.value)))
    else
      var found := FindById(s.tables, op.0, id);
      if found.Err? then (s, Settled(Err(found.error)))
      else if EndpointSnapshotEqual(found.value, Edited(found.value, p)) then
        (s, Settled(Ok(Edited(found.value, p))))
      else (s.(pending := s.pending[op := Editing(found.value, p)]), Continues)
  }

  function ApplyListForUpdate(s: State, op: Op, generated: string): (State, Outcome)
    requires op in s.pending && s.pending[op].Editing?
  {
    var Editing(found, p) := s.pending[op];
    var listed := ListVersions(s.tables, op.0, found.id);
    var schema := UpdatedSchema(found, p, listed, generated);
    (s.(pending := s.pending[op := Committing(Edited(found, p), schema, Highest(listed) + 1)],
        produced := if p.prompt != found.prompt then s.produced + {(p.prompt, generated)} else s.produced),
     Continues)
  }

  function ApplyFindForRollback(s: State, op: Op, id: Uuid, version: int): (State, Outcome) {
    var found := FindById(s.tables, op.0, id);
    if found.Err? then (s, Settled(Err(found.error)))
    else (s.(pending := s.pending[op := Restoring(found.value, version)]), Continues)
  }

  function ApplyListForRollback(s: State, op: Op): (State, Outcome)
    requires op in s.pending && s.pending[op].Restoring?
  {
    var Restoring(found, version) := s.pending[op];
    var listed := ListVersions(s.tables, op.0, found.id);
    var target := RollbackTarget(listed, version);
    if target.Err? then (s.(pending := s.pending - {op}), Settled(Err(target.error)))
    else
      var next := Committing(Restored(found, target.value), target.value.schema, Highest(listed) + 1);
      (s.(pending := s.pending[op := next]),
       Continues)
  }

  function ApplyCommit(s: State, op: Op): (State, Outcome)
    requires op in s.pending && s.pending[op].Committing?
  {
    var Committing(e, schema, version) := s.pending[op];
    var (answer, t) := Settle(s.tables, CommitTx(s.tables, op.0, e, schema, version), e);
    (s.(tables := t, pending := s.pending - {op}), Settled(answer))
  }

  function ApplyFindForDelete(s: State, op: Op, id: Uuid): (State, Outcome) {
    var found := FindById(s.tables, op.0, id);
    if found.Err? then (s, Settled(Err(found.error)))
    else (s.(pending := s.pending[op := Deleting(found.value)]), Continues)
  }

  function ApplyCommitDelete(s: State, op: Op): (State, Outcome)
    requires op in s.pending && s.pending[op].Deleting?
  {
    var found := s.pending[op].found;
    var (answer, t) := Settle(s.tables, DeleteEndpoint(s.tables, op.0, found.id), found);
    (s.(tables := t, pending := s.pending - {op}), Settled(answer))
  }

  function ApplyImport(s: State, owner: Uuid, items: seq<ImportItem>, ids: seq<Uuid>,
      failAt: Option<nat>): (State, Outcome)
    requires |ids| == |items|
  {
    var (result, t) := ImportOp(s.tables, owner, items, ids, failAt);
    (State(t, s.pending, s.used + IdSet(ids), s.produced + ItemPairs(items)), ImportedItems(result))
  }

  predicate Reads(step: Step) {
    step.Get? || step.Versions? || step.Diff? || step.List?
  }

  function ReadAnswer(t: Tables, step: Step): Outcome
    requires Reads(step)
  {
    match step
    case Get(owner, id) => Settled(FindById(t, owner, id))
    case Versions(owner, id) =>
      var found := FindById(t, owner, id);
      Listed(if found.Err? then Err(found.error) else Ok(ListVersions(t, owner, id)))
    case Diff(owner, id, version) => Compared(Rollback.DiffOp(t, owner, id, version))
    case List(owner, page, limit) =>
      var (rows, count) := ListPage(t, owner, page, limit);
      Paged(rows, count)
  }

  function Apply(s: State, step: Step): (State, Outcome)
    requires Enabled(s, step)
  {
    match step
    case Create(owner, id, p, vet, generated) => ApplyCreate(s, owner, id, p, vet, generated)
    case FindForUpdate(owner, op, id, p, vet) => ApplyFindForUpdate(s, (owner, op), id, p, vet)
    case ListForUpdate(owner, op, generated) => ApplyListForUpdate(s, (owner, op), generated)
    case FindForRollback(owner, op, id, version) => ApplyFindForRollback(s, (owner, op), id, version)
    case ListForRollback(owner, op) => ApplyListForRollback(s, (owner, op))
    case Commit(owner, op) => ApplyCommit(s, (owner, op))
    case FindForDelete(owner, op, id) => ApplyFindForDelete(s, (owner, op), id)
    case CommitDelete(owner, op) => ApplyCommitDelete(s, (owner, op))
    case Import(owner, items, ids, failAt) => ApplyImport(s, owner, items, ids, failAt)
    case Abandon(owner, op) => (s.(pending := s.pending - {(owner, op)}), Abandoned)
    case _ => (s, ReadAnswer(s.tables, step))
  }

  predicate Runs(s: State, steps: seq<Step>)
    decreases |steps|
  {
    steps == [] || (Enabled(s, steps[0]) && Runs(Apply(s, steps[0]).0, steps[1..]))
  }

  function Final(s: State, steps: seq<Step>): State
    requires Runs(s, steps)
    decreases |steps|
  {
    if steps == [] then s else Final(Apply(s, steps[0]).0, steps[1..])
  }

  // -------------------------------------------------------- the invariant

  /** What a request under way has read is at most out of date: if its endpoint
      still lives, it is at most as many versions old as have been added since. */
  predicate PendingOk(s: State, op: Op, p: Pending) {
    match p
    case Editing(found, _) => OwnRow(s, op.0, found)
    case Restoring(found, _) => OwnRow(s, op.0, found)
    case Deleting(found) => OwnRow(s, op.0, found)
    case Committing(e, _, version) =>
      && OwnRow(s, op.0, e)
      && Defaulted(e.responseType, e.status)
      && version >= 1
      && (e.id in s.tables.endpoints ==> version <= |VersionRows(s.tables, e.id)| + 1)
  }

  /** e is or was a row of owner's. */
  predicate OwnRow(s: State, owner: Uuid, e: Endpoint) {
    && e.account == owner
    && e.id in s.used
    && (e.id in s.tables.endpoints ==> s.tables.endpoints[e.id].account == owner)
  }

  predicate Inv(s: State) {
    && Intact(s.tables)
    && s.tables.endpoints.Keys <= s.used
    && forall op :: op in s.pending ==> PendingOk(s, op, s.pending[op])
  }

  /** Histories only grow, endpoints keep their account, and ids handed out before
      are not revived. */
  predicate Extends(s: State, s': State) {
    && s.used <= s'.used
    && forall id :: id in s'.tables.endpoints && id in s.used ==>
         && id in s.tables.endpoints
         && s'.tables.endpoints[id].account == s.tables.endpoints[id].account
         && VersionRows(s.tables, id) <= VersionRows(s'.tables, id)
  }

  lemma ExtendsTransitive(a: State, b: State, c: State)
    requires Extends(a, b) && Extends(b, c)
    ensures Extends(a, c)
  {
  }

  /** A step that stores intact, extended tables keeps the requests under way
      consistent. */
  lemma PendingKept(s: State, s': State, op: Op, p: Pending)
    requires Inv(s) && Intact(s'.tables) && Extends(s, s') && PendingOk(s, op, p)
    ensures PendingOk(s', op, p)
  {
  }

  lemma CreateKeepsInv(s: State, owner: Uuid, id: Uuid, p: CreateParams, vet: Vetting, generated: string)
    requires Inv(s) && id !in s.used
    ensures Inv(ApplyCreate(s, owner, id, p, vet, generated).0)
    ensures Extends(s, ApplyCreate(s, owner, id, p, vet, generated).0)
  {
    var s' := ApplyCreate(s, owner, id, p, vet, generated).0;
    var e := NewEndpoint(owner, id, p);
    NewIsDefaulted(owner, id, p);
    CreateKeepsIntact(s.tables, e, generated);
    assert Extends(s, s');
    forall op | op in s.pending {
      PendingKept(s, s', op, s.pending[op]);
    }
  }

  lemma ListForUpdateKeepsInv(s: State, op: Op, generated: string)
    requires Inv(s) && op in s.pending && s.pending[op].Editing?
    ensures Inv(ApplyListForUpdate(s, op, generated).0)
    ensures Extends(s, ApplyListForUpdate(s, op, generated).0)
  {
    var Editing(found, p) := s.pending[op];
    assert PendingOk(s, op, s.pending[op]);
    EditIsDefaulted(found, p);
    ListedAtMostHistory(s, op.0, found.id);
    ContinuedKeepsInv(s, ApplyListForUpdate(s, op, generated).0, op);
  }

  lemma ListForRollbackKeepsInv(s: State, op: Op)
    requires Inv(s) && op in s.pending && s.pending[op].Restoring?
    ensures Inv(ApplyListForRollback(s, op).0)
    ensures Extends(s, ApplyListForRollback(s, op).0)
  {
    var Restoring(found, version) := s.pending[op];
    assert PendingOk(s, op, s.pending[op]);
    var target := RollbackTarget(ListVersions(s.tables, op.0, found.id), version);
    if target.Ok? {
      RestoreIsDefaulted(found, target.value);
      ListedAtMostHistory(s, op.0, found.id);
    }
    ContinuedKeepsInv(s, ApplyListForRollback(s, op).0, op);
  }

  lemma ListedAtMostHistory(s: State, owner: Uuid, id: Uuid)
    requires Inv(s)
    ensures id in s.tables.endpoints ==> Highest(ListVersions(s.tables, owner, id)) <= |VersionRows(s.tables, id)|
  {
    if id in s.tables.endpoints && s.tables.endpoints[id].account == owner {
      ListedHistory(s.tables, owner, id);
    } else {
      ListedToOthers(s.tables, owner, id);
    }
  }

  lemma CommitKeepsInv(s: State, op: Op)
    requires Inv(s) && op in s.pending && s.pending[op].Committing?
    ensures Inv(ApplyCommit(s, op).0)
    ensures Extends(s, ApplyCommit(s, op).0)
  {
    var s' := ApplyCommit(s, op).0;
    var Committing(e, schema, version) := s.pending[op];
    assert PendingOk(s, op, s.pending[op]);
    CommitKeepsIntact(s.tables, op.0, e, schema, version);
    assert Extends(s, s');
    forall other | other in s'.pending {
      PendingKept(s, s', other, s.pending[other]);
    }
  }

  lemma DeleteKeepsInv(s: State, op: Op)
    requires Inv(s) && op in s.pending && s.pending[op].Deleting?
    ensures Inv(ApplyCommitDelete(s, op).0)
    ensures Extends(s, ApplyCommitDelete(s, op).0)
  {
    var s' := ApplyCommitDelete(s, op).0;
    var found := s.pending[op].found;
    if DeleteEndpoint(s.tables, op.0, found.id).Ok? {
      RemovingKeepsIntact(s.tables, found.id);
    }
    assert Extends(s, s');
    forall other | other in s'.pending {
      PendingKept(s, s', other, s.pending[other]);
    }
  }

  /** One item of an import under a fresh id: skipped if its key is taken, else
      created with version 1. */
  lemma ImportUnfold(t: Tables, owner: Uuid, items: seq<ImportItem>, ids: seq<Uuid>, done: ImportResult)
    requires t.versions.Keys == t.endpoints.Keys && |ids| == |items| && items != [] && ids[0] !in t.endpoints
    ensures
      var e := Imported(owner, ids[0], items[0]);
      ImportAll(t, owner, items, ids, done) ==
        if KeyTaken(t, e) then ImportAll(t, owner, items[1..], ids[1..], done.(skipped := done.skipped + 1))
        else ImportAll(WithImported(t, e, items[0]), owner, items[1..], ids[1..],
                       ImportResult(done.created + 1, done.skipped, done.endpoints + [e]))
  {
    var e := Imported(owner, ids[0], items[0]);
    if !KeyTaken(t, e) {
      CreateInserts(t, e, SnapshotVersion(e, ImportedSchema(items[0]), 1));
    }
  }

  function WithImported(t: Tables, e: Endpoint, item: ImportItem): Tables {
    Tables(t.endpoints[e.id := e],
           t.versions[e.id := [SnapshotVersion(e, ImportedSchema(item), 1)]],
           t.created + [e.id])
  }

  /** t' holds t's rows and histories unchanged and revives none of used. */
  predicate Adds(t: Tables, t': Tables, used: set<Uuid>) {
    && (forall id :: id in t.endpoints ==>
          id in t'.endpoints && t'.endpoints[id] == t.endpoints[id] && VersionRows(t', id) == VersionRows(t, id))
    && (forall id :: id in t'.endpoints && id in used ==> id in t.endpoints)
  }

  lemma AddsTransitive(a: Tables, b: Tables, c: Tables, used: set<Uuid>, more: set<Uuid>)
    requires Adds(a, b, used) && Adds(b, c, more) && used <= more
    ensures Adds(a, c, used)
  {
  }

  lemma ImportedItemKeepsIntact(t: Tables, used: set<Uuid>, owner: Uuid, id: Uuid, item: ImportItem)
    requires Intact(t) && t.endpoints.Keys <= used && id !in used
    requires !KeyTaken(t, Imported(owner, id, item))
    ensures
      var t2 := WithImported(t, Imported(owner, id, item), item);
      Intact(t2) && t2.endpoints.Keys <= used + {id} && Adds(t, t2, used)
  {
    ImportedIsDefaulted(owner, id, item);
    CreateKeepsIntact(t, Imported(owner, id, item), ImportedSchema(item));
  }

  /** Importing under fresh ids keeps every existing row and its history. */
  lemma {:induction false} ImportKeepsIntact(t: Tables, used: set<Uuid>, owner: Uuid, items: seq<ImportItem>,
      ids: seq<Uuid>, done: ImportResult)
    requires Intact(t) && t.endpoints.Keys <= used && FreshIds(used, items, ids)
    ensures
      var r := ImportAll(t, owner, items, ids, done);
      r.Ok? && Intact(r.value.0) && r.value.0.endpoints.Keys <= used + IdSet(ids) && Adds(t, r.value.0, used)
    decreases |items|
  {
    if items == [] {
    } else {
      var e := Imported(owner, ids[0], items[0]);
      ImportUnfold(t, owner, items, ids, done);
      IdSetCons(ids);
      FreshTail(used, items, ids);
      if KeyTaken(t, e) {
        ImportKeepsIntact(t, used, owner, items[1..], ids[1..], done.(skipped := done.skipped + 1));
      } else {
        var t2 := WithImported(t, e, items[0]);
        ImportedItemKeepsIntact(t, used, owner, ids[0], items[0]);
        var done2 := ImportResult(done.created + 1, done.skipped, done.endpoints + [e]);
        ImportKeepsIntact(t2, used + {ids[0]}, owner, items[1..], ids[1..], done2);
        AddsTransitive(t, t2, ImportAll(t2, owner, items[1..], ids[1..], done2).value.0, used, used + {ids[0]});
      }
    }
  }

  lemma FreshTail(used: set<Uuid>, items: seq<ImportItem>, ids: seq<Uuid>)
    requires FreshIds(used, items, ids) && items != []
    ensures FreshIds(used, items[1..], ids[1..]) && FreshIds(used + {ids[0]}, items[1..], ids[1..])
  {
  }

  lemma IdSetCons(ids: seq<Uuid>)
    requires ids != []
    ensures IdSet(ids) == {ids[0]} + IdSet(ids[1..])
  {
    forall id | id in IdSet(ids) ensures id in {ids[0]} + IdSet(ids[1..]) {
      var i :| 0 <= i < |ids| && ids[i] == id;
      if i > 0 { assert ids[1..][i - 1] == id; }
    }
    forall id | id in IdSet(ids[1..]) ensures id in IdSet(ids) {
      var i :| 0 <= i < |ids[1..]| && ids[1..][i] == id;
      assert ids[i + 1] == id;
    }
  }

  lemma ImportKeepsInv(s: State, owner: Uuid, items: seq<ImportItem>, ids: seq<Uuid>, failAt: Option<nat>)
    requires Inv(s) && FreshIds(s.used, items, ids)
    ensures Inv(ApplyImport(s, owner, items, ids, failAt).0)
    ensures Extends(s, ApplyImport(s, owner, items, ids, failAt).0)
  {
    var s' := ApplyImport(s, owner, items, ids, failAt).0;
    ImportKeepsIntact(s.tables, s.used, owner, items, ids, NOTHING);
    assert Extends(s, s');
    forall op | op in s.pending {
      PendingKept(s, s', op, s.pending[op]);
    }
  }

  /** s' differs from s in the request op alone, which it drops or takes to a
      consistent p. */
  predicate Continued(s: State, s': State, op: Op) {
    && s'.tables == s.tables && s'.used == s.used
    && (s'.pending == s.pending
        || s'.pending == s.pending - {op}
        || (op in s'.pending && s'.pending == s.pending[op := s'.pending[op]] && PendingOk(s, op, s'.pending[op])))
  }

  lemma ContinuedKeepsInv(s: State, s': State, op: Op)
    requires Inv(s) && Continued(s, s', op)
    ensures Inv(s') && Extends(s, s')
  {
    forall o | o in s'.pending
      ensures PendingOk(s', o, s'.pending[o])
    {
      assert PendingOk(s, o, s'.pending[o]);
    }
  }

  /** A found endpoint is the caller's own. */
  lemma FoundIsOwn(s: State, owner: Uuid, id: Uuid)
    requires Inv(s)
    ensures
      var found := FindById(s.tables, owner, id);
      found.Ok? ==> OwnRow(s, owner, found.value)
  {
  }

  /** All a found endpoint adds is the request's own knowledge of it. */
  lemma FindForUpdateContinues(s: State, op: Op, id: Uuid, p: UpdateParams, vet: Vetting)
    requires FindById(s.tables, op.0, id).Ok? ==> OwnRow(s, op.0, FindById(s.tables, op.0, id).value)
    ensures Continued(s, ApplyFindForUpdate(s, op, id, p, vet).0, op)
  {
  }

  lemma FindForUpdateKeepsInv(s: State, op: Op, id: Uuid, p: UpdateParams, vet: Vetting)
    requires Inv(s) && op !in s.pending
    ensures Inv(ApplyFindForUpdate(s, op, id, p, vet).0) && Extends(s, ApplyFindForUpdate(s, op, id, p, vet).0)
  {
    FoundIsOwn(s, op.0, id);
    FindForUpdateContinues(s, op, id, p, vet);
    ContinuedKeepsInv(s, ApplyFindForUpdate(s, op, id, p, vet).0, op);
  }

  lemma FindForRollbackKeepsInv(s: State, op: Op, id: Uuid, version: int)
    requires Inv(s) && op !in s.pending
    ensures Inv(ApplyFindForRollback(s, op, id, version).0) && Extends(s, ApplyFindForRollback(s, op, id, version).0)
  {
    FoundIsOwn(s, op.0, id);
    ContinuedKeepsInv(s, ApplyFindForRollback(s, op, id, version).0, op);
  }

  lemma FindForDeleteKeepsInv(s: State, op: Op, id: Uuid)
    requires Inv(s) && op !in s.pending
    ensures Inv(ApplyFindForDelete(s, op, id).0) && Extends(s, ApplyFindForDelete(s, op, id).0)
  {
    FoundIsOwn(s, op.0, id);
    ContinuedKeepsInv(s, ApplyFindForDelete(s, op, id).0, op);
  }

  lemma StepKeepsInv(s: State, step: Step)
    requires Inv(s) && Enabled(s, step)
    ensures Inv(Apply(s, step).0) && Extends(s, Apply(s, step).0)
  {
    match step
    case Create(owner, id, p, vet, generated) => CreateKeepsInv(s, owner, id, p, vet, generated);
    case ListForUpdate(owner, op, generated) => ListForUpdateKeepsInv(s, (owner, op), generated);
    case ListForRollback(owner, op) => ListForRollbackKeepsInv(s, (owner, op));
    case Commit(owner, op) => CommitKeepsInv(s, (owner, op));
    case CommitDelete(owner, op) => DeleteKeepsInv(s, (owner, op));
    case Import(owner, items, ids, failAt) => ImportKeepsInv(s, owner, items, ids, failAt);
    case FindForUpdate(owner, op, id, p, vet) => FindForUpdateKeepsInv(s, (owner, op), id, p, vet);
    case FindForRollback(owner, op, id, version) => FindForRollbackKeepsInv(s, (owner, op), id, version);
    case FindForDelete(owner, op, id) => FindForDeleteKeepsInv(s, (owner, op), id);
    case Abandon(owner, op) => ContinuedKeepsInv(s, s.(pending := s.pending - {(owner, op)}), (owner, op));
    case Get(_, _) =>
    case Versions(_, _) =>
    case Diff(_, _, _) =>
    case List(_, _, _) =>
  }

  /** Under every interleaving, each live endpoint's versions are exactly 1..n and
      version n is the endpoint's own state, no version outlives its endpoint,
      written snapshots never change, and deleted endpoints stay deleted. */
  lemma {:induction false} RunsKeepHistories(s: State, steps: seq<Step>)
    requires Inv(s) && Runs(s, steps)
    ensures Inv(Final(s, steps)) && Extends(s, Final(s, steps))
    decreases |steps|
  {
    if steps == [] {
    } else {
      var s1 := Apply(s, steps[0]).0;
      StepKeepsInv(s, steps[0]);
      RunsKeepHistories(s1, steps[1..]);
      ExtendsTransitive(s, s1, Final(s1, steps[1..]));
    }
  }

  /** What the invariant says of a reachable state, spelled out. */
  lemma ReachableHistories(steps: seq<Step>)
    requires Runs(START, steps)
    ensures
      var t := Final(START, steps).tables;
      && t.versions.Keys == t.endpoints.Keys
      && (forall id :: id in t.endpoints ==>
            && |t.versions[id]| > 0
            && (forall i :: 0 <= i < |t.versions[id]| ==> t.versions[id][i].version == i + 1)
            && FieldsIn(t.versions[id][|t.versions[id]| - 1]) == FieldsOf(t.endpoints[id]))
      && (forall a, b :: a in t.endpoints && b in t.endpoints && a != b ==> !SameKey(t.endpoints[a], t.endpoints[b]))
  {
    RunsKeepHistories(START, steps);
  }
}
