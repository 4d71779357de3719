/** Accounts do not see each other: what an account's requests are answered, and
    the rows it owns, are those of a run in which the other accounts do nothing. */
module Isolation {
  import opened Basics
  import opened Registry
  import opened History
  import opened Interleaving

  function Owner(step: Step): Uuid {
    step.owner
  }

  // ------------------------------------------------- an account's own part

  /** b's rows were created in the same order in both. */
  ghost predicate OwnOrder(t: Tables, u: Tables, b: Uuid) {
    && (forall id :: id in u.created ==> id in t.created)
    && OwnIds(t.endpoints, t.created, b) == OwnIds(u.endpoints, u.created, b)
  }

  /** u holds exactly b's rows of t. */
  ghost predicate OwnPart(t: Tables, u: Tables, b: Uuid) {
    && t.versions.Keys == t.endpoints.Keys
    && u.versions.Keys == u.endpoints.Keys
    && (forall id :: id in u.endpoints <==> Owns(t, b, id))
    && (forall id :: id in u.endpoints ==> u.endpoints[id] == t.endpoints[id] && u.versions[id] == t.versions[id])
    && OwnOrder(t, u, b)
  }

  function OwnPending(s: State, b: Uuid): map<Op, Pending> {
    map op | op in s.pending && op.0 == b :: s.pending[op]
  }

  /** p is the state b would be in on its own. */
  ghost predicate Alone(s: State, p: State, b: Uuid) {
    OwnPart(s.tables, p.tables, b) && p.pending == OwnPending(s, b) && p.used <= s.used
  }

  /** What b's steps are answered over a run. */
  function Answers(s: State, steps: seq<Step>, b: Uuid): seq<Outcome>
    requires Runs(s, steps)
    decreases |steps|
  {
    if steps == [] then []
    else (if Owner(steps[0]) == b then [Apply(s, steps[0]).1] else []) + Answers(Apply(s, steps[0]).0, steps[1..], b)
  }

  /** The run with the steps of all other accounts removed. */
  function Only(steps: seq<Step>, b: Uuid): seq<Step>
    decreases |steps|
  {
    if steps == [] then []
    else (if Owner(steps[0]) == b then [steps[0]] else []) + Only(steps[1..], b)
  }

  // ------------------------------------------------------ b's own steps

  lemma OwnReads(t: Tables, u: Tables, b: Uuid, id: Uuid)
    requires Intact(t) && OwnPart(t, u, b)
    ensures FindById(t, b, id) == FindById(u, b, id)
    ensures ListVersions(t, b, id) == ListVersions(u, b, id)
  {
    if id in t.endpoints && t.endpoints[id].account == b {
      assert VersionRows(t, id) == VersionRows(u, id);
    } else {
      ListedToOthers(t, b, id);
      assert VersionRows(u, id) == [];
    }
  }

  lemma {:induction false} OwnIdsAreOwn(endpoints: map<Uuid, Endpoint>, ids: seq<Uuid>, b: Uuid)
    ensures forall id :: id in OwnIds(endpoints, ids, b) ==> id in endpoints && endpoints[id].account == b
    decreases |ids|
  {
    if ids == [] {
    } else {
      OwnIdsAreOwn(endpoints, ids[1..], b);
    }
  }

  lemma {:induction false} SameRows(x: map<Uuid, Endpoint>, y: map<Uuid, Endpoint>, ids: seq<Uuid>)
    requires forall id :: id in ids ==> id in x && id in y && x[id] == y[id]
    ensures RowsOf(x, ids) == RowsOf(y, ids)
    decreases |ids|
  {
    if ids == [] {
    } else {
      SameRows(x, y, ids[1..]);
    }
  }

  lemma PageIsPart(ids: seq<Uuid>, page: int, limit: int)
    ensures forall id :: id in PageOf(ids, page, limit) ==> id in ids
  {
    assert forall id :: id in PageOf(ids, page, limit) ==> id in Latest(ids);
  }

  /** Every page of b's list is the same in both. */
  lemma OwnPages(t: Tables, u: Tables, b: Uuid, page: int, limit: int)
    requires OwnPart(t, u, b)
    ensures ListPage(t, b, page, limit) == ListPage(u, b, page, limit)
  {
    var ids := OwnIds(t.endpoints, t.created, b);
    OwnIdsAreOwn(u.endpoints, u.created, b);
    PageIsPart(ids, page, limit);
    SameRows(t.endpoints, u.endpoints, PageOf(ids, page, limit));
  }

  // ------------------------------------------------ the order of creation

  lemma {:induction false} SameOwnIds(x: map<Uuid, Endpoint>, y: map<Uuid, Endpoint>, ids: seq<Uuid>, b: Uuid)
    requires forall id :: id in ids ==> (HasRow(x, b, id) <==> HasRow(y, b, id))
    ensures OwnIds(x, ids, b) == OwnIds(y, ids, b)
    decreases |ids|
  {
    if ids == [] {
    } else {
      assert HasRow(x, b, ids[0]) <==> HasRow(y, b, ids[0]);
      SameOwnIds(x, y, ids[1..], b);
    }
  }

  lemma {:induction false} OwnIdsAppend(endpoints: map<Uuid, Endpoint>, ids: seq<Uuid>, id: Uuid, b: Uuid)
    ensures OwnIds(endpoints, ids + [id], b)
      == OwnIds(endpoints, ids, b) + if HasRow(endpoints, b, id) then [id] else []
    decreases |ids|
  {
    if ids == [] {
      assert OwnIds(endpoints, [id][1..], b) == [];
    } else {
      var first := if HasRow(endpoints, b, ids[0]) then [ids[0]] else [];
      OwnIdsAppend(endpoints, ids[1..], id, b);
      assert (ids + [id])[0] == ids[0] && (ids + [id])[1..] == ids[1..] + [id];
      assert OwnIds(endpoints, ids, b) == first + OwnIds(endpoints, ids[1..], b);
      assert OwnIds(endpoints, ids + [id], b) == first + OwnIds(endpoints, ids[1..] + [id], b);
    }
  }

  function Without(ids: seq<Uuid>, id: Uuid): seq<Uuid> {
    if ids == [] then [] else (if ids[0] == id then [] else [ids[0]]) + Without(ids[1..], id)
  }

  lemma {:induction false} OwnIdsAfterDelete(endpoints: map<Uuid, Endpoint>, ids: seq<Uuid>, id: Uuid, b: Uuid)
    ensures OwnIds(endpoints - {id}, ids, b) == Without(OwnIds(endpoints, ids, b), id)
    decreases |ids|
  {
    if ids == [] {
    } else {
      OwnIdsAfterDelete(endpoints, ids[1..], id, b);
      var rest := OwnIds(endpoints, ids[1..], b);
      assert ([ids[0]] + rest)[1..] == rest && [] + rest == rest;
    }
  }

  /** A row stored under a new id comes last, and only in its owner's list. */
  lemma OwnIdsAfterInsert(endpoints: map<Uuid, Endpoint>, e: Endpoint, ids: seq<Uuid>, b: Uuid)
    requires e.id !in ids
    ensures OwnIds(endpoints[e.id := e], ids + [e.id], b)
      == OwnIds(endpoints, ids, b) + if e.account == b then [e.id] else []
  {
    SameOwnIds(endpoints, endpoints[e.id := e], ids, b);
    OwnIdsAppend(endpoints[e.id := e], ids, e.id, b);
  }

  lemma OwnIdsAfterEdit(endpoints: map<Uuid, Endpoint>, e: Endpoint, ids: seq<Uuid>, b: Uuid)
    requires HasRow(endpoints, b, e.id) <==> e.account == b
    ensures OwnIds(endpoints[e.id := e], ids, b) == OwnIds(endpoints, ids, b)
  {
    SameOwnIds(endpoints, endpoints[e.id := e], ids, b);
  }

  // ------------------------------------------------- b's own transactions

  lemma OwnKeyTaken(t: Tables, u: Tables, b: Uuid, e: Endpoint)
    requires OwnPart(t, u, b) && e.account == b
    ensures KeyTaken(t, e) <==> KeyTaken(u, e)
  {
    if KeyTaken(t, e) {
      var id :| id in t.endpoints && id != e.id && SameKey(t.endpoints[id], e);
      assert id in u.endpoints;
    }
  }

  /** Both transactions fail alike, or succeed with b's parts in step. */
  ghost predicate InStep(r: Result<Tables, Error>, q: Result<Tables, Error>, b: Uuid) {
    match (r, q)
    case (Ok(t), Ok(u)) => OwnPart(t, u, b)
    case (Err(x), Err(y)) => x == y
    case _ => false
  }

  function Stored(t: Tables, e: Endpoint, rows: seq<Version>, created: seq<Uuid>): Tables {
    Tables(t.endpoints[e.id := e], t.versions[e.id := rows], created)
  }

  lemma OwnStored(t: Tables, u: Tables, b: Uuid, e: Endpoint, rows: seq<Version>, c: seq<Uuid>, d: seq<Uuid>)
    requires OwnPart(t, u, b) && e.account == b && (e.id in t.endpoints ==> t.endpoints[e.id].account == b)
    requires OwnOrder(Stored(t, e, rows, c), Stored(u, e, rows, d), b)
    ensures OwnPart(Stored(t, e, rows, c), Stored(u, e, rows, d), b)
  {
  }

  lemma OwnInserted(t: Tables, u: Tables, b: Uuid, e: Endpoint, rows: seq<Version>)
    requires OwnPart(t, u, b) && e.account == b && e.id !in t.endpoints && e.id !in t.created
    ensures OwnPart(Stored(t, e, rows, t.created + [e.id]), Stored(u, e, rows, u.created + [e.id]), b)
  {
    OwnIdsAfterInsert(t.endpoints, e, t.created, b);
    OwnIdsAfterInsert(u.endpoints, e, u.created, b);
    OwnStored(t, u, b, e, rows, t.created + [e.id], u.created + [e.id]);
  }

  lemma OwnEdited(t: Tables, u: Tables, b: Uuid, e: Endpoint, rows: seq<Version>)
    requires OwnPart(t, u, b) && e.account == b && Owns(t, b, e.id)
    ensures OwnPart(Stored(t, e, rows, t.created), Stored(u, e, rows, u.created), b)
  {
    OwnIdsAfterEdit(t.endpoints, e, t.created, b);
    OwnIdsAfterEdit(u.endpoints, e, u.created, b);
    OwnStored(t, u, b, e, rows, t.created, u.created);
  }

  lemma OwnCreate(t: Tables, u: Tables, b: Uuid, e: Endpoint, schema: string)
    requires OwnPart(t, u, b) && e.account == b && e.id !in t.endpoints && e.id !in t.created
    ensures InStep(CreateTx(t, e, schema), CreateTx(u, e, schema), b)
  {
    OwnKeyTaken(t, u, b, e);
    if !KeyTaken(t, e) {
      var v := SnapshotVersion(e, schema, 1);
      CreateInserts(t, e, v);
      CreateInserts(u, e, v);
      OwnInserted(t, u, b, e, [v]);
    }
  }

  lemma OwnCommit(t: Tables, u: Tables, b: Uuid, e: Endpoint, schema: string, version: int)
    requires OwnPart(t, u, b) && e.account == b
    ensures InStep(CommitTx(t, b, e, schema, version), CommitTx(u, b, e, schema, version), b)
  {
    OwnKeyTaken(t, u, b, e);
    if Owns(t, b, e.id) && !KeyTaken(t, e) {
      OwnEdited(t, u, b, e, t.versions[e.id] + [SnapshotVersion(e, schema, version)]);
    }
  }

  lemma OwnDelete(t: Tables, u: Tables, b: Uuid, id: Uuid)
    requires OwnPart(t, u, b)
    ensures InStep(DeleteEndpoint(t, b, id), DeleteEndpoint(u, b, id), b)
  {
    OwnIdsAfterDelete(t.endpoints, t.created, id, b);
    OwnIdsAfterDelete(u.endpoints, u.created, id, b);
  }

  /** Ids once handed out cover every row ever created. */
  predicate CreatedWithin(t: Tables, used: set<Uuid>) {
    forall id :: id in t.created ==> id in used
  }

  lemma {:induction false} OwnImport(t: Tables, u: Tables, b: Uuid, used: set<Uuid>, items: seq<ImportItem>,
      ids: seq<Uuid>, done: ImportResult)
    requires OwnPart(t, u, b) && t.endpoints.Keys <= used && CreatedWithin(t, used) && FreshIds(used, items, ids)
    ensures
      var r, q := ImportAll(t, b, items, ids, done), ImportAll(u, b, items, ids, done);
      r.Ok? && q.Ok? && r.value.1 == q.value.1 && OwnPart(r.value.0, q.value.0, b)
    decreases |items|
  {
    if items == [] {
    } else {
      var e := Imported(b, ids[0], items[0]);
      OwnKeyTaken(t, u, b, e);
      ImportUnfold(t, b, items, ids, done);
      ImportUnfold(u, b, items, ids, done);
      FreshTail(used, items, ids);
      if KeyTaken(t, e) {
        OwnImport(t, u, b, used, items[1..], ids[1..], done.(skipped := done.skipped + 1));
      } else {
        OwnInserted(t, u, b, e, [SnapshotVersion(e, ImportedSchema(items[0]), 1)]);
        OwnImport(WithImported(t, e, items[0]), WithImported(u, e, items[0]), b, used + {ids[0]}, items[1..], ids[1..],
                  ImportResult(done.created + 1, done.skipped, done.endpoints + [e]));
      }
    }
  }

  lemma {:induction false} ImportCreatesWithin(t: Tables, used: set<Uuid>, owner: Uuid, items: seq<ImportItem>,
      ids: seq<Uuid>, done: ImportResult)
    requires t.versions.Keys == t.endpoints.Keys <= used && CreatedWithin(t, used) && FreshIds(used, items, ids)
    ensures
      var r := ImportAll(t, owner, items, ids, done);
      r.Ok? && CreatedWithin(r.value.0, used + IdSet(ids))
    decreases |items|
  {
    if items == [] {
    } else {
      var e := Imported(owner, ids[0], items[0]);
      ImportUnfold(t, owner, items, ids, done);
      FreshTail(used, items, ids);
      IdSetCons(ids);
      if KeyTaken(t, e) {
        ImportCreatesWithin(t, used, owner, items[1..], ids[1..], done.(skipped := done.skipped + 1));
      } else {
        ImportCreatesWithin(WithImported(t, e, items[0]), used + {ids[0]}, owner, items[1..], ids[1..],
                            ImportResult(done.created + 1, done.skipped, done.endpoints + [e]));
      }
    }
  }

  lemma CommitKeepsCreated(t: Tables, owner: Uuid, e: Endpoint, schema: string, version: int)
    ensures Settle(t, CommitTx(t, owner, e, schema, version), e).1.created == t.created
  {
  }

  /** Every step keeps the ids of all rows ever created among those handed out. */
  lemma StepCreatesWithin(s: State, step: Step)
    requires s.tables.versions.Keys == s.tables.endpoints.Keys <= s.used
    requires CreatedWithin(s.tables, s.used) && Enabled(s, step)
    ensures CreatedWithin(Apply(s, step).0.tables, Apply(s, step).0.used)
  {
    match step
    case Import(owner, items, ids, failAt) => ImportCreatesWithin(s.tables, s.used, owner, items, ids, NOTHING);
    case Commit(owner, op) =>
      var Committing(e, schema, version) := s.pending[(owner, op)];
      CommitKeepsCreated(s.tables, owner, e, schema, version);
    case _ =>
  }

  lemma OwnCreateStep(s: State, p: State, step: Step)
    requires Inv(s) && CreatedWithin(s.tables, s.used)
    requires Alone(s, p, step.owner) && Enabled(s, step) && step.Create?
    ensures Apply(s, step).1 == Apply(p, step).1 && Alone(Apply(s, step).0, Apply(p, step).0, step.owner)
  {
    var Create(b, id, params, vet, generated) := step;
    OwnCreate(s.tables, p.tables, b, NewEndpoint(b, id, params), generated);
  }

  lemma OwnImportStep(s: State, p: State, step: Step)
    requires Inv(s) && CreatedWithin(s.tables, s.used)
    requires Alone(s, p, step.owner) && Enabled(s, step) && step.Import?
    ensures Apply(s, step).1 == Apply(p, step).1 && Alone(Apply(s, step).0, Apply(p, step).0, step.owner)
  {
    var Import(b, items, ids, failAt) := step;
    OwnImport(s.tables, p.tables, b, s.used, items, ids, NOTHING);
  }

  lemma OwnPendingUpdate(s: State, p: State, op: Op, add: Pending)
    requires Alone(s, p, op.0)
    ensures Alone(s.(pending := s.pending[op := add]), p.(pending := p.pending[op := add]), op.0)
  {
    assert p.pending[op := add] == OwnPending(s.(pending := s.pending[op := add]), op.0);
  }

  lemma OwnPendingDrop(s: State, p: State, op: Op)
    requires Alone(s, p, op.0)
    ensures Alone(s.(pending := s.pending - {op}), p.(pending := p.pending - {op}), op.0)
  {
    assert p.pending - {op} == OwnPending(s.(pending := s.pending - {op}), op.0);
  }

  lemma OwnFindForUpdate(s: State, p: State, op: Op, id: Uuid, edit: UpdateParams, vet: Vetting)
    requires Alone(s, p, op.0) && FindById(s.tables, op.0, id) == FindById(p.tables, op.0, id)
    ensures
      var (s1, out), (p1, alone) := ApplyFindForUpdate(s, op, id, edit, vet), ApplyFindForUpdate(p, op, id, edit, vet);
      out == alone && Alone(s1, p1, op.0)
  {
    var found := FindById(s.tables, op.0, id);
    if found.Ok? {
      OwnPendingUpdate(s, p, op, Editing(found.value, edit));
    }
  }

  lemma OwnFindForRollback(s: State, p: State, op: Op, id: Uuid, version: int)
    requires Alone(s, p, op.0) && FindById(s.tables, op.0, id) == FindById(p.tables, op.0, id)
    ensures
      var (s1, out), (p1, alone) := ApplyFindForRollback(s, op, id, version), ApplyFindForRollback(p, op, id, version);
      out == alone && Alone(s1, p1, op.0)
  {
    var found := FindById(s.tables, op.0, id);
    if found.Ok? {
      OwnPendingUpdate(s, p, op, Restoring(found.value, version));
    }
  }

  lemma OwnFindForDelete(s: State, p: State, op: Op, id: Uuid)
    requires Alone(s, p, op.0) && FindById(s.tables, op.0, id) == FindById(p.tables, op.0, id)
    ensures
      var (s1, out), (p1, alone) := ApplyFindForDelete(s, op, id), ApplyFindForDelete(p, op, id);
      out == alone && Alone(s1, p1, op.0)
  {
    var found := FindById(s.tables, op.0, id);
    if found.Ok? {
      OwnPendingUpdate(s, p, op, Deleting(found.value));
    }
  }

  lemma OwnListForUpdate(s: State, p: State, op: Op, generated: string)
    requires Alone(s, p, op.0) && op in s.pending && op in p.pending && p.pending[op] == s.pending[op]
    requires s.pending[op].Editing?
    requires
      var id := s.pending[op].found.id;
      ListVersions(s.tables, op.0, id) == ListVersions(p.tables, op.0, id)
    ensures
      var (s1, out), (p1, alone) := ApplyListForUpdate(s, op, generated), ApplyListForUpdate(p, op, generated);
      out == alone && Alone(s1, p1, op.0)
  {
    var s1 := ApplyListForUpdate(s, op, generated).0;
    OwnPendingUpdate(s, p, op, s1.pending[op]);
  }

  lemma OwnListForRollback(s: State, p: State, op: Op)
    requires Alone(s, p, op.0) && op in s.pending && op in p.pending && p.pending[op] == s.pending[op]
    requires s.pending[op].Restoring?
    requires
      var id := s.pending[op].found.id;
      ListVersions(s.tables, op.0, id) == ListVersions(p.tables, op.0, id)
    ensures
      var (s1, out), (p1, alone) := ApplyListForRollback(s, op), ApplyListForRollback(p, op);
      out == alone && Alone(s1, p1, op.0)
  {
    var s1 := ApplyListForRollback(s, op).0;
    if op in s1.pending {
      OwnPendingUpdate(s, p, op, s1.pending[op]);
    }
    OwnPendingDrop(s, p, op);
  }

  lemma OwnCommitStep(s: State, p: State, op: Op)
    requires Inv(s) && Alone(s, p, op.0) && op in s.pending && s.pending[op].Committing?
    ensures op in p.pending && p.pending[op] == s.pending[op]
    ensures
      var (s1, out), (p1, alone) := ApplyCommit(s, op), ApplyCommit(p, op);
      out == alone && Alone(s1, p1, op.0)
  {
    assert PendingOk(s, op, s.pending[op]);
    var Committing(e, schema, version) := s.pending[op];
    OwnCommit(s.tables, p.tables, op.0, e, schema, version);
    OwnPendingDrop(s, p, op);
  }

  lemma OwnCommitDelete(s: State, p: State, op: Op)
    requires Inv(s) && Alone(s, p, op.0) && op in s.pending && s.pending[op].Deleting?
    ensures op in p.pending && p.pending[op] == s.pending[op]
    ensures
      var (s1, out), (p1, alone) := ApplyCommitDelete(s, op), ApplyCommitDelete(p, op);
      out == alone && Alone(s1, p1, op.0)
  {
    OwnDelete(s.tables, p.tables, op.0, s.pending[op].found.id);
    OwnPendingDrop(s, p, op);
  }

  /** A read of b's own. */
  lemma OwnReadStep(t: Tables, u: Tables, step: Step)
    requires Intact(t) && OwnPart(t, u, Owner(step)) && Reads(step)
    ensures ReadAnswer(t, step) == ReadAnswer(u, step)
  {
    if step.List? {
      OwnPages(t, u, step.owner, step.page, step.limit);
    } else {
      OwnReads(t, u, step.owner, step.id);
    }
  }

  /** A step of b's own that reads for a request under way. */
  lemma OwnRequestStep(s: State, p: State, step: Step)
    requires Inv(s) && Alone(s, p, Owner(step)) && Enabled(s, step)
    requires step.FindForUpdate? || step.FindForRollback? || step.FindForDelete?
             || step.ListForUpdate? || step.ListForRollback? || step.Abandon?
    ensures Enabled(p, step)
    ensures Apply(s, step).1 == Apply(p, step).1
    ensures Alone(Apply(s, step).0, Apply(p, step).0, Owner(step))
  {
    if step.FindForUpdate? || step.FindForRollback? || step.FindForDelete? {
      OwnReads(s.tables, p.tables, step.owner, step.id);
    } else if step.ListForUpdate? || step.ListForRollback? {
      OwnReads(s.tables, p.tables, step.owner, s.pending[(step.owner, step.op)].found.id);
    }
    match step
    case FindForUpdate(b, op, id, edit, vet) => OwnFindForUpdate(s, p, (b, op), id, edit, vet);
    case FindForRollback(b, op, id, version) => OwnFindForRollback(s, p, (b, op), id, version);
    case FindForDelete(b, op, id) => OwnFindForDelete(s, p, (b, op), id);
    case ListForUpdate(b, op, generated) => OwnListForUpdate(s, p, (b, op), generated);
    case ListForRollback(b, op) => OwnListForRollback(s, p, (b, op));
    case Abandon(b, op) => OwnPendingDrop(s, p, (b, op));
  }

  /** A step of b's own is possible alone, is answered the same, and keeps the two
      runs in step. */
  lemma OwnStep(s: State, p: State, step: Step)
    requires Inv(s) && CreatedWithin(s.tables, s.used) && Alone(s, p, Owner(step)) && Enabled(s, step)
    ensures Enabled(p, step)
    ensures Apply(s, step).1 == Apply(p, step).1
    ensures Alone(Apply(s, step).0, Apply(p, step).0, Owner(step))
  {
    match step
    case Create(_, _, _, _, _) => OwnCreateStep(s, p, step);
    case Import(_, _, _, _) => OwnImportStep(s, p, step);
    case Commit(b, op) => OwnCommitStep(s, p, (b, op));
    case CommitDelete(b, op) => OwnCommitDelete(s, p, (b, op));
    case Get(_, _) => OwnReadStep(s.tables, p.tables, step);
    case Versions(_, _) => OwnReadStep(s.tables, p.tables, step);
    case Diff(_, _, _) => OwnReadStep(s.tables, p.tables, step);
    case List(_, _, _) => OwnReadStep(s.tables, p.tables, step);
    case _ => OwnRequestStep(s, p, step);
  }

  // ------------------------------------------------- other accounts' steps

  lemma StoredElsewhere(t: Tables, u: Tables, b: Uuid, e: Endpoint, rows: seq<Version>, created: seq<Uuid>)
    requires OwnPart(t, u, b) && e.account != b && !Owns(t, b, e.id)
    requires OwnOrder(Stored(t, e, rows, created), u, b)
    ensures OwnPart(Stored(t, e, rows, created), u, b)
  {
  }

  lemma InsertedElsewhere(t: Tables, u: Tables, b: Uuid, e: Endpoint, rows: seq<Version>)
    requires OwnPart(t, u, b) && e.account != b && e.id !in t.endpoints && e.id !in t.created
    ensures OwnPart(Stored(t, e, rows, t.created + [e.id]), u, b)
  {
    OwnIdsAfterInsert(t.endpoints, e, t.created, b);
    StoredElsewhere(t, u, b, e, rows, t.created + [e.id]);
  }

  lemma {:induction false} ImportElsewhere(t: Tables, u: Tables, b: Uuid, used: set<Uuid>, owner: Uuid,
      items: seq<ImportItem>, ids: seq<Uuid>, done: ImportResult)
    requires owner != b && t.endpoints.Keys <= used && CreatedWithin(t, used) && FreshIds(used, items, ids)
    requires OwnPart(t, u, b)
    ensures
      var r := ImportAll(t, owner, items, ids, done);
      r.Ok? && OwnPart(r.value.0, u, b)
    decreases |items|
  {
    if items == [] {
    } else {
      var e := Imported(owner, ids[0], items[0]);
      ImportUnfold(t, owner, items, ids, done);
      FreshTail(used, items, ids);
      if KeyTaken(t, e) {
        ImportElsewhere(t, u, b, used, owner, items[1..], ids[1..], done.(skipped := done.skipped + 1));
      } else {
        InsertedElsewhere(t, u, b, e, [SnapshotVersion(e, ImportedSchema(items[0]), 1)]);
        ImportElsewhere(WithImported(t, e, items[0]), u, b, used + {ids[0]}, owner, items[1..], ids[1..],
                        ImportResult(done.created + 1, done.skipped, done.endpoints + [e]));
      }
    }
  }

  lemma CreateElsewhere(t: Tables, u: Tables, b: Uuid, e: Endpoint, schema: string)
    requires OwnPart(t, u, b) && e.account != b && e.id !in t.endpoints && e.id !in t.created
    ensures CreateTx(t, e, schema).Ok? ==> OwnPart(CreateTx(t, e, schema).value, u, b)
  {
    if !KeyTaken(t, e) {
      var v := SnapshotVersion(e, schema, 1);
      CreateInserts(t, e, v);
      InsertedElsewhere(t, u, b, e, [v]);
    }
  }

  lemma CommitElsewhere(t: Tables, u: Tables, b: Uuid, owner: Uuid, e: Endpoint, schema: string, version: int)
    requires OwnPart(t, u, b) && owner != b && e.account == owner
    ensures CommitTx(t, owner, e, schema, version).Ok? ==> OwnPart(CommitTx(t, owner, e, schema, version).value, u, b)
  {
    if Owns(t, owner, e.id) {
      OwnIdsAfterEdit(t.endpoints, e, t.created, b);
      StoredElsewhere(t, u, b, e, t.versions[e.id] + [SnapshotVersion(e, schema, version)], t.created);
    }
  }

  lemma DeleteElsewhere(t: Tables, u: Tables, b: Uuid, owner: Uuid, id: Uuid)
    requires OwnPart(t, u, b) && owner != b
    ensures DeleteEndpoint(t, owner, id).Ok? ==> OwnPart(DeleteEndpoint(t, owner, id).value, u, b)
  {
    if Owns(t, owner, id) {
      SameOwnIds(t.endpoints, t.endpoints - {id}, t.created, b);
    }
  }

  lemma OthersPendingUpdate(s: State, op: Op, add: Pending, b: Uuid)
    requires op.0 != b
    ensures OwnPending(s.(pending := s.pending[op := add]), b) == OwnPending(s, b)
    ensures OwnPending(s.(pending := s.pending - {op}), b) == OwnPending(s, b)
  {
  }

  lemma OthersPendingKept(s: State, s': State, op: Op, b: Uuid)
    requires op.0 != b
    requires s'.pending == s.pending || s'.pending == s.pending - {op}
             || (op in s'.pending && s'.pending == s.pending[op := s'.pending[op]])
    ensures OwnPending(s', b) == OwnPending(s, b)
  {
    if op in s'.pending {
      OthersPendingUpdate(s, op, s'.pending[op], b);
    }
  }

  lemma OthersCommit(s: State, p: State, op: Op, b: Uuid)
    requires Inv(s) && Alone(s, p, b) && op.0 != b && op in s.pending && s.pending[op].Committing?
    ensures Alone(ApplyCommit(s, op).0, p, b)
  {
    var Committing(e, schema, version) := s.pending[op];
    assert PendingOk(s, op, s.pending[op]);
    CommitElsewhere(s.tables, p.tables, b, op.0, e, schema, version);
    OthersPendingKept(s, ApplyCommit(s, op).0, op, b);
  }

  lemma OthersDelete(s: State, p: State, op: Op, b: Uuid)
    requires Alone(s, p, b) && op.0 != b && op in s.pending && s.pending[op].Deleting?
    ensures Alone(ApplyCommitDelete(s, op).0, p, b)
  {
    DeleteElsewhere(s.tables, p.tables, b, op.0, s.pending[op].found.id);
    OthersPendingKept(s, ApplyCommitDelete(s, op).0, op, b);
  }

  /** s' differs from s in the request op alone, the tables aside from history
      variables being the same. */
  ghost predicate OnlyRequest(s: State, s': State, op: Op) {
    && s'.tables == s.tables && s'.used == s.used
    && (s'.pending == s.pending || s'.pending == s.pending - {op}
        || (op in s'.pending && s'.pending == s.pending[op := s'.pending[op]]))
  }

  lemma ReadsTouchOwnRequest(s: State, step: Step)
    requires Enabled(s, step)
    requires step.FindForUpdate? || step.FindForRollback? || step.FindForDelete?
             || step.ListForUpdate? || step.ListForRollback? || step.Abandon?
    ensures OnlyRequest(s, Apply(s, step).0, (step.owner, step.op))
  {
    match step
    case FindForUpdate(owner, op, id, edit, vet) =>
    case FindForRollback(owner, op, id, version) =>
    case FindForDelete(owner, op, id) =>
    case ListForUpdate(owner, op, generated) =>
    case ListForRollback(owner, op) =>
    case Abandon(owner, op) =>
  }

  lemma OthersRead(s: State, s': State, p: State, op: Op, b: Uuid)
    requires Alone(s, p, b) && op.0 != b && OnlyRequest(s, s', op)
    ensures Alone(s', p, b)
  {
    OthersPendingKept(s, s', op, b);
  }

  lemma OthersInsert(s: State, p: State, step: Step, b: Uuid)
    requires Inv(s) && CreatedWithin(s.tables, s.used) && Alone(s, p, b) && Enabled(s, step) && Owner(step) != b
    requires step.Create? || step.Import?
    ensures Alone(Apply(s, step).0, p, b)
  {
    match step
    case Create(owner, id, params, vet, generated) =>
      CreateElsewhere(s.tables, p.tables, b, NewEndpoint(owner, id, params), generated);
    case Import(owner, items, ids, failAt) =>
      ImportElsewhere(s.tables, p.tables, b, s.used, owner, items, ids, NOTHING);
  }

  /** A step of another account does not change b's part. */
  lemma OthersStep(s: State, p: State, step: Step, b: Uuid)
    requires Inv(s) && CreatedWithin(s.tables, s.used) && Alone(s, p, b) && Enabled(s, step) && Owner(step) != b
    ensures Alone(Apply(s, step).0, p, b)
  {
    if step.Create? || step.Import? {
      OthersInsert(s, p, step, b);
    } else if step.Commit? {
      OthersCommit(s, p, (step.owner, step.op), b);
    } else if step.CommitDelete? {
      OthersDelete(s, p, (step.owner, step.op), b);
    } else if !Reads(step) {
      ReadsTouchOwnRequest(s, step);
      OthersRead(s, Apply(s, step).0, p, (step.owner, step.op), b);
    }
  }

  // ------------------------------------------------------------- whole runs

  /** For any run of any accounts, b's answers and rows are those of the run with
      all other accounts' steps removed. */
  lemma {:induction false} IsolatedByAccount(s: State, p: State, steps: seq<Step>, b: Uuid)
    requires Inv(s) && CreatedWithin(s.tables, s.used) && Alone(s, p, b) && Runs(s, steps)
    ensures Runs(p, Only(steps, b))
    ensures Answers(s, steps, b) == Answers(p, Only(steps, b), b)
    ensures Alone(Final(s, steps), Final(p, Only(steps, b)), b)
    decreases |steps|
  {
    if steps == [] {
    } else {
      var step := steps[0];
      var s1 := Apply(s, step).0;
      StepKeepsInv(s, step);
      StepCreatesWithin(s, step);
      if Owner(step) == b {
        OwnStep(s, p, step);
        var rest := Only(steps[1..], b);
        IsolatedByAccount(s1, Apply(p, step).0, steps[1..], b);
        assert ([step] + rest)[0] == step && ([step] + rest)[1..] == rest;
      } else {
        OthersStep(s, p, step, b);
        IsolatedByAccount(s1, p, steps[1..], b);
        assert [] + Only(steps[1..], b) == Only(steps[1..], b);
      }
    }
  }

  /** From the empty registry. */
  lemma IsolatedFromStart(steps: seq<Step>, b: Uuid)
    requires Runs(START, steps)
    ensures Runs(START, Only(steps, b))
    ensures Answers(START, steps, b) == Answers(START, Only(steps, b), b)
    ensures OwnPart(Final(START, steps).tables, Final(START, Only(steps, b)).tables, b)
  {
    IsolatedByAccount(START, START, steps, b);
  }
}
