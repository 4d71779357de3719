/** Where the schema of a version comes from: in runs of uninterrupted requests,
    and in all interleavings that never carry a schema past a prompt change, every
    version pairs a prompt with a schema that was produced for it. */
module Provenance {
  import opened Basics
  import opened Registry
  import opened History
  import opened Interleaving
  import opened Requests

  predicate RowsTraced(rows: seq<Version>, produced: set<(string, string)>) {
    forall i :: 0 <= i < |rows| ==> (rows[i].prompt, rows[i].schema) in produced
  }

  predicate TablesTraced(t: Tables, produced: set<(string, string)>) {
    forall id :: id in t.versions ==> RowsTraced(t.versions[id], produced)
  }

  /** Every stored version, and every snapshot about to be stored for a live
      endpoint, has a produced (prompt, schema) pair. */
  predicate Traced(s: State) {
    && TablesTraced(s.tables, s.produced)
    && PendingTraced(s)
  }

  /** An update that keeps the prompt lists a latest version with that prompt:
      nobody changed the prompt between its two reads. */
  predicate Steady(s: State, step: Step)
    requires Enabled(s, step)
  {
    step.ListForUpdate? ==>
      var Editing(found, p) := s.pending[(step.owner, step.op)];
      var listed := ListVersions(s.tables, step.owner, found.id);
      p.prompt == found.prompt && listed != [] ==> listed[0].prompt == found.prompt
  }

  predicate SteadyRun(s: State, steps: seq<Step>)
    decreases |steps|
  {
    steps == [] || (Enabled(s, steps[0]) && Steady(s, steps[0]) && SteadyRun(Apply(s, steps[0]).0, steps[1..]))
  }

  // ------------------------------------------------------ listed versions

  lemma ListedAreTraced(s: State, owner: Uuid, id: Uuid)
    requires Inv(s) && Traced(s)
    ensures forall i :: 0 <= i < |ListVersions(s.tables, owner, id)| ==>
      (ListVersions(s.tables, owner, id)[i].prompt, ListVersions(s.tables, owner, id)[i].schema) in s.produced
    ensures ListVersions(s.tables, owner, id) == [] && id in s.tables.endpoints ==>
      s.tables.endpoints[id].account != owner
  {
    if id in s.tables.endpoints && s.tables.endpoints[id].account == owner {
      ListedHistory(s.tables, owner, id);
      assert RowsTraced(s.tables.versions[id], s.produced);
      assert IsHistory(s.tables.versions[id], s.tables.endpoints[id]);
    } else {
      ListedToOthers(s.tables, owner, id);
    }
  }

  lemma {:induction false} FoundIsListed(listed: seq<Version>, version: int)
    requires FindVersion(listed, version).Ok?
    ensures FindVersion(listed, version).value in listed
    decreases |listed|
  {
    if listed[0].version != version {
      FoundIsListed(listed[1..], version);
    }
  }

  // ---------------------------------------------------------------- steps

  lemma StoredTraced(versions: map<Uuid, seq<Version>>, id: Uuid, rows: seq<Version>, v: Version,
      produced: set<(string, string)>, t: Tables)
    requires forall i :: i in versions ==> RowsTraced(versions[i], produced)
    requires RowsTraced(rows, produced) && (v.prompt, v.schema) in produced
    requires t.versions == versions[id := rows + [v]]
    ensures TablesTraced(t, produced)
  {
  }

  predicate PendingTraced(s: State) {
    forall op :: op in s.pending && s.pending[op].Committing? && s.pending[op].edited.id in s.tables.endpoints ==>
      (s.pending[op].edited.prompt, s.pending[op].schema) in s.produced
  }

  lemma PendingTracedKept(s: State, s': State)
    requires Inv(s) && PendingTraced(s) && Extends(s, s')
    requires s'.pending == s.pending && s.produced <= s'.produced
    ensures PendingTraced(s')
  {
    forall op | op in s'.pending && s'.pending[op].Committing? && s'.pending[op].edited.id in s'.tables.endpoints
      ensures (s'.pending[op].edited.prompt, s'.pending[op].schema) in s'.produced
    {
      assert PendingOk(s, op, s.pending[op]);
    }
  }

  lemma CreateKeepsTraced(s: State, owner: Uuid, id: Uuid, p: CreateParams, vet: Vetting, generated: string)
    requires Inv(s) && Traced(s) && id !in s.used
    ensures Traced(ApplyCreate(s, owner, id, p, vet, generated).0)
  {
    var s' := ApplyCreate(s, owner, id, p, vet, generated).0;
    CreateKeepsInv(s, owner, id, p, vet, generated);
    PendingTracedKept(s, s');
    CreateIsTraced(s, owner, id, p, vet, generated);
  }

  lemma CreateIsTraced(s: State, owner: Uuid, id: Uuid, p: CreateParams, vet: Vetting, generated: string)
    requires s.tables.versions.Keys == s.tables.endpoints.Keys && TablesTraced(s.tables, s.produced)
    requires id !in s.tables.endpoints
    ensures
      var s' := ApplyCreate(s, owner, id, p, vet, generated).0;
      TablesTraced(s'.tables, s'.produced)
  {
    var e := NewEndpoint(owner, id, p);
    var v := SnapshotVersion(e, generated, 1);
    if ValidateCreate(p, vet).None? && !KeyTaken(s.tables, e) {
      CreateInserts(s.tables, e, v);
      assert [] + [v] == [v];
      var s' := ApplyCreate(s, owner, id, p, vet, generated).0;
      StoredTraced(s.tables.versions, id, [], v, s'.produced, s'.tables);
    }
  }

  lemma CommitIsTraced(t: Tables, owner: Uuid, e: Endpoint, schema: string, version: int,
      produced: set<(string, string)>)
    requires TablesTraced(t, produced) && (e.id in t.endpoints ==> (e.prompt, schema) in produced)
    ensures CommitTx(t, owner, e, schema, version).Ok? ==>
      TablesTraced(CommitTx(t, owner, e, schema, version).value, produced)
  {
    var tx := CommitTx(t, owner, e, schema, version);
    if tx.Ok? {
      StoredTraced(t.versions, e.id, VersionRows(t, e.id), SnapshotVersion(e, schema, version), produced, tx.value);
    }
  }

  lemma CommitKeepsTraced(s: State, op: Op)
    requires Inv(s) && Traced(s) && op in s.pending && s.pending[op].Committing?
    ensures Traced(ApplyCommit(s, op).0)
  {
    var Committing(e, schema, version) := s.pending[op];
    CommitIsTraced(s.tables, op.0, e, schema, version, s.produced);
    var s' := ApplyCommit(s, op).0;
    PendingTracedKept(s.(pending := s'.pending), s') by {
      ContinuedKeepsInv(s, s.(pending := s.pending - {op}), op);
      CommitKeepsInv(s, op);
    }
  }

  lemma ListForUpdateKeepsTraced(s: State, owner: Uuid, op: nat, generated: string)
    requires Inv(s) && Traced(s)
    requires Enabled(s, ListForUpdate(owner, op, generated)) && Steady(s, ListForUpdate(owner, op, generated))
    ensures Traced(ApplyListForUpdate(s, (owner, op), generated).0)
  {
    assert PendingOk(s, (owner, op), s.pending[(owner, op)]);
    ListedAreTraced(s, owner, s.pending[(owner, op)].found.id);
  }

  lemma ListForRollbackKeepsTraced(s: State, op: Op)
    requires Inv(s) && Traced(s) && op in s.pending && s.pending[op].Restoring?
    ensures Traced(ApplyListForRollback(s, op).0)
  {
    var Restoring(found, version) := s.pending[op];
    var listed := ListVersions(s.tables, op.0, found.id);
    ListedAreTraced(s, op.0, found.id);
    if RollbackTarget(listed, version).Ok? {
      FoundIsListed(listed, version);
    }
  }

  lemma DeleteKeepsTraced(s: State, op: Op)
    requires Inv(s) && Traced(s) && op in s.pending && s.pending[op].Deleting?
    ensures Traced(ApplyCommitDelete(s, op).0)
  {
  }

  lemma ItemPairsCons(items: seq<ImportItem>)
    requires items != []
    ensures ItemPairs(items) == {(items[0].prompt, ImportedSchema(items[0]))} + ItemPairs(items[1..])
  {
    forall x | x in ItemPairs(items)
      ensures x in {(items[0].prompt, ImportedSchema(items[0]))} + ItemPairs(items[1..])
    {
      var i :| 0 <= i < |items| && x == (items[i].prompt, ImportedSchema(items[i]));
      if i > 0 { assert items[1..][i - 1] == items[i]; }
    }
    forall x | x in ItemPairs(items[1..]) ensures x in ItemPairs(items) {
      var i :| 0 <= i < |items[1..]| && x == (items[1..][i].prompt, ImportedSchema(items[1..][i]));
      assert items[i + 1] == items[1..][i];
    }
  }

  lemma ImportedItemIsTraced(t: Tables, e: Endpoint, item: ImportItem, produced: set<(string, string)>)
    requires t.versions.Keys == t.endpoints.Keys && e.id !in t.endpoints && TablesTraced(t, produced)
    requires (e.prompt, ImportedSchema(item)) in produced
    ensures
      var t2 := WithImported(t, e, item);
      t2.versions.Keys == t2.endpoints.Keys == t.endpoints.Keys + {e.id} && TablesTraced(t2, produced)
  {
    var v := SnapshotVersion(e, ImportedSchema(item), 1);
    assert [] + [v] == [v];
    StoredTraced(t.versions, e.id, [], v, produced, WithImported(t, e, item));
  }

  lemma {:induction false} ImportIsTraced(t: Tables, used: set<Uuid>, owner: Uuid, items: seq<ImportItem>,
      ids: seq<Uuid>, done: ImportResult, produced: set<(string, string)>)
    requires t.versions.Keys == t.endpoints.Keys <= used && FreshIds(used, items, ids)
    requires TablesTraced(t, produced) && ItemPairs(items) <= produced
    ensures
      var r := ImportAll(t, owner, items, ids, done);
      r.Ok? && TablesTraced(r.value.0, produced)
    decreases |items|
  {
    if items == [] {
    } else {
      var e := Imported(owner, ids[0], items[0]);
      ImportUnfold(t, owner, items, ids, done);
      FreshTail(used, items, ids);
      ItemPairsCons(items);
      if KeyTaken(t, e) {
        ImportIsTraced(t, used, owner, items[1..], ids[1..], done.(skipped := done.skipped + 1), produced);
      } else {
        ImportedItemIsTraced(t, e, items[0], produced);
        ImportIsTraced(WithImported(t, e, items[0]), used + {ids[0]}, owner, items[1..], ids[1..],
                       ImportResult(done.created + 1, done.skipped, done.endpoints + [e]), produced);
      }
    }
  }

  lemma ImportKeepsTraced(s: State, owner: Uuid, items: seq<ImportItem>, ids: seq<Uuid>, failAt: Option<nat>)
    requires Inv(s) && Traced(s) && FreshIds(s.used, items, ids)
    ensures Traced(ApplyImport(s, owner, items, ids, failAt).0)
  {
    var s' := ApplyImport(s, owner, items, ids, failAt).0;
    ImportIsTraced(s.tables, s.used, owner, items, ids, NOTHING, s'.produced);
    ImportKeepsIntact(s.tables, s.used, owner, items, ids, NOTHING);
    forall op | op in s.pending && s.pending[op].Committing? && s.pending[op].edited.id in s'.tables.endpoints
      ensures (s.pending[op].edited.prompt, s.pending[op].schema) in s'.produced
    {
      assert PendingOk(s, op, s.pending[op]);
    }
  }

  lemma ReadsKeepTraced(s: State, step: Step)
    requires Traced(s) && Enabled(s, step)
    requires step.FindForUpdate? || step.FindForRollback? || step.FindForDelete? || step.Abandon? || Reads(step)
    ensures Traced(Apply(s, step).0)
  {
    match step
    case FindForUpdate(_, _, _, _, _) =>
    case FindForRollback(_, _, _, _) =>
    case FindForDelete(_, _, _) =>
    case Abandon(_, _) =>
    case _ =>
  }

  lemma StepKeepsTraced(s: State, step: Step)
    requires Inv(s) && Traced(s) && Enabled(s, step) && Steady(s, step)
    ensures Traced(Apply(s, step).0)
  {
    match step
    case Create(owner, id, p, vet, generated) => CreateKeepsTraced(s, owner, id, p, vet, generated);
    case ListForUpdate(owner, op, generated) => ListForUpdateKeepsTraced(s, owner, op, generated);
    case ListForRollback(owner, op) => ListForRollbackKeepsTraced(s, (owner, op));
    case Commit(owner, op) => CommitKeepsTraced(s, (owner, op));
    case CommitDelete(owner, op) => DeleteKeepsTraced(s, (owner, op));
    case Import(owner, items, ids, failAt) => ImportKeepsTraced(s, owner, items, ids, failAt);
    case _ => ReadsKeepTraced(s, step);
  }

  /** Under every interleaving of steady steps, each version's prompt and schema
      were produced together. */
  lemma {:induction false} SteadyRunsAreTraced(s: State, steps: seq<Step>)
    requires Inv(s) && Traced(s) && SteadyRun(s, steps)
    ensures Runs(s, steps) && Traced(Final(s, steps))
    decreases |steps|
  {
    if steps == [] {
    } else {
      StepKeepsInv(s, steps[0]);
      StepKeepsTraced(s, steps[0]);
      SteadyRunsAreTraced(Apply(s, steps[0]).0, steps[1..]);
    }
  }

  // ------------------------------------------------- provenance of requests

  lemma ListThenCommitTraced(s: State, op: Op, found: Endpoint, p: UpdateParams, generated: string)
    requires Inv(s) && Traced(s) && op in s.pending && s.pending[op] == Editing(found, p)
    requires FindById(s.tables, op.0, found.id) == Ok(found)
    ensures
      var s' := ApplyCommit(ApplyListForUpdate(s, op, generated).0, op).0;
      Inv(s') && Traced(s')
  {
    LatestHasPrompt(s, op.0, found);
    ListForUpdateKeepsInv(s, op, generated);
    ListForUpdateKeepsTraced(s, op.0, op.1, generated);
    var s2 := ApplyListForUpdate(s, op, generated).0;
    CommitKeepsInv(s2, op);
    CommitKeepsTraced(s2, op);
  }

  lemma ServeUpdateTraced(s: State, op: Op, id: Uuid, p: UpdateParams, vet: Vetting, generated: string)
    requires Idle(s) && Inv(s) && Traced(s)
    ensures
      var s' := ServeUpdate(s, op, id, p, vet, generated).0;
      Inv(s') && Traced(s')
  {
    var s1 := ApplyFindForUpdate(s, op, id, p, vet).0;
    FindForUpdateKeepsInv(s, op, id, p, vet);
    ReadsKeepTraced(s, FindForUpdate(op.0, op.1, id, p, vet));
    if op in s1.pending {
      FoundHasId(s.tables, op.0, id);
      ListThenCommitTraced(s1, op, s1.pending[op].found, p, generated);
    }
  }

  /** Right after an endpoint was found, its latest version has its prompt. */
  lemma LatestHasPrompt(s: State, owner: Uuid, found: Endpoint)
    requires Inv(s) && FindById(s.tables, owner, found.id) == Ok(found)
    ensures
      var listed := ListVersions(s.tables, owner, found.id);
      listed != [] && listed[0].prompt == found.prompt
  {
    ListedHistory(s.tables, owner, found.id);
    var rows := s.tables.versions[found.id];
    assert IsHistory(rows, found);
    assert Reversed(rows)[0] == rows[|rows| - 1];
    assert FieldsIn(rows[|rows| - 1]).prompt == FieldsOf(found).prompt;
  }

  lemma RestoreTraced(s: State, op: Op)
    requires Inv(s) && Traced(s) && op in s.pending && s.pending[op].Restoring?
    ensures
      var s2 := ApplyListForRollback(s, op).0;
      var s' := if op in s2.pending then ApplyCommit(s2, op).0 else s2;
      Inv(s') && Traced(s')
  {
    ListForRollbackKeepsInv(s, op);
    ListForRollbackKeepsTraced(s, op);
    var s2 := ApplyListForRollback(s, op).0;
    if op in s2.pending {
      CommitKeepsInv(s2, op);
      CommitKeepsTraced(s2, op);
    }
  }

  lemma ServeRollbackTraced(s: State, op: Op, id: Uuid, version: int)
    requires Idle(s) && Inv(s) && Traced(s)
    ensures
      var s' := ServeRollback(s, op, id, version).0;
      Inv(s') && Traced(s')
  {
    var s1 := ApplyFindForRollback(s, op, id, version).0;
    FindForRollbackKeepsInv(s, op, id, version);
    ReadsKeepTraced(s, FindForRollback(op.0, op.1, id, version));
    if op in s1.pending {
      RestoreTraced(s1, op);
    }
  }

  lemma ServeDeleteTraced(s: State, op: Op, id: Uuid)
    requires Idle(s) && Inv(s) && Traced(s)
    ensures
      var s' := ServeDelete(s, op, id).0;
      Inv(s') && Traced(s')
  {
    var s1 := ApplyFindForDelete(s, op, id).0;
    FindForDeleteKeepsInv(s, op, id);
    ReadsKeepTraced(s, FindForDelete(op.0, op.1, id));
    if op in s1.pending {
      DeleteKeepsInv(s1, op);
      DeleteKeepsTraced(s1, op);
    }
  }

  lemma ServeKeepsTraced(s: State, r: Request)
    requires Idle(s) && Inv(s) && Traced(s) && Servable(s, r)
    ensures
      var s' := Serve(s, r).0;
      Idle(s') && Inv(s') && Traced(s')
  {
    match r
    case CreateRequest(owner, id, p, vet, generated) =>
      CreateKeepsInv(s, owner, id, p, vet, generated);
      CreateKeepsTraced(s, owner, id, p, vet, generated);
    case UpdateRequest(_, id, p, vet, generated) =>
      ServeUpdateIsUpdateOp(s, OpOf(r), id, p, vet, generated);
      ServeUpdateTraced(s, OpOf(r), id, p, vet, generated);
    case RollbackRequest(_, id, version) =>
      ServeRollbackIsRollbackOp(s, OpOf(r), id, version);
      ServeRollbackTraced(s, OpOf(r), id, version);
    case DeleteRequest(_, id) =>
      ServeDeleteIsDeleteOp(s, OpOf(r), id);
      ServeDeleteTraced(s, OpOf(r), id);
    case ImportRequest(owner, items, ids, failAt) =>
      ImportKeepsInv(s, owner, items, ids, failAt);
      ImportKeepsTraced(s, owner, items, ids, failAt);
  }

  /** In every run of uninterrupted requests, each version's prompt and schema
      come from one schema generation for that prompt or from one import item. */
  lemma {:induction false} RequestsAreTraced(s: State, requests: seq<Request>)
    requires Idle(s) && Inv(s) && Traced(s) && Serving(s, requests)
    ensures Inv(Served(s, requests)) && Traced(Served(s, requests))
    decreases |requests|
  {
    if requests == [] {
    } else {
      ServeKeepsTraced(s, requests[0]);
      RequestsAreTraced(Serve(s, requests[0]).0, requests[1..]);
    }
  }

  /** The schema the response generators load for an endpoint. */
  function LoadSchema(t: Tables, owner: Uuid, id: Uuid): string {
    var listed := ListVersions(t, owner, id);
    if listed == [] then "" else listed[0].schema
  }

  /** After any run of uninterrupted requests, the schema loaded for a live
      endpoint was produced for the prompt the endpoint has now. */
  lemma LoadedSchemaFitsPrompt(requests: seq<Request>, owner: Uuid, id: Uuid)
    requires Serving(START, requests)
    requires FindById(Served(START, requests).tables, owner, id).Ok?
    ensures
      var s := Served(START, requests);
      (FindById(s.tables, owner, id).value.prompt, LoadSchema(s.tables, owner, id)) in s.produced
  {
    RequestsAreTraced(START, requests);
    var s := Served(START, requests);
    var found := FindById(s.tables, owner, id).value;
    assert found.id == id;
    LatestHasPrompt(s, owner, found);
    ListedAreTraced(s, owner, id);
  }

  // ------------------------------------------------- overlapping requests

  /** What an edit that keeps the prompt it found stores, whatever happened to the
      endpoint since: that prompt, with the schema of the version now latest. */
  lemma LateEditStores(s: State, op: Op, found: Endpoint, p: UpdateParams, generated: string)
    requires Intact(s.tables) && op in s.pending && s.pending[op] == Editing(found, p) && p.prompt == found.prompt
    requires found.account == op.0 && FindById(s.tables, op.0, found.id).Ok?
    requires !KeyTaken(s.tables, Edited(found, p))
    ensures
      var rows := s.tables.versions[found.id];
      ApplyCommit(ApplyListForUpdate(s, op, generated).0, op).0.tables
        == Committed(s.tables, Edited(found, p), rows[|rows| - 1].schema)
  {
    ListedHistory(s.tables, op.0, found.id);
    var rows := s.tables.versions[found.id];
    var e := Edited(found, p);
    var next := Highest(ListVersions(s.tables, op.0, found.id)) + 1;
    assert ListVersions(s.tables, op.0, found.id)[0] == rows[|rows| - 1];
    EditIsDefaulted(found, p);
    CommitOutcome(s.tables, op.0, e, rows[|rows| - 1].schema, next);
  }

  /** A commit with a current number that meets no conflict. */
  lemma CommitLeaves(s: State, op: Op, e: Endpoint, schema: string, next: int)
    requires Intact(s.tables) && op in s.pending && s.pending[op] == Committing(e, schema, next)
    requires Defaulted(e.responseType, e.status) && e.account == op.0 && Owns(s.tables, op.0, e.id)
    requires !KeyTaken(s.tables, e) && next == |s.tables.versions[e.id]| + 1
    ensures
      var s1 := ApplyCommit(s, op).0;
      && s1.tables == Committed(s.tables, e, schema) && Intact(s1.tables)
      && s1.pending == s.pending - {op} && s1.produced == s.produced
  {
    CommitOutcome(s.tables, op.0, e, schema, next);
  }

  lemma LatestOfCommitted(t: Tables, e: Endpoint, schema: string)
    requires e.id in t.versions
    ensures
      var rows := VersionRows(Committed(t, e, schema), e.id);
      rows != [] && rows[|rows| - 1].prompt == e.prompt && rows[|rows| - 1].schema == schema
  {
  }
}
