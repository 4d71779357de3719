/** Requests served from beginning to end without interruption, as the steps they
    take and as the service's operations on the tables. */
module Requests {
  import opened Basics
  import opened Registry
  import opened History
  import opened Interleaving

  /** A whole request of the service. */
  datatype Request =
    | CreateRequest(owner: Uuid, id: Uuid, params: CreateParams, vet: Vetting, generated: string)
    | UpdateRequest(owner: Uuid, id: Uuid, edit: UpdateParams, vet: Vetting, generated: string)
    | RollbackRequest(owner: Uuid, id: Uuid, version: int)
    | DeleteRequest(owner: Uuid, id: Uuid)
    | ImportRequest(owner: Uuid, items: seq<ImportItem>, ids: seq<Uuid>, failAt: Option<nat>)

  /** No request is under way. */
  predicate Idle(s: State) {
    s.pending == map[]
  }

  predicate Servable(s: State, r: Request) {
    match r
    case CreateRequest(_, id, _, _, _) => id !in s.used
    case ImportRequest(_, items, ids, _) => FreshIds(s.used, items, ids)
    case _ => true
  }

  function OpOf(r: Request): Op {
    (r.owner, 0)
  }

  function ServeUpdate(s: State, op: Op, id: Uuid, p: UpdateParams, vet: Vetting, generated: string): (State, Outcome)
    requires Idle(s)
  {
    var (s1, first) := ApplyFindForUpdate(s, op, id, p, vet);
    if op in s1.pending then ApplyCommit(ApplyListForUpdate(s1, op, generated).0, op) else (s1, first)
  }

  function ServeRollback(s: State, op: Op, id: Uuid, version: int): (State, Outcome)
    requires Idle(s)
  {
    var (s1, first) := ApplyFindForRollback(s, op, id, version);
    if op !in s1.pending then (s1, first)
    else
      var (s2, second) := ApplyListForRollback(s1, op);
      if op in s2.pending then ApplyCommit(s2, op) else (s2, second)
  }

  function ServeDelete(s: State, op: Op, id: Uuid): (State, Outcome)
    requires Idle(s)
  {
    var (s1, first) := ApplyFindForDelete(s, op, id);
    if op in s1.pending then ApplyCommitDelete(s1, op) else (s1, first)
  }

  /** A request served from its first step to its last, nobody interrupting it. */
  function Serve(s: State, r: Request): (State, Outcome)
    requires Idle(s) && Servable(s, r)
  {
    match r
    case CreateRequest(owner, id, p, vet, generated) => ApplyCreate(s, owner, id, p, vet, generated)
    case UpdateRequest(_, id, p, vet, generated) => ServeUpdate(s, OpOf(r), id, p, vet, generated)
    case RollbackRequest(_, id, version) => ServeRollback(s, OpOf(r), id, version)
    case DeleteRequest(_, id) => ServeDelete(s, OpOf(r), id)
    case ImportRequest(owner, items, ids, failAt) => ApplyImport(s, owner, items, ids, failAt)
  }

  predicate Serving(s: State, requests: seq<Request>)
    requires Idle(s)
    decreases |requests|
  {
    requests == []
    || (Servable(s, requests[0]) && Idle(Serve(s, requests[0]).0) && Serving(Serve(s, requests[0]).0, requests[1..]))
  }

  function Served(s: State, requests: seq<Request>): State
    requires Idle(s) && Serving(s, requests)
    decreases |requests|
  {
    if requests == [] then s else Served(Serve(s, requests[0]).0, requests[1..])
  }

  lemma DropAdded(op: Op, a: Pending, b: Pending)
    ensures map[op := a][op := b] - {op} == map[] && map[op := a] - {op} == map[]
  {
  }

  /** Listing and committing right after one another is the rest of an update. */
  lemma ListThenCommit(s: State, op: Op, found: Endpoint, p: UpdateParams, generated: string)
    requires s.pending == map[op := Editing(found, p)]
    ensures
      var served := ApplyCommit(ApplyListForUpdate(s, op, generated).0, op);
      var rest := UpdateListed(s.tables, op.0, found, ListVersions(s.tables, op.0, found.id), p, generated);
      Idle(served.0) && served.1 == Settled(rest.0) && served.0.tables == rest.1
  {
    DropAdded(op, s.pending[op], ApplyListForUpdate(s, op, generated).0.pending[op]);
  }

  /** The steps of an uninterrupted update have the effect and the answer of the
      service's operation on the tables. */
  lemma ServeUpdateIsUpdateOp(s: State, op: Op, id: Uuid, p: UpdateParams, vet: Vetting, generated: string)
    requires Idle(s) && Inv(s)
    ensures
      var served := ServeUpdate(s, op, id, p, vet, generated);
      var whole := UpdateOp(s.tables, op.0, id, p, vet, generated);
      Idle(served.0) && served.1 == Settled(whole.0) && served.0.tables == whole.1
  {
    var s1 := ApplyFindForUpdate(s, op, id, p, vet).0;
    if op in s1.pending {
      FoundHasId(s.tables, op.0, id);
      ListThenCommit(s1, op, s1.pending[op].found, p, generated);
    }
  }

  lemma FoundHasId(t: Tables, owner: Uuid, id: Uuid)
    requires Intact(t) && FindById(t, owner, id).Ok?
    ensures FindById(t, owner, id).value.id == id
  {
  }

  /** And for a rollback, which may end when its version is not listed. */
  lemma ListThenRestore(s: State, op: Op, found: Endpoint, version: int)
    requires s.pending == map[op := Restoring(found, version)]
    ensures
      var (s2, second) := ApplyListForRollback(s, op);
      var served := if op in s2.pending then ApplyCommit(s2, op) else (s2, second);
      var rest := RollbackListed(s.tables, op.0, found, ListVersions(s.tables, op.0, found.id), version);
      Idle(served.0) && served.1 == Settled(rest.0) && served.0.tables == rest.1
  {
    var s2 := ApplyListForRollback(s, op).0;
    DropAdded(op, s.pending[op], if op in s2.pending then s2.pending[op] else s.pending[op]);
  }

  lemma ServeRollbackIsRollbackOp(s: State, op: Op, id: Uuid, version: int)
    requires Idle(s) && Inv(s)
    ensures
      var served := ServeRollback(s, op, id, version);
      var whole := RollbackOp(s.tables, op.0, id, version);
      Idle(served.0) && served.1 == Settled(whole.0) && served.0.tables == whole.1
  {
    var s1 := ApplyFindForRollback(s, op, id, version).0;
    if op in s1.pending {
      FoundHasId(s.tables, op.0, id);
      ListThenRestore(s1, op, s1.pending[op].found, version);
    }
  }

  lemma ServeDeleteIsDeleteOp(s: State, op: Op, id: Uuid)
    requires Idle(s) && Inv(s)
    ensures
      var served := ServeDelete(s, op, id);
      var whole := DeleteOp(s.tables, op.0, id);
      Idle(served.0) && served.1 == Settled(whole.0) && served.0.tables == whole.1
  {
    var s1 := ApplyFindForDelete(s, op, id).0;
    if op in s1.pending {
      assert s1.pending[op].found.id == id;
      DropAdded(op, s1.pending[op], s1.pending[op]);
    }
  }

  /** The tables the service's operation leaves. */
  function TablesAfter(t: Tables, r: Request): Tables
    requires r.ImportRequest? ==> |r.ids| == |r.items|
  {
    match r
    case CreateRequest(owner, id, p, vet, generated) => CreateOp(t, owner, id, p, vet, generated).1
    case UpdateRequest(owner, id, p, vet, generated) => UpdateOp(t, owner, id, p, vet, generated).1
    case RollbackRequest(owner, id, version) => RollbackOp(t, owner, id, version).1
    case DeleteRequest(owner, id) => DeleteOp(t, owner, id).1
    case ImportRequest(owner, items, ids, failAt) => ImportOp(t, owner, items, ids, failAt).1
  }

  /** Serving a request takes an idle state to an idle state with the operation's
      tables, and keeps the invariant. */
  lemma ServeRefinesOperation(s: State, r: Request)
    requires Idle(s) && Inv(s) && Servable(s, r)
    ensures
      var s' := Serve(s, r).0;
      Idle(s') && Inv(s') && s'.tables == TablesAfter(s.tables, r)
  {
    match r
    case CreateRequest(owner, id, p, vet, generated) => CreateKeepsInv(s, owner, id, p, vet, generated);
    case UpdateRequest(_, id, p, vet, generated) =>
      ServeUpdateIsUpdateOp(s, OpOf(r), id, p, vet, generated);
      ServeUpdateKeepsInv(s, OpOf(r), id, p, vet, generated);
    case RollbackRequest(_, id, version) =>
      ServeRollbackIsRollbackOp(s, OpOf(r), id, version);
      ServeRollbackKeepsInv(s, OpOf(r), id, version);
    case DeleteRequest(_, id) =>
      ServeDeleteIsDeleteOp(s, OpOf(r), id);
      ServeDeleteKeepsInv(s, OpOf(r), id);
    case ImportRequest(owner, items, ids, failAt) => ImportKeepsInv(s, owner, items, ids, failAt);
  }

  lemma ServeUpdateKeepsInv(s: State, op: Op, id: Uuid, p: UpdateParams, vet: Vetting, generated: string)
    requires Idle(s) && Inv(s)
    ensures Inv(ServeUpdate(s, op, id, p, vet, generated).0)
  {
    var s1 := ApplyFindForUpdate(s, op, id, p, vet).0;
    FindForUpdateKeepsInv(s, op, id, p, vet);
    if op in s1.pending {
      ListForUpdateKeepsInv(s1, op, generated);
      CommitKeepsInv(ApplyListForUpdate(s1, op, generated).0, op);
    }
  }

  lemma ServeRollbackKeepsInv(s: State, op: Op, id: Uuid, version: int)
    requires Idle(s) && Inv(s)
    ensures Inv(ServeRollback(s, op, id, version).0)
  {
    var s1 := ApplyFindForRollback(s, op, id, version).0;
    FindForRollbackKeepsInv(s, op, id, version);
    if op in s1.pending {
      ListForRollbackKeepsInv(s1, op);
      var s2 := ApplyListForRollback(s1, op).0;
      if op in s2.pending {
        CommitKeepsInv(s2, op);
      }
    }
  }

  lemma ServeDeleteKeepsInv(s: State, op: Op, id: Uuid)
    requires Idle(s) && Inv(s)
    ensures Inv(ServeDelete(s, op, id).0)
  {
    var s1 := ApplyFindForDelete(s, op, id).0;
    FindForDeleteKeepsInv(s, op, id);
    if op in s1.pending {
      DeleteKeepsInv(s1, op);
    }
  }
}
