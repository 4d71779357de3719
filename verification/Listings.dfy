/** The registry's listings: an account's endpoints page by page and the active
    endpoints of a method, each row once and in the order of creation. */
module Listings {
  import opened Basics
  import opened Registry
  import opened History
  import opened Interleaving
  import opened Isolation
  import Rollback

  // ------------------------------------------------ the order of creation

  /** Every row has one place in the order of creation. */
  predicate Ordered(t: Tables) {
    Distinct(t.created) && forall id :: id in t.endpoints ==> id in t.created
  }

  /** a was created before b. */
  ghost predicate Earlier(t: Tables, a: Uuid, b: Uuid) {
    exists i, j :: 0 <= i < j < |t.created| && t.created[i] == a && t.created[j] == b
  }

  lemma InsertingKeepsOrdered(t: Tables, used: set<Uuid>, e: Endpoint, versions: map<Uuid, seq<Version>>)
    requires Ordered(t) && CreatedWithin(t, used) && e.id !in used
    ensures Ordered(Tables(t.endpoints[e.id := e], versions, t.created + [e.id]))
  {
    var created := t.created + [e.id];
    forall id | id in t.endpoints[e.id := e]
      ensures id in created
    {
      if id in t.created {
        var i :| 0 <= i < |t.created| && t.created[i] == id;
        assert created[i] == id;
      } else {
        assert created[|t.created|] == e.id;
      }
    }
  }

  lemma {:induction false} ImportKeepsOrdered(t: Tables, used: set<Uuid>, owner: Uuid, items: seq<ImportItem>,
      ids: seq<Uuid>, done: ImportResult)
    requires t.versions.Keys == t.endpoints.Keys <= used && FreshIds(used, items, ids)
    requires Ordered(t) && CreatedWithin(t, used)
    ensures
      var r := ImportAll(t, owner, items, ids, done);
      r.Ok? && Ordered(r.value.0)
    decreases |items|
  {
    if items == [] {
    } else {
      var e := Imported(owner, ids[0], items[0]);
      ImportUnfold(t, owner, items, ids, done);
      FreshTail(used, items, ids);
      if KeyTaken(t, e) {
        ImportKeepsOrdered(t, used, owner, items[1..], ids[1..], done.(skipped := done.skipped + 1));
      } else {
        var t2 := WithImported(t, e, items[0]);
        InsertingKeepsOrdered(t, used, e, t2.versions);
        ImportKeepsOrdered(t2, used + {ids[0]}, owner, items[1..], ids[1..],
                           ImportResult(done.created + 1, done.skipped, done.endpoints + [e]));
      }
    }
  }

  lemma CreateKeepsOrdered(t: Tables, used: set<Uuid>, e: Endpoint, schema: string)
    requires t.versions.Keys == t.endpoints.Keys <= used && Ordered(t) && CreatedWithin(t, used) && e.id !in used
    ensures Ordered(Settle(t, CreateTx(t, e, schema), e).1)
  {
    if !KeyTaken(t, e) {
      var v := SnapshotVersion(e, schema, 1);
      CreateInserts(t, e, v);
      InsertingKeepsOrdered(t, used, e, t.versions[e.id := [v]]);
    }
  }

  lemma CommitKeepsOrdered(t: Tables, owner: Uuid, e: Endpoint, schema: string, version: int)
    requires Ordered(t)
    ensures Ordered(Settle(t, CommitTx(t, owner, e, schema, version), e).1)
  {
  }

  lemma StepKeepsOrdered(s: State, step: Step)
    requires Inv(s) && Ordered(s.tables) && CreatedWithin(s.tables, s.used) && Enabled(s, step)
    ensures Ordered(Apply(s, step).0.tables)
  {
    match step
    case Create(owner, id, p, _, generated) =>
      CreateKeepsOrdered(s.tables, s.used, NewEndpoint(owner, id, p), generated);
    case Import(owner, items, ids, _) =>
      ImportKeepsOrdered(s.tables, s.used, owner, items, ids, NOTHING);
    case Commit(owner, op) =>
      var Committing(e, schema, version) := s.pending[(owner, op)];
      CommitKeepsOrdered(s.tables, owner, e, schema, version);
    case _ =>
  }

  lemma {:induction false} RunsKeepOrdered(s: State, steps: seq<Step>)
    requires Inv(s) && Ordered(s.tables) && CreatedWithin(s.tables, s.used) && Runs(s, steps)
    ensures Ordered(Final(s, steps).tables)
    decreases |steps|
  {
    if steps == [] {
    } else {
      StepKeepsInv(s, steps[0]);
      StepKeepsOrdered(s, steps[0]);
      StepCreatesWithin(s, steps[0]);
      RunsKeepOrdered(Apply(s, steps[0]).0, steps[1..]);
    }
  }

  /** In every interleaving from the empty registry. */
  lemma ReachableOrdered(steps: seq<Step>)
    requires Runs(START, steps)
    ensures Ordered(Final(START, steps).tables) && Intact(Final(START, steps).tables)
  {
    RunsKeepOrdered(START, steps);
    RunsKeepHistories(START, steps);
  }

  // ------------------------------------------- active endpoints of a method

  /** list holds exactly the active endpoints of the method, of all accounts, oldest
      first. */
  ghost predicate ActiveListing(t: Tables, verb: string, list: seq<Endpoint>) {
    && (forall e :: e in list <==>
          exists id :: id in t.endpoints && t.endpoints[id] == e && e.verb == verb && e.status == "active")
    && forall i, j :: 0 <= i < j < |list| ==> Earlier(t, list[i].id, list[j].id)
  }

  predicate Active(t: Tables, verb: string, id: Uuid) {
    id in t.endpoints && t.endpoints[id].verb == verb && t.endpoints[id].status == "active"
  }

  /** The place in the order of creation of an element of the list from k on. */
  lemma {:induction false} ActivePlace(t: Tables, verb: string, k: nat, n: nat) returns (p: nat)
    requires k <= |t.created| && n < |ActiveIn(t.endpoints, t.created[k..], verb)|
    ensures k <= p < |t.created| && Active(t, verb, t.created[p])
    ensures ActiveIn(t.endpoints, t.created[k..], verb)[n] == t.endpoints[t.created[p]]
    decreases |t.created| - k
  {
    var id := t.created[k];
    assert t.created[k..][1..] == t.created[k + 1..];
    if Active(t, verb, id) && n == 0 {
      p := k;
    } else {
      p := ActivePlace(t, verb, k + 1, if Active(t, verb, id) then n - 1 else n);
    }
  }

  lemma {:induction false} ActiveOrder(t: Tables, verb: string, k: nat, i: nat, j: nat)
    requires k <= |t.created| && i < j < |ActiveIn(t.endpoints, t.created[k..], verb)|
    requires forall id :: id in t.endpoints ==> t.endpoints[id].id == id
    ensures
      var list := ActiveIn(t.endpoints, t.created[k..], verb);
      Earlier(t, list[i].id, list[j].id)
    decreases |t.created| - k
  {
    var id := t.created[k];
    assert t.created[k..][1..] == t.created[k + 1..];
    if !Active(t, verb, id) {
      ActiveOrder(t, verb, k + 1, i, j);
    } else if i > 0 {
      ActiveOrder(t, verb, k + 1, i - 1, j - 1);
    } else {
      ActiveFirst(t, verb, k, j);
    }
  }

  lemma ActiveFirst(t: Tables, verb: string, k: nat, j: nat)
    requires k < |t.created| && Active(t, verb, t.created[k])
    requires 0 < j < |ActiveIn(t.endpoints, t.created[k..], verb)|
    requires forall id :: id in t.endpoints ==> t.endpoints[id].id == id
    ensures
      var list := ActiveIn(t.endpoints, t.created[k..], verb);
      Earlier(t, list[0].id, list[j].id)
  {
    assert t.created[k..][1..] == t.created[k + 1..];
    var p := ActivePlace(t, verb, k + 1, j - 1);
    assert t.created[p] == t.endpoints[t.created[p]].id;
  }

  lemma {:induction false} ActiveIsIn(t: Tables, verb: string, k: nat, p: nat)
    requires k <= p < |t.created| && Active(t, verb, t.created[p])
    ensures t.endpoints[t.created[p]] in ActiveIn(t.endpoints, t.created[k..], verb)
    decreases p - k
  {
    assert t.created[k..][1..] == t.created[k + 1..];
    if k < p {
      ActiveIsIn(t, verb, k + 1, p);
    }
  }

  /** What the repository lists as the active endpoints of a method. */
  lemma ActiveAreListed(t: Tables, verb: string)
    requires Intact(t) && Ordered(t)
    ensures ActiveListing(t, verb, ListActive(t, verb))
  {
    var list := ListActive(t, verb);
    assert t.created[0..] == t.created;
    forall e | e in list
      ensures exists id :: id in t.endpoints && t.endpoints[id] == e && e.verb == verb && e.status == "active"
    {
      var n :| 0 <= n < |list| && list[n] == e;
      var p := ActivePlace(t, verb, 0, n);
      assert t.endpoints[t.created[p]] == e;
    }
    forall id | Active(t, verb, id)
      ensures t.endpoints[id] in list
    {
      var p :| 0 <= p < |t.created| && t.created[p] == id;
      ActiveIsIn(t, verb, 0, p);
    }
    forall i, j | 0 <= i < j < |list|
      ensures Earlier(t, list[i].id, list[j].id)
    {
      ActiveOrder(t, verb, 0, i, j);
    }
  }

  // --------------------------------------------------- an account's pages

  /** all holds exactly the account's endpoints, latest first. */
  ghost predicate AccountListing(t: Tables, account: Uuid, all: seq<Endpoint>) {
    && (forall e :: e in all <==> exists id :: Owns(t, account, id) && t.endpoints[id] == e)
    && forall i, j :: 0 <= i < j < |all| ==> Earlier(t, all[j].id, all[i].id)
  }

  lemma {:induction false} OwnPlace(t: Tables, account: Uuid, k: nat, n: nat) returns (p: nat)
    requires k <= |t.created| && n < |OwnIds(t.endpoints, t.created[k..], account)|
    ensures k <= p < |t.created| && OwnIds(t.endpoints, t.created[k..], account)[n] == t.created[p]
    ensures Owns(t, account, t.created[p])
    decreases |t.created| - k
  {
    var id := t.created[k];
    assert t.created[k..][1..] == t.created[k + 1..];
    if Owns(t, account, id) && n == 0 {
      p := k;
    } else {
      p := OwnPlace(t, account, k + 1, if Owns(t, account, id) then n - 1 else n);
    }
  }

  lemma {:induction false} OwnOrderOf(t: Tables, account: Uuid, k: nat, i: nat, j: nat)
    requires k <= |t.created| && i < j < |OwnIds(t.endpoints, t.created[k..], account)|
    ensures
      var ids := OwnIds(t.endpoints, t.created[k..], account);
      Earlier(t, ids[i], ids[j])
    decreases |t.created| - k
  {
    var id := t.created[k];
    assert t.created[k..][1..] == t.created[k + 1..];
    if !Owns(t, account, id) {
      OwnOrderOf(t, account, k + 1, i, j);
    } else if i > 0 {
      OwnOrderOf(t, account, k + 1, i - 1, j - 1);
    } else {
      var p := OwnPlace(t, account, k + 1, j - 1);
      assert t.created[k] == id;
    }
  }

  lemma {:induction false} OwnIsIn(t: Tables, account: Uuid, k: nat, p: nat)
    requires k <= p < |t.created| && Owns(t, account, t.created[p])
    ensures t.created[p] in OwnIds(t.endpoints, t.created[k..], account)
    decreases p - k
  {
    assert t.created[k..][1..] == t.created[k + 1..];
    if k < p {
      OwnIsIn(t, account, k + 1, p);
    }
  }

  lemma {:induction false} RowsAt(endpoints: map<Uuid, Endpoint>, ids: seq<Uuid>)
    requires forall id :: id in ids ==> id in endpoints
    ensures |RowsOf(endpoints, ids)| == |ids|
    ensures forall i :: 0 <= i < |ids| ==> RowsOf(endpoints, ids)[i] == endpoints[ids[i]]
    decreases |ids|
  {
    if ids == [] {
    } else {
      RowsAt(endpoints, ids[1..]);
    }
  }

  lemma OwnIdsOwn(t: Tables, account: Uuid)
    ensures forall id :: id in OwnIds(t.endpoints, t.created, account) ==> Owns(t, account, id)
  {
    assert t.created[0..] == t.created;
    var ids := OwnIds(t.endpoints, t.created, account);
    forall id | id in ids
      ensures Owns(t, account, id)
    {
      var n :| 0 <= n < |ids| && ids[n] == id;
      var p := OwnPlace(t, account, 0, n);
    }
  }

  /** all are the rows of these ids. */
  predicate AreRows(t: Tables, ids: seq<Uuid>, all: seq<Endpoint>) {
    |all| == |ids| && forall i :: 0 <= i < |ids| ==> ids[i] in t.endpoints && all[i] == t.endpoints[ids[i]]
  }

  lemma OwnRowsAreIn(t: Tables, account: Uuid, ids: seq<Uuid>, all: seq<Endpoint>)
    requires AreRows(t, ids, all) && forall id :: id in ids <==> Owns(t, account, id)
    ensures forall e :: e in all <==> exists id :: Owns(t, account, id) && t.endpoints[id] == e
  {
    forall e | e in all
      ensures exists id :: Owns(t, account, id) && t.endpoints[id] == e
    {
      var i :| 0 <= i < |all| && all[i] == e;
      assert ids[i] in ids;
    }
    forall id | Owns(t, account, id)
      ensures t.endpoints[id] in all
    {
      var i :| 0 <= i < |ids| && ids[i] == id;
      assert all[i] == t.endpoints[id];
    }
  }

  lemma LatestOwnIds(t: Tables, account: Uuid, latest: seq<Uuid>)
    requires Ordered(t) && latest == Latest(OwnIds(t.endpoints, t.created, account))
    ensures forall id :: id in latest <==> Owns(t, account, id)
    ensures forall i, j :: 0 <= i < j < |latest| ==> Earlier(t, latest[j], latest[i])
  {
    var ids := OwnIds(t.endpoints, t.created, account);
    assert t.created[0..] == t.created;
    OwnIdsOwn(t, account);
    forall id | Owns(t, account, id)
      ensures id in latest
    {
      var p :| 0 <= p < |t.created| && t.created[p] == id;
      OwnIsIn(t, account, 0, p);
      var n :| 0 <= n < |ids| && ids[n] == id;
      assert latest[|ids| - 1 - n] == id;
    }
    forall i, j | 0 <= i < j < |latest|
      ensures Earlier(t, latest[j], latest[i])
    {
      OwnOrderOf(t, account, 0, |ids| - 1 - j, |ids| - 1 - i);
    }
  }

  /** The rows of an account's ids, latest first, are its listing. */
  lemma OwnRowsAreListing(t: Tables, account: Uuid, latest: seq<Uuid>, all: seq<Endpoint>)
    requires Intact(t) && Ordered(t) && latest == Latest(OwnIds(t.endpoints, t.created, account))
    requires AreRows(t, latest, all)
    ensures AccountListing(t, account, all)
  {
    LatestOwnIds(t, account, latest);
    OwnRowsAreIn(t, account, latest, all);
    forall i, j | 0 <= i < j < |all|
      ensures Earlier(t, all[j].id, all[i].id)
    {
      assert all[i].id == latest[i] && all[j].id == latest[j];
    }
  }

  /** The part of a list that begins behind from elements, of size elements if there
      are as many. */
  function Stretch<T>(all: seq<T>, from: nat, size: nat): seq<T> {
    if from >= |all| then [] else if from + size >= |all| then all[from..] else all[from..from + size]
  }

  lemma RowsOfStretch(endpoints: map<Uuid, Endpoint>, ids: seq<Uuid>, from: nat, size: nat)
    requires forall id :: id in ids ==> id in endpoints
    ensures RowsOf(endpoints, Slice(ids, from, size)) == Stretch(RowsOf(endpoints, ids), from, size)
  {
    var some := Slice(ids, from, size);
    assert some == Stretch(ids, from, size);
    RowsAt(endpoints, ids);
    assert forall id :: id in some ==> id in ids;
    RowsAt(endpoints, some);
    assert |some| == |Stretch(RowsOf(endpoints, ids), from, size)|;
  }

  function PageSize(limit: int): nat {
    if limit < 1 then 20 else if limit > 100 then 100 else limit
  }

  lemma PageStart(page: int, size: nat)
    requires page >= 1
    ensures (page - 1) * size >= 0
  {
  }

  /** A page is the stretch of the account's listing it asks for, of 20 rows unless
      it asks for 1 to 100 or, capped, for more; the count is of all rows. */
  lemma PageIsStretch(t: Tables, account: Uuid, page: int, limit: int) returns (all: seq<Endpoint>, from: nat)
    requires Intact(t) && Ordered(t)
    ensures AccountListing(t, account, all)
    ensures from == if page < 1 then 0 else (page - 1) * PageSize(limit)
    ensures ListPage(t, account, page, limit) == (Stretch(all, from, PageSize(limit)), |all|)
  {
    var latest := Latest(OwnIds(t.endpoints, t.created, account));
    if page >= 1 {
      PageStart(page, PageSize(limit));
    }
    from := if page < 1 then 0 else (page - 1) * PageSize(limit);
    all := RowsOf(t.endpoints, latest);
    LatestOwnIds(t, account, latest);
    RowsAt(t.endpoints, latest);
    OwnRowsAreListing(t, account, latest, all);
    RowsOfStretch(t.endpoints, latest, from, PageSize(limit));
  }

  // ------------------------------------------------------- all the reads

  /** What the reads of an account's endpoint answer: the row, its versions latest
      first, and the comparison of a version with the latest one; and that there is
      none, if the endpoint is not the account's. */
  lemma ReadsAnswer(t: Tables, owner: Uuid, id: Uuid, version: int)
    requires Intact(t)
    ensures ReadAnswer(t, Get(owner, id)) == Settled(if Owns(t, owner, id) then Ok(t.endpoints[id]) else Err(NotFound))
    ensures !Owns(t, owner, id) ==>
      && ReadAnswer(t, Versions(owner, id)) == Listed(Err(NotFound))
      && ReadAnswer(t, Diff(owner, id, version)) == Compared(Err(NotFound))
    ensures Owns(t, owner, id) ==>
      var rows := t.versions[id];
      var n := |rows|;
      && ReadAnswer(t, Versions(owner, id)) ==
           Listed(Ok(seq(n, i requires 0 <= i < n => rows[n - 1 - i])))
      && ReadAnswer(t, Diff(owner, id, version)) ==
           Compared(if 1 <= version <= n then Ok(Rollback.Changes(rows[version - 1], rows[n - 1]))
                    else Err(Invalid("version")))
  {
    if Owns(t, owner, id) {
      var n := |t.versions[id]|;
      ListedHistory(t, owner, id);
      Rollback.DiffAgainstLatest(t, owner, id, version);
      assert Reversed(t.versions[id]) == seq(n, i requires 0 <= i < n => t.versions[id][n - 1 - i]);
    }
  }

  /** The page of a listing, as a step answers it. */
  lemma ListAnswers(t: Tables, owner: Uuid, page: int, limit: int) returns (all: seq<Endpoint>, from: nat)
    requires Intact(t) && Ordered(t)
    ensures AccountListing(t, owner, all)
    ensures from == if page < 1 then 0 else (page - 1) * PageSize(limit)
    ensures ReadAnswer(t, List(owner, page, limit)) == Paged(Stretch(all, from, PageSize(limit)), |all|)
  {
    all, from := PageIsStretch(t, owner, page, limit);
  }
}
