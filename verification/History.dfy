/** What the registry's tables keep: gapless version histories whose latest
    snapshot is the live endpoint. */
module History {
  import opened Basics
  import opened Text
  import opened Registry

  // ------------------------------------------------------------ invariant

  predicate Defaulted(responseType: string, status: string) {
    !Blank(responseType) && !Blank(status)
  }

  /** rows are the versions 1..n of e, and version n is e itself. */
  predicate IsHistory(rows: seq<Version>, e: Endpoint) {
    && |rows| > 0
    && (forall i :: 0 <= i < |rows| ==>
          rows[i].version == i + 1 && rows[i].endpointId == e.id && rows[i].account == e.account
          && Defaulted(rows[i].responseType, rows[i].status))
    && FieldsIn(rows[|rows| - 1]) == FieldsOf(e)
  }

  /** Rows sit under their primary key, keys are unique per account, and exactly
      the live endpoints have a history. */
  predicate Intact(t: Tables) {
    && t.versions.Keys == t.endpoints.Keys
    && (forall id :: id in t.endpoints ==> t.endpoints[id].id == id && IsHistory(t.versions[id], t.endpoints[id]))
    && KeysUnique(t.endpoints)
  }

  predicate KeysUnique(endpoints: map<Uuid, Endpoint>) {
    forall a, b :: a in endpoints && b in endpoints && a != b ==> !SameKey(endpoints[a], endpoints[b])
  }

  const NO_TABLES := Tables(map[], map[], [])

  // --------------------------------------------------- listing a history

  function Reversed(rows: seq<Version>): seq<Version> {
    seq(|rows|, i requires 0 <= i < |rows| => rows[|rows| - 1 - i])
  }

  predicate Ascending(rows: seq<Version>) {
    forall i, j :: 0 <= i < j < |rows| ==> rows[i].version < rows[j].version
  }

  lemma {:induction false} OwnedByAll(rows: seq<Version>, account: Uuid)
    requires forall i :: 0 <= i < |rows| ==> rows[i].account == account
    ensures OwnedBy(rows, account) == rows
    decreases |rows|
  {
    if rows == [] {
    } else {
      OwnedByAll(rows[1..], account);
      assert rows == [rows[0]] + rows[1..];
    }
  }

  lemma {:induction false} InsertLeast(v: Version, sorted: seq<Version>)
    requires forall i :: 0 <= i < |sorted| ==> v.version < sorted[i].version
    ensures InsertDescending(v, sorted) == sorted + [v]
    decreases |sorted|
  {
    if sorted == [] {
    } else {
      InsertLeast(v, sorted[1..]);
      assert sorted == [sorted[0]] + sorted[1..];
    }
  }

  lemma {:induction false} DescendingReverses(rows: seq<Version>)
    requires Ascending(rows)
    ensures Descending(rows) == Reversed(rows)
    decreases |rows|
  {
    if rows == [] {
    } else {
      DescendingReverses(rows[1..]);
      InsertLeast(rows[0], Reversed(rows[1..]));
      assert Reversed(rows) == Reversed(rows[1..]) + [rows[0]];
    }
  }

  lemma HighestOfDescent(listed: seq<Version>)
    requires forall i :: 0 <= i < |listed| ==> listed[i].version == |listed| - i
    ensures Highest(listed) == |listed|
  {
    if listed != [] {
      var n := |listed|;
      HighestAtMost(listed, n);
      HighestCovers(listed, 0);
    }
  }

  lemma {:induction false} HighestAtMost(listed: seq<Version>, n: nat)
    requires forall i :: 0 <= i < |listed| ==> listed[i].version <= n
    ensures Highest(listed) <= n
    decreases |listed|
  {
    if listed == [] {
    } else {
      HighestAtMost(listed[..|listed| - 1], n);
    }
  }

  lemma {:induction false} HighestCovers(listed: seq<Version>, k: nat)
    requires k < |listed|
    ensures listed[k].version <= Highest(listed)
    decreases |listed|
  {
    if k < |listed| - 1 {
      HighestCovers(listed[..|listed| - 1], k);
    }
  }

  lemma {:induction false} FindInDescent(listed: seq<Version>, version: int)
    requires forall i :: 0 <= i < |listed| ==> listed[i].version == |listed| - i
    ensures 1 <= version <= |listed| ==> FindVersion(listed, version) == Ok(listed[|listed| - version])
    ensures !(1 <= version <= |listed|) ==> FindVersion(listed, version) == Err(Invalid("version"))
    decreases |listed|
  {
    if listed != [] && listed[0].version != version {
      FindInDescent(listed[1..], version);
    }
  }

  /** The owner of an intact history is listed it newest first: the list's head
      is the live state, the next version is n + 1, and versions are found by
      number. */
  lemma ListedHistory(t: Tables, owner: Uuid, id: Uuid)
    requires Intact(t) && id in t.endpoints && t.endpoints[id].account == owner
    ensures
      var listed := ListVersions(t, owner, id);
      && listed == Reversed(t.versions[id])
      && Highest(listed) == |t.versions[id]|
      && (forall version :: FindVersion(listed, version) ==
            if 1 <= version <= |t.versions[id]| then Ok(t.versions[id][version - 1]) else Err(Invalid("version")))
  {
    var rows := t.versions[id];
    ListedRows(t, owner, id);
    NumbersOfReversed(rows);
    HighestOfDescent(Reversed(rows));
    forall version {
      FindInDescent(Reversed(rows), version);
    }
  }

  lemma ListedRows(t: Tables, owner: Uuid, id: Uuid)
    requires id in t.endpoints && id in t.versions && t.endpoints[id].account == owner
    requires IsHistory(t.versions[id], t.endpoints[id])
    ensures ListVersions(t, owner, id) == Reversed(t.versions[id])
  {
    OwnedByAll(t.versions[id], owner);
    DescendingReverses(t.versions[id]);
  }

  lemma NumbersOfReversed(rows: seq<Version>)
    requires forall i :: 0 <= i < |rows| ==> rows[i].version == i + 1
    ensures forall i :: 0 <= i < |rows| ==> Reversed(rows)[i].version == |rows| - i
  {
  }

  /** Nobody else is listed anything. */
  lemma ListedToOthers(t: Tables, other: Uuid, id: Uuid)
    requires Intact(t)
    requires id in t.endpoints ==> t.endpoints[id].account != other
    ensures ListVersions(t, other, id) == []
  {
    OwnedByNone(VersionRows(t, id), other);
  }

  lemma OwnedByNone(rows: seq<Version>, account: Uuid)
    requires forall i :: 0 <= i < |rows| ==> rows[i].account != account
    ensures OwnedBy(rows, account) == []
  {
  }

  // ------------------------------------------------------- transactions

  /** Two endpoints compare equal exactly when their ten versioned fields agree. */
  lemma SnapshotEqualIff(a: Endpoint, b: Endpoint)
    ensures EndpointSnapshotEqual(a, b) <==> FieldsOf(a) == FieldsOf(b)
  {
  }

  lemma FirstVersion(e: Endpoint, schema: string)
    requires Defaulted(e.responseType, e.status)
    ensures IsHistory([SnapshotVersion(e, schema, 1)], e)
  {
  }

  lemma NextInHistory(rows: seq<Version>, before: Endpoint, e: Endpoint, schema: string)
    requires IsHistory(rows, before) && e.id == before.id && e.account == before.account
    requires Defaulted(e.responseType, e.status)
    ensures IsHistory(rows + [SnapshotVersion(e, schema, |rows| + 1)], e)
  {
  }

  lemma StoringKeepsKeysUnique(t: Tables, e: Endpoint)
    requires KeysUnique(t.endpoints) && !KeyTaken(t, e)
    requires forall id :: id in t.endpoints ==> t.endpoints[id].id == id
    ensures KeysUnique(t.endpoints[e.id := e])
  {
    var after := t.endpoints[e.id := e];
    forall a, b | a in after && b in after && a != b
      ensures !SameKey(after[a], after[b])
    {
      if a == e.id {
        assert b in t.endpoints;
      } else if b == e.id {
        assert a in t.endpoints;
      }
    }
  }

  /** What storing e with its history does to intact tables. */
  lemma StoringKeepsIntact(t: Tables, e: Endpoint, rows: seq<Version>, created: seq<Uuid>)
    requires Intact(t) && !KeyTaken(t, e) && IsHistory(rows, e)
    ensures Intact(Tables(t.endpoints[e.id := e], t.versions[e.id := rows], created))
  {
    StoringKeepsKeysUnique(t, e);
  }

  /** A creation under a fresh id adds one endpoint with version 1, or nothing. */
  lemma CreateKeepsIntact(t: Tables, e: Endpoint, schema: string)
    requires Intact(t) && e.id !in t.endpoints && Defaulted(e.responseType, e.status)
    ensures CreateTx(t, e, schema) ==
      if KeyTaken(t, e) then Err(Conflict)
      else Ok(Tables(t.endpoints[e.id := e], t.versions[e.id := [SnapshotVersion(e, schema, 1)]], t.created + [e.id]))
    ensures CreateTx(t, e, schema).Ok? ==> Intact(CreateTx(t, e, schema).value)
  {
    var v := SnapshotVersion(e, schema, 1);
    if !KeyTaken(t, e) {
      CreateInserts(t, e, v);
      FirstVersion(e, schema);
      StoringKeepsIntact(t, e, [v], t.created + [e.id]);
    }
  }

  lemma CreateInserts(t: Tables, e: Endpoint, v: Version)
    requires e.id !in t.endpoints && e.id !in t.versions && !KeyTaken(t, e) && v.endpointId == e.id
    ensures InsertEndpoint(t, e).Ok?
    ensures InsertVersion(InsertEndpoint(t, e).value, v) ==
      Ok(Tables(t.endpoints[e.id := e], t.versions[e.id := [v]], t.created + [e.id]))
  {
    assert [] + [v] == [v];
  }

  /** A commit whose version number is at most one past the latest either fails
      or appends exactly the next version: the optimistic check of the unique
      (endpoint, version) constraint. */
  lemma CommitKeepsIntact(t: Tables, owner: Uuid, e: Endpoint, schema: string, version: int)
    requires Intact(t) && Defaulted(e.responseType, e.status) && e.account == owner
    requires e.id in t.endpoints ==> 1 <= version <= |t.versions[e.id]| + 1
    ensures
      var tx := CommitTx(t, owner, e, schema, version);
      && (tx.Ok? <==>
            e.id in t.endpoints && t.endpoints[e.id].account == owner && !KeyTaken(t, e)
            && version == |t.versions[e.id]| + 1)
      && (tx.Ok? ==>
            && tx.value == Tables(t.endpoints[e.id := e],
                                  t.versions[e.id := t.versions[e.id] + [SnapshotVersion(e, schema, version)]],
                                  t.created)
            && Intact(tx.value))
  {
    if e.id in t.endpoints && t.endpoints[e.id].account == owner && !KeyTaken(t, e) {
      var rows := t.versions[e.id];
      assert IsHistory(rows, t.endpoints[e.id]);
      VersionNumberTaken(rows, t.endpoints[e.id], version);
      if version == |rows| + 1 {
        NextInHistory(rows, t.endpoints[e.id], e, schema);
        StoringKeepsIntact(t, e, rows + [SnapshotVersion(e, schema, version)], t.created);
      }
    }
  }

  /** The tables after storing e with its next snapshot. */
  function Committed(t: Tables, e: Endpoint, schema: string): Tables
    requires e.id in t.versions
  {
    var rows := t.versions[e.id];
    Tables(t.endpoints[e.id := e], t.versions[e.id := rows + [SnapshotVersion(e, schema, |rows| + 1)]], t.created)
  }

  /** A commit right after listing the versions meets nothing but a taken key. */
  function CommitAnswer(t: Tables, e: Endpoint, schema: string): (Answer, Tables)
    requires e.id in t.versions
  {
    if KeyTaken(t, e) then (Err(Conflict), t) else (Ok(e), Committed(t, e, schema))
  }

  lemma CommitOutcome(t: Tables, owner: Uuid, e: Endpoint, schema: string, next: int)
    requires Intact(t) && Defaulted(e.responseType, e.status)
    requires e.account == owner && e.id in t.endpoints && t.endpoints[e.id].account == owner
    requires next == |t.versions[e.id]| + 1
    ensures Settle(t, CommitTx(t, owner, e, schema, next), e) == CommitAnswer(t, e, schema)
    ensures Intact(CommitAnswer(t, e, schema).1)
  {
    CommitKeepsIntact(t, owner, e, schema, next);
  }

  /** The numbers in use are 1..n. */
  lemma VersionNumberTaken(rows: seq<Version>, e: Endpoint, version: int)
    requires IsHistory(rows, e)
    ensures (exists i :: 0 <= i < |rows| && rows[i].version == version) <==> 1 <= version <= |rows|
  {
    if 1 <= version <= |rows| {
      assert rows[version - 1].version == version;
    }
  }

  lemma RemovingKeepsIntact(t: Tables, id: Uuid)
    requires Intact(t)
    ensures Intact(Tables(t.endpoints - {id}, t.versions - {id}, t.created))
  {
  }

  lemma DeleteKeepsIntact(t: Tables, account: Uuid, id: Uuid)
    requires Intact(t) && DeleteEndpoint(t, account, id).Ok?
    ensures
      var t' := DeleteEndpoint(t, account, id).value;
      && Intact(t')
      && id !in t'.endpoints && id !in t'.versions
      && (forall other :: other in t.endpoints && other != id ==>
            && other in t'.endpoints && t'.endpoints[other] == t.endpoints[other]
            && t'.versions[other] == t.versions[other])
  {
    RemovingKeepsIntact(t, id);
  }

  lemma EditIsDefaulted(e: Endpoint, p: UpdateParams)
    ensures Defaulted(Edited(e, p).responseType, Edited(e, p).status)
  {
    assert !IsSpace(JSON[0]) && !IsSpace(ACTIVE[0]);
  }

  lemma RestoreIsDefaulted(e: Endpoint, target: Version)
    ensures Defaulted(Restored(e, target).responseType, Restored(e, target).status)
  {
    assert !IsSpace(JSON[0]) && !IsSpace(ACTIVE[0]);
  }

  lemma NewIsDefaulted(owner: Uuid, id: Uuid, p: CreateParams)
    ensures Defaulted(NewEndpoint(owner, id, p).responseType, NewEndpoint(owner, id, p).status)
  {
    assert !IsSpace(JSON[0]) && !IsSpace(ACTIVE[0]);
  }

  lemma ImportedIsDefaulted(owner: Uuid, id: Uuid, item: ImportItem)
    ensures Defaulted(Imported(owner, id, item).responseType, Imported(owner, id, item).status)
  {
    assert !IsSpace(JSON[0]) && !IsSpace(ACTIVE[0]);
  }
}
