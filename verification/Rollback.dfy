/** Diffing two snapshots and rolling an endpoint back to one. */
module Rollback {
  import opened Basics
  import opened Registry
  import opened History

  // ----------------------------------------------------------------- diff

  datatype FieldChange = FieldChange(field: string, from: string, to: string)

  const NAMES: seq<string> :=
    ["method", "path", "description", "prompt", "response_type", "stateful",
     "status", "request_schema", "error_sim", "public", "schema"]

  function FormatBool(b: bool): string {
    if b then "true" else "false"
  }

  function ParseBool(s: string): bool {
    s == "true"
  }

  /** The eleven diffed fields as text, in the order of NAMES. */
  function Texts(v: Version): (r: seq<string>)
    ensures |r| == |NAMES|
  {
    [v.verb, v.path, v.description, v.prompt, v.responseType, FormatBool(v.stateful),
     v.status, v.requestSchema, v.errorSim, FormatBool(v.public), v.schema]
  }

  /** The changes between two lists of named values. */
  function ChangesBetween(names: seq<string>, a: seq<string>, b: seq<string>): seq<FieldChange>
    requires |names| == |a| == |b|
  {
    if names == [] then []
    else
      (if a[0] != b[0] then [FieldChange(names[0], a[0], b[0])] else [])
      + ChangesBetween(names[1..], a[1..], b[1..])
  }

  function Changes(from: Version, to: Version): seq<FieldChange> {
    ChangesBetween(NAMES, Texts(from), Texts(to))
  }

  /** The comparison loop over the field list. */
  method DiffTexts(names: seq<string>, a: seq<string>, b: seq<string>) returns (changes: seq<FieldChange>)
    requires |names| == |a| == |b|
    ensures changes == ChangesBetween(names, a, b)
  {
    changes := [];
    var k := 0;
    while k < |names|
      invariant 0 <= k <= |names|
      invariant changes + ChangesBetween(names[k..], a[k..], b[k..]) == ChangesBetween(names, a, b)
    {
      ghost var before := changes;
      ghost var rest := ChangesBetween(names[k + 1..], a[k + 1..], b[k + 1..]);
      assert names[k..][1..] == names[k + 1..] && a[k..][1..] == a[k + 1..] && b[k..][1..] == b[k + 1..];
      if a[k] != b[k] {
        changes := changes + [FieldChange(names[k], a[k], b[k])];
        assert changes + rest == before + ([FieldChange(names[k], a[k], b[k])] + rest);
      } else {
        assert [] + rest == rest;
      }
      k := k + 1;
    }
  }

  method DiffVersions(from: Version, to: Version) returns (changes: seq<FieldChange>)
    ensures changes == Changes(from, to)
  {
    changes := DiffTexts(NAMES, Texts(from), Texts(to));
  }

  /** Setting the named value of a list. */
  function Set(names: seq<string>, texts: seq<string>, c: FieldChange): (r: seq<string>)
    requires |texts| == |names|
    ensures |r| == |names|
  {
    seq(|names|, i requires 0 <= i < |names| => if names[i] == c.field then c.to else texts[i])
  }

  function SetAll(names: seq<string>, texts: seq<string>, changes: seq<FieldChange>): (r: seq<string>)
    requires |texts| == |names|
    ensures |r| == |names|
    decreases |changes|
  {
    if changes == [] then texts else SetAll(names, Set(names, texts, changes[0]), changes[1..])
  }

  /** The snapshot a diff turns v into. */
  function Patch(v: Version, changes: seq<FieldChange>): Version {
    var t := SetAll(NAMES, Texts(v), changes);
    v.(verb := t[0], path := t[1], description := t[2], prompt := t[3], responseType := t[4],
       stateful := ParseBool(t[5]),
       status := t[6], requestSchema := t[7], errorSim := t[8], public := ParseBool(t[9]), schema := t[10])
  }

  /** The eleven fields of a snapshot: all but its identity and number. */
  predicate SameEleven(a: Version, b: Version) {
    FieldsIn(a) == FieldsIn(b) && a.schema == b.schema
  }

  lemma NamesDistinct()
    ensures Distinct(NAMES)
  {
    // Lengths tell most names apart; the rest differ in their first two letters.
    assert |NAMES| == 11;
    assert forall i, j :: 0 <= i < j < |NAMES| && |NAMES[i]| == |NAMES[j]| ==>
      NAMES[i][0] != NAMES[j][0] || NAMES[i][1] != NAMES[j][1];
  }

  /** From k on, a's values replaced by their changes are b's. */
  lemma {:induction false} SetAllReaches(names: seq<string>, a: seq<string>, b: seq<string>, k: nat)
    requires |a| == |b| == |names| && k <= |names| && Distinct(names)
    ensures SetAll(names, b[..k] + a[k..], ChangesBetween(names[k..], a[k..], b[k..])) == b
    decreases |names| - k
  {
    var mixed := b[..k] + a[k..];
    if k < |names| {
      var next := b[..k + 1] + a[k + 1..];
      var rest := ChangesBetween(names[k + 1..], a[k + 1..], b[k + 1..]);
      assert names[k..][1..] == names[k + 1..] && a[k..][1..] == a[k + 1..] && b[k..][1..] == b[k + 1..];
      if a[k] == b[k] {
        assert mixed == next;
        assert [] + rest == rest;
      } else {
        var c := FieldChange(names[k], a[k], b[k]);
        assert Set(names, mixed, c) == next;
        assert ([c] + rest)[1..] == rest;
      }
      SetAllReaches(names, a, b, k + 1);
    }
  }

  lemma SameTextsIff(a: Version, b: Version)
    ensures Texts(a) == Texts(b) <==> SameEleven(a, b)
  {
    var x, y := Texts(a), Texts(b);
    assert FormatBool(a.stateful) == FormatBool(b.stateful) <==> a.stateful == b.stateful by { BoolTextsDiffer(); }
    assert FormatBool(a.public) == FormatBool(b.public) <==> a.public == b.public by { BoolTextsDiffer(); }
    if x == y {
      assert x[0] == y[0] && x[1] == y[1] && x[2] == y[2] && x[3] == y[3] && x[4] == y[4] && x[5] == y[5];
      assert x[6] == y[6] && x[7] == y[7] && x[8] == y[8] && x[9] == y[9] && x[10] == y[10];
    }
  }

  lemma BoolTextsDiffer()
    ensures FormatBool(true) != FormatBool(false)
    ensures ParseBool(FormatBool(true)) && !ParseBool(FormatBool(false))
  {
    assert |FormatBool(true)| != |FormatBool(false)|;
  }

  /** Applying the diff of a and b to a reconstructs b's eleven fields, leaving
      identity and number alone. */
  lemma PatchReconstructs(a: Version, b: Version)
    ensures
      var r := Patch(a, Changes(a, b));
      SameEleven(r, b) && r.endpointId == a.endpointId && r.account == a.account && r.version == a.version
  {
    var x, y := Texts(a), Texts(b);
    NamesDistinct();
    SetAllReaches(NAMES, x, y, 0);
    assert y[..0] + x[0..] == x && NAMES[0..] == NAMES && y[0..] == y && x[0..] == x;
    BoolTextsDiffer();
  }

  /** A diff is empty exactly between snapshots with the same eleven fields. */
  lemma EmptyDiffIff(a: Version, b: Version)
    ensures Changes(a, b) == [] <==> SameEleven(a, b)
  {
    SameTextsIff(a, b);
    EmptyBetweenIff(NAMES, Texts(a), Texts(b));
  }

  lemma {:induction false} EmptyBetweenIff(names: seq<string>, a: seq<string>, b: seq<string>)
    requires |a| == |b| == |names|
    ensures ChangesBetween(names, a, b) == [] <==> a == b
    decreases |names|
  {
    if names == [] {
    } else {
      EmptyBetweenIff(names[1..], a[1..], b[1..]);
      assert a == [a[0]] + a[1..] && b == [b[0]] + b[1..];
    }
  }

  /** The name a diff gives a field of a version, with the field's text. */
  predicate IsField(v: Version, name: string, text: string) {
    || (name == "method" && text == v.verb)
    || (name == "path" && text == v.path)
    || (name == "description" && text == v.description)
    || (name == "prompt" && text == v.prompt)
    || (name == "response_type" && text == v.responseType)
    || (name == "stateful" && text == if v.stateful then "true" else "false")
    || (name == "status" && text == v.status)
    || (name == "request_schema" && text == v.requestSchema)
    || (name == "error_sim" && text == v.errorSim)
    || (name == "public" && text == if v.public then "true" else "false")
    || (name == "schema" && text == v.schema)
  }

  lemma IsFieldAt(v: Version, name: string, text: string) returns (i: nat)
    requires IsField(v, name, text)
    ensures i < |NAMES| && NAMES[i] == name && Texts(v)[i] == text
  {
    i := if name == "method" && text == v.verb then 0
         else if name == "path" && text == v.path then 1
         else if name == "description" && text == v.description then 2
         else if name == "prompt" && text == v.prompt then 3
         else if name == "response_type" && text == v.responseType then 4
         else if name == "stateful" && text == FormatBool(v.stateful) then 5
         else if name == "status" && text == v.status then 6
         else if name == "request_schema" && text == v.requestSchema then 7
         else if name == "error_sim" && text == v.errorSim then 8
         else if name == "public" && text == FormatBool(v.public) then 9
         else 10;
  }

  lemma TextsAreFields(v: Version, i: nat)
    requires i < |NAMES|
    ensures IsField(v, NAMES[i], Texts(v)[i])
  {
    assert |NAMES| == 11;
  }

  lemma {:induction false} ChangeAt(names: seq<string>, a: seq<string>, b: seq<string>, c: FieldChange)
      returns (i: nat)
    requires |names| == |a| == |b| && c in ChangesBetween(names, a, b)
    ensures i < |names| && c == FieldChange(names[i], a[i], b[i]) && a[i] != b[i]
    decreases |names|
  {
    if a[0] != b[0] && c == FieldChange(names[0], a[0], b[0]) {
      i := 0;
    } else {
      i := ChangeAt(names[1..], a[1..], b[1..], c);
      i := i + 1;
    }
  }

  lemma {:induction false} ChangedIsListed(names: seq<string>, a: seq<string>, b: seq<string>, i: nat)
    requires |names| == |a| == |b| && i < |names| && a[i] != b[i]
    ensures FieldChange(names[i], a[i], b[i]) in ChangesBetween(names, a, b)
    decreases |names|
  {
    if i > 0 {
      ChangedIsListed(names[1..], a[1..], b[1..], i - 1);
    }
  }

  /** A diff names exactly the fields whose texts differ, each with its old and its
      new text. */
  lemma ListedChangeIff(a: Version, b: Version, c: FieldChange)
    ensures c in Changes(a, b) <==> IsField(a, c.field, c.from) && IsField(b, c.field, c.to) && c.from != c.to
  {
    var x, y := Texts(a), Texts(b);
    if c in Changes(a, b) {
      var i := ChangeAt(NAMES, x, y, c);
      TextsAreFields(a, i);
      TextsAreFields(b, i);
    }
    if IsField(a, c.field, c.from) && IsField(b, c.field, c.to) && c.from != c.to {
      NamesDistinct();
      var i := IsFieldAt(a, c.field, c.from);
      var j := IsFieldAt(b, c.field, c.to);
      assert i == j;
      ChangedIsListed(NAMES, x, y, i);
    }
  }

  /** The service's Diff: a version against the latest one. */
  function DiffOp(t: Tables, owner: Uuid, id: Uuid, version: int): Result<seq<FieldChange>, Error> {
    var found := FindById(t, owner, id);
    if found.Err? then Err(found.error)
    else
      var listed := ListVersions(t, owner, id);
      var target := FindVersion(listed, version);
      if target.Err? || listed == [] then Err(Invalid("version")) else Ok(Changes(target.value, listed[0]))
  }

  // ------------------------------------------------------------- rollback

  /** A history with a copy of one of its snapshots appended under the next
      number. */
  function Repeated(rows: seq<Version>, version: int): seq<Version>
    requires 1 <= version <= |rows|
  {
    rows + [rows[version - 1].(version := |rows| + 1)]
  }

  /** The endpoint a rollback stores. */
  function Target(t: Tables, id: Uuid, version: int): Endpoint
    requires id in t.endpoints && id in t.versions && 1 <= version <= |t.versions[id]|
  {
    Restored(t.endpoints[id], t.versions[id][version - 1])
  }

  lemma TargetIsStorable(t: Tables, owner: Uuid, id: Uuid, version: int)
    requires Intact(t) && Owns(t, owner, id) && 1 <= version <= |t.versions[id]|
    ensures
      var e := Target(t, id, version);
      e.id == id && e.account == owner && Defaulted(e.responseType, e.status)
  {
    RestoreIsDefaulted(t.endpoints[id], t.versions[id][version - 1]);
  }

  lemma RollbackTargets(t: Tables, owner: Uuid, id: Uuid, version: int)
    requires Intact(t) && Owns(t, owner, id)
    ensures
      var rows := t.versions[id];
      var listed := ListVersions(t, owner, id);
      && RollbackTarget(listed, version) ==
           (if 1 <= version < |rows| then Ok(rows[version - 1]) else Err(Invalid("version")))
      && Highest(listed) == |rows|
  {
    ListedHistory(t, owner, id);
    var rows := t.versions[id];
    assert IsHistory(rows, t.endpoints[id]);
    assert ListVersions(t, owner, id)[0] == rows[|rows| - 1];
  }

  lemma RollbackSettles(t: Tables, owner: Uuid, id: Uuid, found: Endpoint, version: int, target: Version, e: Endpoint,
      next: int)
    requires FindById(t, owner, id) == Ok(found) && e == Restored(found, target)
    requires
      var listed := ListVersions(t, owner, id);
      RollbackTarget(listed, version) == Ok(target) && Highest(listed) + 1 == next
    ensures RollbackOp(t, owner, id, version) == Settle(t, CommitTx(t, owner, e, target.schema, next), e)
  {
  }

  /** A rollback is refused unless it names a version before the latest; it then
      commits the endpoint that version describes, with its schema, and fails
      only if another endpoint of the account has taken the method and path. */
  lemma RollbackOutcome(t: Tables, owner: Uuid, id: Uuid, version: int)
    requires Intact(t) && Owns(t, owner, id)
    ensures !(1 <= version < |t.versions[id]|) ==> RollbackOp(t, owner, id, version) == (Err(Invalid("version")), t)
    ensures 1 <= version < |t.versions[id]| ==>
      Target(t, id, version).id == id
      && RollbackOp(t, owner, id, version) ==
           CommitAnswer(t, Target(t, id, version), t.versions[id][version - 1].schema)
    ensures Intact(RollbackOp(t, owner, id, version).1)
  {
    RollbackTargets(t, owner, id, version);
    if 1 <= version < |t.versions[id]| {
      var e := Target(t, id, version);
      var target := t.versions[id][version - 1];
      var next := |t.versions[id]| + 1;
      TargetIsStorable(t, owner, id, version);
      RollbackSettles(t, owner, id, t.endpoints[id], version, target, e, next);
      CommitOutcome(t, owner, e, target.schema, next);
    }
  }

  lemma RestoredSnapshot(rows: seq<Version>, e: Endpoint, version: int)
    requires IsHistory(rows, e) && 1 <= version <= |rows|
    ensures
      var target := rows[version - 1];
      var r := Restored(e, target);
      && r.id == e.id && r.account == e.account
      && FieldsOf(r) == FieldsIn(target)
      && SnapshotVersion(r, target.schema, |rows| + 1) == target.(version := |rows| + 1)
  {
  }

  /** The tables after a successful rollback: the endpoint holds the target's ten
      fields, and the history is the old one with a copy of the target's snapshot
      appended under the next number, its response schema included. */
  lemma RollbackRestores(t: Tables, owner: Uuid, id: Uuid, version: int)
    requires Intact(t) && Owns(t, owner, id) && RollbackOp(t, owner, id, version).0.Ok?
    ensures
      var rows := t.versions[id];
      var t' := RollbackOp(t, owner, id, version).1;
      && 1 <= version < |rows|
      && id in t'.endpoints && t'.endpoints == t.endpoints[id := t'.endpoints[id]]
      && t'.endpoints[id].account == owner
      && FieldsOf(t'.endpoints[id]) == FieldsIn(rows[version - 1])
      && t'.versions == t.versions[id := Repeated(rows, version)]
  {
    RollbackOutcome(t, owner, id, version);
    CommittedTarget(t, id, version);
  }

  lemma CommittedTarget(t: Tables, id: Uuid, version: int)
    requires id in t.endpoints && id in t.versions && IsHistory(t.versions[id], t.endpoints[id])
    requires t.endpoints[id].id == id && 1 <= version <= |t.versions[id]|
    ensures
      var rows := t.versions[id];
      var e := Target(t, id, version);
      var t' := Committed(t, e, rows[version - 1].schema);
      && e.id == id && e.account == t.endpoints[id].account
      && FieldsOf(e) == FieldsIn(rows[version - 1])
      && t'.endpoints == t.endpoints[id := e]
      && t'.versions == t.versions[id := Repeated(rows, version)]
  {
    RestoredSnapshot(t.versions[id], t.endpoints[id], version);
  }

  lemma DiffAgainstLatest(t: Tables, owner: Uuid, id: Uuid, version: int)
    requires Intact(t) && Owns(t, owner, id)
    ensures
      var rows := t.versions[id];
      DiffOp(t, owner, id, version) ==
        if 1 <= version <= |rows| then Ok(Changes(rows[version - 1], rows[|rows| - 1])) else Err(Invalid("version"))
  {
    ListedHistory(t, owner, id);
    var rows := t.versions[id];
    assert IsHistory(rows, t.endpoints[id]);
    assert ListVersions(t, owner, id)[0] == rows[|rows| - 1];
  }

  /** After a successful rollback to a version, its diff against the latest is
      empty. */
  lemma RollbackThenDiff(t: Tables, owner: Uuid, id: Uuid, version: int)
    requires Intact(t) && Owns(t, owner, id) && RollbackOp(t, owner, id, version).0.Ok?
    ensures DiffOp(RollbackOp(t, owner, id, version).1, owner, id, version) == Ok([])
  {
    var rows := t.versions[id];
    var t' := RollbackOp(t, owner, id, version).1;
    RollbackOutcome(t, owner, id, version);
    RollbackRestores(t, owner, id, version);
    EmptyDiffIff(rows[version - 1], rows[version - 1].(version := |rows| + 1));
    DiffAgainstLatest(t', owner, id, version);
  }

  lemma RestoringLatest(t: Tables, t': Tables, owner: Uuid, id: Uuid)
    requires Intact(t) && Intact(t') && Owns(t, owner, id) && Owns(t', owner, id)
    requires t'.endpoints == t.endpoints[id := t'.endpoints[id]]
    requires t.versions[id] <= t'.versions[id]
    ensures
      var n := |t.versions[id]|;
      Target(t', id, n) == t.endpoints[id] && !KeyTaken(t', t.endpoints[id])
  {
    var e := t.endpoints[id];
    assert IsHistory(t.versions[id], e);
    assert t'.versions[id][|t.versions[id]| - 1] == t.versions[id][|t.versions[id]| - 1];
    forall other | other in t'.endpoints && other != id
      ensures !SameKey(t'.endpoints[other], e)
    {
      assert t'.endpoints[other] == t.endpoints[other];
    }
  }

  /** Rolling back at once to the former latest version succeeds, restores every
      endpoint row as it was, and leaves both rollbacks in the history. */
  lemma RollbackUndone(t: Tables, owner: Uuid, id: Uuid, version: int)
    requires Intact(t) && Owns(t, owner, id) && RollbackOp(t, owner, id, version).0.Ok?
    ensures
      var rows := t.versions[id];
      var undone := RollbackOp(RollbackOp(t, owner, id, version).1, owner, id, |rows|);
      && 1 <= version < |rows|
      && undone.0 == Ok(t.endpoints[id])
      && undone.1.endpoints == t.endpoints
      && undone.1.versions == t.versions[id := Repeated(Repeated(rows, version), |rows|)]
  {
    var rows := t.versions[id];
    var t' := RollbackOp(t, owner, id, version).1;
    RollbackOutcome(t, owner, id, version);
    RollbackRestores(t, owner, id, version);
    RestoringLatest(t, t', owner, id);
    RollbackAgain(t', owner, id, |rows|, t.endpoints[id]);
    SetTwice(t.endpoints, id, t'.endpoints[id], t.endpoints[id]);
    SetTwice(t.versions, id, Repeated(rows, version), Repeated(Repeated(rows, version), |rows|));
  }

  lemma RollbackAgain(t: Tables, owner: Uuid, id: Uuid, version: int, e: Endpoint)
    requires Intact(t) && Owns(t, owner, id) && 1 <= version < |t.versions[id]|
    requires Target(t, id, version) == e && !KeyTaken(t, e)
    ensures
      var undone := RollbackOp(t, owner, id, version);
      && undone.0 == Ok(e)
      && undone.1.endpoints == t.endpoints[id := e]
      && undone.1.versions == t.versions[id := Repeated(t.versions[id], version)]
  {
    RollbackOutcome(t, owner, id, version);
    CommittedTarget(t, id, version);
  }

  lemma SetTwice<K, V>(m: map<K, V>, k: K, a: V, b: V)
    ensures m[k := a][k := b] == m[k := b]
    ensures k in m && b == m[k] ==> m[k := b] == m
  {
  }

  // --------------------------------------------------------------- update

  /** An update that changes a versioned field and meets no conflict appends one
      snapshot of the edited endpoint, carrying the latest schema over unless the
      prompt changed; an update that changes nothing leaves the tables alone. */
  lemma UpdateOutcome(t: Tables, owner: Uuid, id: Uuid, p: UpdateParams, vet: Vetting, generated: string)
    requires Intact(t) && Owns(t, owner, id) && ValidateUpdate(p, vet).None?
    ensures
      var before := t.endpoints[id];
      var rows := t.versions[id];
      var e := Edited(before, p);
      var schema := if e.prompt != before.prompt then generated else rows[|rows| - 1].schema;
      UpdateOp(t, owner, id, p, vet, generated) ==
        if FieldsOf(e) == FieldsOf(before) then (Ok(e), t) else CommitAnswer(t, e, schema)
    ensures Intact(UpdateOp(t, owner, id, p, vet, generated).1)
  {
    var before := t.endpoints[id];
    var e := Edited(before, p);
    SnapshotEqualIff(before, e);
    ListedHistory(t, owner, id);
    var rows := t.versions[id];
    assert IsHistory(rows, before);
    if FieldsOf(e) != FieldsOf(before) {
      var listed := ListVersions(t, owner, id);
      assert |listed| == |rows| && listed[0] == rows[|rows| - 1];
      EditIsDefaulted(before, p);
      CommitOutcome(t, owner, e, UpdatedSchema(before, p, listed, generated), Highest(listed) + 1);
    }
  }

  /** An update request that states everything a creation request states. */
  function AsUpdate(c: CreateParams): UpdateParams {
    UpdateParams(c.verb, c.path, c.description, c.prompt, c.responseType, Some(c.stateful),
                 c.status, Some(c.requestSchema), Some(c.errorSim), c.public)
  }

  /** Updating a new endpoint with what it was created from changes nothing and
      adds no version. */
  lemma CreateThenSameUpdate(t: Tables, owner: Uuid, id: Uuid, c: CreateParams, vet: Vetting, generated: string,
      again: string)
    requires Intact(t) && id !in t.endpoints && CreateOp(t, owner, id, c, vet, generated).0.Ok?
    ensures
      var (answer, t') := CreateOp(t, owner, id, c, vet, generated);
      UpdateOp(t', owner, id, AsUpdate(c), vet, again) == (answer, t')
  {
    var e := NewEndpoint(owner, id, c);
    NewIsDefaulted(owner, id, c);
    CreateKeepsIntact(t, e, generated);
    assert ValidateUpdate(AsUpdate(c), vet).None?;
    assert Edited(e, AsUpdate(c)) == e;
  }

  lemma EditTwice(before: Endpoint, row: Endpoint, p: UpdateParams)
    requires row.id == before.id && row.account == before.account && FieldsOf(row) == FieldsOf(Edited(before, p))
    ensures Edited(row, p) == Edited(before, p)
  {
  }

  lemma UpdateToSame(t: Tables, owner: Uuid, id: Uuid, p: UpdateParams, vet: Vetting, generated: string)
    requires FindById(t, owner, id).Ok? && ValidateUpdate(p, vet).None?
    requires FieldsOf(Edited(t.endpoints[id], p)) == FieldsOf(t.endpoints[id])
    ensures UpdateOp(t, owner, id, p, vet, generated) == (Ok(Edited(t.endpoints[id], p)), t)
  {
    SnapshotEqualIff(t.endpoints[id], Edited(t.endpoints[id], p));
  }

  /** What an update leaves under the id. */
  lemma UpdatedRow(t: Tables, owner: Uuid, id: Uuid, p: UpdateParams, vet: Vetting, generated: string)
    requires Intact(t) && Owns(t, owner, id) && UpdateOp(t, owner, id, p, vet, generated).0.Ok?
    ensures ValidateUpdate(p, vet).None?
    ensures
      var (answer, t') := UpdateOp(t, owner, id, p, vet, generated);
      var e := Edited(t.endpoints[id], p);
      answer == Ok(e) && Owns(t', owner, id) && t'.endpoints[id].id == id && FieldsOf(t'.endpoints[id]) == FieldsOf(e)
  {
    UpdateOutcome(t, owner, id, p, vet, generated);
  }

  /** The same update again changes nothing and adds no version. */
  lemma RepeatedUpdate(t: Tables, owner: Uuid, id: Uuid, p: UpdateParams, vet: Vetting, generated: string,
      again: string)
    requires Intact(t) && Owns(t, owner, id) && UpdateOp(t, owner, id, p, vet, generated).0.Ok?
    ensures
      var (answer, t') := UpdateOp(t, owner, id, p, vet, generated);
      UpdateOp(t', owner, id, p, vet, again) == (answer, t')
  {
    var t' := UpdateOp(t, owner, id, p, vet, generated).1;
    UpdatedRow(t, owner, id, p, vet, generated);
    EditTwice(t.endpoints[id], t'.endpoints[id], p);
    UpdateToSame(t', owner, id, p, vet, again);
  }
}
