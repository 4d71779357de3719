/** What the registry takes from a request: which requests it refuses, and the row
    and version that creations, updates, deletions and imports leave behind. */
module Requested {
  import opened Basics
  import opened Text
  import opened Registry
  import opened History
  import opened Interleaving
  import opened Importing
  import opened Rollback

  // ------------------------------------------------------------- refusals

  predicate MethodOk(verb: string) {
    ToUpper(verb) in {"GET", "POST", "PUT", "PATCH", "DELETE", "OPTIONS", "HEAD"}
  }

  predicate PathOk(path: string) {
    path != "" && path[0] == '/'
  }

  predicate Says(text: string) {
    exists i :: 0 <= i < |text| && !IsSpace(text[i])
  }

  predicate TypeOk(responseType: string) {
    responseType == "" || responseType == "json"
  }

  predicate StatusOk(status: string) {
    status == "" || status == "active" || status == "inactive"
  }

  lemma BlankIsSilent(text: string)
    ensures Blank(text) <==> !Says(text)
  {
    BlankIffSpaces(text);
  }

  lemma MethodIsNotBlank(verb: string)
    requires MethodOk(verb)
    ensures !Blank(verb)
  {
    var upper := ToUpper(verb);
    assert upper != "" && 'A' <= upper[0] <= 'Z';
    assert upper[0] == UpperChar(verb[0]);
  }

  /** The field a request is refused for, if any: the first of these that is not as
      it has to be. */
  lemma RefusedFor(verb: string, path: string, prompt: string, responseType: string, status: string,
      requestSchema: string, errorSim: string, vet: Vetting)
    ensures
      Validate(verb, path, prompt, responseType, status, requestSchema, errorSim, vet) ==
        if !MethodOk(verb) then Some(Invalid("method"))
        else if !PathOk(path) then Some(Invalid("path"))
        else if !Says(prompt) then Some(Invalid("prompt"))
        else if Says(requestSchema) && !vet.requestSchemaCompiles then Some(Invalid("request_schema"))
        else if Says(errorSim) && !vet.errorSimValid then Some(Invalid("error_sim"))
        else if !TypeOk(responseType) then Some(Invalid("response_type"))
        else if !StatusOk(status) then Some(Invalid("status"))
        else None
  {
    BlankIsSilent(prompt);
    BlankIsSilent(requestSchema);
    BlankIsSilent(errorSim);
    if MethodOk(verb) {
      MethodIsNotBlank(verb);
    }
    if PathOk(path) {
      assert !Blank(path);
    }
  }

  predicate CreateOk(p: CreateParams, vet: Vetting) {
    && MethodOk(p.verb) && PathOk(p.path) && Says(p.prompt) && TypeOk(p.responseType) && StatusOk(p.status)
    && (Says(p.requestSchema) ==> vet.requestSchemaCompiles) && (Says(p.errorSim) ==> vet.errorSimValid)
  }

  /** Optional texts are looked at only when they are given. */
  predicate UpdateOk(p: UpdateParams, vet: Vetting) {
    && MethodOk(p.verb) && PathOk(p.path) && Says(p.prompt) && TypeOk(p.responseType) && StatusOk(p.status)
    && (p.requestSchema.Some? && Says(p.requestSchema.value) ==> vet.requestSchemaCompiles)
    && (p.errorSim.Some? && Says(p.errorSim.value) ==> vet.errorSimValid)
  }

  lemma AcceptedIff(c: CreateParams, p: UpdateParams, vet: Vetting)
    ensures ValidateCreate(c, vet).None? <==> CreateOk(c, vet)
    ensures ValidateUpdate(p, vet).None? <==> UpdateOk(p, vet)
  {
    RefusedFor(c.verb, c.path, c.prompt, c.responseType, c.status, c.requestSchema, c.errorSim, vet);
    RefusedFor(p.verb, p.path, p.prompt, p.responseType, p.status,
               p.requestSchema.GetOr(""), p.errorSim.GetOr(""), vet);
    assert !Says("");
  }

  /** A creation succeeds exactly if its request is as it has to be and the account
      has no endpoint with this method and path; otherwise nothing changes. */
  lemma CreatedIff(t: Tables, owner: Uuid, id: Uuid, p: CreateParams, vet: Vetting, generated: string)
    requires Intact(t) && id !in t.endpoints
    ensures
      var (answer, t') := CreateOp(t, owner, id, p, vet, generated);
      && (answer.Ok? <==> CreateOk(p, vet) && (ToUpper(p.verb), p.path) !in KeysOf(t, owner))
      && (answer.Err? ==> t' == t)
      && (answer.Err? && CreateOk(p, vet) ==> answer == Err(Conflict))
  {
    var e := NewEndpoint(owner, id, p);
    AcceptedIff(p, UpdateParams("", "", "", "", "", None, "", None, None, None), vet);
    KeyTakenIff(t, e);
    if CreateOk(p, vet) {
      NewIsDefaulted(owner, id, p);
      CreateKeepsIntact(t, e, generated);
    }
  }

  // --------------------------------------------------------- stored rows

  function TextOr(text: string, default: string): string {
    if Says(text) then text else default
  }

  lemma DefaultIsTextOr(text: string, default: string)
    ensures DefaultString(text, default) == TextOr(text, default)
  {
    BlankIsSilent(text);
  }

  /** A creation stores the request's fields, the method in upper case and the two
      texts trimmed; it defaults to the JSON type, the active status and public, and
      its only version has the generated schema. */
  lemma CreateStores(t: Tables, owner: Uuid, id: Uuid, p: CreateParams, vet: Vetting, generated: string)
    requires Intact(t) && id !in t.endpoints && CreateOp(t, owner, id, p, vet, generated).0.Ok?
    ensures
      var (answer, t') := CreateOp(t, owner, id, p, vet, generated);
      && id in t'.endpoints && t'.endpoints == t.endpoints[id := t'.endpoints[id]]
      && answer == Ok(t'.endpoints[id]) && t'.endpoints[id].id == id && t'.endpoints[id].account == owner
      && FieldsOf(t'.endpoints[id]) ==
           Fields(ToUpper(p.verb), p.path, p.description, p.prompt, TextOr(p.responseType, "json"), p.stateful,
                  TextOr(p.status, "active"), TrimSpace(p.requestSchema), TrimSpace(p.errorSim),
                  if p.public.Some? then p.public.value else true)
      && HasOneVersion(t', id, generated) && OthersKept(t, t', id)
  {
    var e := NewEndpoint(owner, id, p);
    DefaultIsTextOr(p.responseType, "json");
    DefaultIsTextOr(p.status, "active");
    NewIsDefaulted(owner, id, p);
    CreateKeepsIntact(t, e, generated);
  }

  /** The endpoint's history is version 1 with its fields and this schema. */
  predicate HasOneVersion(t: Tables, id: Uuid, schema: string) {
    && id in t.endpoints && id in t.versions && |t.versions[id]| == 1
    && FieldsIn(t.versions[id][0]) == FieldsOf(t.endpoints[id])
    && t.versions[id][0].version == 1 && t.versions[id][0].schema == schema
  }

  ghost predicate OthersKept(t: Tables, t': Tables, id: Uuid) {
    forall other :: other != id ==>
      && (other in t'.versions <==> other in t.versions)
      && (other in t.versions ==> t'.versions[other] == t.versions[other])
  }

  /** What an update's request makes of a row: omitted fields stay as they are. */
  function UpdatedFields(before: Fields, p: UpdateParams): Fields {
    Fields(ToUpper(p.verb), p.path, p.description, p.prompt, TextOr(p.responseType, "json"),
           if p.stateful.Some? then p.stateful.value else before.stateful,
           TextOr(p.status, "active"),
           if p.requestSchema.Some? then TrimSpace(p.requestSchema.value) else before.requestSchema,
           if p.errorSim.Some? then TrimSpace(p.errorSim.value) else before.errorSim,
           if p.public.Some? then p.public.value else before.public)
  }

  lemma EditedFields(before: Endpoint, p: UpdateParams)
    ensures FieldsOf(Edited(before, p)) == UpdatedFields(FieldsOf(before), p)
  {
    DefaultIsTextOr(p.responseType, "json");
    DefaultIsTextOr(p.status, "active");
  }

  /** One more version, with these fields and this schema under the next number. */
  predicate Appended(rows: seq<Version>, after: seq<Version>, fields: Fields, schema: string) {
    && |after| == |rows| + 1 && after[..|rows|] == rows
    && FieldsIn(after[|rows|]) == fields && after[|rows|].version == |rows| + 1 && after[|rows|].schema == schema
  }

  lemma CommittedAppends(t: Tables, e: Endpoint, schema: string, t': Tables)
    requires e.id in t.versions && t' == Committed(t, e, schema)
    ensures t'.endpoints == t.endpoints[e.id := e] && OthersKept(t, t', e.id)
    ensures e.id in t'.versions && Appended(t.versions[e.id], t'.versions[e.id], FieldsOf(e), schema)
  {
  }

  /** An update stores the request's fields. It appends one version, with these
      fields, exactly if they differ from the stored ones; the version's schema is
      the generated one if the prompt changed and the latest one otherwise. */
  lemma UpdateStores(t: Tables, owner: Uuid, id: Uuid, p: UpdateParams, vet: Vetting, generated: string)
    requires Intact(t) && Owns(t, owner, id) && UpdateOp(t, owner, id, p, vet, generated).0.Ok?
    ensures
      var t' := UpdateOp(t, owner, id, p, vet, generated).1;
      && Owns(t', owner, id) && t'.endpoints == t.endpoints[id := t'.endpoints[id]]
      && FieldsOf(t'.endpoints[id]) == UpdatedFields(FieldsOf(t.endpoints[id]), p)
      && id in t'.versions && OthersKept(t, t', id)
    ensures
      var t' := UpdateOp(t, owner, id, p, vet, generated).1;
      var before, rows := t.endpoints[id], t.versions[id];
      if UpdatedFields(FieldsOf(before), p) == FieldsOf(before) then t' == t
      else Appended(rows, t'.versions[id], UpdatedFields(FieldsOf(before), p),
                    if p.prompt != before.prompt then generated else rows[|rows| - 1].schema)
  {
    var e := Edited(t.endpoints[id], p);
    var t' := UpdateOp(t, owner, id, p, vet, generated).1;
    EditedFields(t.endpoints[id], p);
    UpdatedRow(t, owner, id, p, vet, generated);
    UpdateOutcome(t, owner, id, p, vet, generated);
    if FieldsOf(e) == FieldsOf(t.endpoints[id]) {
      assert t.endpoints[id := t.endpoints[id]] == t.endpoints;
    } else {
      var rows := t.versions[id];
      CommittedAppends(t, e, if p.prompt != t.endpoints[id].prompt then generated else rows[|rows| - 1].schema, t');
    }
  }

  /** An update succeeds exactly if its request is as it has to be and no other
      endpoint of the account has the method and path, or nothing would change. */
  lemma UpdatedIff(t: Tables, owner: Uuid, id: Uuid, p: UpdateParams, vet: Vetting, generated: string)
    requires Intact(t) && Owns(t, owner, id)
    ensures
      var (answer, t') := UpdateOp(t, owner, id, p, vet, generated);
      var taken := exists other ::
        && other in t.endpoints && other != id && t.endpoints[other].account == owner
        && t.endpoints[other].verb == ToUpper(p.verb) && t.endpoints[other].path == p.path;
      && (answer.Ok? <==> UpdateOk(p, vet) && !taken)
      && (answer.Err? ==> t' == t)
      && (answer.Err? && UpdateOk(p, vet) ==> answer == Err(Conflict))
  {
    AcceptedIff(CreateParams("", "", "", "", "", false, "", "", "", None), p, vet);
    if UpdateOk(p, vet) {
      var e := Edited(t.endpoints[id], p);
      UpdateOutcome(t, owner, id, p, vet, generated);
      TakenByOther(t, owner, id, e);
      if FieldsOf(e) == FieldsOf(t.endpoints[id]) {
        OwnKeyIsFree(t, id, e);
      }
    }
  }

  lemma TakenByOther(t: Tables, owner: Uuid, id: Uuid, e: Endpoint)
    requires e.id == id && e.account == owner
    ensures KeyTaken(t, e) <==> exists other ::
      && other in t.endpoints && other != id && t.endpoints[other].account == owner
      && t.endpoints[other].verb == e.verb && t.endpoints[other].path == e.path
  {
    if KeyTaken(t, e) {
      var other :| other in t.endpoints && other != e.id && SameKey(t.endpoints[other], e);
    }
    if other :| && other in t.endpoints && other != id && t.endpoints[other].account == owner
                && t.endpoints[other].verb == e.verb && t.endpoints[other].path == e.path {
      assert SameKey(t.endpoints[other], e);
    }
  }

  lemma OwnKeyIsFree(t: Tables, id: Uuid, e: Endpoint)
    requires Intact(t) && id in t.endpoints && e.id == id
    requires e.account == t.endpoints[id].account && FieldsOf(e) == FieldsOf(t.endpoints[id])
    ensures !KeyTaken(t, e)
  {
    forall other | other in t.endpoints && other != e.id
      ensures !SameKey(t.endpoints[other], e)
    {
      assert !SameKey(t.endpoints[other], t.endpoints[id]);
    }
  }

  /** A deletion answers with the row and removes it with its history; without such a
      row of the account's nothing can be updated, rolled back, compared or deleted. */
  lemma OnlyOwnRows(t: Tables, owner: Uuid, id: Uuid, p: UpdateParams, vet: Vetting, generated: string, version: int)
    ensures Owns(t, owner, id) ==>
      DeleteOp(t, owner, id) == (Ok(t.endpoints[id]), Tables(t.endpoints - {id}, t.versions - {id}, t.created))
    ensures !Owns(t, owner, id) ==>
      && DeleteOp(t, owner, id) == (Err(NotFound), t)
      && RollbackOp(t, owner, id, version) == (Err(NotFound), t)
      && DiffOp(t, owner, id, version) == Err(NotFound)
      && (UpdateOk(p, vet) ==> UpdateOp(t, owner, id, p, vet, generated) == (Err(NotFound), t))
  {
    AcceptedIff(CreateParams("", "", "", "", "", false, "", "", "", None), p, vet);
  }

  // ------------------------------------------------------- imported rows

  /** The row and version an item is imported as: active and private, its schemas
      kept if they compile. */
  predicate ItemStored(t: Tables, owner: Uuid, id: Uuid, item: ImportItem) {
    && id in t.endpoints && t.endpoints[id].id == id && t.endpoints[id].account == owner
    && FieldsOf(t.endpoints[id]) ==
         Fields(ToUpper(item.verb), item.path, item.description, item.prompt, "json", false, "active",
                if Says(item.requestSchema) && !item.requestSchemaCompiles then "" else item.requestSchema, "", false)
    && HasOneVersion(t, id, if Says(item.schema) && item.schemaCompiles then item.schema else "")
  }

  /** The account has no endpoint with the item's key, and no earlier item has it. */
  ghost predicate FirstOfKey(t: Tables, owner: Uuid, items: seq<ImportItem>, i: nat)
    requires i < |items|
  {
    KeyOf(items[i]) !in KeysOf(t, owner) && forall j :: 0 <= j < i ==> KeyOf(items[j]) != KeyOf(items[i])
  }

  lemma ImportedIsStored(t: Tables, owner: Uuid, id: Uuid, item: ImportItem)
    ensures ItemStored(WithImported(t, Imported(owner, id, item), item), owner, id, item)
  {
    BlankIsSilent(item.requestSchema);
    BlankIsSilent(item.schema);
  }

  lemma StoredStays(a: Tables, b: Tables, used: set<Uuid>, owner: Uuid, id: Uuid, item: ImportItem)
    requires ItemStored(a, owner, id, item) && Adds(a, b, used) && b.versions.Keys == b.endpoints.Keys
    ensures ItemStored(b, owner, id, item)
  {
  }

  lemma FirstItem(t: Tables, used: set<Uuid>, owner: Uuid, items: seq<ImportItem>, ids: seq<Uuid>, done: ImportResult)
    requires Intact(t) && t.endpoints.Keys <= used && FreshIds(used, items, ids) && items != []
    ensures
      var r := ImportAll(t, owner, items, ids, done);
      r.Ok? && if FirstOfKey(t, owner, items, 0) then ItemStored(r.value.0, owner, ids[0], items[0])
               else ids[0] !in r.value.0.endpoints
  {
    var e := Imported(owner, ids[0], items[0]);
    ImportUnfold(t, owner, items, ids, done);
    FreshTail(used, items, ids);
    KeyTakenIff(t, e);
    if KeyTaken(t, e) {
      ImportKeepsIntact(t, used + {ids[0]}, owner, items[1..], ids[1..], done.(skipped := done.skipped + 1));
    } else {
      var t2 := WithImported(t, e, items[0]);
      var done2 := ImportResult(done.created + 1, done.skipped, done.endpoints + [e]);
      ImportedItemKeepsIntact(t, used, owner, ids[0], items[0]);
      ImportKeepsIntact(t2, used + {ids[0]}, owner, items[1..], ids[1..], done2);
      ImportedIsStored(t, owner, ids[0], items[0]);
      var after := ImportAll(t2, owner, items[1..], ids[1..], done2).value.0;
      StoredStays(t2, after, used + {ids[0]}, owner, ids[0], items[0]);
    }
  }

  lemma FirstAfterOne(t: Tables, t2: Tables, owner: Uuid, items: seq<ImportItem>, i: nat)
    requires 0 < i < |items| && KeysOf(t2, owner) == KeysOf(t, owner) + {KeyOf(items[0])}
    ensures FirstOfKey(t2, owner, items[1..], i - 1) <==> FirstOfKey(t, owner, items, i)
  {
    var tail := items[1..];
    if FirstOfKey(t2, owner, tail, i - 1) {
      forall j | 0 <= j < i
        ensures KeyOf(items[j]) != KeyOf(items[i])
      {
        if j > 0 {
          assert KeyOf(tail[j - 1]) != KeyOf(tail[i - 1]);
        }
      }
    }
    if FirstOfKey(t, owner, items, i) {
      assert KeyOf(items[0]) != KeyOf(items[i]);
    }
  }

  /** An import stores exactly the items whose key is new, each under its id and as
      the first with its key. */
  lemma {:induction false} ImportStores(t: Tables, used: set<Uuid>, owner: Uuid, items: seq<ImportItem>,
      ids: seq<Uuid>, done: ImportResult, i: nat)
    requires Intact(t) && t.endpoints.Keys <= used && FreshIds(used, items, ids) && i < |items|
    ensures
      var r := ImportAll(t, owner, items, ids, done);
      r.Ok? && if FirstOfKey(t, owner, items, i) then ItemStored(r.value.0, owner, ids[i], items[i])
               else ids[i] !in r.value.0.endpoints
    decreases |items|
  {
    if i == 0 {
      FirstItem(t, used, owner, items, ids, done);
    } else {
      var e := Imported(owner, ids[0], items[0]);
      ImportUnfold(t, owner, items, ids, done);
      FreshTail(used, items, ids);
      KeyTakenIff(t, e);
      if KeyTaken(t, e) {
        assert KeysOf(t, owner) + {KeyOf(items[0])} == KeysOf(t, owner);
        LaterItem(t, t, used, owner, items, ids, done, done.(skipped := done.skipped + 1), i);
      } else {
        var t2 := WithImported(t, e, items[0]);
        ImportedItemKeepsIntact(t, used, owner, ids[0], items[0]);
        KeysAfterImported(t, e, items[0]);
        LaterItem(t, t2, used + {ids[0]}, owner, items, ids, done,
                  ImportResult(done.created + 1, done.skipped, done.endpoints + [e]), i);
      }
    }
  }

  /** The step for an item after the first, which led to t2. */
  lemma {:induction false} LaterItem(t: Tables, t2: Tables, used: set<Uuid>, owner: Uuid, items: seq<ImportItem>,
      ids: seq<Uuid>, done: ImportResult, done2: ImportResult, i: nat)
    requires 0 < i < |items| && Intact(t2) && t2.endpoints.Keys <= used
    requires |ids| == |items| && FreshIds(used, items[1..], ids[1..])
    requires ImportAll(t, owner, items, ids, done) == ImportAll(t2, owner, items[1..], ids[1..], done2)
    requires KeysOf(t2, owner) == KeysOf(t, owner) + {KeyOf(items[0])}
    ensures
      var r := ImportAll(t, owner, items, ids, done);
      r.Ok? && if FirstOfKey(t, owner, items, i) then ItemStored(r.value.0, owner, ids[i], items[i])
               else ids[i] !in r.value.0.endpoints
    decreases |items|, 0
  {
    FirstAfterOne(t, t2, owner, items, i);
    ImportStores(t2, used, owner, items[1..], ids[1..], done2, i - 1);
    assert items[1..][i - 1] == items[i] && ids[1..][i - 1] == ids[i];
  }
}
