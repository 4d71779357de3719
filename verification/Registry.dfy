/** The endpoint registry: its two tables, the row-level operations of the
    repository, and the service's operations as functions from tables to
    tables. */
module Registry {
  import opened Basics
  import opened Text

  type Uuid = nat

  // ------------------------------------------------------------- entities

  datatype Endpoint = Endpoint(
    id: Uuid, account: Uuid,
    verb: string, path: string, description: string, prompt: string, responseType: string, stateful: bool,
    status: string, requestSchema: string, errorSim: string, public: bool)

  /** A full snapshot of an endpoint at a point in time. */
  datatype Version = Version(
    endpointId: Uuid, account: Uuid,
    verb: string, path: string, description: string, prompt: string, responseType: string, stateful: bool,
    status: string, requestSchema: string, errorSim: string, public: bool,
    schema: string, version: int)

  /** The ten versioned fields. */
  datatype Fields = Fields(
    verb: string, path: string, description: string, prompt: string, responseType: string, stateful: bool,
    status: string, requestSchema: string, errorSim: string, public: bool)

  function FieldsOf(e: Endpoint): Fields {
    Fields(e.verb, e.path, e.description, e.prompt, e.responseType, e.stateful,
           e.status, e.requestSchema, e.errorSim, e.public)
  }

  function FieldsIn(v: Version): Fields {
    Fields(v.verb, v.path, v.description, v.prompt, v.responseType, v.stateful,
           v.status, v.requestSchema, v.errorSim, v.public)
  }

  datatype Error = Invalid(field: string) | NotFound | Conflict | Storage

  /** The rows of both tables. A version row belongs to the endpoint row it
      references, and created lists endpoint ids in the order of their creation. */
  datatype Tables = Tables(
    endpoints: map<Uuid, Endpoint>,
    versions: map<Uuid, seq<Version>>,
    created: seq<Uuid>)

  const ACTIVE := "active"
  const INACTIVE := "inactive"
  const JSON := "json"
  const METHODS: set<string> := {"GET", "POST", "PUT", "PATCH", "DELETE", "OPTIONS", "HEAD"}

  // ------------------------------------------------------------ repository

  predicate SameKey(a: Endpoint, b: Endpoint) {
    a.account == b.account && a.verb == b.verb && a.path == b.path
  }

  /** Another row of the same account holds e's method and path. */
  predicate KeyTaken(t: Tables, e: Endpoint) {
    exists id :: id in t.endpoints && id != e.id && SameKey(t.endpoints[id], e)
  }

  function InsertEndpoint(t: Tables, e: Endpoint): Result<Tables, Error> {
    if e.id in t.endpoints || KeyTaken(t, e) then Err(Conflict)
    else Ok(Tables(t.endpoints[e.id := e], t.versions, t.created + [e.id]))
  }

  function UpdateEndpoint(t: Tables, account: Uuid, e: Endpoint): Result<Tables, Error> {
    if e.id !in t.endpoints || t.endpoints[e.id].account != account then Err(NotFound)
    else if KeyTaken(t, e) then Err(Conflict)
    else Ok(t.(endpoints := t.endpoints[e.id := e]))
  }

  /** Deleting an endpoint deletes its versions with it. */
  function DeleteEndpoint(t: Tables, account: Uuid, id: Uuid): Result<Tables, Error> {
    if id !in t.endpoints || t.endpoints[id].account != account then Err(NotFound)
    else Ok(Tables(t.endpoints - {id}, t.versions - {id}, t.created))
  }

  function FindById(t: Tables, account: Uuid, id: Uuid): Result<Endpoint, Error> {
    if id !in t.endpoints || t.endpoints[id].account != account then Err(NotFound)
    else Ok(t.endpoints[id])
  }

  /** The account has a row under this id. */
  predicate HasRow(endpoints: map<Uuid, Endpoint>, account: Uuid, id: Uuid) {
    id in endpoints && endpoints[id].account == account
  }

  predicate Owns(t: Tables, account: Uuid, id: Uuid) {
    HasRow(t.endpoints, account, id)
  }

  function OwnIds(endpoints: map<Uuid, Endpoint>, ids: seq<Uuid>, account: Uuid): seq<Uuid> {
    if ids == [] then []
    else (if HasRow(endpoints, account, ids[0]) then [ids[0]] else [])
         + OwnIds(endpoints, ids[1..], account)
  }

  function Least(a: nat, b: nat): nat {
    if a <= b then a else b
  }

  /** The page of a list that starts behind from elements. */
  function Slice(ids: seq<Uuid>, from: nat, limit: nat): seq<Uuid> {
    ids[Least(from, |ids|)..Least(from + limit, |ids|)]
  }

  function Latest(ids: seq<Uuid>): seq<Uuid> {
    seq(|ids|, i requires 0 <= i < |ids| => ids[|ids| - 1 - i])
  }

  /** Pages count from 1; limits are between 1 and 100. */
  function PageOf(ids: seq<Uuid>, page: int, limit: int): seq<Uuid> {
    var size := if limit < 1 then 20 else if limit > 100 then 100 else limit;
    Slice(Latest(ids), if page < 1 then 0 else (page - 1) * size, size)
  }

  /** One page of an account's endpoints, latest first, with the number of all of
      them. */
  function ListPage(t: Tables, account: Uuid, page: int, limit: int): (seq<Endpoint>, nat) {
    var ids := OwnIds(t.endpoints, t.created, account);
    (RowsOf(t.endpoints, PageOf(ids, page, limit)), |ids|)
  }

  function RowsOf(endpoints: map<Uuid, Endpoint>, ids: seq<Uuid>): seq<Endpoint> {
    if ids == [] then []
    else (if ids[0] in endpoints then [endpoints[ids[0]]] else []) + RowsOf(endpoints, ids[1..])
  }

  function VersionRows(t: Tables, id: Uuid): seq<Version> {
    if id in t.versions then t.versions[id] else []
  }

  /** A version row must reference an endpoint and bring a new version number. */
  function InsertVersion(t: Tables, v: Version): Result<Tables, Error> {
    var rows := VersionRows(t, v.endpointId);
    if v.endpointId !in t.endpoints || exists i :: 0 <= i < |rows| && rows[i].version == v.version then Err(Storage)
    else Ok(t.(versions := t.versions[v.endpointId := rows + [v]]))
  }

  function OwnedBy(rows: seq<Version>, account: Uuid): seq<Version> {
    if rows == [] then []
    else (if rows[0].account == account then [rows[0]] else []) + OwnedBy(rows[1..], account)
  }

  function InsertDescending(v: Version, sorted: seq<Version>): seq<Version> {
    if sorted == [] || v.version >= sorted[0].version then [v] + sorted
    else [sorted[0]] + InsertDescending(v, sorted[1..])
  }

  function Descending(rows: seq<Version>): seq<Version> {
    if rows == [] then [] else InsertDescending(rows[0], Descending(rows[1..]))
  }

  /** An endpoint's versions, latest first. */
  function ListVersions(t: Tables, account: Uuid, id: Uuid): seq<Version> {
    Descending(OwnedBy(VersionRows(t, id), account))
  }

  function ActiveIn(endpoints: map<Uuid, Endpoint>, ids: seq<Uuid>, verb: string): seq<Endpoint> {
    if ids == [] then []
    else (if ids[0] in endpoints && endpoints[ids[0]].verb == verb && endpoints[ids[0]].status == ACTIVE
          then [endpoints[ids[0]]] else [])
         + ActiveIn(endpoints, ids[1..], verb)
  }

  /** The active endpoints of a method, oldest first, of all accounts. */
  function ListActive(t: Tables, verb: string): seq<Endpoint> {
    ActiveIn(t.endpoints, t.created, verb)
  }

  // --------------------------------------------------------------- service

  datatype CreateParams = CreateParams(
    verb: string, path: string, description: string, prompt: string, responseType: string, stateful: bool,
    status: string, requestSchema: string, errorSim: string, public: Option<bool>)

  datatype UpdateParams = UpdateParams(
    verb: string, path: string, description: string, prompt: string, responseType: string, stateful: Option<bool>,
    status: string, requestSchema: Option<string>, errorSim: Option<string>, public: Option<bool>)

  /** One endpoint of an import, with the validator's verdicts on its schemas. */
  datatype ImportItem = ImportItem(
    verb: string, path: string, description: string, prompt: string, schema: string, requestSchema: string,
    schemaCompiles: bool, requestSchemaCompiles: bool)

  /** The verdicts on a request's own schema and error simulation. */
  datatype Vetting = Vetting(requestSchemaCompiles: bool, errorSimValid: bool)

  function DefaultString(value: string, fallback: string): string {
    if Blank(value) then fallback else value
  }

  function ValidateCommon(verb: string, path: string, prompt: string): Option<Error> {
    if Blank(verb) || ToUpper(verb) !in METHODS then Some(Invalid("method"))
    else if Blank(path) || path[0] != '/' then Some(Invalid("path"))
    else if Blank(prompt) then Some(Invalid("prompt"))
    else None
  }

  function ValidateOptional(responseType: string, status: string): Option<Error> {
    if responseType != "" && responseType != JSON then Some(Invalid("response_type"))
    else if status != "" && status != ACTIVE && status != INACTIVE then Some(Invalid("status"))
    else None
  }

  function Validate(verb: string, path: string, prompt: string, responseType: string, status: string,
                    requestSchema: string, errorSim: string, vet: Vetting): Option<Error> {
    var common := ValidateCommon(verb, path, prompt);
    if common.Some? then common
    else if !Blank(requestSchema) && !vet.requestSchemaCompiles then Some(Invalid("request_schema"))
    else if !Blank(errorSim) && !vet.errorSimValid then Some(Invalid("error_sim"))
    else ValidateOptional(responseType, status)
  }

  function ValidateCreate(p: CreateParams, vet: Vetting): Option<Error> {
    Validate(p.verb, p.path, p.prompt, p.responseType, p.status, p.requestSchema, p.errorSim, vet)
  }

  /** Omitted optional fields are not validated, which is validating "". */
  function ValidateUpdate(p: UpdateParams, vet: Vetting): Option<Error> {
    Validate(p.verb, p.path, p.prompt, p.responseType, p.status,
             p.requestSchema.GetOr(""), p.errorSim.GetOr(""), vet)
  }

  function NewEndpoint(owner: Uuid, id: Uuid, p: CreateParams): Endpoint {
    Endpoint(id, owner, ToUpper(p.verb), p.path, p.description, p.prompt,
             DefaultString(p.responseType, JSON), p.stateful, DefaultString(p.status, ACTIVE),
             TrimSpace(p.requestSchema), TrimSpace(p.errorSim), p.public.GetOr(true))
  }

  function Edited(e: Endpoint, p: UpdateParams): Endpoint {
    Endpoint(e.id, e.account, ToUpper(p.verb), p.path, p.description, p.prompt,
             DefaultString(p.responseType, JSON), p.stateful.GetOr(e.stateful), DefaultString(p.status, ACTIVE),
             if p.requestSchema.Some? then TrimSpace(p.requestSchema.value) else e.requestSchema,
             if p.errorSim.Some? then TrimSpace(p.errorSim.value) else e.errorSim,
             p.public.GetOr(e.public))
  }

  function Restored(e: Endpoint, target: Version): Endpoint {
    Endpoint(e.id, e.account, target.verb, target.path, target.description, target.prompt,
             DefaultString(target.responseType, JSON), target.stateful, DefaultString(target.status, ACTIVE),
             target.requestSchema, target.errorSim, target.public)
  }

  function Imported(owner: Uuid, id: Uuid, item: ImportItem): Endpoint {
    Endpoint(id, owner, ToUpper(item.verb), item.path, item.description, item.prompt,
             JSON, false, ACTIVE,
             if !Blank(item.requestSchema) && !item.requestSchemaCompiles then "" else item.requestSchema,
             "", false)
  }

  function ImportedSchema(item: ImportItem): string {
    if !Blank(item.schema) && item.schemaCompiles then item.schema else ""
  }

  function SnapshotVersion(e: Endpoint, schema: string, version: int): Version {
    Version(e.id, e.account, e.verb, e.path, e.description, e.prompt, e.responseType, e.stateful,
            e.status, e.requestSchema, e.errorSim, e.public, schema, version)
  }

  predicate EndpointSnapshotEqual(a: Endpoint, b: Endpoint) {
    && a.verb == b.verb
    && a.path == b.path
    && a.description == b.description
    && a.prompt == b.prompt
    && a.responseType == b.responseType
    && a.stateful == b.stateful
    && a.status == b.status
    && a.requestSchema == b.requestSchema
    && a.errorSim == b.errorSim
    && a.public == b.public
  }

  function Highest(versions: seq<Version>): nat {
    if versions == [] then 0
    else
      var rest := Highest(versions[..|versions| - 1]);
      if versions[|versions| - 1].version > rest then versions[|versions| - 1].version else rest
  }

  method NextVersion(versions: seq<Version>) returns (next: int)
    ensures next == Highest(versions) + 1
  {
    var highest := 0;
    for i := 0 to |versions|
      invariant highest == Highest(versions[..i])
    {
      assert versions[..i + 1][..i] == versions[..i];
      if versions[i].version > highest {
        highest := versions[i].version;
      }
    }
    assert versions[..|versions|] == versions;
    next := highest + 1;
  }

  function FindVersion(versions: seq<Version>, version: int): Result<Version, Error> {
    if versions == [] then Err(Invalid("version"))
    else if versions[0].version == version then Ok(versions[0])
    else FindVersion(versions[1..], version)
  }

  /** The transaction of Create and of one imported item. */
  function CreateTx(t: Tables, e: Endpoint, schema: string): Result<Tables, Error> {
    var inserted := InsertEndpoint(t, e);
    if inserted.Err? then inserted else InsertVersion(inserted.value, SnapshotVersion(e, schema, 1))
  }

  /** The transaction of Update and Rollback. */
  function CommitTx(t: Tables, owner: Uuid, e: Endpoint, schema: string, version: int): Result<Tables, Error> {
    var updated := UpdateEndpoint(t, owner, e);
    if updated.Err? then updated else InsertVersion(updated.value, SnapshotVersion(e, schema, version))
  }

  type Answer = Result<Endpoint, Error>

  function Settle(t: Tables, tx: Result<Tables, Error>, e: Endpoint): (Answer, Tables) {
    match tx
    case Ok(t') => (Ok(e), t')
    case Err(error) => (Err(error), t)
  }

  function CreateOp(t: Tables, owner: Uuid, id: Uuid, p: CreateParams, vet: Vetting,
      generated: string): (Answer, Tables)
  {
    var invalid := ValidateCreate(p, vet);
    if invalid.Some? then (Err(invalid.value), t)
    else
      var e := NewEndpoint(owner, id, p);
      Settle(t, CreateTx(t, e, generated), e)
  }

  /** The response schema of an updated endpoint: regenerated when the prompt
      changes, else the one listed first. */
  function UpdatedSchema(found: Endpoint, p: UpdateParams, listed: seq<Version>, generated: string): string {
    if p.prompt != found.prompt then generated
    else if |listed| > 0 then listed[0].schema
    else ""
  }

  function UpdateOp(t: Tables, owner: Uuid, id: Uuid, p: UpdateParams, vet: Vetting,
      generated: string): (Answer, Tables)
  {
    var invalid := ValidateUpdate(p, vet);
    if invalid.Some? then (Err(invalid.value), t)
    else
      var found := FindById(t, owner, id);
      if found.Err? then (Err(found.error), t)
      else
        var e := Edited(found.value, p);
        if EndpointSnapshotEqual(found.value, e) then (Ok(e), t)
        else UpdateListed(t, owner, found.value, ListVersions(t, owner, id), p, generated)
  }

  /** The rest of an update, after the endpoint's versions were listed. */
  function UpdateListed(t: Tables, owner: Uuid, found: Endpoint, listed: seq<Version>, p: UpdateParams,
      generated: string)
    : (Answer, Tables)
  {
    var e := Edited(found, p);
    Settle(t, CommitTx(t, owner, e, UpdatedSchema(found, p, listed, generated), Highest(listed) + 1), e)
  }

  /** The version a rollback restores; the latest one is refused. */
  function RollbackTarget(listed: seq<Version>, version: int): Result<Version, Error> {
    var target := FindVersion(listed, version);
    if target.Err? then target
    else if listed == [] || target.value.version >= listed[0].version then Err(Invalid("version"))
    else target
  }

  function RollbackOp(t: Tables, owner: Uuid, id: Uuid, version: int): (Answer, Tables) {
    var found := FindById(t, owner, id);
    if found.Err? then (Err(found.error), t)
    else RollbackListed(t, owner, found.value, ListVersions(t, owner, id), version)
  }

  /** The rest of a rollback, after the endpoint's versions were listed. */
  function RollbackListed(t: Tables, owner: Uuid, found: Endpoint, listed: seq<Version>,
      version: int): (Answer, Tables)
  {
    var target := RollbackTarget(listed, version);
    if target.Err? then (Err(target.error), t)
    else
      var e := Restored(found, target.value);
      Settle(t, CommitTx(t, owner, e, target.value.schema, Highest(listed) + 1), e)
  }

  function DeleteOp(t: Tables, owner: Uuid, id: Uuid): (Result<Endpoint, Error>, Tables) {
    var found := FindById(t, owner, id);
    if found.Err? then (Err(found.error), t) else Settle(t, DeleteEndpoint(t, owner, id), found.value)
  }

  datatype ImportResult = ImportResult(created: nat, skipped: nat, endpoints: seq<Endpoint>)

  /** Importing one item: skipped if its key is taken, else created with version 1. */
  function ImportOne(t: Tables, owner: Uuid, item: ImportItem, id: Uuid, done: ImportResult)
    : Result<(Tables, ImportResult), Error>
  {
    var e := Imported(owner, id, item);
    match InsertEndpoint(t, e)
    case Err(Conflict) => Ok((t, done.(skipped := done.skipped + 1)))
    case Err(error) => Err(error)
    case Ok(t1) =>
      match InsertVersion(t1, SnapshotVersion(e, ImportedSchema(item), 1))
      case Err(error) => Err(error)
      case Ok(t2) => Ok((t2, ImportResult(done.created + 1, done.skipped, done.endpoints + [e])))
  }

  /** Importing items one after the other; a failure other than a taken key ends the
      import. */
  function ImportAll(t: Tables, owner: Uuid, items: seq<ImportItem>, ids: seq<Uuid>, done: ImportResult)
    : Result<(Tables, ImportResult), Error>
    requires |ids| == |items|
    decreases |items|
  {
    if items == [] then Ok((t, done))
    else
      match ImportOne(t, owner, items[0], ids[0], done)
      case Err(error) => Err(error)
      case Ok((t', next)) => ImportAll(t', owner, items[1..], ids[1..], next)
  }

  /** What has been counted when an import ends, successfully or not. */
  function ImportProgress(t: Tables, owner: Uuid, items: seq<ImportItem>, ids: seq<Uuid>,
      done: ImportResult): ImportResult
    requires |ids| == |items|
    decreases |items|
  {
    if items == [] then done
    else
      match ImportOne(t, owner, items[0], ids[0], done)
      case Err(_) => done
      case Ok((t', next)) => ImportProgress(t', owner, items[1..], ids[1..], next)
  }

  const NOTHING := ImportResult(0, 0, [])

  /** How many items are attempted before the database fails, if it does. */
  function Attempted(items: seq<ImportItem>, failAt: Option<nat>): (n: nat)
    ensures n <= |items|
  {
    if failAt.Some? && failAt.value < |items| then failAt.value else |items|
  }

  /** failAt is the item at which the database fails for another reason, if any. */
  function ImportOp(t: Tables, owner: Uuid, items: seq<ImportItem>, ids: seq<Uuid>, failAt: Option<nat>)
    : (Result<ImportResult, Error>, Tables)
    requires |ids| == |items|
  {
    if failAt.Some? && failAt.value < |items| then (Err(Storage), t)
    else
      match ImportAll(t, owner, items, ids, NOTHING)
      case Ok((t', result)) => (Ok(result), t')
      case Err(error) => (Err(error), t)
  }
}
