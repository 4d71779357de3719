/** The resource store and the stateful generator's POST, GET, PUT, PATCH and
    DELETE, first as methods over the store and then as the store accesses that
    concurrent requests interleave. */
module Stateful {
  import opened Basics
  import opened Json
  import Merge

  /** Resources are unique per account, collection path and resource id. */
  datatype Key = Key(account: nat, collection: string, id: string)

  type Rows = map<Key, Object>

  /** A request body or generated body after decoding; everything that is not a
      JSON object is NotObject. */
  datatype Body = NotObject | IsObject(data: Object)

  datatype Response =
    | Created(body: Json)
    | OK(body: Json)
    | NoContent
    | NotFound
    | Conflict
    | BadRequest
    | InternalError
    | Delegated

  /** Renders a JSON number, as strconv.FormatFloat does. */
  type NumberFormat = real -> string

  // ---------------------------------------------------------------- identity

  /** The string form of the id member; "" when it is absent or neither a string
      nor a number. */
  function IdOf(format: NumberFormat, data: Object): string {
    if "id" !in data.fields then ""
    else match data.fields["id"]
      case Str(s) => s
      case Num(n) => format(n)
      case _ => ""
  }

  function WithId(data: Object, id: Json): Object {
    Obj(data.fields["id" := id])
  }

  /** An id member already standing for the path's id keeps its type; any other
      value is replaced. */
  function EnsureId(format: NumberFormat, data: Object, id: string): (r: Object)
    ensures id != "" ==> IdOf(format, r) == id
    ensures r.fields - {"id"} == data.fields - {"id"}
    ensures "id" in data.fields && IdOf(format, data) == id ==> r == data
  {
    if "id" in data.fields && IdOf(format, Obj(map["id" := data.fields["id"]])) == id then data
    else WithId(data, Str(id))
  }

  /** The resource a POST stores: its id comes from the path, else from the
      generated body, else from a fresh UUID. */
  function Draft(format: NumberFormat, generated: Body, pathId: string, uuid: string): (r: (string, Object))
    requires uuid != ""
    ensures r.0 != "" && IdOf(format, r.1) == r.0
    ensures pathId != "" ==> r.0 == pathId
    ensures r.1.fields - {"id"} == (if generated.IsObject? then generated.data.fields else map[]) - {"id"}
  {
    var data: Object := if generated.IsObject? then generated.data else Obj(map[]);
    if pathId != "" then (pathId, WithId(data, Str(pathId)))
    else if IdOf(format, data) != "" then (IdOf(format, data), data)
    else (uuid, WithId(data, Str(uuid)))
  }

  /** The object a PUT writes over current. */
  function Replacement(format: NumberFormat, current: Object, data: Object, id: string): (r: Object)
    ensures r.fields - {"id"} == data.fields - {"id"}
    ensures id != "" && IdOf(format, current) == id ==> IdOf(format, r) == id
  {
    if "id" in data.fields then EnsureId(format, data, id)
    else if "id" in current.fields then WithId(data, current.fields["id"])
    else WithId(data, Str(id))
  }

  /** The object a PATCH writes over current. */
  function Patched(format: NumberFormat, current: Object, patch: Object, id: string): (r: Object)
    ensures id != "" ==> IdOf(format, r) == id
    ensures r.fields - {"id"} == Merge.MergeObjects(current, patch).fields - {"id"}
  {
    EnsureId(format, Merge.MergeObjects(current, patch), id)
  }

  // ------------------------------------------------------------------- store

  function Inserted(rows: Rows, key: Key, data: Object): Rows {
    if key in rows then rows else rows[key := data]
  }

  function Replaced(rows: Rows, key: Key, data: Object): Rows {
    if key in rows then rows[key := data] else rows
  }

  /** The rows of the resource table. */
  class Store {
    var rows: Rows

    constructor ()
      ensures rows == map[]
    {
      rows := map[];
    }

    method Create(key: Key, data: Object) returns (conflict: bool)
      modifies this
      ensures conflict == (key in old(rows))
      ensures rows == Inserted(old(rows), key, data)
    {
      conflict := key in rows;
      if !conflict {
        rows := rows[key := data];
      }
    }

    method Get(key: Key) returns (data: Option<Object>)
      ensures data == if key in rows then Some(rows[key]) else None
    {
      data := if key in rows then Some(rows[key]) else None;
    }

    method Update(key: Key, data: Object) returns (found: bool)
      modifies this
      ensures found == (key in old(rows))
      ensures rows == Replaced(old(rows), key, data)
    {
      found := key in rows;
      if found {
        rows := rows[key := data];
      }
    }

    method Delete(key: Key) returns (found: bool)
      modifies this
      ensures found == (key in old(rows))
      ensures rows == old(rows) - {key}
    {
      found := key in rows;
      rows := rows - {key};
    }
  }

  // ------------------------------------------------- uninterrupted requests

  /** The generator's request handlers, run without interruption. */
  class Generator {
    const store: Store
    const format: NumberFormat

    constructor (store: Store, format: NumberFormat)
      ensures this.store == store && this.format == format
    {
      this.store := store;
      this.format := format;
    }

    /** generated is what the wrapped generator answers, if it does not fail. */
    method Post(account: nat, collection: string, pathId: string, generated: Option<Body>, uuid: string)
        returns (r: Response)
      requires uuid != ""
      modifies store
      ensures generated.None? ==> r == InternalError && store.rows == old(store.rows)
      ensures generated.Some? ==>
        var (id, data) := Draft(format, generated.value, pathId, uuid);
        var key := Key(account, collection, id);
        && store.rows == Inserted(old(store.rows), key, data)
        && r == if key in old(store.rows) then Conflict else Created(data)
    {
      if generated.None? { return InternalError; }
      var data: Object := if generated.value.IsObject? then generated.value.data else Obj(map[]);
      var id := pathId;
      if id == "" {
        id := IdOf(format, data);
        if id == "" {
          id := uuid;
          data := WithId(data, Str(id));
        }
      } else {
        data := WithId(data, Str(id));
      }
      var conflict := store.Create(Key(account, collection, id), data);
      r := if conflict then Conflict else Created(data);
    }

    method Read(key: Key) returns (r: Response)
      ensures r == if key.id == "" then Delegated
                   else if key in store.rows then OK(store.rows[key]) else NotFound
    {
      if key.id == "" { return Delegated; }
      var found := store.Get(key);
      r := if found.Some? then OK(found.value) else NotFound;
    }

    method Put(key: Key, body: Body) returns (r: Response)
      modifies store
      ensures store.rows == PutRows(format, old(store.rows), key, body)
      ensures r == if key.id == "" then Delegated
                   else if key !in old(store.rows) then NotFound
                   else if body.NotObject? then BadRequest
                   else OK(store.rows[key])
    {
      if key.id == "" { return Delegated; }
      var current := store.Get(key);
      if current.None? { return NotFound; }
      if body.NotObject? { return BadRequest; }
      var data := body.data;
      if "id" !in data.fields {
        if "id" in current.value.fields {
          data := WithId(data, current.value.fields["id"]);
        } else {
          data := WithId(data, Str(key.id));
        }
      } else {
        data := EnsureId(format, data, key.id);
      }
      var found := store.Update(key, data);
      r := if found then OK(data) else NotFound;
    }

    method Patch(key: Key, body: Body) returns (r: Response)
      modifies store
      ensures store.rows == PatchRows(format, old(store.rows), key, body)
      ensures r == if key.id == "" then Delegated
                   else if key !in old(store.rows) then NotFound
                   else if body.NotObject? then BadRequest
                   else OK(store.rows[key])
    {
      if key.id == "" { return Delegated; }
      var current := store.Get(key);
      if current.None? { return NotFound; }
      if body.NotObject? { return BadRequest; }
      var merged := Merge.MergeInPlace(current.value, body.data);
      merged := EnsureId(format, merged, key.id);
      var found := store.Update(key, merged);
      r := if found then OK(merged) else InternalError;
    }

    method Remove(key: Key) returns (r: Response)
      modifies store
      ensures store.rows == if key.id == "" then old(store.rows) else old(store.rows) - {key}
      ensures r == if key.id == "" then Delegated else if key in old(store.rows) then NoContent else NotFound
    {
      if key.id == "" { return Delegated; }
      var found := store.Delete(key);
      r := if found then NoContent else NotFound;
    }
  }

  function PutRows(format: NumberFormat, rows: Rows, key: Key, body: Body): Rows {
    if key.id == "" || key !in rows || body.NotObject? then rows
    else rows[key := Replacement(format, rows[key], body.data, key.id)]
  }

  function PatchRows(format: NumberFormat, rows: Rows, key: Key, body: Body): Rows {
    if key.id == "" || key !in rows || body.NotObject? then rows
    else rows[key := Patched(format, rows[key], body.data, key.id)]
  }

  // ---------------------------------------------------- interleaved requests

  datatype Verb = POST | PUT | PATCH

  /** A request that has computed what to store and still has to store it. */
  datatype Write = Write(verb: Verb, key: Key, data: Object)

  /** The shared store and the writes still outstanding, by request number. */
  datatype State = State(rows: Rows, pending: map<nat, Write>)

  /** One store access of one request, or the generation that precedes a POST's. */
  datatype Step =
    | Generate(op: nat, account: nat, collection: string, pathId: string, generated: Body, uuid: string)
    | ReadForPut(op: nat, key: Key, body: Body)
    | ReadForPatch(op: nat, key: Key, body: Body)
    | Commit(op: nat)
    | Abandon(op: nat)
    | Delete(key: Key)
    | Get(key: Key)

  /** Request numbers are not reused while outstanding, and UUIDs are non-empty. */
  predicate Enabled(s: State, step: Step) {
    match step
    case Generate(op, _, _, _, _, uuid) => op !in s.pending && uuid != ""
    case ReadForPut(op, _, _) => op !in s.pending
    case ReadForPatch(op, _, _) => op !in s.pending
    case Commit(op) => op in s.pending
    case Abandon(_) => true
    case Delete(_) => true
    case Get(_) => true
  }

  function Apply(format: NumberFormat, s: State, step: Step): State
    requires Enabled(s, step)
  {
    match step
    case Generate(op, account, collection, pathId, generated, uuid) =>
      var (id, data) := Draft(format, generated, pathId, uuid);
      s.(pending := s.pending[op := Write(POST, Key(account, collection, id), data)])
    case ReadForPut(op, key, body) =>
      if key.id == "" || key !in s.rows || body.NotObject? then s
      else s.(pending := s.pending[op := Write(PUT, key, Replacement(format, s.rows[key], body.data, key.id))])
    case ReadForPatch(op, key, body) =>
      if key.id == "" || key !in s.rows || body.NotObject? then s
      else s.(pending := s.pending[op := Write(PATCH, key, Patched(format, s.rows[key], body.data, key.id))])
    case Commit(op) =>
      var w := s.pending[op];
      State(if w.verb == POST then Inserted(s.rows, w.key, w.data) else Replaced(s.rows, w.key, w.data),
            s.pending - {op})
    case Abandon(op) => s.(pending := s.pending - {op})
    case Delete(key) => if key.id == "" then s else s.(rows := s.rows - {key})
    case Get(_) => s
  }

  /** Every step of the interleaving is one a request can take. */
  predicate Runs(format: NumberFormat, s: State, steps: seq<Step>)
    decreases |steps|
  {
    steps == [] || (Enabled(s, steps[0]) && Runs(format, Apply(format, s, steps[0]), steps[1..]))
  }

  function Final(format: NumberFormat, s: State, steps: seq<Step>): State
    requires Runs(format, s, steps)
    decreases |steps|
  {
    if steps == [] then s else Final(format, Apply(format, s, steps[0]), steps[1..])
  }

  const EMPTY: State := State(map[], map[])

  /** Stored and outstanding resources carry the id they are keyed by. */
  predicate Consistent(format: NumberFormat, s: State) {
    && (forall k :: k in s.rows ==> k.id != "" && IdOf(format, s.rows[k]) == k.id)
    && (forall op :: op in s.pending ==>
          s.pending[op].key.id != "" && IdOf(format, s.pending[op].data) == s.pending[op].key.id)
  }

  lemma StepKeepsConsistent(format: NumberFormat, s: State, step: Step)
    requires Consistent(format, s) && Enabled(s, step)
    ensures Consistent(format, Apply(format, s, step))
  {
  }

  /** Under every interleaving a stored resource answers to the id it is keyed by. */
  lemma {:induction false} IdsMatchKeys(format: NumberFormat, s: State, steps: seq<Step>)
    requires Consistent(format, s) && Runs(format, s, steps)
    ensures Consistent(format, Final(format, s, steps))
    decreases |steps|
  {
    if steps == [] {
    } else {
      StepKeepsConsistent(format, s, steps[0]);
      IdsMatchKeys(format, Apply(format, s, steps[0]), steps[1..]);
    }
  }

  /** From the empty store, with no request under way. */
  lemma IdsMatchKeysFromEmpty(format: NumberFormat, steps: seq<Step>)
    requires Runs(format, EMPTY, steps)
    ensures
      var rows := Final(format, EMPTY, steps).rows;
      forall key :: key in rows ==> key.id != "" && IdOf(format, rows[key]) == key.id
  {
    IdsMatchKeys(format, EMPTY, steps);
  }

  /** A POST reaching the store with this key. */
  predicate Posts(s: State, step: Step, key: Key) {
    step.Commit? && step.op in s.pending && s.pending[step.op].verb == POST && s.pending[step.op].key == key
  }

  predicate NeverPosted(format: NumberFormat, s: State, steps: seq<Step>, key: Key)
    requires Runs(format, s, steps)
    decreases |steps|
  {
    steps == [] || (!Posts(s, steps[0], key) && NeverPosted(format, Apply(format, s, steps[0]), steps[1..], key))
  }

  /** An absent key appears exactly when a POST commits for it. */
  lemma AppearsOnlyByPost(format: NumberFormat, s: State, step: Step, key: Key)
    requires Enabled(s, step) && key !in s.rows
    ensures key in Apply(format, s, step).rows <==> Posts(s, step, key)
  {
  }

  /** A deleted resource stays deleted, whatever PUT and PATCH requests had read
      it before and commit after. */
  lemma DeletedStaysDeleted(format: NumberFormat, s: State, key: Key, steps: seq<Step>)
    requires key.id != ""
    requires Runs(format, s, [Delete(key)] + steps)
    requires NeverPosted(format, s, [Delete(key)] + steps, key)
    ensures key !in Final(format, s, [Delete(key)] + steps).rows
  {
    var all := [Delete(key)] + steps;
    assert all[0] == Delete(key) && all[1..] == steps;
    AbsentStaysAbsent(format, Apply(format, s, Delete(key)), steps, key);
  }

  lemma {:induction false} AbsentStaysAbsent(format: NumberFormat, s: State, steps: seq<Step>, key: Key)
    requires Runs(format, s, steps) && key !in s.rows && NeverPosted(format, s, steps, key)
    ensures key !in Final(format, s, steps).rows
    decreases |steps|
  {
    if steps == [] {
    } else {
      AbsentStaysAbsent(format, Apply(format, s, steps[0]), steps[1..], key);
    }
  }

  /** The key whose row a step may change. */
  predicate Touches(s: State, step: Step, key: Key) {
    (step.Commit? && step.op in s.pending && s.pending[step.op].key == key) || step == Delete(key)
  }

  /** Requests for other accounts, collections or ids leave a resource alone. */
  lemma OtherKeysUntouched(format: NumberFormat, s: State, step: Step, key: Key)
    requires Enabled(s, step) && !Touches(s, step, key)
    ensures key in s.rows <==> key in Apply(format, s, step).rows
    ensures key in s.rows ==> Apply(format, s, step).rows[key] == s.rows[key]
  {
  }

  /** A request whose store accesses follow each other directly has the effect of
      the uninterrupted handler. */
  lemma UninterruptedPutAndPatch(format: NumberFormat, s: State, op: nat, key: Key, body: Body)
    requires op !in s.pending
    ensures
      var read := Apply(format, s, ReadForPut(op, key, body));
      (if op in read.pending then Apply(format, read, Commit(op)) else read)
        == State(PutRows(format, s.rows, key, body), s.pending)
    ensures
      var read := Apply(format, s, ReadForPatch(op, key, body));
      (if op in read.pending then Apply(format, read, Commit(op)) else read)
        == State(PatchRows(format, s.rows, key, body), s.pending)
  {
    var put := Apply(format, s, ReadForPut(op, key, body));
    if op in put.pending {
      assert put.pending - {op} == s.pending;
    }
    var patch := Apply(format, s, ReadForPatch(op, key, body));
    if op in patch.pending {
      assert patch.pending - {op} == s.pending;
    }
  }

  lemma SettledMember(t: Object, p: Object, k: string)
    requires k in Merge.MergeObjects(t, p).fields
    ensures
      var merged: Object := Merge.MergeObjects(t, p);
      Merge.MergeObjects(merged, p).fields[k] == merged.fields[k]
  {
    Merge.Idempotent(t, p);
  }

  /** Merging again after the id was restored changes at most the id. */
  lemma MergeAfterId(t: Object, p: Object, once: Object, k: string)
    requires once.fields - {"id"} == Merge.MergeObjects(t, p).fields - {"id"}
    requires k in Merge.MergeObjects(once, p).fields && k != "id"
    ensures k in once.fields && Merge.MergeObjects(once, p).fields[k] == once.fields[k]
  {
    var merged: Object := Merge.MergeObjects(t, p);
    SameBesideId(once.fields, merged.fields, k);
    SettledMember(t, p, k);
  }

  lemma SameBesideId(a: map<string, Json>, b: map<string, Json>, k: string)
    requires a - {"id"} == b - {"id"} && k != "id"
    ensures k in a <==> k in b
    ensures k in a ==> a[k] == b[k]
  {
    assert k in a <==> k in a - {"id"};
    assert k in b <==> k in b - {"id"};
    assert k in a ==> a[k] == (a - {"id"})[k] == (b - {"id"})[k];
  }

  lemma RepeatedPatched(format: NumberFormat, current: Object, p: Object, id: string)
    requires id != ""
    ensures
      var once: Object := Patched(format, current, p, id);
      Patched(format, once, p, id) == once
  {
    var once: Object := Patched(format, current, p, id);
    var again: Object := Merge.MergeObjects(once, p);
    forall k | k in again.fields && k != "id"
      ensures k in once.fields && again.fields[k] == once.fields[k]
    {
      MergeAfterId(current, p, once, k);
    }
    assert EnsureId(format, again, id).fields == once.fields;
  }

  /** Repeating a PATCH leaves the store as the first one did. */
  lemma RepeatedPatch(format: NumberFormat, rows: Rows, key: Key, body: Body)
    ensures PatchRows(format, PatchRows(format, rows, key, body), key, body) == PatchRows(format, rows, key, body)
  {
    if key.id != "" && key in rows && body.IsObject? {
      RepeatedPatched(format, rows[key], body.data, key.id);
    }
  }
}
