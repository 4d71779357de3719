/** Requests to stateful endpoints, from the path to the stored resource. */
module Serving {
  import opened Basics
  import opened Json
  import opened Paths
  import opened Stateful
  import Merge

  /** A routed request: the endpoint's method and path pattern, the parameters the
      router captured, the request's body, and what the wrapped generator and the
      UUID source would answer. */
  datatype Routed = Routed(
    account: nat, stateful: bool, verb: string, pattern: string, params: map<string, string>,
    body: Body, generated: Option<Body>, uuid: string)

  /** The resource a request is about; its id is "" when the path names none. */
  function KeyFor(req: Routed): Key {
    var (collection, name) := ResourceParts(req.pattern);
    Key(req.account, collection, if name != "" && name in req.params then req.params[name] else "")
  }

  function Posted(format: NumberFormat, rows: Rows, req: Routed): (Response, Rows)
    requires req.uuid != ""
  {
    if req.generated.None? then (InternalError, rows)
    else
      var (id, data) := Draft(format, req.generated.value, KeyFor(req).id, req.uuid);
      var key := Key(req.account, KeyFor(req).collection, id);
      (if key in rows then Conflict else Created(data), Inserted(rows, key, data))
  }

  /** The answer to a request and the rows it leaves. */
  function Served(format: NumberFormat, rows: Rows, req: Routed): (Response, Rows)
    requires req.uuid != ""
  {
    var key := KeyFor(req);
    if !req.stateful then (Delegated, rows)
    else if req.verb == "POST" then Posted(format, rows, req)
    else if key.id == "" then (Delegated, rows)
    else if req.verb == "GET" then (if key in rows then OK(rows[key]) else NotFound, rows)
    else if req.verb == "PUT" then
      Edited(rows, PutRows(format, rows, key, req.body), key, req.body)
    else if req.verb == "PATCH" then
      Edited(rows, PatchRows(format, rows, key, req.body), key, req.body)
    else if req.verb == "DELETE" then (if key in rows then NoContent else NotFound, rows - {key})
    else (Delegated, rows)
  }

  function Edited(before: Rows, after: Rows, key: Key, body: Body): (Response, Rows)
    requires key in before && body.IsObject? ==> key in after
  {
    (if key !in before then NotFound else if body.NotObject? then BadRequest else OK(after[key]), after)
  }

  /** The generator's dispatch on the endpoint's method. */
  method Generate(g: Generator, req: Routed) returns (r: Response)
    requires req.uuid != ""
    modifies g.store
    ensures (r, g.store.rows) == Served(g.format, old(g.store.rows), req)
  {
    if !req.stateful {
      return Delegated;
    }
    var key := KeyFor(req);
    match req.verb {
      case "POST" => r := g.Post(req.account, key.collection, key.id, req.generated, req.uuid);
      case "GET" => r := g.Read(key);
      case "PUT" => r := g.Put(key, req.body);
      case "PATCH" => r := g.Patch(key, req.body);
      case "DELETE" => r := g.Remove(key);
      case _ => r := Delegated;
    }
  }

  // -------------------------------------------- a resource and its own path

  /** A collection's pattern, a path that matches it, and the name of the
      parameter its item endpoints end in. */
  datatype Place = Place(pattern: seq<string>, path: seq<string>, name: string)

  predicate GoodPlace(p: Place) {
    && Segments(p.pattern) && (p.pattern != [] ==> !IsParam(p.pattern[|p.pattern| - 1]))
    && Segments(p.path) && Matches(p.pattern, p.path)
    && Segment(p.name)
  }

  function CollectionPattern(p: Place): string {
    "/" + Join(p.pattern)
  }

  function ItemPattern(p: Place): string {
    "/" + Join(p.pattern + [":" + p.name])
  }

  function ItemPath(p: Place, id: string): string {
    "/" + Join(p.path + [id])
  }

  /** The item endpoint's pattern matches the collection's path followed by an id,
      and names the resource the collection endpoint would store under that id. */
  lemma ItemPathNamesResource(p: Place, id: string, req: Routed)
    requires GoodPlace(p) && Segment(id)
    requires req.pattern == ItemPattern(p)
    requires
      var pattern, path := SplitPath(ItemPattern(p)), SplitPath(ItemPath(p, id));
      |pattern| == |path| && req.params == Captured(pattern, path)
    ensures Matches(SplitPath(ItemPattern(p)), SplitPath(ItemPath(p, id)))
    ensures KeyFor(req) == Key(req.account, CollectionPattern(p), id)
  {
    var last := ":" + p.name;
    ParamSegment(p.name);
    SplitPathOfJoin(p.pattern + [last]);
    SplitPathOfJoin(p.path + [id]);
    ItemSharesCollection(p.pattern, p.name);
    CapturesLast(p.pattern, p.path, last, id);
  }

  lemma CapturesLast(pattern: seq<string>, path: seq<string>, last: string, id: string)
    requires |pattern| == |path| && IsParam(last)
    ensures
      var captured := Captured(pattern + [last], path + [id]);
      ParamName(last) in captured && captured[ParamName(last)] == id
  {
    assert (pattern + [last])[..|pattern|] == pattern && (path + [id])[..|path|] == path;
  }

  /** A request to the item endpoint, as the router passes it on. */
  predicate ForItem(req: Routed, p: Place, id: string, account: nat, verb: string) {
    var pattern, path := SplitPath(ItemPattern(p)), SplitPath(ItemPath(p, id));
    && req.account == account && req.stateful && req.verb == verb && req.uuid != ""
    && req.pattern == ItemPattern(p)
    && |pattern| == |path| && req.params == Captured(pattern, path)
  }

  /** What a POST to the collection created is what a GET of its path returns,
      whatever the other parts of either request. */
  lemma CreatedIsRead(format: NumberFormat, rows: Rows, p: Place, post: Routed, get: Routed)
    requires GoodPlace(p)
    requires post.stateful && post.verb == "POST" && post.pattern == CollectionPattern(p) && post.uuid != ""
    requires Served(format, rows, post).0.Created?
    requires
      var created := Served(format, rows, post).0.body;
      created.Obj? && Segment(IdOf(format, created)) && ForItem(get, p, IdOf(format, created), post.account, "GET")
    ensures
      var (answer, left) := Served(format, rows, post);
      Served(format, left, get) == (OK(answer.body), left)
  {
    ItemSharesCollection(p.pattern, p.name);
    ItemPathNamesResource(p, IdOf(format, Served(format, rows, post).0.body), get);
  }

  lemma AbsentAnswers(format: NumberFormat, rows: Rows, req: Routed)
    requires req.stateful && req.uuid != "" && KeyFor(req).id != "" && KeyFor(req) !in rows
    ensures req.verb in {"GET", "PUT", "PATCH", "DELETE"} ==> Served(format, rows, req) == (NotFound, rows)
    ensures req.verb == "POST" && req.generated.Some? ==> Served(format, rows, req).0.Created?
  {
    assert rows - {KeyFor(req)} == rows;
  }

  /** After a DELETE a PUT, PATCH or GET of the same path finds nothing, and a POST
      with the id creates the resource anew. */
  lemma DeletedIsGone(format: NumberFormat, rows: Rows, p: Place, id: string, remove: Routed, again: Routed)
    requires GoodPlace(p) && Segment(id)
    requires ForItem(remove, p, id, again.account, "DELETE")
    requires ForItem(again, p, id, again.account, again.verb) && again.verb in {"GET", "PUT", "PATCH", "DELETE", "POST"}
    ensures
      var left := Served(format, rows, remove).1;
      if again.verb == "POST" then again.generated.Some? ==> Served(format, left, again).0.Created?
      else Served(format, left, again) == (NotFound, left)
  {
    ItemPathNamesResource(p, id, remove);
    ItemPathNamesResource(p, id, again);
    AbsentAnswers(format, Served(format, rows, remove).1, again);
  }

  /** A successful PUT or PATCH answers with what a GET then returns. */
  lemma EditedIsRead(format: NumberFormat, rows: Rows, p: Place, id: string, edit: Routed, get: Routed)
    requires GoodPlace(p) && Segment(id)
    requires ForItem(edit, p, id, get.account, edit.verb) && edit.verb in {"PUT", "PATCH"}
    requires ForItem(get, p, id, get.account, "GET")
    ensures
      var (answer, left) := Served(format, rows, edit);
      var refused := answer == NotFound || answer == BadRequest;
      Served(format, left, get) == (if refused then Served(format, rows, get).0 else answer, left)
  {
    ItemPathNamesResource(p, id, edit);
    ItemPathNamesResource(p, id, get);
  }

  // --------------------------------------------- what each method answers

  /** A request about a stored resource. */
  predicate AboutStored(rows: Rows, req: Routed, verb: string) {
    req.stateful && req.verb == verb && req.uuid != "" && KeyFor(req).id != "" && KeyFor(req) in rows
  }

  ghost predicate OnlyChanges(before: Rows, after: Rows, key: Key) {
    forall other: Key :: other != key ==>
      (other in after <==> other in before) && (other in after ==> after[other] == before[other])
  }

  /** A request names a resource only by the value of the parameter its endpoint's
      path ends in: other endpoints, and requests without a value, name none. */
  lemma NamedByLastParameter(req: Routed)
    ensures
      var segments := SplitPath(req.pattern);
      var last := if segments == [] then "" else segments[|segments| - 1];
      KeyFor(req).account == req.account
      && (KeyFor(req).id != "" <==>
            exists name :: name != "" && last == ":" + name && name in req.params && req.params[name] != "")
      && (forall name :: name != "" && last == ":" + name && name in req.params ==> KeyFor(req).id == req.params[name])
  {
    var segments := SplitPath(req.pattern);
    var last := if segments == [] then "" else segments[|segments| - 1];
    forall name | last == ":" + name
      ensures IsParam(last) && last[1..] == name
    {
    }
    if IsParam(last) {
      assert last == ":" + last[1..];
    }
  }

  /** A GET answers with the stored resource and changes nothing. */
  lemma GetAnswersStored(format: NumberFormat, rows: Rows, req: Routed)
    requires AboutStored(rows, req, "GET")
    ensures Served(format, rows, req) == (OK(rows[KeyFor(req)]), rows)
  {
  }

  /** A PUT answers with the body under the path's id, which replaces the resource:
      no other member of what was stored is left. */
  lemma PutReplaces(format: NumberFormat, rows: Rows, req: Routed)
    requires AboutStored(rows, req, "PUT") && req.body.IsObject?
    ensures
      var key := KeyFor(req);
      var (answer, left) := Served(format, rows, req);
      && key in left && answer == OK(left[key]) && OnlyChanges(rows, left, key)
      && left[key].fields - {"id"} == req.body.data.fields - {"id"}
      && (IdOf(format, rows[key]) == key.id ==> IdOf(format, left[key]) == key.id)
      && ("id" !in req.body.data.fields && "id" in rows[key].fields ==>
            "id" in left[key].fields && left[key].fields["id"] == rows[key].fields["id"])
      && ("id" in req.body.data.fields && IdOf(format, req.body.data) == key.id ==> left[key] == req.body.data)
  {
  }

  /** A PATCH keeps every member of the resource the body does not name, takes every
      member that is no object from the body, and merges objects the same way. */
  lemma PatchMerges(format: NumberFormat, rows: Rows, req: Routed, k: string)
    requires AboutStored(rows, req, "PATCH") && req.body.IsObject? && k != "id"
    ensures
      var key := KeyFor(req);
      var (answer, left) := Served(format, rows, req);
      var stored, body := rows[key].fields, req.body.data.fields;
      && key in left && answer == OK(left[key]) && OnlyChanges(rows, left, key)
      && IdOf(format, left[key]) == key.id
      && (k in left[key].fields <==> k in stored || k in body)
      && (k in stored && k !in body ==> left[key].fields[k] == stored[k])
      && (k in body && (!body[k].Obj? || k !in stored || !stored[k].Obj?) ==> left[key].fields[k] == body[k])
      && (k in body && k in stored && body[k].Obj? && stored[k].Obj? ==>
            left[key].fields[k] == Merge.MergeObjects(stored[k], body[k]))
  {
    var key := KeyFor(req);
    MemberBesideId(Served(format, rows, req).1[key], Merge.MergeObjects(rows[key], req.body.data), k);
  }

  lemma MemberBesideId(a: Object, b: Object, k: string)
    requires a.fields - {"id"} == b.fields - {"id"} && k != "id"
    ensures k in a.fields <==> k in b.fields
    ensures k in a.fields ==> a.fields[k] == b.fields[k]
  {
    assert k in a.fields <==> k in a.fields - {"id"};
    assert k in b.fields <==> k in b.fields - {"id"};
  }

  /** A DELETE answers without content and removes the resource and nothing else. */
  lemma DeleteRemoves(format: NumberFormat, rows: Rows, req: Routed)
    requires AboutStored(rows, req, "DELETE")
    ensures
      var (answer, left) := Served(format, rows, req);
      answer == NoContent && KeyFor(req) !in left && OnlyChanges(rows, left, KeyFor(req))
  {
  }

  /** A PUT or PATCH whose body is no object is refused and changes nothing. */
  lemma NoObjectIsRefused(format: NumberFormat, rows: Rows, req: Routed)
    requires AboutStored(rows, req, "PUT") || AboutStored(rows, req, "PATCH")
    requires req.body.NotObject?
    ensures Served(format, rows, req) == (BadRequest, rows)
  {
  }

  /** A POST stores the generated object under an id, once: the path's, else the
      object's own, text or number, else the fresh one. */
  lemma PostStores(format: NumberFormat, rows: Rows, req: Routed)
    requires req.stateful && req.verb == "POST" && req.uuid != "" && req.generated.Some?
    ensures
      var generated := if req.generated.value.IsObject? then req.generated.value.data.fields else map[];
      var id :=
        if KeyFor(req).id != "" then KeyFor(req).id
        else if "id" in generated && generated["id"].Str? && generated["id"].s != "" then generated["id"].s
        else if "id" in generated && generated["id"].Num? && format(generated["id"].n) != ""
        then format(generated["id"].n)
        else req.uuid;
      var key := Key(req.account, KeyFor(req).collection, id);
      var (answer, left) := Served(format, rows, req);
      if key in rows then answer == Conflict && left == rows
      else
        && key in left && answer == Created(left[key]) && OnlyChanges(rows, left, key)
        && IdOf(format, left[key]) == id && left[key].fields - {"id"} == generated - {"id"}
  {
  }

  /** Any other request is passed on and changes nothing. */
  lemma OthersAreDelegated(format: NumberFormat, rows: Rows, req: Routed)
    requires req.uuid != ""
    requires !req.stateful || req.verb !in {"POST", "GET", "PUT", "PATCH", "DELETE"}
             || (req.verb != "POST" && KeyFor(req).id == "")
    ensures Served(format, rows, req) == (Delegated, rows)
  {
  }
}
