/** The variables a request offers to a prompt template, and what a placeholder
    naming a place in the JSON body renders as. */
module Variables {
  import opened Basics
  import opened Json
  import opened Text
  import opened Render

  /** Renders numbers and arrays, as strconv and the JSON encoder do. */
  type Show = Json -> string

  function ScalarString(show: Show, v: Json): string {
    match v
    case Str(s) => s
    case Bool(b) => if b then "true" else "false"
    case Null => ""
    case _ => show(v)
  }

  // -------------------------------------------------- filling the variables

  /** A name and the text some part of the request gives it. */
  type Entry = (string, string)

  ghost predicate Named(entries: set<Entry>, name: string) {
    exists e :: e in entries && e.0 == name
  }

  ghost predicate HasText(entries: set<Entry>, name: string, text: string) {
    (name, text) in entries
  }

  /** vars has, for every entry's name, the text of an entry of that name, and is
      otherwise as before. */
  ghost predicate Records(before: Vars, vars: Vars, entries: set<Entry>) {
    forall name ::
      if Named(entries, name) then name in vars && HasText(entries, name, vars[name])
      else (name in vars <==> name in before) && (name in vars ==> vars[name] == before[name])
  }

  lemma NamedInUnion(first: set<Entry>, more: set<Entry>, name: string)
    ensures Named(first + more, name) <==> Named(first, name) || Named(more, name)
  {
    if Named(first, name) {
      var e :| e in first && e.0 == name;
      assert e in first + more;
    }
    if Named(more, name) {
      var e :| e in more && e.0 == name;
      assert e in first + more;
    }
  }

  lemma RecordsMore(a: Vars, b: Vars, c: Vars, first: set<Entry>, more: set<Entry>)
    requires Records(a, b, first) && Records(b, c, more)
    ensures Records(a, c, first + more)
  {
    forall name
      ensures
        if Named(first + more, name) then name in c && HasText(first + more, name, c[name])
        else (name in c <==> name in a) && (name in c ==> c[name] == a[name])
    {
      NamedInUnion(first, more, name);
    }
  }

  lemma RecordsOne(vars: Vars, name: string, text: string)
    ensures Records(vars, vars[name := text], {(name, text)})
  {
    assert (name, text) in {(name, text)};
  }

  /** The entries a map contributes: each name below a prefix, in lower case. */
  ghost function MapEntries(prefix: string, m: map<string, string>): set<Entry> {
    set k | k in m :: (prefix + ToLower(k), m[k])
  }

  ghost function MapEntriesOf(prefix: string, m: map<string, string>, keys: set<string>): set<Entry> {
    set k | k in keys && k in m :: (prefix + ToLower(k), m[k])
  }

  lemma MapEntriesMore(prefix: string, m: map<string, string>, keys: set<string>, k: string)
    requires k in m
    ensures MapEntriesOf(prefix, m, keys + {k}) == MapEntriesOf(prefix, m, keys) + {(prefix + ToLower(k), m[k])}
  {
  }

  /** One of the range loops of extractVariables, in an arbitrary order of keys. */
  method PutAll(prefix: string, m: map<string, string>, vars: Vars) returns (out: Vars)
    ensures Records(vars, out, MapEntries(prefix, m))
  {
    out := vars;
    var pending := m.Keys;
    while pending != {}
      invariant pending <= m.Keys
      invariant Records(vars, out, MapEntriesOf(prefix, m, m.Keys - pending))
      decreases pending
    {
      var k :| k in pending;
      var name := prefix + ToLower(k);
      RecordsOne(out, name, m[k]);
      RecordsMore(vars, out, out[name := m[k]], MapEntriesOf(prefix, m, m.Keys - pending), {(name, m[k])});
      MapEntriesMore(prefix, m, m.Keys - pending, k);
      out := out[name := m[k]];
      assert m.Keys - (pending - {k}) == m.Keys - pending + {k};
      pending := pending - {k};
    }
    assert MapEntriesOf(prefix, m, m.Keys - pending) == MapEntries(prefix, m);
  }

  // ------------------------------------------------------- the request body

  function MemberName(prefix: string, key: string): string {
    if prefix != "" then prefix + "." + ToLower(key) else ToLower(key)
  }

  /** The entries the walk of a document meets at its non-objects. */
  ghost function Entries(show: Show, prefix: string, v: Json): set<Entry>
    decreases v
  {
    match v
    case Obj(fields) => set k, e | k in fields && e in Entries(show, MemberName(prefix, k), fields[k]) :: e
    case _ => if prefix != "" then {(prefix, ScalarString(show, v))} else {}
  }

  ghost function EntriesUnder(show: Show, prefix: string, v: Object, keys: set<string>): set<Entry> {
    set k, e | k in v.fields && k in keys && e in Entries(show, MemberName(prefix, k), v.fields[k]) :: e
  }

  lemma EntriesUnderMore(show: Show, prefix: string, v: Object, keys: set<string>, key: string)
    requires key in v.fields
    ensures EntriesUnder(show, prefix, v, keys + {key}) ==
      EntriesUnder(show, prefix, v, keys) + Entries(show, MemberName(prefix, key), v.fields[key])
  {
  }

  /** collectBodyVars: the document is walked with each object's keys in an
      arbitrary order, filling the variables in place. */
  method CollectBodyVars(show: Show, prefix: string, v: Json, vars: Vars) returns (out: Vars)
    ensures Records(vars, out, Entries(show, prefix, v))
    decreases v
  {
    out := vars;
    match v {
      case Obj(fields) =>
        var pending := fields.Keys;
        while pending != {}
          invariant pending <= fields.Keys
          invariant Records(vars, out, EntriesUnder(show, prefix, v, fields.Keys - pending))
          decreases pending
        {
          var key :| key in pending;
          ghost var before := out;
          out := CollectBodyVars(show, MemberName(prefix, key), fields[key], out);
          RecordsMore(vars, before, out, EntriesUnder(show, prefix, v, fields.Keys - pending),
            Entries(show, MemberName(prefix, key), fields[key]));
          EntriesUnderMore(show, prefix, v, fields.Keys - pending, key);
          assert fields.Keys - (pending - {key}) == fields.Keys - pending + {key};
          pending := pending - {key};
        }
        assert EntriesUnder(show, prefix, v, fields.Keys - pending) == Entries(show, prefix, v);
      case _ =>
        if prefix != "" {
          RecordsOne(vars, prefix, ScalarString(show, v));
          out := out[prefix := ScalarString(show, v)];
        }
    }
  }

  // ------------------------------------------------------ the whole request

  /** strings.Join(values, ","). */
  function CommaJoined(values: seq<string>): string {
    if values == [] then "" else if |values| == 1 then values[0] else values[0] + "," + CommaJoined(values[1..])
  }

  /** A header that is repeated gets its values joined. */
  function JoinedHeaders(headers: map<string, seq<string>>): map<string, string> {
    map name | name in headers :: CommaJoined(headers[name])
  }

  /** The parts of a request that templates can name. The cookies are parsed, and
      the body decoded when it is JSON. */
  datatype Request = Request(
    pathParams: map<string, string>,
    query: map<string, string>,
    headers: map<string, seq<string>>,
    cookies: seq<Entry>,
    body: Option<Json>)

  ghost function CookieEntries(cookies: seq<Entry>): set<Entry> {
    set c | c in cookies :: ("cookies." + ToLower(c.0), c.1)
  }

  ghost function BodyEntries(show: Show, body: Option<Json>): set<Entry> {
    if body.None? then {} else set e | e in Entries(show, "", body.value) :: ("body." + e.0, e.1)
  }

  /** Everything the request offers. */
  ghost function Offered(show: Show, req: Request): set<Entry> {
    MapEntries("path.", req.pathParams) + MapEntries("query.", req.query)
    + MapEntries("headers.", JoinedHeaders(req.headers)) + CookieEntries(req.cookies) + BodyEntries(show, req.body)
  }

  /** Where several cookies share a name, the last one has it. */
  ghost predicate LastCookies(vars: Vars, cookies: seq<Entry>) {
    forall i :: 0 <= i < |cookies| && LastOfName(cookies, i) ==>
      var name := "cookies." + ToLower(cookies[i].0);
      name in vars && vars[name] == cookies[i].1
  }

  /** No later cookie has this one's name, up to case. */
  predicate LastOfName(cookies: seq<Entry>, i: int)
    requires 0 <= i < |cookies|
  {
    forall j :: i < j < |cookies| ==> ToLower(cookies[j].0) != ToLower(cookies[i].0)
  }

  lemma OneCookieMore(vars: Vars, cookies: seq<Entry>, c: Entry)
    requires LastCookies(vars, cookies)
    ensures LastCookies(vars["cookies." + ToLower(c.0) := c.1], cookies + [c])
  {
    var more := cookies + [c];
    forall i | 0 <= i < |more| && LastOfName(more, i)
      ensures
        var name := "cookies." + ToLower(more[i].0);
        var out := vars["cookies." + ToLower(c.0) := c.1];
        name in out && out[name] == more[i].1
    {
      if i < |cookies| {
        assert LastOfName(cookies, i) by {
          assert forall j :: i < j < |cookies| ==> more[j] == cookies[j];
        }
        assert more[|cookies|] == c;
        SamePrefix("cookies.", ToLower(c.0), ToLower(cookies[i].0));
      }
    }
  }

  lemma SamePrefix(prefix: string, a: string, b: string)
    ensures prefix + a == prefix + b <==> a == b
  {
    assert (prefix + a)[|prefix|..] == a && (prefix + b)[|prefix|..] == b;
  }

  method PutCookies(cookies: seq<Entry>, vars: Vars) returns (out: Vars)
    ensures Records(vars, out, CookieEntries(cookies)) && LastCookies(out, cookies)
  {
    out := vars;
    for i := 0 to |cookies|
      invariant Records(vars, out, CookieEntries(cookies[..i])) && LastCookies(out, cookies[..i])
    {
      CookieStep(vars, out, cookies[..i], cookies[i]);
      assert cookies[..i + 1] == cookies[..i] + [cookies[i]];
      out := out["cookies." + ToLower(cookies[i].0) := cookies[i].1];
    }
    assert cookies[..|cookies|] == cookies;
  }

  lemma CookieStep(vars: Vars, out: Vars, cookies: seq<Entry>, c: Entry)
    requires Records(vars, out, CookieEntries(cookies)) && LastCookies(out, cookies)
    ensures
      var next := out["cookies." + ToLower(c.0) := c.1];
      Records(vars, next, CookieEntries(cookies + [c])) && LastCookies(next, cookies + [c])
  {
    var name := "cookies." + ToLower(c.0);
    RecordsOne(out, name, c.1);
    RecordsMore(vars, out, out[name := c.1], CookieEntries(cookies), {(name, c.1)});
    CookieEntriesMore(cookies, c);
    OneCookieMore(out, cookies, c);
  }

  lemma CookieEntriesMore(cookies: seq<Entry>, c: Entry)
    ensures CookieEntries(cookies + [c]) == CookieEntries(cookies) + {("cookies." + ToLower(c.0), c.1)}
  {
  }

  ghost function Below(m: Vars, keys: set<string>): set<Entry> {
    set k | k in keys && k in m :: ("body." + k, m[k])
  }

  lemma BelowMore(m: Vars, keys: set<string>, k: string)
    requires k in m
    ensures Below(m, keys + {k}) == Below(m, keys) + {("body." + k, m[k])}
  {
  }

  /** The body's own variables, copied below "body." in an arbitrary order. */
  method CopyBelow(m: Vars, vars: Vars) returns (out: Vars)
    ensures Records(vars, out, Below(m, m.Keys))
  {
    out := vars;
    var pending := m.Keys;
    while pending != {}
      invariant pending <= m.Keys
      invariant Records(vars, out, Below(m, m.Keys - pending))
      decreases pending
    {
      var k :| k in pending;
      var name := "body." + k;
      RecordsOne(out, name, m[k]);
      RecordsMore(vars, out, out[name := m[k]], Below(m, m.Keys - pending), {(name, m[k])});
      BelowMore(m, m.Keys - pending, k);
      out := out[name := m[k]];
      assert m.Keys - (pending - {k}) == m.Keys - pending + {k};
      pending := pending - {k};
    }
    assert m.Keys - pending == m.Keys;
  }

  method PutBody(show: Show, body: Option<Json>, vars: Vars) returns (out: Vars)
    ensures Records(vars, out, BodyEntries(show, body))
  {
    out := vars;
    if body.Some? {
      var none: Vars := map[];
      var own := CollectBodyVars(show, "", body.value, none);
      out := CopyBelow(own, vars);
      CopiedRecords(Entries(show, "", body.value), own, vars, out);
    }
  }

  /** Copying one text of each name copies a text of each name. */
  lemma CopiedRecords(entries: set<Entry>, own: Vars, before: Vars, out: Vars)
    requires Records(map[], own, entries) && Records(before, out, Below(own, own.Keys))
    ensures Records(before, out, set e | e in entries :: ("body." + e.0, e.1))
  {
    var copied := set e | e in entries :: ("body." + e.0, e.1);
    forall m
      ensures Named(copied, m) <==> Named(Below(own, own.Keys), m)
      ensures Named(copied, m) ==> m in out && HasText(copied, m, out[m])
    {
      if Named(copied, m) {
        var e :| e in entries && m == "body." + e.0;
        assert Named(entries, e.0);
        assert ("body." + e.0, own[e.0]) in Below(own, own.Keys);
        assert Named(Below(own, own.Keys), m);
        assert HasText(Below(own, own.Keys), m, out[m]);
        var k :| k in own && m == "body." + k && out[m] == own[k];
        assert HasText(entries, k, own[k]);
        assert ("body." + k, own[k]) in copied;
      }
    }
  }

  /** Variables a request can lead to. */
  ghost predicate Extracted(show: Show, req: Request, vars: Vars) {
    Records(map[], vars, Offered(show, req)) && LastCookies(vars, req.cookies)
  }

  lemma BodyKeepsCookies(before: Vars, vars: Vars, show: Show, body: Option<Json>, cookies: seq<Entry>)
    requires Records(before, vars, BodyEntries(show, body)) && LastCookies(before, cookies)
    ensures LastCookies(vars, cookies)
  {
    forall i | 0 <= i < |cookies| && LastOfName(cookies, i)
      ensures
        var name := "cookies." + ToLower(cookies[i].0);
        name in vars && vars[name] == cookies[i].1
    {
      var name := "cookies." + ToLower(cookies[i].0);
      assert name[0] == 'c';
      assert !Named(BodyEntries(show, body), name);
    }
  }

  method ExtractVariables(show: Show, req: Request) returns (vars: Vars)
    ensures Extracted(show, req, vars)
  {
    var none: Vars := map[];
    var a := PutAll("path.", req.pathParams, none);
    var b := PutAll("query.", req.query, a);
    RecordsMore(none, a, b, MapEntries("path.", req.pathParams), MapEntries("query.", req.query));
    var c := PutAll("headers.", JoinedHeaders(req.headers), b);
    RecordsMore(none, b, c, MapEntries("path.", req.pathParams) + MapEntries("query.", req.query),
      MapEntries("headers.", JoinedHeaders(req.headers)));
    var d := PutCookies(req.cookies, c);
    RecordsMore(none, c, d,
      MapEntries("path.", req.pathParams) + MapEntries("query.", req.query)
      + MapEntries("headers.", JoinedHeaders(req.headers)),
      CookieEntries(req.cookies));
    vars := PutBody(show, req.body, d);
    BodyKeepsCookies(d, vars, show, req.body, req.cookies);
    RecordsMore(none, d, vars,
      MapEntries("path.", req.pathParams) + MapEntries("query.", req.query)
      + MapEntries("headers.", JoinedHeaders(req.headers)) + CookieEntries(req.cookies),
      BodyEntries(show, req.body));
  }

  /** Rendering a prompt for a request, or for none. */
  method RenderVariables(show: Show, prompt: string, req: Option<Request>) returns (out: string)
    ensures req.None? ==> out == prompt
    ensures req.Some? ==> exists vars :: Extracted(show, req.value, vars) && out == Rendered(prompt, vars)
  {
    if req.None? {
      return prompt;
    }
    var vars := ExtractVariables(show, req.value);
    out := RenderAll(prompt, vars);
  }

  ghost function Rendered(prompt: string, vars: Vars): string {
    RenderTokens(Tokenize(prompt), vars)
  }

  // --------------------------------------------- naming a place in the body

  /** What walking a document along keys reaches. */
  function Walk(doc: Json, path: seq<string>): Option<Json> {
    if path == [] then Some(doc)
    else if doc.Obj? && path[0] in doc.fields then Walk(doc.fields[path[0]], path[1..])
    else None
  }

  /** A path of keys that ends at a non-object. */
  predicate LeadsTo(doc: Json, path: seq<string>, v: Json) {
    path != [] && Walk(doc, path) == Some(v) && !v.Obj?
  }

  /** A path as it is written in a placeholder. */
  function Dotted(path: seq<string>): string
    requires path != []
  {
    if |path| == 1 then path[0] else path[0] + "." + Dotted(path[1..])
  }

  /** The name the walk gives the end of a path. */
  function NameOf(prefix: string, path: seq<string>): string
    decreases |path|
  {
    if path == [] then prefix else NameOf(MemberName(prefix, path[0]), path[1..])
  }

  predicate PlainKey(k: string) {
    k != "" && TrimSpace(k) == k && '.' !in k
  }

  predicate PlainPath(path: seq<string>) {
    path != [] && forall k :: k in path ==> PlainKey(k)
  }

  /** Every object's keys are non-empty, trimmed, without dots, and distinct in
      lower case. */
  ghost predicate PlainKeys(doc: Json) {
    doc.Obj? ==>
      forall k :: k in doc.fields ==>
        && PlainKey(k)
        && PlainKeys(doc.fields[k])
        && forall l :: l in doc.fields && ToLower(l) == ToLower(k) ==> l == k
  }

  lemma {:induction false} PathIsPlain(doc: Json, path: seq<string>, v: Json)
    requires PlainKeys(doc) && LeadsTo(doc, path, v)
    ensures PlainPath(path)
    decreases |path|
  {
    if |path| > 1 {
      PathIsPlain(doc.fields[path[0]], path[1..], v);
    }
    forall k | k in path
      ensures PlainKey(k)
    {
      if k != path[0] {
        assert k in path[1..];
      }
    }
  }

  /** Walking to a non-object makes an entry. */
  lemma {:induction false} WalkMakesEntry(show: Show, prefix: string, doc: Json, path: seq<string>, v: Json)
    requires Walk(doc, path) == Some(v) && !v.Obj? && NameOf(prefix, path) != ""
    ensures (NameOf(prefix, path), ScalarString(show, v)) in Entries(show, prefix, doc)
    decreases |path|
  {
    if path == [] {
    } else {
      WalkMakesEntry(show, MemberName(prefix, path[0]), doc.fields[path[0]], path[1..], v);
    }
  }

  /** Every entry comes from walking to a non-object. */
  lemma {:induction false} EntryComesFromWalk(show: Show, prefix: string, doc: Json, e: Entry)
      returns (path: seq<string>, v: Json)
    requires e in Entries(show, prefix, doc)
    ensures Walk(doc, path) == Some(v) && !v.Obj?
    ensures e == (NameOf(prefix, path), ScalarString(show, v))
    decreases doc
  {
    if doc.Obj? {
      var k :| k in doc.fields && e in Entries(show, MemberName(prefix, k), doc.fields[k]);
      var rest;
      rest, v := EntryComesFromWalk(show, MemberName(prefix, k), doc.fields[k], e);
      path := [k] + rest;
      assert path[1..] == rest;
    } else {
      path, v := [], doc;
    }
  }

  lemma LowerAroundDot(a: string, b: string)
    ensures ToLower(a + "." + b) == ToLower(a) + ("." + ToLower(b))
  {
    var both := a + "." + b;
    assert forall i :: 0 <= i < |a| ==> both[i] == a[i];
    assert forall i :: 0 <= i < |b| ==> both[|a| + 1 + i] == b[i];
  }

  function Under(prefix: string, name: string): string {
    if prefix == "" then name else prefix + ("." + name)
  }

  lemma UnderTwice(prefix: string, key: string, rest: string)
    requires prefix != "" || key != ""
    ensures Under(MemberName(prefix, key), rest) == Under(prefix, ToLower(key) + ("." + rest))
  {
    if prefix != "" {
      assert prefix + "." + ToLower(key) + ("." + rest) == prefix + ("." + (ToLower(key) + ("." + rest)));
    }
  }

  /** The walk names the end of a path by the dotted path in lower case. */
  lemma {:induction false} NameIsDotted(prefix: string, path: seq<string>)
    requires path != [] && (prefix != "" || path[0] != "")
    ensures NameOf(prefix, path) == Under(prefix, ToLower(Dotted(path)))
    decreases |path|
  {
    var next := MemberName(prefix, path[0]);
    if |path| == 1 {
      assert NameOf(next, path[1..]) == next;
      assert prefix + "." + ToLower(path[0]) == prefix + ("." + ToLower(path[0]));
    } else {
      NameIsDotted(next, path[1..]);
      LowerAroundDot(path[0], Dotted(path[1..]));
      UnderTwice(prefix, path[0], ToLower(Dotted(path[1..])));
    }
  }

  lemma LowerKeepsDots(s: string)
    ensures '.' in ToLower(s) <==> '.' in s
  {
    if '.' in s {
      var i :| 0 <= i < |s| && s[i] == '.';
      assert ToLower(s)[i] == '.';
    }
  }

  /** What stands before the first dot, and whether there is one, is determined. */
  lemma FirstPieces(a: string, restA: string, b: string, restB: string)
    requires a + restA == b + restB
    requires '.' !in a && '.' !in b
    requires (restA == "" || restA[0] == '.') && (restB == "" || restB[0] == '.')
    ensures a == b && restA == restB
  {
    var whole := a + restA;
    assert forall i :: 0 <= i < |a| ==> whole[i] == a[i];
    assert forall i :: 0 <= i < |b| ==> whole[i] == b[i];
    assert restA != "" ==> whole[|a|] == '.';
    assert restB != "" ==> whole[|b|] == '.';
    assert a == (a + restA)[..|a|];
    assert restA == (a + restA)[|a|..];
  }

  function AfterFirst(path: seq<string>): string
    requires path != []
  {
    if |path| == 1 then "" else "." + ToLower(Dotted(path[1..]))
  }

  lemma DottedSplits(path: seq<string>)
    requires path != []
    ensures ToLower(Dotted(path)) == ToLower(path[0]) + AfterFirst(path)
  {
    if |path| > 1 {
      LowerAroundDot(path[0], Dotted(path[1..]));
    }
  }

  /** Two paths to non-objects with the same name are the same path. */
  lemma {:induction false} NamesAreInjective(doc: Json, p: seq<string>, v: Json, q: seq<string>, w: Json)
    requires PlainKeys(doc) && LeadsTo(doc, p, v) && LeadsTo(doc, q, w)
    requires ToLower(Dotted(p)) == ToLower(Dotted(q))
    ensures p == q && v == w
    decreases |p|
  {
    DottedSplits(p);
    DottedSplits(q);
    LowerKeepsDots(p[0]);
    LowerKeepsDots(q[0]);
    FirstPieces(ToLower(p[0]), AfterFirst(p), ToLower(q[0]), AfterFirst(q));
    assert p[0] == q[0];
    assert p == [p[0]] + p[1..] && q == [q[0]] + q[1..];
    if |p| > 1 {
      assert |q| > 1;
      assert ToLower(Dotted(p[1..])) == AfterFirst(p)[1..] == AfterFirst(q)[1..] == ToLower(Dotted(q[1..]));
      NamesAreInjective(doc.fields[p[0]], p[1..], v, q[1..], w);
    }
  }

  /** Below "body." there is nothing but the body's own entries. */
  lemma OnlyBodyBelowBody(show: Show, req: Request, name: string, text: string)
    requires ("body." + name, text) in Offered(show, req)
    ensures req.body.Some? && (name, text) in Entries(show, "", req.body.value)
  {
    var full := "body." + name;
    assert full[0] == 'b';
    assert (full, text) !in MapEntries("path.", req.pathParams);
    assert (full, text) !in MapEntries("query.", req.query);
    assert (full, text) !in MapEntries("headers.", JoinedHeaders(req.headers));
    assert (full, text) !in CookieEntries(req.cookies);
    var e :| e in Entries(show, "", req.body.value) && (full, text) == ("body." + e.0, e.1);
    assert full[5..] == name == e.0;
  }

  /** No entry is without a name. */
  lemma {:induction false} EntriesAreNamed(show: Show, prefix: string, doc: Json, e: Entry)
    requires e in Entries(show, prefix, doc)
    ensures e.0 != ""
    decreases doc
  {
    if doc.Obj? {
      var k :| k in doc.fields && e in Entries(show, MemberName(prefix, k), doc.fields[k]);
      EntriesAreNamed(show, MemberName(prefix, k), doc.fields[k], e);
    } else {
      assert prefix != "";
    }
  }

  ghost function SomeText(entries: set<Entry>, name: string): string
    requires Named(entries, name)
  {
    var e :| e in entries && e.0 == name;
    e.1
  }

  /** Variables that record one text for each name. */
  ghost function SomeVars(entries: set<Entry>): Vars {
    map e | e in entries && Named(entries, e.0) :: e.0 := SomeText(entries, e.0)
  }

  lemma SomeVarsRecord(entries: set<Entry>)
    ensures Records(map[], SomeVars(entries), entries)
  {
    forall name | Named(entries, name)
      ensures name in SomeVars(entries) && HasText(entries, name, SomeVars(entries)[name])
    {
      var e :| e in entries && e.0 == name;
    }
  }

  /** Any text of a name can be the one that is recorded. */
  lemma AnyTextIsRecorded(vars: Vars, entries: set<Entry>, name: string, text: string)
    requires Records(map[], vars, entries) && HasText(entries, name, text)
    ensures Records(map[], vars[name := text], entries)
  {
    assert Named(entries, name);
  }

  /** vars with the cookies put in one after the other. */
  ghost function WithCookies(vars: Vars, cookies: seq<Entry>): Vars
    decreases |cookies|
  {
    if cookies == [] then vars
    else
      var last := cookies[|cookies| - 1];
      WithCookies(vars, cookies[..|cookies| - 1])["cookies." + ToLower(last.0) := last.1]
  }

  lemma {:induction false} WithCookiesRecords(vars: Vars, entries: set<Entry>, cookies: seq<Entry>)
    requires Records(map[], vars, entries) && CookieEntries(cookies) <= entries
    ensures Records(map[], WithCookies(vars, cookies), entries) && LastCookies(WithCookies(vars, cookies), cookies)
    decreases |cookies|
  {
    if cookies == [] {
    } else {
      var front, last := cookies[..|cookies| - 1], cookies[|cookies| - 1];
      var name := "cookies." + ToLower(last.0);
      assert cookies == front + [last];
      assert last in cookies && (name, last.1) in CookieEntries(cookies);
      assert CookieEntries(front) <= CookieEntries(cookies);
      WithCookiesRecords(vars, entries, front);
      AnyTextIsRecorded(WithCookies(vars, front), entries, name, last.1);
      OneCookieMore(WithCookies(vars, front), front, last);
    }
  }

  lemma SomeExtracted(show: Show, req: Request) returns (vars: Vars)
    ensures Extracted(show, req, vars)
  {
    var entries := Offered(show, req);
    SomeVarsRecord(entries);
    WithCookiesRecords(SomeVars(entries), entries, req.cookies);
    vars := WithCookies(SomeVars(entries), req.cookies);
  }

  /** Any text offered under a name that is no cookie's can be the variable's. */
  lemma ExtractedWith(show: Show, req: Request, name: string, text: string) returns (vars: Vars)
    requires HasText(Offered(show, req), name, text) && name != "" && name[0] != 'c'
    ensures Extracted(show, req, vars) && name in vars && vars[name] == text
  {
    var before := SomeExtracted(show, req);
    AnyTextIsRecorded(before, Offered(show, req), name, text);
    vars := before[name := text];
    forall i | 0 <= i < |req.cookies| && LastOfName(req.cookies, i)
      ensures
        var cookie := "cookies." + ToLower(req.cookies[i].0);
        cookie in vars && vars[cookie] == req.cookies[i].1
    {
      assert ("cookies." + ToLower(req.cookies[i].0))[0] == 'c';
    }
  }

  /** Whatever order the request is visited in, the variable has this text. */
  ghost predicate AlwaysHas(show: Show, req: Request, name: string, text: string) {
    forall vars: Vars :: Extracted(show, req, vars) ==> name in vars && vars[name] == text
  }

  /** Every place of the body that shares the name of this one has its text. */
  ghost predicate OneText(show: Show, doc: Json, path: seq<string>, v: Json) {
    forall q, w ::
      LeadsTo(doc, q, w) && NameOf("", q) == NameOf("", path) ==> ScalarString(show, w) == ScalarString(show, v)
  }

  /** Variables of a request record the text of a place of the body that has the
      variable's name. */
  lemma RecordedPlace(show: Show, req: Request, vars: Vars, path: seq<string>, v: Json)
      returns (q: seq<string>, w: Json)
    requires Extracted(show, req, vars) && req.body.Some?
    requires LeadsTo(req.body.value, path, v) && NameOf("", path) != ""
    ensures LeadsTo(req.body.value, q, w) && NameOf("", q) == NameOf("", path)
    ensures
      var name := "body." + NameOf("", path);
      name in vars && vars[name] == ScalarString(show, w)
  {
    var doc := req.body.value;
    var own := NameOf("", path);
    PlaceIsOffered(show, req, path, v);
    assert Named(Offered(show, req), "body." + own);
    var text := vars["body." + own];
    assert HasText(Offered(show, req), "body." + own, text);
    OnlyBodyBelowBody(show, req, own, text);
    q, w := EntryComesFromWalk(show, "", doc, (own, text));
    assert q != [];
  }

  lemma PlaceIsOffered(show: Show, req: Request, path: seq<string>, v: Json)
    requires req.body.Some? && LeadsTo(req.body.value, path, v) && NameOf("", path) != ""
    ensures HasText(Offered(show, req), "body." + NameOf("", path), ScalarString(show, v))
  {
    WalkMakesEntry(show, "", req.body.value, path, v);
    assert ("body." + NameOf("", path), ScalarString(show, v)) in BodyEntries(show, req.body);
  }

  /** What has no name is not recorded. */
  lemma NamelessIsMissing(show: Show, req: Request, vars: Vars)
    requires Extracted(show, req, vars)
    ensures "body." !in vars
  {
    var name := "body." + "";
    assert name == "body.";
    if "body." in vars {
      assert Named(Offered(show, req), "body.");
      assert HasText(Offered(show, req), name, vars["body."]);
      OnlyBodyBelowBody(show, req, "", vars["body."]);
      EntriesAreNamed(show, "", req.body.value, ("", vars["body."]));
    }
  }

  /** Variables that give a place's name the text of another place of that name. */
  lemma OtherTextIsRecorded(show: Show, req: Request, q: seq<string>, w: Json, name: string) returns (vars: Vars)
    requires req.body.Some? && LeadsTo(req.body.value, q, w) && NameOf("", q) != "" && name == "body." + NameOf("", q)
    ensures Extracted(show, req, vars) && name in vars && vars[name] == ScalarString(show, w)
  {
    PlaceIsOffered(show, req, q, w);
    assert name[0] == 'b';
    vars := ExtractedWith(show, req, name, ScalarString(show, w));
  }

  lemma NamelessNeverHas(show: Show, req: Request, text: string)
    ensures !AlwaysHas(show, req, "body.", text)
  {
    var vars := SomeExtracted(show, req);
    NamelessIsMissing(show, req, vars);
  }

  lemma AlwaysHasOneText(show: Show, req: Request, path: seq<string>, v: Json)
    requires req.body.Some? && LeadsTo(req.body.value, path, v) && NameOf("", path) != ""
    requires AlwaysHas(show, req, "body." + NameOf("", path), ScalarString(show, v))
    ensures OneText(show, req.body.value, path, v)
  {
    forall q, w | LeadsTo(req.body.value, q, w) && NameOf("", q) == NameOf("", path)
      ensures ScalarString(show, w) == ScalarString(show, v)
    {
      var vars := OtherTextIsRecorded(show, req, q, w, "body." + NameOf("", path));
    }
  }

  /** A body's value is always what the variable of its place holds exactly if the
      place has a name and no place of the same name has another text. */
  lemma BodyVariableIff(show: Show, req: Request, path: seq<string>, v: Json)
    requires req.body.Some? && LeadsTo(req.body.value, path, v)
    ensures AlwaysHas(show, req, "body." + NameOf("", path), ScalarString(show, v))
      <==> NameOf("", path) != "" && OneText(show, req.body.value, path, v)
  {
    if NameOf("", path) == "" {
      assert "body." + NameOf("", path) == "body.";
      NamelessNeverHas(show, req, ScalarString(show, v));
    } else if OneText(show, req.body.value, path, v) {
      BodyVariable(show, req, path, v);
    } else if AlwaysHas(show, req, "body." + NameOf("", path), ScalarString(show, v)) {
      AlwaysHasOneText(show, req, path, v);
    }
  }

  lemma BodyVariable(show: Show, req: Request, path: seq<string>, v: Json)
    requires req.body.Some? && LeadsTo(req.body.value, path, v)
    requires NameOf("", path) != "" && OneText(show, req.body.value, path, v)
    ensures AlwaysHas(show, req, "body." + NameOf("", path), ScalarString(show, v))
  {
    var name := "body." + NameOf("", path);
    forall vars: Vars | Extracted(show, req, vars)
      ensures name in vars && vars[name] == ScalarString(show, v)
    {
      var q, w := RecordedPlace(show, req, vars, path, v);
    }
  }

  /** Plain keys give every place a name of its own. */
  lemma PlainKeysGiveOneText(show: Show, doc: Json, path: seq<string>, v: Json)
    requires PlainKeys(doc) && LeadsTo(doc, path, v)
    ensures NameOf("", path) == ToLower(Dotted(path)) != "" && OneText(show, doc, path, v)
  {
    PathIsPlain(doc, path, v);
    assert path[0] in path;
    NameIsDotted("", path);
    DottedIsLonger(path);
    forall q, w | LeadsTo(doc, q, w) && NameOf("", q) == NameOf("", path)
      ensures w == v
    {
      PathIsPlain(doc, q, w);
      assert q[0] in q;
      NameIsDotted("", q);
      NamesAreInjective(doc, path, v, q, w);
    }
  }

  lemma DottedIsLonger(path: seq<string>)
    requires path != []
    ensures |Dotted(path)| >= |path[0]|
  {
  }

  /** A path whose placeholder is read as the path's name. */
  predicate Speakable(path: seq<string>) {
    path != [] && path[0] != "" && !IsSpace(Last(Dotted(path)))
  }

  function Last(s: string): char {
    if s == "" then ' ' else s[|s| - 1]
  }

  lemma PlaceholderName(path: seq<string>)
    requires Speakable(path)
    ensures ToLower(TrimSpace("body." + Dotted(path))) == "body." + NameOf("", path)
  {
    var raw := "body." + Dotted(path);
    TrimsNothing(raw);
    LowerAroundDot("body", Dotted(path));
    assert raw == "body" + "." + Dotted(path);
    assert ToLower("body") == "body";
    assert "body" + ("." + ToLower(Dotted(path))) == "body." + ToLower(Dotted(path));
    NameIsDotted("", path);
  }

  lemma SameMiddle(a: string, b: string, c: string, d: string)
    ensures a + b + c == a + d + c <==> b == d
  {
    if a + b + c == a + d + c {
      assert (a + b + c)[|a|..|a| + |b|] == b;
      assert (a + d + c)[|a|..|a| + |d|] == d;
    }
  }

  /** The prompt with the placeholder of a path in it. */
  function WithPlaceholder(text: string, path: seq<string>, rest: string): string
    requires path != []
  {
    text + ("{{" + ("body." + Dotted(path)) + "}}") + rest
  }

  lemma PlaceholderIsReplaced(text: string, path: seq<string>, rest: string, vars: Vars)
    requires Speakable(path) && "body." + NameOf("", path) in vars
    requires IndexDouble(text + "{", '{') == None && IndexDouble("body." + Dotted(path) + "}", '}') == None
    ensures
      Rendered(WithPlaceholder(text, path, rest), vars)
      == text + vars["body." + NameOf("", path)] + Rendered(rest, vars)
  {
    PlaceholderName(path);
    HoleIsFound(text, "body." + Dotted(path), rest);
    RenderScan(WithPlaceholder(text, path, rest), vars);
  }

  /** {{body.a.b}} always renders the value found by walking the body along a and b
      exactly if no place of the same name has another text. */
  lemma BodyPlaceholderRendersIff(show: Show, req: Request, path: seq<string>, v: Json, text: string, rest: string)
    requires req.body.Some? && LeadsTo(req.body.value, path, v) && Speakable(path)
    requires IndexDouble(text + "{", '{') == None && IndexDouble("body." + Dotted(path) + "}", '}') == None
    ensures
      (forall vars: Vars :: Extracted(show, req, vars) ==>
         Rendered(WithPlaceholder(text, path, rest), vars) == text + ScalarString(show, v) + Rendered(rest, vars))
      <==> OneText(show, req.body.value, path, v)
  {
    var name := "body." + NameOf("", path);
    NameIsDotted("", path);
    DottedIsLonger(path);
    BodyVariableIff(show, req, path, v);
    forall vars: Vars | Extracted(show, req, vars)
      ensures name in vars
      ensures Rendered(WithPlaceholder(text, path, rest), vars) == text + ScalarString(show, v) + Rendered(rest, vars)
        <==> vars[name] == ScalarString(show, v)
    {
      var q, w := RecordedPlace(show, req, vars, path, v);
      PlaceholderIsReplaced(text, path, rest, vars);
      SameMiddle(text, vars[name], Rendered(rest, vars), ScalarString(show, v));
    }
  }

  /** How a value of the body is written into a prompt; show writes numbers and
      arrays. */
  lemma ScalarIsShown(show: Show, v: Json, text: string)
    requires text == ScalarString(show, v)
    ensures v.Str? ==> text == v.s
    ensures v.Bool? ==> text == if v.b then "true" else "false"
    ensures v.Null? ==> text == ""
    ensures v.Num? || v.Arr? ==> text == show(v)
  {
  }

  // ------------------------------------- naming the other parts of a request

  /** The parts of a request that are maps, with the prefix of their names. A header
      stands for all its values, joined by commas. */
  predicate IsSource(req: Request, prefix: string, m: map<string, string>) {
    || (prefix == "path." && m == req.pathParams)
    || (prefix == "query." && m == req.query)
    || (prefix == "headers." && m.Keys == req.headers.Keys
        && forall k :: k in m ==> m[k] == CommaJoined(req.headers[k]))
  }

  /** Below such a prefix there is nothing but the map's own entries. */
  lemma OnlySourceBelow(show: Show, req: Request, prefix: string, m: map<string, string>, name: string, text: string)
    requires IsSource(req, prefix, m)
    ensures HasText(Offered(show, req), prefix + name, text)
      <==> exists k :: k in m && ToLower(k) == name && m[k] == text
  {
    var full := prefix + name;
    assert full[0] == prefix[0];
    if prefix == "headers." {
      assert m == JoinedHeaders(req.headers);
    }
    if HasText(Offered(show, req), full, text) {
      assert (full, text) in MapEntries(prefix, m);
      var k :| k in m && (full, text) == (prefix + ToLower(k), m[k]);
      SamePrefix(prefix, name, ToLower(k));
    }
    if k :| k in m && ToLower(k) == name && m[k] == text {
      assert (prefix + ToLower(k), m[k]) in MapEntries(prefix, m);
    }
  }

  /** Every key that differs from k in case alone has its text. */
  predicate OneSpelling(m: map<string, string>, k: string)
    requires k in m
  {
    forall l :: l in m && ToLower(l) == ToLower(k) ==> m[l] == m[k]
  }

  /** A path parameter, query parameter or header always is what the variable of its
      name holds exactly if no other spelling of the name has another value. */
  lemma SourceVariableIff(show: Show, req: Request, prefix: string, m: map<string, string>, k: string)
    requires IsSource(req, prefix, m) && k in m
    ensures AlwaysHas(show, req, prefix + ToLower(k), m[k]) <==> OneSpelling(m, k)
  {
    var name := prefix + ToLower(k);
    if OneSpelling(m, k) {
      forall vars: Vars | Extracted(show, req, vars)
        ensures name in vars && vars[name] == m[k]
      {
        OnlySourceBelow(show, req, prefix, m, ToLower(k), m[k]);
        assert Named(Offered(show, req), name);
        OnlySourceBelow(show, req, prefix, m, ToLower(k), vars[name]);
      }
    } else {
      var l :| l in m && ToLower(l) == ToLower(k) && m[l] != m[k];
      OnlySourceBelow(show, req, prefix, m, ToLower(k), m[l]);
      var vars := ExtractedWith(show, req, name, m[l]);
    }
  }

  /** A repeated header's values are joined by commas. */
  lemma {:induction false} CommaJoins(xs: seq<string>, ys: seq<string>)
    requires xs != [] && ys != []
    ensures CommaJoined(xs + ys) == CommaJoined(xs) + "," + CommaJoined(ys)
    ensures |ys| == 1 ==> CommaJoined(ys) == ys[0]
    decreases |xs|
  {
    if |xs| == 1 {
      assert (xs + ys)[1..] == ys;
    } else {
      assert (xs + ys)[1..] == xs[1..] + ys;
      CommaJoins(xs[1..], ys);
      assert xs[0] + "," + (CommaJoined(xs[1..]) + "," + CommaJoined(ys)) ==
        xs[0] + "," + CommaJoined(xs[1..]) + "," + CommaJoined(ys);
    }
  }

  lemma CookieIsOffered(show: Show, req: Request, vars: Vars, i: nat)
    requires Extracted(show, req, vars) && i < |req.cookies| && LastOfName(req.cookies, i)
    ensures
      var name := "cookies." + ToLower(req.cookies[i].0);
      name in vars && vars[name] == req.cookies[i].1
  {
  }

  /** A prompt with the placeholder of a named part in it. */
  function WithName(text: string, raw: string, rest: string): string {
    text + ("{{" + raw + "}}") + rest
  }

  lemma NamedIsReplaced(text: string, prefix: string, k: string, rest: string, vars: Vars)
    requires prefix in {"path.", "query.", "headers.", "cookies."} && !IsSpace((prefix + k)[|prefix + k| - 1])
    requires IndexDouble(text + "{", '{') == None && IndexDouble(prefix + k + "}", '}') == None
    requires prefix + ToLower(k) in vars
    ensures
      Rendered(WithName(text, prefix + k, rest), vars) == text + vars[prefix + ToLower(k)] + Rendered(rest, vars)
  {
    TrimsNothing(prefix + k);
    LowerOfPrefix(prefix, k);
    HoleIsFound(text, prefix + k, rest);
    RenderScan(WithName(text, prefix + k, rest), vars);
  }

  lemma LowerAppend(a: string, b: string)
    ensures ToLower(a + b) == ToLower(a) + ToLower(b)
  {
  }

  lemma SmallLetters(s: string)
    requires forall i :: 0 <= i < |s| ==> !('A' <= s[i] <= 'Z')
    ensures ToLower(s) == s
  {
  }

  lemma LowerOfPrefix(prefix: string, k: string)
    requires prefix in {"path.", "query.", "headers.", "cookies."}
    ensures ToLower(prefix + k) == prefix + ToLower(k)
  {
    LowerAppend(prefix, k);
    SmallLetters(prefix);
  }

  /** {{path.x}}, {{query.x}} and {{headers.x}} always render the named part exactly
      if no other spelling of the name has another value. */
  lemma SourcePlaceholderIff(show: Show, req: Request, prefix: string, m: map<string, string>, k: string,
      text: string, rest: string)
    requires IsSource(req, prefix, m) && k in m && !IsSpace((prefix + k)[|prefix + k| - 1])
    requires IndexDouble(text + "{", '{') == None && IndexDouble(prefix + k + "}", '}') == None
    ensures
      (forall vars: Vars :: Extracted(show, req, vars) ==>
         Rendered(WithName(text, prefix + k, rest), vars) == text + m[k] + Rendered(rest, vars))
      <==> OneSpelling(m, k)
  {
    var name := prefix + ToLower(k);
    SourceVariableIff(show, req, prefix, m, k);
    forall vars: Vars | Extracted(show, req, vars)
      ensures name in vars
      ensures Rendered(WithName(text, prefix + k, rest), vars) == text + m[k] + Rendered(rest, vars)
        <==> vars[name] == m[k]
    {
      OnlySourceBelow(show, req, prefix, m, ToLower(k), m[k]);
      assert Named(Offered(show, req), name);
      NamedIsReplaced(text, prefix, k, rest, vars);
      SameMiddle(text, vars[name], Rendered(rest, vars), m[k]);
    }
  }

  /** Spaces inside the braces and the case of the name do not matter; a name nothing
      is offered under renders as nothing. */
  lemma LooseNames(text: string, before: string, raw: string, after: string, other: string, rest: string, vars: Vars)
    requires Spaces(before) && Spaces(after) && ToLower(other) == ToLower(raw)
    requires raw != "" && !IsSpace(raw[0]) && !IsSpace(raw[|raw| - 1])
    requires other != "" && !IsSpace(other[0]) && !IsSpace(other[|other| - 1])
    requires IndexDouble(text + "{", '{') == None
    requires IndexDouble(before + raw + after + "}", '}') == None && IndexDouble(other + "}", '}') == None
    ensures Rendered(WithName(text, before + raw + after, rest), vars) == Rendered(WithName(text, other, rest), vars)
    ensures ToLower(raw) !in vars ==> Rendered(WithName(text, other, rest), vars) == text + Rendered(rest, vars)
  {
    TrimsPadding(before, raw, after);
    TrimsNothing(raw);
    TrimsNothing(other);
    HoleIsFound(text, before + raw + after, rest);
    HoleIsFound(text, other, rest);
    RenderScan(WithName(text, before + raw + after, rest), vars);
    RenderScan(WithName(text, other, rest), vars);
    assert text + "" == text;
  }

  /** {{cookies.x}} renders the last cookie of that name. */
  lemma CookiePlaceholder(show: Show, req: Request, vars: Vars, i: nat, text: string, rest: string)
    requires Extracted(show, req, vars) && i < |req.cookies| && LastOfName(req.cookies, i)
    requires var raw := "cookies." + req.cookies[i].0; !IsSpace(raw[|raw| - 1])
    requires IndexDouble(text + "{", '{') == None && IndexDouble("cookies." + req.cookies[i].0 + "}", '}') == None
    ensures
      Rendered(WithName(text, "cookies." + req.cookies[i].0, rest), vars)
      == text + req.cookies[i].1 + Rendered(rest, vars)
  {
    CookieIsOffered(show, req, vars, i);
    NamedIsReplaced(text, "cookies.", req.cookies[i].0, rest, vars);
  }

  lemma EntriesOfTwo(show: Show, doc: Object, k: string, l: string)
    requires doc.fields.Keys == {k, l}
    ensures Entries(show, "", doc) ==
      Entries(show, MemberName("", k), doc.fields[k]) + Entries(show, MemberName("", l), doc.fields[l])
  {
    assert k in doc.fields.Keys && l in doc.fields.Keys;
  }

  function TwoKeys(k: string, l: string, x: string, y: string): Object {
    Obj(map[k := Str(x), l := Str(y)])
  }

  lemma TwoKeysEntries(show: Show, k: string, l: string, x: string, y: string)
    requires k != "" && l != "" && k != l && ToLower(k) == ToLower(l)
    ensures Entries(show, "", TwoKeys(k, l, x, y)) == {(ToLower(k), x), (ToLower(k), y)}
  {
    var doc := TwoKeys(k, l, x, y);
    var name := ToLower(k);
    assert doc.fields[k] == Str(x) && doc.fields[l] == Str(y) && doc.fields.Keys == {k, l};
    assert MemberName("", k) == name && MemberName("", l) == name;
    EntriesOfTwo(show, doc, k, l);
    assert Entries(show, name, Str(x)) == {(name, x)} && Entries(show, name, Str(y)) == {(name, y)};
  }

  lemma OnlyBodyOffered(show: Show, doc: Json)
    ensures Offered(show, Request(map[], map[], map[], [], Some(doc))) == BodyEntries(show, Some(doc))
  {
    var none: map<string, string> := map[];
    assert JoinedHeaders(map[]) == none;
    assert MapEntries("path.", none) == {} && MapEntries("query.", none) == {} && MapEntries("headers.", none) == {};
    assert CookieEntries([]) == {};
  }

  /** Two keys that differ only in case share one name, and which of their values
      it gets depends on the order the object's keys are visited in. */
  lemma CollidingKeys(show: Show, k: string, l: string, x: string, y: string)
    requires k != "" && l != "" && k != l && ToLower(k) == ToLower(l)
    ensures
      var req := Request(map[], map[], map[], [], Some(TwoKeys(k, l, x, y)));
      && Extracted(show, req, map["body." + ToLower(k) := x])
      && Extracted(show, req, map["body." + ToLower(k) := y])
  {
    TwoKeysEntries(show, k, l, x, y);
    OnlyBodyOffered(show, TwoKeys(k, l, x, y));
    var offered := BodyEntries(show, Some(TwoKeys(k, l, x, y)));
    EitherIsRecorded("body." + ToLower(k), x, y, offered);
    EitherIsRecorded("body." + ToLower(k), y, x, offered);
  }

  lemma EitherIsRecorded(name: string, x: string, y: string, entries: set<Entry>)
    requires entries == {(name, x), (name, y)}
    ensures Records(map[], map[name := x], entries)
  {
    assert (name, x) in entries;
  }
}
