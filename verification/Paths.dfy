/** Slash-separated paths: the router's splitting and matching, the stateful
    resources' collections, and the importers' path conversions. */
module Paths {
  import opened Basics

  // ------------------------------------------------------- split and join

  predicate SlashFree(s: string) {
    forall i :: 0 <= i < |s| ==> s[i] != '/'
  }

  /** strings.Split(s, "/"). */
  function Split(s: string): (r: seq<string>)
    ensures |r| > 0
  {
    if s == "" then [""]
    else
      var rest := Split(s[1..]);
      if s[0] == '/' then [""] + rest else [[s[0]] + rest[0]] + rest[1..]
  }

  /** strings.Join(parts, "/"). */
  function Join(parts: seq<string>): string {
    if parts == [] then ""
    else if |parts| == 1 then parts[0]
    else parts[0] + "/" + Join(parts[1..])
  }

  lemma {:induction false} SplitPrefix(a: string, b: string)
    requires SlashFree(a)
    ensures Split(a + b) == [a + Split(b)[0]] + Split(b)[1..]
    decreases |a|
  {
    if a == "" {
      assert a + b == b && "" + Split(b)[0] == Split(b)[0];
      assert Split(b) == [Split(b)[0]] + Split(b)[1..];
    } else {
      assert (a + b)[1..] == a[1..] + b;
      SplitPrefix(a[1..], b);
      assert a == [a[0]] + a[1..];
      assert [a[0]] + (a[1..] + Split(b)[0]) == a + Split(b)[0];
    }
  }

  /** Splitting takes a join apart again. */
  lemma {:induction false} SplitJoin(parts: seq<string>)
    requires parts != [] && forall p :: p in parts ==> SlashFree(p)
    ensures Split(Join(parts)) == parts
    decreases |parts|
  {
    if |parts| == 1 {
      SplitPrefix(parts[0], "");
      assert parts[0] + "" == parts[0];
    } else {
      var tail := "/" + Join(parts[1..]);
      SplitJoin(parts[1..]);
      assert tail[1..] == Join(parts[1..]);
      SplitPrefix(parts[0], tail);
      assert parts[0] + "/" + Join(parts[1..]) == parts[0] + tail;
      assert parts[0] + Split(tail)[0] == parts[0];
      assert parts == [parts[0]] + parts[1..];
    }
  }

  function TrimLeftSlashes(s: string): string {
    if s != "" && s[0] == '/' then TrimLeftSlashes(s[1..]) else s
  }

  function TrimRightSlashes(s: string): string {
    if s != "" && s[|s| - 1] == '/' then TrimRightSlashes(s[..|s| - 1]) else s
  }

  /** strings.Trim(s, "/"). */
  function TrimSlashes(s: string): string {
    TrimRightSlashes(TrimLeftSlashes(s))
  }

  function SplitPath(p: string): seq<string> {
    var t := TrimSlashes(p);
    if t == "" then [] else Split(t)
  }

  predicate Segment(s: string) {
    s != "" && SlashFree(s)
  }

  predicate Segments(parts: seq<string>) {
    forall i :: 0 <= i < |parts| ==> Segment(parts[i])
  }

  lemma {:induction false} JoinEnds(parts: seq<string>)
    requires parts != [] && Segments(parts)
    ensures Join(parts) != "" && Join(parts)[0] != '/' && Join(parts)[|Join(parts)| - 1] != '/'
    decreases |parts|
  {
    if |parts| <= 1 {
    } else {
      JoinEnds(parts[1..]);
    }
  }

  /** The router splits a path built from segments into those segments. */
  lemma SplitPathOfJoin(parts: seq<string>)
    requires Segments(parts)
    ensures SplitPath("/" + Join(parts)) == parts
  {
    var p := "/" + Join(parts);
    assert p[1..] == Join(parts);
    if parts != [] {
      JoinEnds(parts);
      SplitJoin(parts);
      assert TrimLeftSlashes(p) == Join(parts);
    } else {
      assert TrimLeftSlashes(p) == "";
    }
  }

  predicate Slashes(s: string) {
    forall i :: 0 <= i < |s| ==> s[i] == '/'
  }

  lemma {:induction false} LeftSlashes(s: string) returns (before: string)
    ensures Slashes(before) && s == before + TrimLeftSlashes(s)
    ensures TrimLeftSlashes(s) != "" ==> TrimLeftSlashes(s)[0] != '/'
    decreases |s|
  {
    before := "";
    if s != "" && s[0] == '/' {
      var more := LeftSlashes(s[1..]);
      before := "/" + more;
      assert s == [s[0]] + s[1..];
    }
  }

  lemma {:induction false} RightSlashes(s: string) returns (after: string)
    ensures Slashes(after) && s == TrimRightSlashes(s) + after
    ensures var t := TrimRightSlashes(s); t != "" ==> t[|t| - 1] != '/' && t[0] == s[0]
    decreases |s|
  {
    after := "";
    if s != "" && s[|s| - 1] == '/' {
      var more := RightSlashes(s[..|s| - 1]);
      after := more + "/";
      assert s == s[..|s| - 1] + [s[|s| - 1]];
    }
  }

  lemma {:induction false} JoinSplit(s: string)
    ensures Join(Split(s)) == s && forall i :: 0 <= i < |Split(s)| ==> SlashFree(Split(s)[i])
    decreases |s|
  {
    if s == "" {
    } else {
      var rest := Split(s[1..]);
      JoinSplit(s[1..]);
      assert s == [s[0]] + s[1..];
      if s[0] == '/' {
        JoinTwo("", rest);
        assert "" + "/" + Join(rest) == s;
      } else {
        JoinExtend(s[0], rest);
      }
    }
  }

  /** For every path: the router's segments hold no slash, and joined they are the
      path without the slashes at its ends. */
  lemma SplitPathIsLossless(p: string) returns (before: string, after: string)
    ensures Slashes(before) && Slashes(after) && p == before + Join(SplitPath(p)) + after
    ensures forall i :: 0 <= i < |SplitPath(p)| ==> SlashFree(SplitPath(p)[i])
    ensures var t := Join(SplitPath(p)); t != "" ==> t[0] != '/' && t[|t| - 1] != '/'
    ensures SplitPath(p) == [] <==> Slashes(p)
  {
    before := LeftSlashes(p);
    after := RightSlashes(TrimLeftSlashes(p));
    var t := TrimSlashes(p);
    JoinSplit(t);
    assert p == before + t + after by {
      assert before + (t + after) == before + t + after;
    }
    if t != "" {
      assert p[|before|] == t[0];
    }
  }

  // ------------------------------------------------------------- matching

  predicate IsParam(seg: string) {
    seg != "" && seg[0] == ':'
  }

  function ParamName(seg: string): string {
    if IsParam(seg) then seg[1..] else seg
  }

  /** The pattern accepts the path: as many segments, the static ones equal. */
  predicate Matches(pattern: seq<string>, path: seq<string>) {
    |pattern| == |path| && forall i :: 0 <= i < |pattern| ==> IsParam(pattern[i]) || pattern[i] == path[i]
  }

  /** The path's values under the pattern's parameter names, the last of equal
      names winning. */
  function Captured(pattern: seq<string>, path: seq<string>): map<string, string>
    requires |pattern| == |path|
    decreases |pattern|
  {
    if pattern == [] then map[]
    else
      var n := |pattern| - 1;
      var before := Captured(pattern[..n], path[..n]);
      if IsParam(pattern[n]) then before[ParamName(pattern[n]) := path[n]] else before
  }

  /** The parameters captured are the pattern's, each with the value at the last
      segment of its name. */
  lemma {:induction false} CapturedIff(pattern: seq<string>, path: seq<string>, k: string, v: string)
    requires |pattern| == |path|
    ensures k in Captured(pattern, path) && Captured(pattern, path)[k] == v <==>
      exists i :: 0 <= i < |pattern| && pattern[i] == ":" + k && path[i] == v
                  && forall j :: i < j < |pattern| ==> pattern[j] != ":" + k
    decreases |pattern|
  {
    if pattern == [] {
    } else {
      var n := |pattern| - 1;
      CapturedIff(pattern[..n], path[..n], k, v);
      NamedSegment(pattern[n], k);
      if pattern[n] != ":" + k {
        forall i | 0 <= i < n && pattern[..n][i] == ":" + k && forall j :: i < j < n ==> pattern[..n][j] != ":" + k
          ensures pattern[i] == ":" + k && forall j :: i < j < |pattern| ==> pattern[j] != ":" + k
        {
          assert forall j :: i < j < n ==> pattern[j] == pattern[..n][j];
        }
      }
    }
  }

  lemma NamedSegment(seg: string, k: string)
    ensures IsParam(seg) && ParamName(seg) == k <==> seg == ":" + k
  {
    if IsParam(seg) {
      assert seg == [seg[0]] + seg[1..];
    }
  }

  method MatchPath(pattern: string, path: string) returns (params: Option<map<string, string>>)
    ensures params.Some? <==> Matches(SplitPath(pattern), SplitPath(path))
    ensures params.Some? ==> params.value == Captured(SplitPath(pattern), SplitPath(path))
  {
    var patternSegs := SplitPath(pattern);
    var pathSegs := SplitPath(path);
    if |patternSegs| != |pathSegs| {
      return None;
    }
    var captured := map[];
    for i := 0 to |patternSegs|
      invariant captured == Captured(patternSegs[..i], pathSegs[..i])
      invariant forall j :: 0 <= j < i ==> IsParam(patternSegs[j]) || patternSegs[j] == pathSegs[j]
    {
      var seg := patternSegs[i];
      assert patternSegs[..i + 1][..i] == patternSegs[..i] && pathSegs[..i + 1][..i] == pathSegs[..i];
      if IsParam(seg) {
        captured := captured[ParamName(seg) := pathSegs[i]];
      } else if seg != pathSegs[i] {
        return None;
      }
    }
    assert patternSegs[..|patternSegs|] == patternSegs && pathSegs[..|pathSegs|] == pathSegs;
    params := Some(captured);
  }

  /** How many segments of a pattern are static. */
  function Statics(segs: seq<string>): nat {
    if segs == [] then 0
    else Statics(segs[..|segs| - 1]) + if IsParam(segs[|segs| - 1]) then 0 else 1
  }

  ghost function StaticPlaces(segs: seq<string>): set<nat> {
    set i: nat | i < |segs| && (segs[i] == "" || segs[i][0] != ':')
  }

  lemma LastPlace(segs: seq<string>, n: nat)
    requires |segs| == n + 1
    ensures StaticPlaces(segs) == StaticPlaces(segs[..n]) + (if IsParam(segs[n]) then {} else {n})
    ensures n !in StaticPlaces(segs[..n])
  {
  }

  /** The score is the number of segments that do not begin with a colon. */
  lemma {:induction false} StaticsCount(segs: seq<string>)
    ensures Statics(segs) == |StaticPlaces(segs)|
    decreases |segs|
  {
    if segs == [] {
      assert StaticPlaces(segs) == {};
    } else {
      var n := |segs| - 1;
      StaticsCount(segs[..n]);
      LastPlace(segs, n);
    }
  }

  method StaticSegments(pattern: string) returns (count: nat)
    ensures count == Statics(SplitPath(pattern))
  {
    var segs := SplitPath(pattern);
    count := 0;
    for i := 0 to |segs|
      invariant count == Statics(segs[..i])
    {
      assert segs[..i + 1][..i] == segs[..i];
      if !IsParam(segs[i]) {
        count := count + 1;
      }
    }
    assert segs[..|segs|] == segs;
  }

  predicate MatchesPath(pattern: string, path: string) {
    Matches(SplitPath(pattern), SplitPath(path))
  }

  /** A matching pattern scores its static segments, any other -1. */
  function Score(pattern: string, path: string): int {
    if MatchesPath(pattern, path) then Statics(SplitPath(pattern)) else -1
  }

  function Scores(patterns: seq<string>, path: string): seq<int> {
    seq(|patterns|, i requires 0 <= i < |patterns| => Score(patterns[i], path))
  }

  /** best is the earliest of the highest scores, or there is nothing but -1. */
  predicate Leads(scores: seq<int>, best: Option<nat>) {
    match best
    case None => forall i :: 0 <= i < |scores| ==> scores[i] == -1
    case Some(b) =>
      && b < |scores| && scores[b] >= 0
      && (forall i :: 0 <= i < b ==> scores[i] < scores[b])
      && (forall i :: b < i < |scores| ==> scores[i] <= scores[b])
  }

  lemma NextLeader(scores: seq<int>, k: nat, best: Option<nat>)
    requires k < |scores| && Leads(scores[..k], best) && scores[k] >= -1
    ensures
      var better := if best.Some? then scores[k] > scores[best.value] else scores[k] >= 0;
      Leads(scores[..k + 1], if better then Some(k) else best)
  {
  }

  /** The parameters of a choice are the ones its pattern captures. */
  predicate CapturedBy(pattern: string, path: string, params: map<string, string>) {
    MatchesPath(pattern, path) && params == Captured(SplitPath(pattern), SplitPath(path))
  }

  /** One pattern's score, with what it captures. */
  method ScorePattern(pattern: string, path: string) returns (score: int, params: map<string, string>)
    ensures score == Score(pattern, path) >= -1
    ensures score >= 0 ==> CapturedBy(pattern, path, params)
  {
    var captured := MatchPath(pattern, path);
    if captured.None? {
      return -1, map[];
    }
    score := StaticSegments(pattern);
    params := captured.value;
  }

  /** The choice among the stored patterns: the earliest of those with the most
      static segments, with the parameters it captures. */
  method BestMatch(patterns: seq<string>, path: string) returns (best: Option<nat>, params: map<string, string>)
    ensures Leads(Scores(patterns, path), best)
    ensures best.Some? ==> CapturedBy(patterns[best.value], path, params)
  {
    best, params := None, map[];
    var bestStatic: int := -1;
    ghost var scores := Scores(patterns, path);
    for k := 0 to |patterns|
      invariant Leads(scores[..k], best)
      invariant bestStatic == if best.Some? then scores[best.value] else -1
      invariant best.Some? ==> CapturedBy(patterns[best.value], path, params)
    {
      var score, captured := ScorePattern(patterns[k], path);
      NextLeader(scores, k, best);
      if score > bestStatic {
        best, params, bestStatic := Some(k), captured, score;
      }
    }
    assert scores[..|patterns|] == scores;
  }

  /** A choice is made exactly if some pattern matches. */
  lemma ChosenIffMatched(patterns: seq<string>, best: Option<nat>, path: string)
    requires Leads(Scores(patterns, path), best)
    ensures best.Some? <==> exists i :: 0 <= i < |patterns| && MatchesPath(patterns[i], path)
  {
    if best.Some? {
      assert Scores(patterns, path)[best.value] >= 0;
      assert MatchesPath(patterns[best.value], path);
    } else {
      forall i | 0 <= i < |patterns|
        ensures !MatchesPath(patterns[i], path)
      {
        assert Scores(patterns, path)[i] == -1;
      }
    }
  }

  // ---------------------------------------------------- OpenAPI templates

  /** The position of the first brace in s, or |s|. */
  function FirstBrace(s: string): (n: nat)
    ensures n <= |s|
    ensures n < |s| ==> s[n] == '{' || s[n] == '}'
    ensures forall i :: 0 <= i < n ==> s[i] != '{' && s[i] != '}'
  {
    if s == "" || s[0] == '{' || s[0] == '}' then 0 else 1 + FirstBrace(s[1..])
  }

  /** toRoutePath: every "{" one or more non-brace characters "}" becomes ":" and
      those characters. */
  function ToRoutePath(raw: string): string
    decreases |raw|
  {
    if raw == "" then ""
    else if raw[0] == '{' then
      var n := FirstBrace(raw[1..]);
      if 0 < n < |raw| - 1 && raw[1 + n] == '}' then ":" + raw[1..1 + n] + ToRoutePath(raw[n + 2..])
      else [raw[0]] + ToRoutePath(raw[1..])
    else [raw[0]] + ToRoutePath(raw[1..])
  }

  /** A template segment: literal text or a whole-segment parameter. */
  datatype Piece = Static(text: string) | Param(name: string)

  predicate Plain(s: string) {
    Segment(s) && forall i :: 0 <= i < |s| ==> s[i] != '{' && s[i] != '}'
  }

  predicate PieceOk(p: Piece) {
    match p
    case Static(text) => Plain(text) && text[0] != ':'
    case Param(name) => Plain(name)
  }

  function TemplateOf(p: Piece): string {
    match p
    case Static(text) => text
    case Param(name) => "{" + name + "}"
  }

  function RouteOf(p: Piece): string {
    match p
    case Static(text) => text
    case Param(name) => ":" + name
  }

  /** A piece with its parameter replaced by a value. */
  function FilledOf(p: Piece, values: map<string, string>): string {
    match p
    case Static(text) => text
    case Param(name) => if name in values then values[name] else ""
  }

  function Templates(pieces: seq<Piece>): seq<string> {
    seq(|pieces|, i requires 0 <= i < |pieces| => TemplateOf(pieces[i]))
  }

  function Routes(pieces: seq<Piece>): seq<string> {
    seq(|pieces|, i requires 0 <= i < |pieces| => RouteOf(pieces[i]))
  }

  function Filled(pieces: seq<Piece>, values: map<string, string>): seq<string> {
    seq(|pieces|, i requires 0 <= i < |pieces| => FilledOf(pieces[i], values))
  }

  lemma {:induction false} FirstBraceOf(name: string, rest: string)
    requires forall i :: 0 <= i < |name| ==> name[i] != '{' && name[i] != '}'
    ensures FirstBrace(name + rest) == |name| + FirstBrace(rest)
    decreases |name|
  {
    if name == "" {
      assert name + rest == rest;
    } else {
      assert (name + rest)[1..] == name[1..] + rest;
      FirstBraceOf(name[1..], rest);
    }
  }

  lemma {:induction false} RoutePastText(text: string, rest: string)
    requires forall i :: 0 <= i < |text| ==> text[i] != '{' && text[i] != '}'
    ensures ToRoutePath(text + rest) == text + ToRoutePath(rest)
    decreases |text|
  {
    if text == "" {
      assert text + rest == rest;
    } else {
      assert (text + rest)[1..] == text[1..] + rest;
      RoutePastText(text[1..], rest);
      assert text == [text[0]] + text[1..];
    }
  }

  predicate Braceless(s: string) {
    forall i :: 0 <= i < |s| ==> s[i] != '{' && s[i] != '}'
  }

  /** Anywhere in a path, a pair of braces around a name makes a parameter. */
  lemma RoutePastParam(name: string, rest: string)
    requires name != "" && Braceless(name)
    ensures ToRoutePath("{" + name + "}" + rest) == ":" + name + ToRoutePath(rest)
  {
    var raw := "{" + name + "}" + rest;
    var tail := "}" + rest;
    assert raw[1..] == name + tail;
    FirstBraceOf(name, tail);
    assert FirstBrace(tail) == 0;
    assert raw[1..1 + |name|] == name;
    assert raw[|name| + 2..] == rest;
  }

  /** s begins with a name of n characters and a closing brace. */
  predicate NameCloses(s: string, n: int) {
    0 < n < |s| && Braceless(s[..n]) && s[n] == '}'
  }

  /** A brace that neither opens nor closes such a pair stays, as does text. */
  lemma StrayBraceStays(c: char, rest: string)
    requires c == '{' ==> forall n :: !NameCloses(rest, n)
    ensures ToRoutePath([c] + rest) == [c] + ToRoutePath(rest)
  {
    var raw := [c] + rest;
    assert raw[1..] == rest;
    assert c == '{' ==> !NameCloses(rest, FirstBrace(rest));
  }

  lemma RoutePastPiece(p: Piece, rest: string)
    requires PieceOk(p)
    ensures ToRoutePath(TemplateOf(p) + rest) == RouteOf(p) + ToRoutePath(rest)
  {
    match p
    case Static(text) => RoutePastText(text, rest);
    case Param(name) =>
      RoutePastParam(name, rest);
      assert ":" + name + ToRoutePath(rest) == (":" + name) + ToRoutePath(rest);
  }

  lemma RoutePastFirst(p: Piece, templates: seq<string>, routes: seq<string>)
    requires PieceOk(p) && templates != [] && routes != [] && ToRoutePath(Join(templates)) == Join(routes)
    ensures ToRoutePath(Join([TemplateOf(p)] + templates)) == Join([RouteOf(p)] + routes)
  {
    var tail := "/" + Join(templates);
    RoutePastPiece(p, tail);
    RoutePastText("/", Join(templates));
    JoinTwo(TemplateOf(p), templates);
    JoinTwo(RouteOf(p), routes);
    Regroup(TemplateOf(p), "/", Join(templates));
    Regroup(RouteOf(p), "/", Join(routes));
  }

  lemma FirstTemplate(pieces: seq<Piece>)
    requires pieces != []
    ensures Templates(pieces) == [TemplateOf(pieces[0])] + Templates(pieces[1..])
    ensures Routes(pieces) == [RouteOf(pieces[0])] + Routes(pieces[1..])
  {
  }

  lemma RouteOfOne(p: Piece)
    requires PieceOk(p)
    ensures ToRoutePath(Join([TemplateOf(p)])) == Join([RouteOf(p)])
  {
    RoutePastPiece(p, "");
    assert TemplateOf(p) + "" == TemplateOf(p) && RouteOf(p) + "" == RouteOf(p);
  }

  lemma {:induction false} RouteOfJoin(pieces: seq<Piece>)
    requires forall p :: p in pieces ==> PieceOk(p)
    ensures ToRoutePath(Join(Templates(pieces))) == Join(Routes(pieces))
    decreases |pieces|
  {
    if pieces == [] {
    } else {
      var rest := pieces[1..];
      FirstTemplate(pieces);
      if rest == [] {
        RouteOfOne(pieces[0]);
      } else {
        RouteOfJoin(rest);
        RoutePastFirst(pieces[0], Templates(rest), Routes(rest));
      }
    }
  }

  /** The conversion turns each whole-segment parameter of a template into a
      router parameter and nothing else. */
  lemma TemplateConverts(pieces: seq<Piece>)
    requires forall p :: p in pieces ==> PieceOk(p)
    ensures ToRoutePath("/" + Join(Templates(pieces))) == "/" + Join(Routes(pieces))
  {
    RoutePastText("/", Join(Templates(pieces)));
    RouteOfJoin(pieces);
  }

  predicate NamesDistinct(pieces: seq<Piece>) {
    forall i, j :: 0 <= i < j < |pieces| && pieces[i].Param? && pieces[j].Param? ==> pieces[i].name != pieces[j].name
  }

  ghost function ParamNames(pieces: seq<Piece>): set<string> {
    set i | 0 <= i < |pieces| && pieces[i].Param? :: pieces[i].name
  }

  lemma {:induction false} CapturedValues(pieces: seq<Piece>, values: map<string, string>)
    requires NamesDistinct(pieces) && ParamNames(pieces) <= values.Keys
    requires forall i :: 0 <= i < |pieces| ==> PieceOk(pieces[i])
    ensures Captured(Routes(pieces), Filled(pieces, values)) == map k | k in ParamNames(pieces) :: values[k]
    decreases |pieces|
  {
    if pieces == [] {
    } else {
      var n := |pieces| - 1;
      var front := pieces[..n];
      assert Routes(pieces)[..n] == Routes(front) && Filled(pieces, values)[..n] == Filled(front, values);
      NamesOfLast(pieces);
      CapturedValues(front, values);
      RouteIsParamIff(pieces[n]);
    }
  }

  lemma RouteIsParamIff(p: Piece)
    requires PieceOk(p)
    ensures IsParam(RouteOf(p)) <==> p.Param?
    ensures p.Param? ==> ParamName(RouteOf(p)) == p.name
  {
  }

  lemma NamesOfLast(pieces: seq<Piece>)
    requires pieces != []
    ensures
      var n := |pieces| - 1;
      ParamNames(pieces) == ParamNames(pieces[..n]) + (if pieces[n].Param? then {pieces[n].name} else {})
  {
    var n := |pieces| - 1;
    forall k | k in ParamNames(pieces)
      ensures k in ParamNames(pieces[..n]) + (if pieces[n].Param? then {pieces[n].name} else {})
    {
      var i :| 0 <= i < |pieces| && pieces[i].Param? && pieces[i].name == k;
      if i < n { assert pieces[..n][i] == pieces[i]; }
    }
    forall k | k in ParamNames(pieces[..n])
      ensures k in ParamNames(pieces)
    {
      var i :| 0 <= i < n && pieces[..n][i].Param? && pieces[..n][i].name == k;
      assert pieces[i] == pieces[..n][i];
    }
  }

  lemma RoutesAreSegments(pieces: seq<Piece>, values: map<string, string>)
    requires forall p :: p in pieces ==> PieceOk(p)
    requires ParamNames(pieces) <= values.Keys && forall k :: k in values ==> Segment(values[k])
    ensures Segments(Routes(pieces)) && Segments(Filled(pieces, values))
  {
    forall i | 0 <= i < |pieces|
      ensures Segment(Routes(pieces)[i]) && Segment(Filled(pieces, values)[i])
    {
      assert PieceOk(pieces[i]);
      if pieces[i].Param? {
        assert pieces[i].name in ParamNames(pieces);
        ParamSegment(pieces[i].name);
      }
    }
  }

  lemma CapturesAll(pieces: seq<Piece>, values: map<string, string>)
    requires forall i :: 0 <= i < |pieces| ==> PieceOk(pieces[i])
    requires NamesDistinct(pieces) && values.Keys == ParamNames(pieces)
    ensures Matches(Routes(pieces), Filled(pieces, values))
    ensures Captured(Routes(pieces), Filled(pieces, values)) == values
  {
    CapturedValues(pieces, values);
    assert values == map k | k in ParamNames(pieces) :: values[k];
    forall i | 0 <= i < |pieces|
      ensures IsParam(Routes(pieces)[i]) || Routes(pieces)[i] == Filled(pieces, values)[i]
    {
      RouteIsParamIff(pieces[i]);
    }
  }

  /** Filling a template's parameters with non-empty, slash-free values gives a
      path that the converted template matches, capturing exactly those values. */
  lemma FilledTemplateMatches(pieces: seq<Piece>, values: map<string, string>)
    requires forall p :: p in pieces ==> PieceOk(p)
    requires NamesDistinct(pieces) && values.Keys == ParamNames(pieces)
    requires forall k :: k in values ==> Segment(values[k])
    ensures
      var pattern := SplitPath(ToRoutePath("/" + Join(Templates(pieces))));
      var path := SplitPath("/" + Join(Filled(pieces, values)));
      Matches(pattern, path) && Captured(pattern, path) == values
  {
    TemplateConverts(pieces);
    RoutesAreSegments(pieces, values);
    SplitPathOfJoin(Routes(pieces));
    SplitPathOfJoin(Filled(pieces, values));
    CapturesAll(pieces, values);
  }

  // ---------------------------------------------------- resource paths

  /** resourceParts: the collection path and the trailing parameter's name. */
  function ResourceParts(path: string): (string, string) {
    var segs := SplitPath(path);
    if segs == [] then ("/", "")
    else
      var last := segs[|segs| - 1];
      if IsParam(last) then ("/" + Join(segs[..|segs| - 1]), last[1..]) else ("/" + Join(segs), "")
  }

  lemma PartsOfCollection(parts: seq<string>)
    requires Segments(parts) && (parts != [] ==> !IsParam(parts[|parts| - 1]))
    ensures ResourceParts("/" + Join(parts)) == ("/" + Join(parts), "")
  {
    SplitPathOfJoin(parts);
    assert "/" + "" == "/";
  }

  lemma PartsOfItem(parts: seq<string>, last: string)
    requires Segments(parts) && Segment(last) && IsParam(last)
    ensures ResourceParts("/" + Join(parts + [last])) == ("/" + Join(parts), last[1..])
  {
    SplitPathOfJoin(parts + [last]);
    assert (parts + [last])[..|parts|] == parts;
  }

  lemma ParamSegment(name: string)
    requires SlashFree(name)
    ensures Segment(":" + name) && IsParam(":" + name) && (":" + name)[1..] == name
  {
  }

  /** The endpoint of a collection and that of its items share the collection,
      the root collection included. */
  lemma ItemSharesCollection(parts: seq<string>, name: string)
    requires Segments(parts) && (parts != [] ==> !IsParam(parts[|parts| - 1])) && SlashFree(name)
    ensures ResourceParts("/" + Join(parts)) == ("/" + Join(parts), "")
    ensures ResourceParts("/" + Join(parts + [":" + name])) == ("/" + Join(parts), name)
  {
    ParamSegment(name);
    PartsOfCollection(parts);
    PartsOfItem(parts, ":" + name);
  }

  // ------------------------------------------------------- slash cleaning

  /** The non-empty slash-separated pieces of s, in order. */
  function NonEmpty(parts: seq<string>): seq<string> {
    if parts == [] then []
    else (if parts[0] == "" then [] else [parts[0]]) + NonEmpty(parts[1..])
  }

  function PiecesOf(s: string): seq<string> {
    NonEmpty(Split(s))
  }

  predicate DoubleSlashAt(s: string, i: nat) {
    i + 1 < |s| && s[i] == '/' && s[i + 1] == '/'
  }

  predicate HasDoubleSlash(s: string) {
    exists i: nat :: i < |s| && DoubleSlashAt(s, i)
  }

  /** strings.ReplaceAll(s, "//", "/"). */
  function ReplaceDoubles(s: string): (r: string)
    ensures |r| <= |s|
  {
    if s == "" then ""
    else if DoubleSlashAt(s, 0) then "/" + ReplaceDoubles(s[2..])
    else [s[0]] + ReplaceDoubles(s[1..])
  }

  lemma {:induction false} ReplaceShortens(s: string)
    requires HasDoubleSlash(s)
    ensures |ReplaceDoubles(s)| < |s|
    decreases |s|
  {
    if !DoubleSlashAt(s, 0) {
      var i: nat :| i < |s| && DoubleSlashAt(s, i);
      assert DoubleSlashAt(s[1..], i - 1);
      ReplaceShortens(s[1..]);
    }
  }

  /** Replacing double slashes keeps the first piece and the non-empty others. */
  lemma {:induction false} ReplaceKeepsPieces(s: string)
    ensures Split(ReplaceDoubles(s))[0] == Split(s)[0]
    ensures NonEmpty(Split(ReplaceDoubles(s))[1..]) == NonEmpty(Split(s)[1..])
    decreases |s|
  {
    if s == "" {
    } else if DoubleSlashAt(s, 0) {
      var t := ReplaceDoubles(s[2..]);
      ReplaceKeepsPieces(s[2..]);
      assert s[1..][1..] == s[2..] && ("/" + t)[1..] == t;
      NonEmptyCons(Split(t));
      NonEmptyCons(Split(s[2..]));
    } else {
      var t := ReplaceDoubles(s[1..]);
      ReplaceKeepsPieces(s[1..]);
      assert ([s[0]] + t)[1..] == t;
      NonEmptyCons(Split(t));
      NonEmptyCons(Split(s[1..]));
    }
  }

  lemma NonEmptyCons(parts: seq<string>)
    requires parts != []
    ensures NonEmpty(parts) == (if parts[0] == "" then [] else [parts[0]]) + NonEmpty(parts[1..])
    ensures NonEmpty([""] + parts) == NonEmpty(parts)
  {
    assert ([""] + parts)[1..] == parts;
    assert [] + NonEmpty(parts) == NonEmpty(parts);
  }

  lemma LeadingSlashKeepsPieces(s: string)
    ensures PiecesOf("/" + s) == PiecesOf(s)
  {
    assert ("/" + s)[1..] == s;
    NonEmptyCons(Split(s));
  }

  lemma {:induction false} NonEmptyAppend(a: seq<string>, b: seq<string>)
    ensures NonEmpty(a + b) == NonEmpty(a) + NonEmpty(b)
    decreases |a|
  {
    if a == [] {
      assert a + b == b;
    } else {
      var first := if a[0] == "" then [] else [a[0]];
      NonEmptyAppend(a[1..], b);
      NonEmptyCons(a);
      NonEmptyCons(a + b);
      assert (a + b)[0] == a[0] && (a + b)[1..] == a[1..] + b;
      Regroup(first, NonEmpty(a[1..]), NonEmpty(b));
    }
  }

  lemma {:induction false} SplitTrailingSlash(s: string)
    ensures Split(s + "/") == Split(s) + [""]
    decreases |s|
  {
    if s == "" {
      assert s + "/" == "/" && "/"[1..] == "";
      assert Split("/") == [""] + Split("");
    } else {
      assert (s + "/")[1..] == s[1..] + "/";
      SplitTrailingSlash(s[1..]);
    }
  }

  lemma TrailingSlashKeepsPieces(s: string)
    ensures PiecesOf(s + "/") == PiecesOf(s)
  {
    SplitTrailingSlash(s);
    NonEmptyAppend(Split(s), [""]);
    assert NonEmpty([""]) == [];
  }

  /** A string without double slashes and without a slash at either end is its
      pieces joined. */
  lemma {:induction false} CleanIsJoined(s: string)
    requires !HasDoubleSlash(s) && (s == "" || s[|s| - 1] != '/')
    ensures s != "" && s[0] != '/' ==> s == Join(Split(s)) && NonEmpty(Split(s)) == Split(s)
    ensures s != "" && s[0] == '/' ==> |s| > 1 && s[1] != '/' && !HasDoubleSlash(s[1..])
    decreases |s|
  {
    if s == "" {
    } else {
      TailHasNoDoubles(s);
      if s[0] == '/' {
        assert !DoubleSlashAt(s, 0);
      } else if |s| == 1 {
        assert s[1..] == "" && [s[0]] + "" == s;
        assert Split(s) == [s] + Split("")[1..];
        assert NonEmpty([s]) == [s] + NonEmpty([s][1..]);
      } else {
        var t := s[1..];
        CleanIsJoined(t);
        if t[0] == '/' {
          var u := t[1..];
          CleanIsJoined(u);
          assert Split(t) == [""] + Split(u);
          assert Split(s) == [[s[0]]] + Split(u) by {
            assert Split(s) == [[s[0]] + Split(t)[0]] + Split(t)[1..];
            assert [s[0]] + "" == [s[0]];
            assert Split(t)[1..] == Split(u);
          }
          JoinTwo([s[0]], Split(u));
          assert s == [s[0]] + "/" + u;
          NonEmptyFirst([s[0]], Split(u));
        } else {
          var parts := Split(t);
          assert Split(s) == [[s[0]] + parts[0]] + parts[1..];
          JoinExtend(s[0], parts);
          assert s == [s[0]] + t;
          NonEmptyExtend(s[0], parts);
        }
      }
    }
  }

  lemma TailHasNoDoubles(s: string)
    requires s != "" && !HasDoubleSlash(s)
    ensures !HasDoubleSlash(s[1..])
  {
    if HasDoubleSlash(s[1..]) {
      var i: nat :| i < |s[1..]| && DoubleSlashAt(s[1..], i);
      assert DoubleSlashAt(s, i + 1);
    }
  }

  lemma JoinTwo(a: string, parts: seq<string>)
    requires parts != []
    ensures Join([a] + parts) == a + "/" + Join(parts)
  {
    assert ([a] + parts)[1..] == parts;
  }

  lemma NonEmptyFirst(a: string, parts: seq<string>)
    requires a != ""
    ensures NonEmpty([a] + parts) == [a] + NonEmpty(parts)
  {
    assert ([a] + parts)[1..] == parts;
  }

  lemma JoinExtend(c: char, parts: seq<string>)
    requires parts != []
    ensures Join([[c] + parts[0]] + parts[1..]) == [c] + Join(parts)
  {
    var longer := [[c] + parts[0]] + parts[1..];
    assert longer[1..] == parts[1..];
    if |parts| > 1 {
      assert ([c] + parts[0]) + "/" + Join(parts[1..]) == [c] + (parts[0] + "/" + Join(parts[1..]));
    }
  }

  lemma NonEmptyExtend(c: char, parts: seq<string>)
    requires parts != [] && NonEmpty(parts) == parts
    ensures NonEmpty([[c] + parts[0]] + parts[1..]) == [[c] + parts[0]] + parts[1..]
  {
    NonEmptyAll(parts);
    AllNonEmpty(parts[1..]);
    NonEmptyFirst([c] + parts[0], parts[1..]);
  }

  lemma {:induction false} NonEmptyAll(parts: seq<string>)
    ensures |NonEmpty(parts)| <= |parts|
    ensures NonEmpty(parts) == parts ==> forall i :: 0 <= i < |parts| ==> parts[i] != ""
    decreases |parts|
  {
    if parts == [] {
    } else {
      NonEmptyAll(parts[1..]);
      if NonEmpty(parts) == parts {
        assert |NonEmpty(parts)| == (if parts[0] == "" then 0 else 1) + |NonEmpty(parts[1..])|;
        assert parts == [parts[0]] + parts[1..];
        assert NonEmpty(parts)[1..] == NonEmpty(parts[1..]);
      }
    }
  }

  lemma {:induction false} AllNonEmpty(parts: seq<string>)
    requires forall i :: 0 <= i < |parts| ==> parts[i] != ""
    ensures NonEmpty(parts) == parts
    decreases |parts|
  {
    if parts == [] {
    } else {
      AllNonEmpty(parts[1..]);
      assert parts == [parts[0]] + parts[1..];
    }
  }

  lemma {:induction false} SplitSlashFree(s: string)
    ensures forall i :: 0 <= i < |Split(s)| ==> SlashFree(Split(s)[i])
    decreases |s|
  {
    if s == "" {
    } else {
      SplitSlashFree(s[1..]);
    }
  }

  lemma {:induction false} NonEmptySegments(parts: seq<string>)
    requires forall i :: 0 <= i < |parts| ==> SlashFree(parts[i])
    ensures Segments(NonEmpty(parts))
    decreases |parts|
  {
    if parts == [] {
    } else {
      NonEmptySegments(parts[1..]);
    }
  }

  /** What cleaning makes of s. */
  function Cleaned(s: string): string {
    if PiecesOf(s) == [] then "" else "/" + Join(PiecesOf(s))
  }

  /** The slash-cleaning tail of postmanPath, on the non-empty path it has arrived
      at. */
  method CleanSlashes(path: string) returns (raw: string)
    requires path != ""
    ensures raw == Cleaned(path)
  {
    raw := path;
    if raw[0] != '/' {
      LeadingSlashKeepsPieces(raw);
      raw := "/" + raw;
    }
    while raw != "" && raw[|raw| - 1] == '/'
      invariant PiecesOf(raw) == PiecesOf(path)
      invariant raw != "" ==> raw[0] == '/'
      decreases |raw|
    {
      TrailingSlashKeepsPieces(raw[..|raw| - 1]);
      assert raw == raw[..|raw| - 1] + "/";
      raw := raw[..|raw| - 1];
    }
    while HasDoubleSlash(raw)
      invariant PiecesOf(raw) == PiecesOf(path)
      invariant raw != "" ==> raw[0] == '/' && raw[|raw| - 1] != '/'
      decreases |raw|
    {
      ReplaceShortens(raw);
      ReplaceKeepsAllPieces(raw);
      ReplaceKeepsEnds(raw);
      raw := ReplaceDoubles(raw);
    }
    CleanedAlready(raw);
  }

  lemma ReplaceKeepsAllPieces(s: string)
    ensures PiecesOf(ReplaceDoubles(s)) == PiecesOf(s)
  {
    ReplaceKeepsPieces(s);
    NonEmptyCons(Split(s));
    NonEmptyCons(Split(ReplaceDoubles(s)));
  }

  lemma CleanedAlready(s: string)
    requires !HasDoubleSlash(s) && (s != "" ==> s[0] == '/' && s[|s| - 1] != '/')
    ensures s == Cleaned(s)
  {
    CleanIsJoined(s);
    if s != "" {
      CleanIsJoined(s[1..]);
      assert s == "/" + s[1..];
      LeadingSlashKeepsPieces(s[1..]);
    }
  }

  lemma {:induction false} ReplaceKeepsEnds(s: string)
    ensures s != "" ==> ReplaceDoubles(s) != "" && ReplaceDoubles(s)[0] == s[0]
    ensures s != "" && s[|s| - 1] != '/' ==> ReplaceDoubles(s)[|ReplaceDoubles(s)| - 1] != '/'
    decreases |s|
  {
    if s == "" {
    } else {
      if DoubleSlashAt(s, 0) {
        ReplaceKeepsEnds(s[2..]);
      } else {
        ReplaceKeepsEnds(s[1..]);
      }
    }
  }

  /** The router splits a cleaned path into exactly the non-empty pieces of the
      original. */
  lemma CleanedSplitsIntoPieces(s: string)
    ensures SplitPath(Cleaned(s)) == PiecesOf(s) && Segments(PiecesOf(s))
  {
    SplitSlashFree(s);
    NonEmptySegments(Split(s));
    if PiecesOf(s) != [] {
      SplitPathOfJoin(PiecesOf(s));
    }
  }
}
