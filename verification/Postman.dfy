/** The router path of a recorded request, from whichever form its URL was
    exported in. */
module Postman {
  import opened Basics
  import opened Json
  import opened Text
  import opened Paths

  /** A request URL: the whole text, and a path that is a string, an array of
      segments, or missing. */
  datatype Url = Url(raw: string, path: Json)

  // ----------------------------------------------------------- conversion

  /** The position of the first c in s, or |s|. */
  function FirstOf(s: string, c: char): (n: nat)
    ensures n <= |s|
    ensures n < |s| ==> s[n] == c
    ensures forall i :: 0 <= i < n ==> s[i] != c
  {
    if s == "" || s[0] == c then 0 else 1 + FirstOf(s[1..], c)
  }

  predicate SchemeAt(s: string, i: nat) {
    i + 2 < |s| && s[i] == ':' && s[i + 1] == '/' && s[i + 2] == '/'
  }

  /** The position of the first "://" in s, or |s|. */
  function FirstScheme(s: string): (n: nat)
    ensures n <= |s|
    ensures n < |s| ==> SchemeAt(s, n)
    ensures forall i: nat :: i < n ==> !SchemeAt(s, i)
  {
    if s == "" || SchemeAt(s, 0) then 0
    else
      var n := FirstScheme(s[1..]);
      assert n < |s[1..]| ==> SchemeAt(s, 1 + n);
      assert forall i: nat :: 1 <= i < 1 + n ==> (SchemeAt(s, i) <==> SchemeAt(s[1..], i - 1));
      1 + n
  }

  function CutAt(s: string, c: char): string {
    s[..FirstOf(s, c)]
  }

  /** What follows the scheme and host, without query and fragment. */
  function StripUrlPrefix(raw: string): string {
    var i := FirstScheme(raw);
    if i == |raw| then CutAt(CutAt(raw, '?'), '#')
    else
      var rest := raw[i + 3..];
      var j := FirstOf(rest, '/');
      if j == |rest| then "" else CutAt(CutAt(rest[j..], '?'), '#')
  }

  predicate StartsWithPair(s: string, c: char) {
    |s| >= 2 && s[0] == c && s[1] == c
  }

  predicate EndsWithPair(s: string, c: char) {
    |s| >= 2 && s[|s| - 1] == c && s[|s| - 2] == c
  }

  /** A leading {{variable}} before the first slash stands for the host. */
  function DropLeadingVariable(raw: string): string {
    var i := FirstOf(raw, '/');
    if StartsWithPair(raw, '{') && i < |raw| && EndsWithPair(raw[..i], '}') then raw[i + 1..] else raw
  }

  /** Every "{{" one or more non-brace characters "}}" becomes ":" and those
      characters. */
  function ConvertVariables(s: string): string
    decreases |s|
  {
    if s == "" then ""
    else if StartsWithPair(s, '{') then
      var n := FirstBrace(s[2..]);
      if n > 0 && StartsWithPair(s[2 + n..], '}') then ":" + s[2..2 + n] + ConvertVariables(s[n + 4..])
      else [s[0]] + ConvertVariables(s[1..])
    else [s[0]] + ConvertVariables(s[1..])
  }

  /** The strings of a path given as an array; other elements are skipped. */
  function Strings(elems: seq<Json>): seq<string> {
    if elems == [] then []
    else Strings(elems[..|elems| - 1]) + if elems[|elems| - 1].Str? then [elems[|elems| - 1].s] else []
  }

  function PathText(path: Json): string {
    match path
    case Str(s) => s
    case Arr(elems) => Join(Strings(elems))
    case _ => ""
  }

  function Target(u: Url): string {
    if PathText(u.path) != "" then PathText(u.path) else u.raw
  }

  function Converted(target: string): string {
    TrimSpace(ConvertVariables(DropLeadingVariable(StripUrlPrefix(target))))
  }

  function RouterPath(u: Option<Url>): string {
    if u.None? || Converted(Target(u.value)) == "" then "" else Cleaned(Converted(Target(u.value)))
  }

  /** The path of a URL as text, from either of its forms. */
  method TextOf(path: Json) returns (raw: string)
    ensures raw == PathText(path)
  {
    raw := "";
    match path {
      case Str(s) => raw := s;
      case Arr(elems) =>
        var parts: seq<string> := [];
        for i := 0 to |elems|
          invariant parts == Strings(elems[..i])
        {
          assert elems[..i + 1][..i] == elems[..i];
          if elems[i].Str? {
            parts := parts + [elems[i].s];
          }
        }
        assert elems[..|elems|] == elems;
        raw := Join(parts);
      case _ =>
    }
  }

  method PostmanPath(u: Option<Url>) returns (path: string)
    ensures path == RouterPath(u)
  {
    if u.None? {
      return "";
    }
    var raw := TextOf(u.value.path);
    if raw == "" {
      raw := u.value.raw;
    }
    raw := StripUrlPrefix(raw);
    raw := DropLeadingVariable(raw);
    raw := ConvertVariables(raw);
    raw := TrimSpace(raw);
    if raw == "" {
      return "";
    }
    path := CleanSlashes(raw);
  }

  // ---------------------------------------------------- the forms of a URL

  predicate WordChar(c: char) {
    c != '/' && c != '{' && c != '}' && c != '?' && c != '#' && !IsSpace(c)
  }

  predicate Word(s: string) {
    s != "" && forall i :: 0 <= i < |s| ==> WordChar(s[i])
  }

  predicate Words(pieces: seq<Piece>) {
    forall i :: 0 <= i < |pieces| ==> Word(match pieces[i] case Static(text) => text case Param(name) => name)
  }

  /** A piece as Postman writes it. */
  function WrittenOf(p: Piece): string {
    match p
    case Static(text) => text
    case Param(name) => "{{" + name + "}}"
  }

  function Written(pieces: seq<Piece>): seq<string> {
    seq(|pieces|, i requires 0 <= i < |pieces| => WrittenOf(pieces[i]))
  }

  /** The path the pieces stand for. */
  function RouteFor(pieces: seq<Piece>): string {
    "/" + Join(Routes(pieces))
  }

  /** No query or fragment mark and no space. */
  predicate Unmarked(s: string) {
    forall i :: 0 <= i < |s| ==> s[i] != '?' && s[i] != '#' && !IsSpace(s[i])
  }

  lemma {:induction false} JoinUnmarked(parts: seq<string>)
    requires forall i :: 0 <= i < |parts| ==> Unmarked(parts[i])
    ensures Unmarked(Join(parts))
    decreases |parts|
  {
    if |parts| <= 1 {
    } else {
      JoinUnmarked(parts[1..]);
    }
  }

  lemma {:induction false} JoinHasNoDoubleSlash(parts: seq<string>)
    requires Segments(parts)
    ensures forall i: nat :: !DoubleSlashAt(Join(parts), i)
    decreases |parts|
  {
    if |parts| <= 1 {
    } else {
      var tail := Join(parts[1..]);
      JoinHasNoDoubleSlash(parts[1..]);
      JoinEnds(parts[1..]);
      var n := |parts[0]| + 1;
      forall i: nat
        ensures !DoubleSlashAt(Join(parts), i)
      {
        assert i >= n ==> (DoubleSlashAt(Join(parts), i) <==> DoubleSlashAt(tail, i - n));
      }
    }
  }

  lemma PieceIsSegment(p: Piece)
    requires Words([p])
    ensures Segment(WrittenOf(p)) && Unmarked(WrittenOf(p))
    ensures Segment(RouteOf(p)) && Unmarked(RouteOf(p))
  {
    assert Word(match [p][0] case Static(text) => text case Param(name) => name);
  }

  lemma PiecesAreSegments(pieces: seq<Piece>)
    requires Words(pieces)
    ensures Segments(Written(pieces)) && Segments(Routes(pieces))
    ensures Unmarked(Join(Written(pieces))) && Unmarked(Join(Routes(pieces)))
  {
    forall i | 0 <= i < |pieces|
      ensures Segment(Written(pieces)[i]) && Segment(Routes(pieces)[i])
      ensures Unmarked(Written(pieces)[i]) && Unmarked(Routes(pieces)[i])
    {
      PieceIsSegment(pieces[i]);
    }
    JoinUnmarked(Written(pieces));
    JoinUnmarked(Routes(pieces));
  }

  // -------------------------------------------------- converting variables

  lemma PrependOne(text: string, rest: string)
    requires text != ""
    ensures [text[0]] + (text[1..] + rest) == text + rest
  {
  }

  lemma {:induction false} ConvertPastText(text: string, rest: string)
    requires forall i :: 0 <= i < |text| ==> text[i] != '{'
    ensures ConvertVariables(text + rest) == text + ConvertVariables(rest)
    decreases |text|
  {
    if text == "" {
      assert text + rest == rest;
    } else {
      var s := text + rest;
      assert s[0] == text[0] && s[1..] == text[1..] + rest;
      ConvertPastText(text[1..], rest);
      PrependOne(text, ConvertVariables(rest));
    }
  }

  /** Anywhere in a path, a double pair of braces around a name makes a parameter. */
  lemma ConvertPastVariable(name: string, rest: string)
    requires name != "" && Braceless(name)
    ensures ConvertVariables("{{" + name + "}}" + rest) == ":" + name + ConvertVariables(rest)
  {
    var tail := "}}" + rest;
    VariableParts(name, rest);
    FirstBraceOf(name, tail);
    assert FirstBrace(tail) == 0;
  }

  /** s begins with a double brace, a name of n characters and its closing pair. */
  predicate VariableCloses(s: string, n: int) {
    0 < n < |s| - 3 && StartsWithPair(s, '{') && Braceless(s[2..2 + n]) && s[2 + n] == '}' && s[3 + n] == '}'
  }

  lemma ClosesAtBrace(s: string)
    requires StartsWithPair(s, '{')
    ensures
      var n := FirstBrace(s[2..]);
      n > 0 && StartsWithPair(s[2 + n..], '}') ==> VariableCloses(s, n)
  {
    var inner := s[2..];
    var n := FirstBrace(inner);
    assert s[2..2 + n] == inner[..n];
    assert forall i :: 0 <= i < n ==> inner[..n][i] == inner[i];
  }

  /** What does not begin with such a variable keeps its first character. */
  lemma StrayCharacterStays(s: string)
    requires s != "" && forall n :: !VariableCloses(s, n)
    ensures ConvertVariables(s) == [s[0]] + ConvertVariables(s[1..])
  {
    if StartsWithPair(s, '{') {
      ClosesAtBrace(s);
    }
  }

  lemma VariableParts(name: string, rest: string)
    ensures
      var s := "{{" + name + "}}" + rest;
      && s[2..] == name + ("}}" + rest)
      && s[2..2 + |name|] == name
      && s[2 + |name|..] == "}}" + rest
      && s[|name| + 4..] == rest
  {
  }

  lemma ConvertPastPiece(p: Piece, rest: string)
    requires Words([p])
    ensures ConvertVariables(WrittenOf(p) + rest) == RouteOf(p) + ConvertVariables(rest)
  {
    assert Word(match [p][0] case Static(text) => text case Param(name) => name);
    match p
    case Static(text) => ConvertPastText(text, rest);
    case Param(name) => ConvertPastVariable(name, rest);
  }

  lemma FirstWritten(pieces: seq<Piece>)
    requires pieces != []
    ensures Written(pieces) == [WrittenOf(pieces[0])] + Written(pieces[1..])
  {
  }

  lemma {:induction false} ConvertJoin(pieces: seq<Piece>, tail: string)
    requires Words(pieces)
    ensures ConvertVariables(Join(Written(pieces)) + tail) == Join(Routes(pieces)) + ConvertVariables(tail)
    decreases |pieces|
  {
    if pieces == [] {
      assert "" + tail == tail;
    } else {
      var p, rest := pieces[0], pieces[1..];
      assert Words([p]) && Words(rest);
      FirstWritten(pieces);
      FirstTemplate(pieces);
      if rest == [] {
        ConvertPastPiece(p, tail);
      } else {
        ConvertJoin(rest, tail);
        ConvertFirst(p, Written(rest), Routes(rest), tail);
      }
    }
  }

  lemma ConvertFirst(p: Piece, written: seq<string>, routes: seq<string>, tail: string)
    requires Words([p]) && written != [] && routes != []
    requires ConvertVariables(Join(written) + tail) == Join(routes) + ConvertVariables(tail)
    ensures ConvertVariables(Join([WrittenOf(p)] + written) + tail) ==
      Join([RouteOf(p)] + routes) + ConvertVariables(tail)
  {
    ConvertPastPiece(p, "/" + (Join(written) + tail));
    ConvertPastText("/", Join(written) + tail);
    JoinTwo(WrittenOf(p), written);
    JoinTwo(RouteOf(p), routes);
    FourParts(WrittenOf(p), "/", Join(written), tail);
    FourParts(RouteOf(p), "/", Join(routes), ConvertVariables(tail));
  }

  lemma FourParts(a: string, b: string, c: string, d: string)
    ensures a + b + c + d == a + (b + (c + d))
  {
  }

  // ------------------------------------------------------ the common tail

  lemma RouteIsClean(pieces: seq<Piece>)
    requires Words(pieces) && pieces != []
    ensures Cleaned(Join(Routes(pieces))) == RouteFor(pieces) && Cleaned(RouteFor(pieces)) == RouteFor(pieces)
  {
    PiecesAreSegments(pieces);
    SplitJoin(Routes(pieces));
    AllNonEmpty(Routes(pieces));
    LeadingSlashKeepsPieces(Join(Routes(pieces)));
  }

  lemma UnmarkedIsTrimmed(s: string)
    requires Unmarked(s)
    ensures TrimSpace(s) == s
  {
    if s != "" {
      TrimsNothing(s);
    }
  }

  lemma SlashedConverts(pieces: seq<Piece>)
    requires Words(pieces)
    ensures ConvertVariables("/" + Join(Written(pieces))) == RouteFor(pieces)
  {
    ConvertJoin(pieces, "");
    ConvertPastText("/", Join(Written(pieces)));
    assert Join(Written(pieces)) + "" == Join(Written(pieces)) && Join(Routes(pieces)) + "" == Join(Routes(pieces));
  }

  lemma RouteIsTrimmed(pieces: seq<Piece>)
    requires Words(pieces) && pieces != []
    ensures TrimSpace(Join(Routes(pieces))) == Join(Routes(pieces)) != ""
    ensures TrimSpace(RouteFor(pieces)) == RouteFor(pieces) != ""
  {
    PiecesAreSegments(pieces);
    JoinEnds(Routes(pieces));
    UnmarkedIsTrimmed(Join(Routes(pieces)));
    UnmarkedIsTrimmed(RouteFor(pieces));
  }

  /** Once only the written path is left, the rest of the conversion gives its
      route. */
  lemma WrittenConverts(pieces: seq<Piece>, target: string)
    requires Words(pieces) && pieces != []
    requires
      var left := DropLeadingVariable(StripUrlPrefix(target));
      left == Join(Written(pieces)) || left == "/" + Join(Written(pieces))
    ensures Converted(target) != "" && Cleaned(Converted(target)) == RouteFor(pieces)
  {
    ConvertJoin(pieces, "");
    assert Join(Written(pieces)) + "" == Join(Written(pieces)) && Join(Routes(pieces)) + "" == Join(Routes(pieces));
    SlashedConverts(pieces);
    RouteIsTrimmed(pieces);
    RouteIsClean(pieces);
    if DropLeadingVariable(StripUrlPrefix(target)) == Join(Written(pieces)) {
      assert Converted(target) == Join(Routes(pieces));
    } else {
      assert Converted(target) == RouteFor(pieces);
    }
  }

  lemma {:induction false} FirstOfIn(s: string, c: char, rest: string)
    requires forall i :: 0 <= i < |s| ==> s[i] != c
    ensures FirstOf(s + rest, c) == |s| + FirstOf(rest, c)
    decreases |s|
  {
    if s == "" {
      assert s + rest == rest;
    } else {
      assert (s + rest)[1..] == s[1..] + rest;
      FirstOfIn(s[1..], c, rest);
    }
  }

  /** Cutting at the query and the fragment leaves what precedes both. */
  lemma CutsLeave(s: string, tail: string)
    requires Unmarked(s) && (tail == "" || tail[0] == '?' || tail[0] == '#')
    ensures CutAt(CutAt(s + tail, '?'), '#') == s
  {
    FirstOfIn(s, '?', tail);
    var kept := tail[..FirstOf(tail, '?')];
    assert CutAt(s + tail, '?') == s + kept;
    FirstOfIn(s, '#', kept);
    assert FirstOf(kept, '#') == 0;
  }

  lemma NoSchemeIn(s: string)
    requires forall i: nat :: !SchemeAt(s, i)
    ensures FirstScheme(s) == |s|
  {
  }

  lemma NothingToDrop(s: string)
    requires !StartsWithPair(s, '{')
    ensures DropLeadingVariable(s) == s
  {
  }

  // ------------------------------------------------------------- theorems

  lemma SlashedHasNoScheme(pieces: seq<Piece>)
    requires Words(pieces) && pieces != []
    ensures forall i: nat :: !SchemeAt("/" + Join(Written(pieces)), i) && !SchemeAt(Join(Written(pieces)), i)
  {
    var j := Join(Written(pieces));
    PiecesAreSegments(pieces);
    JoinHasNoDoubleSlash(Written(pieces));
    forall i: nat
      ensures !SchemeAt("/" + j, i) && !SchemeAt(j, i)
    {
      assert !DoubleSlashAt(j, i + 1) && !DoubleSlashAt(j, i);
    }
  }

  /** A path given as a string with a leading slash gives its route. */
  lemma StringForm(pieces: seq<Piece>, raw: string)
    requires Words(pieces) && pieces != []
    ensures RouterPath(Some(Url(raw, Str("/" + Join(Written(pieces)))))) == RouteFor(pieces)
  {
    var path := "/" + Join(Written(pieces));
    PiecesAreSegments(pieces);
    SlashedHasNoScheme(pieces);
    NoSchemeIn(path);
    CutsLeave(path, "");
    assert path + "" == path;
    NothingToDrop(path);
    WrittenConverts(pieces, path);
  }

  predicate Padding(s: string) {
    Spaces(s) && forall i :: 0 <= i < |s| ==> s[i] != '?' && s[i] != '#' && s[i] != ':' && s[i] != '/' && s[i] != '{'
  }

  lemma SpacesArePadding(s: string)
    requires Spaces(s)
    ensures Padding(s)
  {
  }

  lemma PaddedIsKept(before: string, path: string, after: string)
    requires Padding(before) && Padding(after) && Unmarked(path) && path != "" && path[0] == '/'
    requires forall i: nat :: !SchemeAt(path, i)
    ensures DropLeadingVariable(StripUrlPrefix(before + (path + after))) == before + (path + after)
  {
    var s := before + (path + after);
    forall i: nat
      ensures !SchemeAt(s, i)
    {
      if |before| <= i < |before| + |path| {
        assert !SchemeAt(path, i - |before|);
      }
    }
    NoSchemeIn(s);
    FirstOfIn(s, '?', "");
    FirstOfIn(s, '#', "");
    assert s + "" == s;
    NothingToDrop(s);
  }

  lemma PaddedConverts(pieces: seq<Piece>, before: string, after: string)
    requires Words(pieces) && Padding(before) && Padding(after)
    ensures ConvertVariables(before + ("/" + Join(Written(pieces)) + after)) == before + (RouteFor(pieces) + after)
  {
    var written, routes := Join(Written(pieces)), Join(Routes(pieces));
    Regroup("/", written, after);
    ConvertPastText(before, "/" + (written + after));
    ConvertPastText("/", written + after);
    ConvertJoin(pieces, after);
    PaddingConverts(after);
    Regroup("/", routes, after);
  }

  lemma PaddingConverts(s: string)
    requires Padding(s)
    ensures ConvertVariables(s) == s
  {
    ConvertPastText(s, "");
    assert s + "" == s;
  }

  /** Spaces around such a path do not matter. */
  lemma SpacedStringForm(pieces: seq<Piece>, before: string, after: string, raw: string)
    requires Words(pieces) && pieces != [] && Spaces(before) && Spaces(after)
    ensures RouterPath(Some(Url(raw, Str(before + ("/" + Join(Written(pieces)) + after))))) == RouteFor(pieces)
  {
    var path := "/" + Join(Written(pieces));
    SpacesArePadding(before);
    SpacesArePadding(after);
    PiecesAreSegments(pieces);
    SlashedHasNoScheme(pieces);
    PaddedIsKept(before, path, after);
    PaddedConverts(pieces, before, after);
    PaddedRoute(pieces, before, after, before + (path + after));
    PathIsText(before + (path + after), path[0], |before|, raw);
  }

  lemma PaddedRoute(pieces: seq<Piece>, before: string, after: string, target: string)
    requires Words(pieces) && pieces != [] && Spaces(before) && Spaces(after)
    requires ConvertVariables(DropLeadingVariable(StripUrlPrefix(target))) == before + (RouteFor(pieces) + after)
    ensures Converted(target) == RouteFor(pieces) == Cleaned(RouteFor(pieces)) && RouteFor(pieces) != ""
  {
    Regroup(before, RouteFor(pieces), after);
    TrimsPadding(before, RouteFor(pieces), after);
    RouteIsTrimmed(pieces);
    RouteIsClean(pieces);
  }

  lemma PathIsText(text: string, c: char, i: nat, raw: string)
    requires i < |text| && text[i] == c
    ensures Target(Url(raw, Str(text))) == text
  {
  }

  lemma FirstSegmentKept(first: string, rest: string)
    requires first != "" && first[|first| - 1] != '}' && forall i :: 0 <= i < |first| ==> first[i] != '/'
    ensures DropLeadingVariable(first + ("/" + rest)) == first + ("/" + rest)
  {
    FirstOfIn(first, '/', "/" + rest);
    FrontOf(first, "/" + rest);
  }

  lemma FrontOf(a: string, b: string)
    ensures (a + b)[..|a|] == a
  {
  }

  lemma JoinIsStripped(parts: seq<string>)
    requires parts != [] && Segments(parts) && forall i :: 0 <= i < |parts| ==> Unmarked(parts[i])
    ensures StripUrlPrefix(Join(parts)) == Join(parts)
  {
    JoinHasNoDoubleSlash(parts);
    JoinUnmarked(parts);
    forall i: nat
      ensures !SchemeAt(Join(parts), i)
    {
      assert !DoubleSlashAt(Join(parts), i + 1);
    }
    assert Join(parts) + "" == Join(parts);
    StripBare(Join(parts), "");
  }

  lemma JoinIsCleaned(parts: seq<string>)
    requires parts != [] && Segments(parts) && forall i :: 0 <= i < |parts| ==> Unmarked(parts[i])
    ensures TrimSpace(Join(parts)) == Join(parts) != "" && Cleaned(Join(parts)) == "/" + Join(parts)
  {
    JoinUnmarked(parts);
    JoinEnds(parts);
    UnmarkedIsTrimmed(Join(parts));
    SplitJoin(parts);
    AllNonEmpty(parts);
  }

  lemma WithFirst(first: string, parts: seq<string>)
    requires Segment(first) && Unmarked(first) && Segments(parts) && forall i :: 0 <= i < |parts| ==> Unmarked(parts[i])
    ensures Segments([first] + parts) && forall i :: 0 <= i < |[first] + parts| ==> Unmarked(([first] + parts)[i])
  {
  }

  lemma PartConverts(name: string, text: string, pieces: seq<Piece>)
    requires Word(name) && Word(text) && Words(pieces)
    ensures ConvertVariables("{{" + name + "}}" + text + ("/" + Join(Written(pieces)))) ==
      ":" + name + text + ("/" + Join(Routes(pieces)))
  {
    SlashedConverts(pieces);
    TextPartConverts("{{" + name + "}}", name, text, "/" + Join(Written(pieces)), "/" + Join(Routes(pieces)));
  }

  lemma TextPartConverts(variable: string, name: string, text: string, tail: string, converted: string)
    requires Word(name) && Word(text) && variable == "{{" + name + "}}" && ConvertVariables(tail) == converted
    ensures ConvertVariables(variable + text + tail) == ":" + name + text + converted
  {
    ConvertPastVariable(name, text + tail);
    ConvertPastText(text, tail);
    Regroup(variable, text, tail);
    Regroup(":" + name, text, converted);
  }

  lemma PartIsSegment(name: string, text: string)
    requires Word(name) && Word(text)
    ensures Segment("{{" + name + "}}" + text) && Unmarked("{{" + name + "}}" + text)
    ensures Segment(":" + name + text) && Unmarked(":" + name + text)
    ensures var first := "{{" + name + "}}" + text; first[|first| - 1] != '}'
  {
  }

  lemma PiecesAreUnmarked(pieces: seq<Piece>)
    requires Words(pieces)
    ensures forall i :: 0 <= i < |pieces| ==> Unmarked(Written(pieces)[i]) && Unmarked(Routes(pieces)[i])
  {
    forall i | 0 <= i < |pieces| {
      PieceIsSegment(pieces[i]);
    }
  }

  /** A first segment that only begins with a variable is no host: it stays. */
  lemma PartVariableForm(name: string, text: string, pieces: seq<Piece>, raw: string)
    requires Word(name) && Word(text) && Words(pieces) && pieces != []
    ensures RouterPath(Some(Url(raw, Str("{{" + name + "}}" + text + ("/" + Join(Written(pieces))))))) ==
      "/" + (":" + name + text + ("/" + Join(Routes(pieces))))
  {
    var first, second := "{{" + name + "}}" + text, ":" + name + text;
    PartIsSegment(name, text);
    PiecesAreSegments(pieces);
    PiecesAreUnmarked(pieces);
    WithFirst(first, Written(pieces));
    WithFirst(second, Routes(pieces));
    JoinIsStripped([first] + Written(pieces));
    JoinIsCleaned([second] + Routes(pieces));
    JoinTwo(first, Written(pieces));
    JoinTwo(second, Routes(pieces));
    Regroup(first, "/", Join(Written(pieces)));
    Regroup(second, "/", Join(Routes(pieces)));
    FirstSegmentKept(first, Join(Written(pieces)));
    PartConverts(name, text, pieces);
    PathIsText(first + ("/" + Join(Written(pieces))), '{', 0, raw);
  }

  /** A whole URL without a path yields nothing. */
  lemma BareHostForm(scheme: string, host: string)
    requires ':' !in scheme && '/' !in host
    ensures RouterPath(Some(Url(scheme + "://" + host, Null))) == ""
  {
    var raw := scheme + "://" + host;
    SchemeFound(scheme, host);
    assert raw[|scheme| + 3..] == host;
    FirstOfIn(host, '/', "");
    assert host + "" == host;
    assert StripUrlPrefix(raw) == "";
  }

  lemma StripWhole(scheme: string, host: string, path: string, tail: string)
    requires ':' !in scheme && '/' !in host && Unmarked(path) && path != "" && path[0] == '/'
    requires tail == "" || tail[0] == '?' || tail[0] == '#'
    ensures StripUrlPrefix(scheme + "://" + (host + (path + tail))) == path
  {
    var rest := host + (path + tail);
    SchemeFound(scheme, rest);
    assert (scheme + "://" + rest)[|scheme| + 3..] == rest;
    FirstOfIn(host, '/', path + tail);
    assert rest[|host|..] == path + tail;
    CutsLeave(path, tail);
  }

  lemma StripBare(s: string, tail: string)
    requires Unmarked(s) && (tail == "" || tail[0] == '?' || tail[0] == '#')
    requires forall i: nat :: !SchemeAt(s + tail, i)
    ensures StripUrlPrefix(s + tail) == s
  {
    NoSchemeIn(s + tail);
    CutsLeave(s, tail);
  }

  lemma WholeTextForm(pieces: seq<Piece>, raw: string)
    requires Words(pieces) && pieces != []
    requires
      var left := DropLeadingVariable(StripUrlPrefix(raw));
      left == Join(Written(pieces)) || left == "/" + Join(Written(pieces))
    ensures RouterPath(Some(Url(raw, Null))) == RouteFor(pieces)
  {
    WrittenConverts(pieces, raw);
  }

  /** So does a whole URL, whatever its query or fragment. */
  lemma WholeUrlForm(pieces: seq<Piece>, scheme: string, host: string, tail: string)
    requires Words(pieces) && pieces != []
    requires ':' !in scheme && '/' !in host && (tail == "" || tail[0] == '?' || tail[0] == '#')
    ensures
      RouterPath(Some(Url(scheme + "://" + (host + ("/" + Join(Written(pieces)) + tail)), Null))) == RouteFor(pieces)
  {
    var path := "/" + Join(Written(pieces));
    PiecesAreSegments(pieces);
    StripWhole(scheme, host, path, tail);
    NothingToDrop(path);
    WholeTextForm(pieces, scheme + "://" + (host + (path + tail)));
  }

  lemma SchemeFound(scheme: string, rest: string)
    requires ':' !in scheme
    ensures FirstScheme(scheme + "://" + rest) == |scheme|
  {
    var raw := scheme + "://" + rest;
    assert SchemeAt(raw, |scheme|);
    assert forall i: nat :: i < |scheme| ==> raw[i] == scheme[i] && scheme[i] in scheme;
  }

  /** A query or fragment cannot complete a "://". */
  lemma SchemeInTail(s: string, tail: string)
    requires (forall i: nat :: !SchemeAt(s, i)) && (tail == "" || tail[0] == '?' || tail[0] == '#')
    ensures FirstScheme(s + tail) == |s| + FirstScheme(tail)
  {
    var n := FirstScheme(tail);
    forall i: nat | i < |s| + n
      ensures !SchemeAt(s + tail, i)
    {
      if i < |s| {
        assert !SchemeAt(s, i);
      } else {
        assert !SchemeAt(tail, i - |s|);
      }
    }
    assert n < |tail| ==> SchemeAt(s + tail, |s| + n);
  }

  /** A text that can only be a variable standing for the host. */
  predicate VariableHost(host: string) {
    && StartsWithPair(host, '{') && EndsWithPair(host, '}')
    && forall i :: 0 <= i < |host| ==> host[i] != '/' && host[i] != '?' && host[i] != '#' && !IsSpace(host[i])
  }

  lemma VariableIsHost(base: string)
    requires Word(base)
    ensures VariableHost("{{" + base + "}}")
  {
  }

  lemma HostHasNoScheme(host: string, path: string)
    requires VariableHost(host) && forall i: nat :: !SchemeAt(path, i)
    ensures forall i: nat :: !SchemeAt(host + path, i)
  {
    forall i: nat
      ensures !SchemeAt(host + path, i)
    {
      if i >= |host| {
        assert !SchemeAt(path, i - |host|);
      }
    }
  }

  lemma StripFromScheme(raw: string, i: nat)
    requires i == FirstScheme(raw) && i < |raw|
    ensures StripUrlPrefix(raw) == StripUrlPrefix(raw[i..])
  {
    var after := raw[i..];
    assert SchemeAt(after, 0);
    assert FirstScheme(after) == 0;
    assert after[3..] == raw[i + 3..];
  }

  lemma SameStripSameRoute(a: string, b: string)
    requires StripUrlPrefix(a) == StripUrlPrefix(b)
    ensures RouterPath(Some(Url(a, Null))) == RouterPath(Some(Url(b, Null)))
  {
    assert Target(Url(a, Null)) == a && Target(Url(b, Null)) == b;
    assert Converted(a) == Converted(b);
  }

  /** Nothing before the first "://" matters. */
  lemma BeforeScheme(raw: string, before: string, rest: string)
    requires raw == before + rest && |before| == FirstScheme(raw) && rest != ""
    ensures RouterPath(Some(Url(raw, Null))) == RouterPath(Some(Url(rest, Null)))
  {
    assert raw[|before|..] == rest;
    StripFromScheme(raw, |before|);
    SameStripSameRoute(raw, rest);
  }

  /** A URL whose host is a variable gives its route unless its query or fragment
      holds another URL: then it gives what that one alone gives. */
  lemma VariableHostForm(pieces: seq<Piece>, base: string, tail: string)
    requires Words(pieces) && pieces != [] && Word(base)
    requires tail == "" || tail[0] == '?' || tail[0] == '#'
    ensures
      RouterPath(Some(Url("{{" + base + "}}" + ("/" + Join(Written(pieces)) + tail), Null))) ==
        if FirstScheme(tail) == |tail| then RouteFor(pieces)
        else RouterPath(Some(Url(tail[FirstScheme(tail)..], Null)))
  {
    VariableIsHost(base);
    SlashedHasNoScheme(pieces);
    HostForm(pieces, "{{" + base + "}}", "/" + Join(Written(pieces)), tail);
  }

  lemma HostForm(pieces: seq<Piece>, host: string, path: string, tail: string)
    requires Words(pieces) && pieces != [] && VariableHost(host) && path == "/" + Join(Written(pieces))
    requires (forall i: nat :: !SchemeAt(path, i)) && (tail == "" || tail[0] == '?' || tail[0] == '#')
    ensures
      RouterPath(Some(Url(host + (path + tail), Null))) ==
        if FirstScheme(tail) == |tail| then RouteFor(pieces)
        else RouterPath(Some(Url(tail[FirstScheme(tail)..], Null)))
  {
    HostHasNoScheme(host, path);
    SchemeInTail(host + path, tail);
    Regroup(host, path, tail);
    if FirstScheme(tail) == |tail| {
      PlainVariableHost(pieces, host, path, tail);
    } else {
      SchemedTail(host + path, tail, FirstScheme(tail));
    }
  }

  lemma SchemedTail(s: string, tail: string, n: nat)
    requires n < |tail| && n == FirstScheme(tail) && FirstScheme(s + tail) == |s| + n
    ensures RouterPath(Some(Url(s + tail, Null))) == RouterPath(Some(Url(tail[n..], Null)))
  {
    assert s + tail == (s + tail[..n]) + tail[n..];
    BeforeScheme(s + tail, s + tail[..n], tail[n..]);
  }

  lemma PlainVariableHost(pieces: seq<Piece>, host: string, path: string, tail: string)
    requires Words(pieces) && pieces != [] && path == "/" + Join(Written(pieces))
    requires VariableHost(host) && (tail == "" || tail[0] == '?' || tail[0] == '#')
    requires FirstScheme(host + path + tail) == |host + path + tail|
    ensures RouterPath(Some(Url(host + (path + tail), Null))) == RouteFor(pieces)
  {
    PiecesAreSegments(pieces);
    Regroup(host, path, tail);
    VariableHostStripped(host, path, tail);
    assert path[1..] == Join(Written(pieces));
    WholeTextForm(pieces, host + (path + tail));
  }

  lemma VariableHostStripped(host: string, path: string, tail: string)
    requires VariableHost(host) && Unmarked(path) && path != "" && path[0] == '/'
    requires tail == "" || tail[0] == '?' || tail[0] == '#'
    requires FirstScheme(host + path + tail) == |host + path + tail|
    ensures DropLeadingVariable(StripUrlPrefix(host + path + tail)) == path[1..]
  {
    CutsLeave(host + path, tail);
    HostDropped(host, path);
  }

  /** A URL whose host is a variable, with a query. */
  function QueryUrl(base: string, path: string, query: string): string {
    "{{" + base + "}}" + ("/" + path + ("?" + query))
  }

  /** The route of such a URL whose query ends in another URL is the other URL's, so
      it is the own one exactly if the two are equal. */
  lemma NestedUrlForm(pieces: seq<Piece>, others: seq<Piece>, base: string, query: string, host: string, tail: string)
    requires Words(others) && others != []
    requires '/' !in host && (tail == "" || tail[0] == '?' || tail[0] == '#')
    requires ':' !in QueryUrl(base, Join(Written(pieces)), query)
    ensures
      var before := QueryUrl(base, Join(Written(pieces)), query);
      var u := Url(before + "://" + (host + ("/" + Join(Written(others)) + tail)), Null);
      && RouterPath(Some(u)) == RouteFor(others)
      && (RouterPath(Some(u)) == RouteFor(pieces) <==> RouteFor(others) == RouteFor(pieces))
  {
    WholeUrlForm(others, QueryUrl(base, Join(Written(pieces)), query), host, tail);
  }

  lemma OneSegment(pieces: seq<Piece>, text: string)
    requires pieces == [Static(text)]
    ensures Join(Written(pieces)) == text && RouteFor(pieces) == "/" + text
  {
    assert Written(pieces) == [text] && Routes(pieces) == [text];
  }

  lemma NestedUrlParts(before: string, raw: string, text: string)
    requires before == QueryUrl("base", "a", "next=http") && text == "b"
    requires raw == QueryUrl("base", "a", "next=http://h/b")
    ensures ':' !in before && raw == before + "://" + ("h" + ("/" + text + ""))
  {
  }

  lemma RoutesOfTwo(own: seq<Piece>, others: seq<Piece>)
    requires own == [Static("a")] && others == [Static("b")]
    ensures Join(Written(own)) == "a" && Join(Written(others)) == "b" && RouteFor(others) != RouteFor(own)
  {
    OneSegment(own, "a");
    OneSegment(others, "b");
    assert ("/" + "a")[1] != ("/" + "b")[1];
  }

  lemma NestedUrlOf(own: string, text: string, others: seq<Piece>, raw: string)
    requires own == "a" && text == "b" && Words(others) && others != [] && text == Join(Written(others))
    requires raw == QueryUrl("base", own, "next=http://h/b")
    ensures RouterPath(Some(Url(raw, Null))) == RouteFor(others)
  {
    var before := QueryUrl("base", own, "next=http");
    NestedUrlParts(before, raw, text);
    WholeUrlForm(others, before, "h", "");
  }

  /** {{base}}/a?next=http://h/b gets the route of http://h/b. */
  lemma NestedUrlExample(own: seq<Piece>, others: seq<Piece>, raw: string)
    requires own == [Static("a")] && others == [Static("b")]
    requires raw == QueryUrl("base", Join(Written(own)), "next=http://h/b")
    ensures RouterPath(Some(Url(raw, Null))) == RouteFor(others) != RouteFor(own)
  {
    RoutesOfTwo(own, others);
    NestedUrlOf(Join(Written(own)), Join(Written(others)), others, raw);
  }

  lemma HostDropped(host: string, path: string)
    requires StartsWithPair(host, '{') && EndsWithPair(host, '}') && (forall i :: 0 <= i < |host| ==> host[i] != '/')
    requires path != "" && path[0] == '/'
    ensures DropLeadingVariable(host + path) == path[1..]
  {
    FirstOfIn(host, '/', path);
    assert (host + path)[..|host|] == host;
    assert (host + path)[|host| + 1..] == path[1..];
  }

  function Segmented(pieces: seq<Piece>): Url {
    Url("", Arr(seq(|pieces|, i requires 0 <= i < |pieces| => Str(WrittenOf(pieces[i])))))
  }

  lemma {:induction false} StringsOfSegmented(pieces: seq<Piece>)
    ensures Strings(Segmented(pieces).path.elems) == Written(pieces)
    decreases |pieces|
  {
    if pieces == [] {
    } else {
      var n := |pieces| - 1;
      StringsOfSegmented(pieces[..n]);
      assert Segmented(pieces).path.elems[..n] == Segmented(pieces[..n]).path.elems;
      assert Written(pieces) == Written(pieces[..n]) + [WrittenOf(pieces[n])];
    }
  }

  lemma SegmentsTarget(pieces: seq<Piece>)
    requires Words(pieces) && pieces != []
    ensures Target(Segmented(pieces)) == Join(Written(pieces)) != ""
  {
    StringsOfSegmented(pieces);
    PiecesAreSegments(pieces);
    JoinEnds(Written(pieces));
  }

  lemma WrittenStripped(pieces: seq<Piece>)
    requires Words(pieces) && pieces != []
    ensures StripUrlPrefix(Join(Written(pieces))) == Join(Written(pieces))
  {
    var text := Join(Written(pieces));
    PiecesAreSegments(pieces);
    SlashedHasNoScheme(pieces);
    assert text + "" == text;
    StripBare(text, "");
  }

  lemma LeadingVariableDropped(pieces: seq<Piece>)
    requires Words(pieces) && |pieces| > 1 && pieces[0].Param?
    ensures DropLeadingVariable(Join(Written(pieces))) == Join(Written(pieces[1..]))
  {
    var tail := "/" + Join(Written(pieces[1..]));
    FirstWritten(pieces);
    JoinTwo(WrittenOf(pieces[0]), Written(pieces[1..]));
    Regroup(WrittenOf(pieces[0]), "/", Join(Written(pieces[1..])));
    PiecesAreSegments(pieces);
    assert Segment(Written(pieces)[0]);
    HostDropped(WrittenOf(pieces[0]), tail);
    assert tail[1..] == Join(Written(pieces[1..]));
  }

  lemma LeadingTextKept(pieces: seq<Piece>)
    requires Words(pieces) && pieces != [] && !(pieces[0].Param? && |pieces| > 1)
    ensures DropLeadingVariable(Join(Written(pieces))) == Join(Written(pieces))
  {
    var text := Join(Written(pieces));
    PiecesAreSegments(pieces);
    if |pieces| == 1 {
      assert Segment(Written(pieces)[0]);
      FirstOfIn(text, '/', "");
      assert text + "" == text;
    } else {
      assert Word(match pieces[0] case Static(text) => text case Param(name) => name);
      assert text[0] == pieces[0].text[0];
    }
  }

  /** A target without a leading slash gives its route exactly when it does not
      begin with a variable that other segments follow: such a variable is taken
      for the host. */
  lemma SlashlessFormIff(pieces: seq<Piece>, u: Url)
    requires Words(pieces) && pieces != [] && Target(u) == Join(Written(pieces))
    ensures RouterPath(Some(u)) == RouteFor(pieces) <==> !(pieces[0].Param? && |pieces| > 1)
    ensures pieces[0].Param? && |pieces| > 1 ==> RouterPath(Some(u)) == RouteFor(pieces[1..])
  {
    WrittenStripped(pieces);
    if pieces[0].Param? && |pieces| > 1 {
      LeadingVariableDropped(pieces);
      WrittenConverts(pieces[1..], Join(Written(pieces)));
      RoutesDiffer(pieces);
    } else {
      LeadingTextKept(pieces);
      WrittenConverts(pieces, Join(Written(pieces)));
    }
  }

  /** So for a path given as segments. */
  lemma SegmentsFormIff(pieces: seq<Piece>)
    requires Words(pieces) && pieces != []
    ensures RouterPath(Some(Segmented(pieces))) == RouteFor(pieces) <==> !(pieces[0].Param? && |pieces| > 1)
    ensures pieces[0].Param? && |pieces| > 1 ==> RouterPath(Some(Segmented(pieces))) == RouteFor(pieces[1..])
  {
    SegmentsTarget(pieces);
    SlashlessFormIff(pieces, Segmented(pieces));
  }

  /** And for a path given as a string without a leading slash. */
  lemma BareStringFormIff(pieces: seq<Piece>, raw: string)
    requires Words(pieces) && pieces != []
    ensures
      var u := Url(raw, Str(Join(Written(pieces))));
      && (RouterPath(Some(u)) == RouteFor(pieces) <==> !(pieces[0].Param? && |pieces| > 1))
      && (pieces[0].Param? && |pieces| > 1 ==> RouterPath(Some(u)) == RouteFor(pieces[1..]))
  {
    SegmentsTarget(pieces);
    SlashlessFormIff(pieces, Url(raw, Str(Join(Written(pieces)))));
  }

  lemma RoutesDiffer(pieces: seq<Piece>)
    requires Words(pieces) && |pieces| > 1
    ensures RouteFor(pieces[1..]) != RouteFor(pieces)
  {
    FirstTemplate(pieces);
    JoinTwo(RouteOf(pieces[0]), Routes(pieces[1..]));
  }
}
