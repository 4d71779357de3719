/** Prompt templates: scanning for {{placeholders}} and the variables a JSON
    request body provides. */
module Render {
  import opened Basics
  import opened Text

  // ------------------------------------------------------------- scanning

  /** strings.Index(s, cc) for a doubled character: the first position of cc. */
  function IndexDouble(s: string, c: char): (r: Option<nat>)
    ensures r.Some? ==> r.value + 1 < |s| && s[r.value] == c && s[r.value + 1] == c
    ensures r.Some? ==> forall i :: 0 <= i < r.value ==> !(s[i] == c && s[i + 1] == c)
    ensures r.None? ==> forall i :: 0 <= i < |s| - 1 ==> !(s[i] == c && s[i + 1] == c)
    decreases |s|
  {
    if |s| < 2 then None
    else if s[0] == c && s[1] == c then Some(0)
    else
      match IndexDouble(s[1..], c)
      case None =>
        assert forall i :: 1 <= i < |s| - 1 ==> s[i] == s[1..][i - 1] && s[i + 1] == s[1..][i];
        None
      case Some(i) =>
        assert forall j :: 1 <= j <= i ==> s[j] == s[1..][j - 1] && s[j + 1] == s[1..][j];
        Some(i + 1)
  }

  /** What one scan of a prompt finds: only text, text and an opening pair that is
      never closed, or text, a placeholder and the rest. */
  datatype Scan = OnlyText | Unclosed(text: string, tail: string) | Found(text: string, raw: string, rest: string)

  function ScanOnce(prompt: string): (r: Scan)
    ensures r.OnlyText? ==> IndexDouble(prompt, '{') == None
    ensures r.Unclosed? ==> prompt == r.text + r.tail
    ensures r.Found? ==> prompt == r.text + ("{{" + r.raw + "}}") + r.rest && |r.rest| < |prompt|
    ensures r.Found? ==> IndexDouble(r.text, '{') == None && IndexDouble(r.raw, '}') == None
  {
    match IndexDouble(prompt, '{')
    case None => OnlyText
    case Some(start) =>
      var rest := prompt[start + 2..];
      match IndexDouble(rest, '}')
      case None => Unclosed(prompt[..start], prompt[start..])
      case Some(end) =>
        NoDoubleBefore(prompt, '{', start);
        NoDoubleBefore(rest, '}', end);
        SplitAround(prompt, start, end);
        Found(prompt[..start], rest[..end], rest[end + 2..])
  }

  lemma SplitAround(prompt: string, start: nat, end: nat)
    requires start + 2 + end + 2 <= |prompt|
    requires prompt[start] == '{' && prompt[start + 1] == '{'
    requires prompt[start + 2 + end] == '}' && prompt[start + 3 + end] == '}'
    ensures
      var rest := prompt[start + 2..];
      prompt == prompt[..start] + ("{{" + rest[..end] + "}}") + rest[end + 2..]
  {
  }

  lemma NoDoubleBefore(s: string, c: char, n: nat)
    requires IndexDouble(s, c) == Some(n)
    ensures IndexDouble(s[..n], c) == None
  {
    var found := IndexDouble(s[..n], c);
    assert forall i :: 0 <= i < n ==> s[..n][i] == s[i];
  }

  /** A piece of a prompt: text, or what stands between two pairs of braces. */
  datatype Token = Literal(text: string) | Hole(raw: string)

  /** The pieces of a prompt. An opening pair without a closing one is text. */
  function Tokenize(prompt: string): seq<Token>
    decreases |prompt|
  {
    match ScanOnce(prompt)
    case OnlyText => [Literal(prompt)]
    case Unclosed(text, tail) => [Literal(text), Literal(tail)]
    case Found(text, raw, rest) => [Literal(text), Hole(raw)] + Tokenize(rest)
  }

  function SourceOf(t: Token): string {
    match t
    case Literal(text) => text
    case Hole(raw) => "{{" + raw + "}}"
  }

  function Source(tokens: seq<Token>): string {
    if tokens == [] then "" else SourceOf(tokens[0]) + Source(tokens[1..])
  }

  lemma SourceOfTwo(a: Token, b: Token, rest: seq<Token>)
    ensures Source([a, b] + rest) == SourceOf(a) + SourceOf(b) + Source(rest)
  {
    assert ([a, b] + rest)[1..] == [b] + rest;
    assert ([b] + rest)[1..] == rest;
  }

  lemma SourceOfOne(a: Token)
    ensures Source([a]) == SourceOf(a)
  {
    assert [a][1..] == [];
  }

  /** The pieces put together again are the prompt. */
  lemma {:induction false} TokenizeIsLossless(prompt: string)
    ensures Source(Tokenize(prompt)) == prompt
    decreases |prompt|
  {
    match ScanOnce(prompt)
    case OnlyText => SourceOfOne(Literal(prompt));
    case Unclosed(text, tail) =>
      SourceOfTwo(Literal(text), Literal(tail), []);
      assert [Literal(text), Literal(tail)] + [] == [Literal(text), Literal(tail)];
    case Found(text, raw, rest) =>
      TokenizeIsLossless(rest);
      SourceOfTwo(Literal(text), Hole(raw), Tokenize(rest));
  }

  /** A placeholder holds no closing pair, and text before one no opening pair. */
  predicate Minimal(tokens: seq<Token>, i: nat)
    requires i < |tokens|
  {
    && (tokens[i].Hole? ==> IndexDouble(tokens[i].raw, '}') == None)
    && (tokens[i].Literal? && i + 1 < |tokens| && tokens[i + 1].Hole? ==> IndexDouble(tokens[i].text, '{') == None)
  }

  lemma MinimalAfterTwo(text: string, raw: string, rest: seq<Token>, i: nat)
    requires i < 2 + |rest|
    requires i == 0 ==> IndexDouble(text, '{') == None
    requires i == 1 ==> IndexDouble(raw, '}') == None
    requires i >= 2 ==> Minimal(rest, i - 2)
    ensures Minimal([Literal(text), Hole(raw)] + rest, i)
  {
    var tokens := [Literal(text), Hole(raw)] + rest;
    if i >= 2 {
      assert tokens[i] == rest[i - 2];
      if i + 1 < |tokens| {
        assert tokens[i + 1] == rest[i - 1];
      }
    }
  }

  lemma {:induction false} TokensAreMinimal(prompt: string, i: nat)
    requires i < |Tokenize(prompt)|
    ensures Minimal(Tokenize(prompt), i)
    decreases |prompt|
  {
    match ScanOnce(prompt)
    case OnlyText =>
    case Unclosed(_, _) =>
    case Found(text, raw, rest) =>
      if i >= 2 {
        TokensAreMinimal(rest, i - 2);
      }
      MinimalAfterTwo(text, raw, Tokenize(rest), i);
  }

  /** A text without an opening pair, a placeholder without a closing pair and
      any rest are found again as they were put together. */
  lemma HoleIsFound(text: string, raw: string, rest: string)
    requires IndexDouble(text + "{", '{') == None
    requires IndexDouble(raw + "}", '}') == None
    ensures ScanOnce(text + ("{{" + raw + "}}") + rest) == Found(text, raw, rest)
  {
    var prompt := text + ("{{" + raw + "}}") + rest;
    SpliceOpen(text, raw, rest);
    FirstDouble(text, '{', raw + ['}', '}'] + rest);
    FirstDouble(raw, '}', rest);
    SplicedParts(text, ['{', '{'], raw + ['}', '}'] + rest);
    SplicedParts(raw, ['}', '}'], rest);
  }

  lemma SpliceOpen(text: string, raw: string, rest: string)
    ensures text + ("{{" + raw + "}}") + rest == text + ['{', '{'] + (raw + ['}', '}'] + rest)
  {
    assert "{{" == ['{', '{'] && "}}" == ['}', '}'];
    assert ("{{" + raw + "}}") + rest == "{{" + (raw + "}}" + rest);
  }

  lemma SplicedParts(before: string, pair: string, after: string)
    requires |pair| == 2
    ensures (before + pair + after)[..|before|] == before
    ensures (before + pair + after)[|before| + 2..] == after
  {
  }

  lemma FirstDouble(s: string, c: char, rest: string)
    requires IndexDouble(s + [c], c) == None
    ensures IndexDouble(s + [c, c] + rest, c) == Some(|s|)
  {
    var all := s + [c, c] + rest;
    assert all[|s|] == c && all[|s| + 1] == c;
    forall i | 0 <= i < |s|
      ensures !(all[i] == c && all[i + 1] == c)
    {
      assert (s + [c])[i] == all[i] && (s + [c])[i + 1] == all[i + 1];
    }
  }

  // ------------------------------------------------------------ rendering

  type Vars = map<string, string>

  /** The value of a placeholder; missing names render as nothing. */
  function Value(vars: Vars, raw: string): string {
    var name := ToLower(TrimSpace(raw));
    if name in vars then vars[name] else ""
  }

  function RenderToken(t: Token, vars: Vars): string {
    match t
    case Literal(text) => text
    case Hole(raw) => Value(vars, raw)
  }

  /** Every piece rendered once, in order. */
  function RenderTokens(tokens: seq<Token>, vars: Vars): string {
    if tokens == [] then "" else RenderToken(tokens[0], vars) + RenderTokens(tokens[1..], vars)
  }

  lemma RenderTwo(a: Token, b: Token, rest: seq<Token>, vars: Vars)
    ensures RenderTokens([a, b] + rest, vars) == RenderToken(a, vars) + RenderToken(b, vars) + RenderTokens(rest, vars)
  {
    assert ([a, b] + rest)[1..] == [b] + rest;
    assert ([b] + rest)[1..] == rest;
  }

  lemma RenderTexts(text: string, tail: string, vars: Vars)
    ensures RenderTokens([Literal(text)], vars) == text
    ensures RenderTokens([Literal(text), Literal(tail)], vars) == text + tail
  {
    assert [Literal(text)][1..] == [] && [Literal(text), Literal(tail)][1..] == [Literal(tail)];
    assert [Literal(tail)][1..] == [];
  }

  /** One turn of the loop: what is found is rendered, then the rest. */
  lemma RenderScan(prompt: string, vars: Vars)
    ensures
      var scan := ScanOnce(prompt);
      RenderTokens(Tokenize(prompt), vars) ==
        if scan.Found? then scan.text + Value(vars, scan.raw) + RenderTokens(Tokenize(scan.rest), vars) else prompt
  {
    match ScanOnce(prompt)
    case OnlyText => RenderTexts(prompt, "", vars);
    case Unclosed(text, tail) => RenderTexts(text, tail, vars);
    case Found(text, raw, rest) => RenderTwo(Literal(text), Hole(raw), Tokenize(rest), vars);
  }

  /** The source's loop: what has been written out is never scanned again. */
  method RenderAll(template: string, vars: Vars) returns (out: string)
    ensures out == RenderTokens(Tokenize(template), vars)
  {
    out := "";
    var prompt := template;
    while true
      invariant out + RenderTokens(Tokenize(prompt), vars) == RenderTokens(Tokenize(template), vars)
      decreases |prompt|
    {
      RenderScan(prompt, vars);
      var scan := ScanOnce(prompt);
      if !scan.Found? {
        out := out + prompt;
        break;
      }
      Regroup(out, scan.text, Value(vars, scan.raw));
      Regroup(out, scan.text + Value(vars, scan.raw), RenderTokens(Tokenize(scan.rest), vars));
      out := out + scan.text + Value(vars, scan.raw);
      prompt := scan.rest;
    }
  }
}
