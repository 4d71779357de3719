/** String operations on ASCII text. */
module Text {

  predicate IsSpace(c: char) {
    c == ' ' || c == '\t' || c == '\n' || c == '\r' || c == '\U{0B}' || c == '\U{0C}' || c == '\U{85}' || c == '\U{A0}'
  }

  /** Nothing is left after trimming. */
  predicate Blank(s: string) {
    s == "" || (IsSpace(s[0]) && Blank(s[1..]))
  }

  function TrimLeft(s: string): string {
    if s != "" && IsSpace(s[0]) then TrimLeft(s[1..]) else s
  }

  function TrimRight(s: string): string {
    if s != "" && IsSpace(s[|s| - 1]) then TrimRight(s[..|s| - 1]) else s
  }

  /** strings.TrimSpace. */
  function TrimSpace(s: string): string {
    TrimRight(TrimLeft(s))
  }

  function UpperChar(c: char): char {
    if 'a' <= c <= 'z' then c - 'a' + 'A' else c
  }

  function LowerChar(c: char): char {
    if 'A' <= c <= 'Z' then c - 'A' + 'a' else c
  }

  /** strings.ToUpper. */
  function ToUpper(s: string): (r: string)
    ensures |r| == |s|
  {
    seq(|s|, i requires 0 <= i < |s| => UpperChar(s[i]))
  }

  /** strings.ToLower. */
  function ToLower(s: string): (r: string)
    ensures |r| == |s|
  {
    seq(|s|, i requires 0 <= i < |s| => LowerChar(s[i]))
  }

  predicate IsUpper(s: string) {
    ToUpper(s) == s
  }

  lemma ToUpperIsUpper(s: string)
    ensures IsUpper(ToUpper(s))
  {
  }

  /** Exactly the strings without a space at either end are left as they are. */
  lemma TrimsNothing(s: string)
    requires s != ""
    ensures TrimSpace(s) == s <==> !IsSpace(s[0]) && !IsSpace(s[|s| - 1])
  {
    LeftIsShorter(s);
    RightIsShorter(TrimLeft(s));
  }

  lemma LeftIsShorter(s: string)
    ensures |TrimLeft(s)| <= |s|
    ensures s != "" && IsSpace(s[0]) ==> |TrimLeft(s)| < |s|
  {
  }

  lemma RightIsShorter(s: string)
    ensures |TrimRight(s)| <= |s|
    ensures s != "" && IsSpace(s[|s| - 1]) ==> |TrimRight(s)| < |s|
  {
  }

  predicate Spaces(s: string) {
    forall i :: 0 <= i < |s| ==> IsSpace(s[i])
  }

  lemma {:induction false} BlankIffSpaces(s: string)
    ensures Blank(s) <==> Spaces(s)
    decreases |s|
  {
    if s == "" {
    } else {
      BlankIffSpaces(s[1..]);
      assert s == [s[0]] + s[1..];
    }
  }

  lemma {:induction false} LeftTrimmed(s: string) returns (i: nat)
    ensures i <= |s| && TrimLeft(s) == s[i..] && Spaces(s[..i]) && (i < |s| ==> !IsSpace(s[i]))
    decreases |s|
  {
    if s != "" && IsSpace(s[0]) {
      var j := LeftTrimmed(s[1..]);
      i := j + 1;
      assert s[1..][j..] == s[i..] && s[..i] == [s[0]] + s[1..][..j];
    } else {
      i := 0;
    }
  }

  lemma {:induction false} RightTrimmed(s: string) returns (j: nat)
    ensures j <= |s| && TrimRight(s) == s[..j] && Spaces(s[j..]) && (j > 0 ==> !IsSpace(s[j - 1]))
    decreases |s|
  {
    var n := |s|;
    if s != "" && IsSpace(s[n - 1]) {
      j := RightTrimmed(s[..n - 1]);
      assert s[..n - 1][..j] == s[..j] && s[j..] == s[..n - 1][j..] + [s[n - 1]];
    } else {
      j := n;
    }
  }

  /** Trimming takes the spaces off both ends and nothing else. */
  lemma Trimmed(s: string) returns (before: string, after: string)
    ensures s == before + TrimSpace(s) + after && Spaces(before) && Spaces(after)
    ensures var t := TrimSpace(s); t != "" ==> !IsSpace(t[0]) && !IsSpace(t[|t| - 1])
  {
    var i := LeftTrimmed(s);
    var j := RightTrimmed(s[i..]);
    before, after := s[..i], s[i..][j..];
    assert s == s[..i] + s[i..] && s[i..] == s[i..][..j] + s[i..][j..];
  }

  lemma {:induction false} TrimsLeftPadding(a: string, s: string)
    requires Spaces(a)
    ensures TrimLeft(a + s) == TrimLeft(s)
    decreases |a|
  {
    if a == "" {
      assert a + s == s;
    } else {
      assert (a + s)[1..] == a[1..] + s;
      TrimsLeftPadding(a[1..], s);
    }
  }

  lemma {:induction false} TrimsRightPadding(s: string, b: string)
    requires Spaces(b)
    ensures TrimRight(s + b) == TrimRight(s)
    decreases |b|
  {
    if b == "" {
      assert s + b == s;
    } else {
      var n := |b| - 1;
      assert (s + b)[..|s + b| - 1] == s + b[..n] && (s + b)[|s + b| - 1] == b[n];
      TrimsRightPadding(s, b[..n]);
    }
  }

  lemma {:induction false} TrimLeftBefore(s: string, b: string)
    ensures TrimLeft(s + b) == if Spaces(s) then TrimLeft(b) else TrimLeft(s) + b
    decreases |s|
  {
    if s == "" {
      assert s + b == b;
    } else {
      assert (s + b)[1..] == s[1..] + b && s == [s[0]] + s[1..];
      TrimLeftBefore(s[1..], b);
    }
  }

  /** Spaces around a text do not matter to its trimmed form. */
  lemma TrimsPadding(a: string, s: string, b: string)
    requires Spaces(a) && Spaces(b)
    ensures TrimSpace(a + s + b) == TrimSpace(s)
  {
    assert a + s + b == a + (s + b);
    TrimsLeftPadding(a, s + b);
    TrimLeftBefore(s, b);
    TrimLeftBefore(s, "");
    TrimLeftBefore(b, "");
    assert s + "" == s && b + "" == b;
    if !Spaces(s) {
      TrimsRightPadding(TrimLeft(s), b);
    }
  }

  /** Texts have the same upper-case form exactly if they have the same lower-case
      form, and a text in upper case has no small letter. */
  lemma CasesAgree(a: string, b: string)
    ensures ToUpper(a) == ToUpper(b) <==> ToLower(a) == ToLower(b)
    ensures IsUpper(a) <==> forall i :: 0 <= i < |a| ==> !('a' <= a[i] <= 'z')
    ensures ToLower(ToUpper(a)) == ToLower(a)
  {
    if ToUpper(a) == ToUpper(b) {
      forall i | 0 <= i < |a|
        ensures LowerChar(a[i]) == LowerChar(b[i])
      {
        assert ToUpper(a)[i] == ToUpper(b)[i];
      }
    }
    if ToLower(a) == ToLower(b) {
      forall i | 0 <= i < |a|
        ensures UpperChar(a[i]) == UpperChar(b[i])
      {
        assert ToLower(a)[i] == ToLower(b)[i];
      }
    }
    if IsUpper(a) {
      forall i | 0 <= i < |a|
        ensures !('a' <= a[i] <= 'z')
      {
        assert ToUpper(a)[i] == a[i];
      }
    }
  }
}
