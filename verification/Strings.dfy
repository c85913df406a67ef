/** Strings: white space, trimming, and length in UTF-8. */
module Strings {

  /** Unicode `White_Space` */
  predicate IsWhite(c: char) {
    || '\t' <= c <= '\r' || c == ' ' || c == '\U{85}' || c == '\U{A0}' || c == '\U{1680}'
    || '\U{2000}' <= c <= '\U{200A}' || c == '\U{2028}' || c == '\U{2029}' || c == '\U{202F}'
    || c == '\U{205F}' || c == '\U{3000}'
  }

  /** The length of a text in UTF-8. */
  function Bytes(s: string): nat {
    if s == "" then 0 else Bytes(s[..|s| - 1]) + CharBytes(s[|s| - 1])
  }

  function CharBytes(c: char): nat {
    if c < '\U{80}' then 1 else if c < '\U{800}' then 2 else if c < '\U{10000}' then 3 else 4
  }

  /** `s.trim().is_empty()` */
  predicate Blank(s: string) { forall i | 0 <= i < |s| :: IsWhite(s[i]) }

  function TrimStart(s: string): string { if s != "" && IsWhite(s[0]) then TrimStart(s[1..]) else s }

  function TrimEnd(s: string): string {
    if s != "" && IsWhite(s[|s| - 1]) then TrimEnd(s[..|s| - 1]) else s
  }

  function Trim(s: string): string { TrimEnd(TrimStart(s)) }

  lemma {:induction false} BytesConcat(a: string, b: string)
    ensures Bytes(a + b) == Bytes(a) + Bytes(b)
    decreases |b|
  {
    if b == "" {
      assert a + b == a;
    } else {
      BytesConcat(a, b[..|b| - 1]);
      assert (a + b)[..|a + b| - 1] == a + b[..|b| - 1];
    }
  }

  lemma {:induction false} BytesAtLeast(s: string)
    ensures |s| <= Bytes(s)
    decreases |s|
  {
    if s != "" {
      BytesAtLeast(s[..|s| - 1]);
    }
  }

  lemma {:induction false} BytesAtMost(s: string)
    ensures Bytes(s) <= 4 * |s|
    decreases |s|
  {
    if s != "" {
      BytesAtMost(s[..|s| - 1]);
    }
  }

  lemma {:induction false} TrimOfBlank(s: string)
    ensures Blank(s) <==> TrimStart(s) == ""
    decreases |s|
  {
    if s != "" && IsWhite(s[0]) {
      TrimOfBlank(s[1..]);
      assert s == [s[0]] + s[1..];
    }
  }

  lemma {:induction false} TrimStartAppends(s: string, w: char)
    requires IsWhite(w)
    ensures TrimStart(s + [w]) == if Blank(s) then "" else TrimStart(s) + [w]
    decreases |s|
  {
    if s == "" {
      assert s + [w] == [w] && [w][1..] == "";
    } else if IsWhite(s[0]) {
      assert (s + [w])[1..] == s[1..] + [w] && s == [s[0]] + s[1..];
      TrimStartAppends(s[1..], w);
    }
  }

  /** White space at the end of a line does not survive trimming. */
  lemma {:induction false} TrimForgets(s: string, w: char)
    requires IsWhite(w)
    ensures Trim(s + [w]) == Trim(s)
  {
    TrimStartAppends(s, w);
    TrimOfBlank(s);
    var t := TrimStart(s);
    if !Blank(s) {
      assert (t + [w])[|t + [w]| - 1] == w && (t + [w])[..|t|] == t;
    }
  }

  /** A text that trimming leaves alone. */
  predicate Trimmed(s: string) { s == "" || (!IsWhite(s[0]) && !IsWhite(s[|s| - 1])) }

  lemma {:induction false} TrimStartDrops(s: string) returns (pre: string)
    ensures Blank(pre) && s == pre + TrimStart(s) && (TrimStart(s) == "" || !IsWhite(TrimStart(s)[0]))
    decreases |s|
  {
    pre := "";
    if s != "" && IsWhite(s[0]) {
      var later := TrimStartDrops(s[1..]);
      pre := [s[0]] + later;
    }
  }

  lemma {:induction false} TrimEndDrops(s: string) returns (post: string)
    ensures Blank(post) && s == TrimEnd(s) + post && (TrimEnd(s) == "" || !IsWhite(TrimEnd(s)[|TrimEnd(s)| - 1]))
    decreases |s|
  {
    post := "";
    if s != "" && IsWhite(s[|s| - 1]) {
      var before := TrimEndDrops(s[..|s| - 1]);
      post := before + [s[|s| - 1]];
    }
  }

  /** Trimming drops white space at both ends, and all of it. */
  lemma {:induction false} TrimDrops(s: string) returns (pre: string, post: string)
    ensures Blank(pre) && Blank(post) && s == pre + Trim(s) + post && Trimmed(Trim(s))
  {
    pre := TrimStartDrops(s);
    post := TrimEndDrops(TrimStart(s));
  }

  /** There is only one way to do so. */
  lemma {:induction false} TrimIs(pre: string, t: string, post: string)
    requires Blank(pre) && Blank(post) && Trimmed(t)
    ensures Trim(pre + t + post) == t
  {
    var s := pre + t + post;
    var first, last := TrimDrops(s);
    var u := Trim(s);
    if t == "" {
      TrimOfBlank(s);
    } else {
      assert s[|pre|] == t[0] && s[|pre| + |t| - 1] == t[|t| - 1];
      assert |first| <= |pre| && |last| <= |post|;
      assert u != "" && s[|first|] == u[0] && s[|first| + |u| - 1] == u[|u| - 1];
      assert |first| == |pre| && |last| == |post|;
      assert u == s[|pre|..|s| - |post|] == t;
    }
  }
}
