/**
 The prose compressor: protected spans are copied, the text between them is thinned out by a fixed
 sequence of replacements. What a pattern matches is a parameter.
 */
module Compressor {
  import opened Spans
  import opened Strings

  function Upper(c: char): char {
    if 'a' <= c <= 'z' then 'A' + (c - 'a') else c
  }

  /** A text without whitespace and without the case of its ASCII letters. */
  function Core(s: string): string {
    if s == "" then ""
    else Core(s[..|s| - 1]) + (if IsWhite(s[|s| - 1]) then "" else [Upper(s[|s| - 1])])
  }

  /** `a` is what is left of `b` after dropping some of its characters. */
  predicate Subsequence(a: string, b: string) {
    || a == ""
    || (b != "" && ((a[|a| - 1] == b[|b| - 1] && Subsequence(a[..|a| - 1], b[..|b| - 1]))
      || Subsequence(a, b[..|b| - 1])))
  }

  /** No longer, and nothing invented, moved or doubled. */
  predicate Shrinks(s: string, original: string) {
    Bytes(s) <= Bytes(original) && Subsequence(Core(s), Core(original))
  }

  // ---------------------------------------------------------------------------
  // Patterns.

  /** Matches as an iterator over them yields them: within the text, one after the other. */
  predicate InOrder(ms: seq<Range>, length: nat) {
    && (forall i | 0 <= i < |ms| :: ms[i].start < ms[i].end <= length)
    && (forall i, j | 0 <= i < j < |ms| :: ms[i].end <= ms[j].start)
  }

  /** A pattern: its matches in a text. */
  type Finder = string -> seq<Range>

  datatype Rules = Rules(
    protect: seq<Finder>,
    leaders: Finder, pleasantries: Finder, hedges: Finder, fillers: Finder, articles: Finder,
    blanks: Finder, loosePunctuation: Finder, blankLines: Finder, sentenceStarts: Finder,
    isAlphabetic: char -> bool)

  function Slice(s: string, r: Range): string { if r.start <= r.end <= |s| then s[r.start..r.end] else "" }

  predicate AllShaped(s: string, ms: seq<Range>, shape: string -> bool) {
    forall i | 0 <= i < |ms| :: shape(Slice(s, ms[i]))
  }

  /** The pattern finds non-empty matches in order, and each of them has the shape. */
  ghost predicate Finds(f: Finder, shape: string -> bool) {
    forall s: string :: InOrder(f(s), |s|) && AllShaped(s, f(s), shape)
  }

  predicate NoWhiteEnds(m: string) { m != "" && !IsWhite(m[0]) && !IsWhite(m[|m| - 1]) }
  predicate AnyText(m: string) { m != "" }
  predicate Blanks(m: string) { |m| >= 2 && forall c | c in m :: c == ' ' || c == '\t' }
  predicate Newlines(m: string) { |m| >= 3 && forall c | c in m :: c == '\n' }
  predicate LoosePunctuation(m: string) {
    |m| >= 2 && m[|m| - 1] in ",.;:!?" && forall i | 0 <= i < |m| - 1 :: IsWhite(m[i])
  }
  predicate SentenceStart(m: string) {
    && m != "" && 'a' <= m[|m| - 1] <= 'z'
    && (|m| > 1 ==> m[0] in ".!?" && forall i | 1 <= i < |m| - 1 :: IsWhite(m[i]))
  }

  /** What the compressor's patterns can match. */
  ghost predicate WellFormed(rules: Rules) {
    && (forall k | 0 <= k < |rules.protect| :: Finds(rules.protect[k], NoWhiteEnds))
    && Finds(rules.leaders, AnyText) && Finds(rules.pleasantries, AnyText) && Finds(rules.hedges, AnyText)
    && Finds(rules.fillers, AnyText) && Finds(rules.articles, AnyText)
    && Finds(rules.blanks, Blanks)
    && Finds(rules.loosePunctuation, LoosePunctuation)
    && Finds(rules.blankLines, Newlines)
    && Finds(rules.sentenceStarts, SentenceStart)
  }

  // ---------------------------------------------------------------------------
  // Replacing what matched, or what did not.

  /** Where the n-th gap begins. */
  function LastEnd(ms: seq<Range>, n: nat): nat
    requires n <= |ms|
  {
    if n == 0 then 0 else ms[n - 1].end
  }

  /** The first n gaps and matches. */
  function Woven(s: string, ms: seq<Range>, n: nat, gap: string -> string, hit: string -> string): string
    requires n <= |ms|
  {
    if n == 0 then ""
    else
      Woven(s, ms, n - 1, gap, hit) + gap(Slice(s, Range(LastEnd(ms, n - 1), ms[n - 1].start)))
      + hit(Slice(s, ms[n - 1]))
  }

  /** The text with `hit` applied to every match and `gap` to the stretches between them. */
  function Weave(s: string, ms: seq<Range>, gap: string -> string, hit: string -> string): string {
    Woven(s, ms, |ms|, gap, hit) + gap(Slice(s, Range(LastEnd(ms, |ms|), |s|)))
  }

  function Same(m: string): string { m }
  function Erase(m: string): string { "" }
  function OneSpace(m: string): string { " " }
  function LastChar(m: string): string { if m == "" then "" else [m[|m| - 1]] }
  function TwoNewlines(m: string): string { "\n\n" }
  function Capitalised(m: string): string { if m == "" then "" else m[..|m| - 1] + [Upper(m[|m| - 1])] }

  function ReplaceAll(s: string, f: Finder, hit: string -> string): string {
    Weave(s, f(s), Same, hit)
  }

  /** The matches, among the first n, that are directly followed by a letter. */
  function Followed(s: string, ms: seq<Range>, n: nat, isAlphabetic: char -> bool): seq<Range>
    requires n <= |ms|
  {
    if n == 0 then []
    else
      var kept, m := Followed(s, ms, n - 1, isAlphabetic), ms[n - 1];
      if m.end < |s| && isAlphabetic(s[m.end]) then kept + [m] else kept
  }

  lemma {:induction false} GapFits(ms: seq<Range>, n: nat, length: nat)
    requires InOrder(ms, length) && 0 < n <= |ms|
    ensures LastEnd(ms, n - 1) <= ms[n - 1].start < ms[n - 1].end <= length
  {
  }

  lemma {:induction false} KeepsOrder(kept: seq<Range>, ms: seq<Range>, n: nat, length: nat)
    requires InOrder(kept, length) && InOrder(ms, length) && 0 < n <= |ms|
             && LastEnd(kept, |kept|) <= LastEnd(ms, n - 1)
    ensures InOrder(kept + [ms[n - 1]], length) && LastEnd(kept, |kept|) <= ms[n - 1].start
  {
    GapFits(ms, n, length);
  }

  lemma {:induction false} FollowedInOrder(s: string, ms: seq<Range>, n: nat, isAlphabetic: char -> bool)
    requires InOrder(ms, |s|) && n <= |ms|
    ensures var kept := Followed(s, ms, n, isAlphabetic);
            InOrder(kept, |s|) && LastEnd(kept, |kept|) <= LastEnd(ms, n) <= |s|
  {
    if n > 0 {
      FollowedInOrder(s, ms, n - 1, isAlphabetic);
      GapFits(ms, n, |s|);
      KeepsOrder(Followed(s, ms, n - 1, isAlphabetic), ms, n, |s|);
    }
  }

  function StrippedArticles(s: string, ms: seq<Range>, isAlphabetic: char -> bool): string {
    Weave(s, Followed(s, ms, |ms|, isAlphabetic), Same, Erase)
  }

  function Replacing(f: Finder, hit: string -> string): string -> string {
    (s: string) => ReplaceAll(s, f, hit)
  }

  function WithoutArticles(rules: Rules): string -> string {
    (s: string) => StrippedArticles(s, rules.articles(s), rules.isAlphabetic)
  }

  type Rewrite = string -> string

  /** One rewrite, then the other. */
  function Then(x: Rewrite, y: Rewrite): Rewrite { (s: string) => y(x(s)) }

  /** The stages of the prose compressor, in their order: drop phrases and words, tidy up, capitalise. */
  function DropPhrases(rules: Rules): Rewrite {
    Then(Then(Replacing(rules.leaders, Erase), Replacing(rules.pleasantries, Erase)),
         Then(Replacing(rules.hedges, Erase), Replacing(rules.fillers, Erase)))
  }

  function TidyUp(rules: Rules): Rewrite {
    Then(Then(Replacing(rules.blanks, OneSpace), Replacing(rules.loosePunctuation, LastChar)),
         Replacing(rules.blankLines, TwoNewlines))
  }

  function Shorten(rules: Rules): Rewrite { Then(Then(DropPhrases(rules), WithoutArticles(rules)), TidyUp(rules)) }

  function ProseBy(rules: Rules): Rewrite { Then(Shorten(rules), Replacing(rules.sentenceStarts, Capitalised)) }

  /** The spans of a text that are copied. */
  function Protected(source: string, rules: Rules): seq<Range> { Merged(AllMatches(source, rules.protect)) }

  function Compressed(text: string, rules: Rules): string {
    var source := TrimStart(text);
    Trim(Weave(source, Protected(source, rules), ProseBy(rules), Same))
  }

  lemma {:induction false} MatchesFit(source: string, finders: seq<Finder>, j: nat) returns (k: nat, i: nat)
    requires j < |AllMatches(source, finders)|
    ensures k < |finders| && i < |finders[k](source)| && AllMatches(source, finders)[j] == finders[k](source)[i]
    decreases |finders|
  {
    var before := AllMatches(source, finders[..|finders| - 1]);
    if j < |before| {
      k, i := MatchesFit(source, finders[..|finders| - 1], j);
    } else {
      k, i := |finders| - 1, j - |before|;
    }
  }

  lemma {:induction false} SpansFit(source: string, finders: seq<Finder>)
    requires forall k | 0 <= k < |finders| :: Finds(finders[k], NoWhiteEnds)
    ensures InOrder(Merged(AllMatches(source, finders)), |source|)
    ensures NonEmpty(AllMatches(source, finders))
  {
    var matches := AllMatches(source, finders);
    forall j: nat | j < |matches| ensures matches[j].start < matches[j].end <= |source| {
      var k, i := MatchesFit(source, finders, j);
      var f := finders[k];
      assert InOrder(f(source), |source|);
    }
    SpansAreSeparated(matches);
    forall i: nat | i < |Merged(matches)| ensures Merged(matches)[i].end <= |source| {
      var _, last := SpanEndsAreMatchEnds(matches, i);
    }
  }

  // ---------------------------------------------------------------------------
  // Nothing is invented and nothing grows.

  lemma {:induction false} CoreConcat(a: string, b: string)
    ensures Core(a + b) == Core(a) + Core(b)
    decreases |b|
  {
    if b == "" {
      assert a + b == a;
    } else {
      CoreConcat(a, b[..|b| - 1]);
      assert (a + b)[..|a + b| - 1] == a + b[..|b| - 1];
    }
  }

  lemma {:induction false} SubsequenceConcat(a: string, b: string, c: string, d: string)
    requires Subsequence(a, b) && Subsequence(c, d)
    ensures Subsequence(a + c, b + d)
    decreases |d|
  {
    if d == "" {
      assert a + c == a && b + d == b;
    } else {
      assert (b + d)[..|b + d| - 1] == b + d[..|d| - 1];
      if c != "" && c[|c| - 1] == d[|d| - 1] && Subsequence(c[..|c| - 1], d[..|d| - 1]) {
        assert (a + c)[..|a + c| - 1] == a + c[..|c| - 1];
        SubsequenceConcat(a, b, c[..|c| - 1], d[..|d| - 1]);
      } else {
        SubsequenceConcat(a, b, c, d[..|d| - 1]);
      }
    }
  }

  lemma {:induction false} SubsequenceTransitive(a: string, b: string, c: string)
    requires Subsequence(a, b) && Subsequence(b, c)
    ensures Subsequence(a, c)
    decreases |c|
  {
    if a != "" {
      if b[|b| - 1] == c[|c| - 1] && Subsequence(b[..|b| - 1], c[..|c| - 1]) {
        if a[|a| - 1] == b[|b| - 1] && Subsequence(a[..|a| - 1], b[..|b| - 1]) {
          SubsequenceTransitive(a[..|a| - 1], b[..|b| - 1], c[..|c| - 1]);
        } else {
          SubsequenceTransitive(a, b[..|b| - 1], c[..|c| - 1]);
        }
      } else {
        SubsequenceTransitive(a, b, c[..|c| - 1]);
      }
    }
  }

  lemma {:induction false} SubsequenceReflexive(a: string)
    ensures Subsequence(a, a)
    decreases |a|
  {
    if a != "" {
      SubsequenceReflexive(a[..|a| - 1]);
    }
  }

  lemma {:induction false} ShrinksConcat(a: string, b: string, c: string, d: string)
    requires Shrinks(a, b) && Shrinks(c, d)
    ensures Shrinks(a + c, b + d)
  {
    BytesConcat(a, c);
    BytesConcat(b, d);
    CoreConcat(a, c);
    CoreConcat(b, d);
    SubsequenceConcat(Core(a), Core(b), Core(c), Core(d));
  }

  lemma {:induction false} ShrinksTransitive(a: string, b: string, c: string)
    requires Shrinks(a, b) && Shrinks(b, c)
    ensures Shrinks(a, c)
  {
    SubsequenceTransitive(Core(a), Core(b), Core(c));
  }

  lemma {:induction false} ShrinksThrice(a: string, b: string, c: string, d: string, e: string, f: string)
    requires Shrinks(a, b) && Shrinks(c, d) && Shrinks(e, f)
    ensures Shrinks(a + c + e, b + d + f)
  {
    ShrinksConcat(a, b, c, d);
    ShrinksConcat(a + c, b + d, e, f);
  }

  ghost predicate HitsShrinkIn(s: string, ms: seq<Range>, hit: string -> string) {
    forall i | 0 <= i < |ms| :: Shrinks(hit(Slice(s, ms[i])), Slice(s, ms[i]))
  }

  ghost predicate GapsShrink(gap: string -> string) {
    forall g :: Shrinks(gap(g), g)
  }

  lemma {:induction false} Cut(s: string, a: nat, b: nat, c: nat)
    requires a <= b <= c <= |s|
    ensures Slice(s, Range(0, a)) + Slice(s, Range(a, b)) + Slice(s, Range(b, c)) == Slice(s, Range(0, c))
  {
    assert s[..a] + s[a..b] == s[..b];
    assert s[..b] + s[b..c] == s[..c];
  }

  lemma {:induction false} CutLast(s: string, a: nat)
    requires a <= |s|
    ensures Slice(s, Range(0, a)) + Slice(s, Range(a, |s|)) == s
  {
  }

  lemma {:induction false} NothingShrinks(s: string)
    ensures Shrinks("", s)
  {
  }

  /** The k-th stretch between the spans; the last one goes to the end of the text. */
  function GapText(s: string, spans: seq<Range>, k: nat): string
    requires k <= |spans|
  {
    Slice(s, Range(LastEnd(spans, k), if k < |spans| then spans[k].start else |s|))
  }

  function Prefix(s: string, spans: seq<Range>, n: nat): string
    requires n <= |spans|
  {
    Slice(s, Range(0, LastEnd(spans, n)))
  }

  lemma {:induction false} PrefixGrows(s: string, spans: seq<Range>, n: nat)
    requires InOrder(spans, |s|) && 0 < n <= |spans|
    ensures Prefix(s, spans, n) == Prefix(s, spans, n - 1) + GapText(s, spans, n - 1) + Slice(s, spans[n - 1])
  {
    GapFits(spans, n, |s|);
    Cut(s, LastEnd(spans, n - 1), spans[n - 1].start, spans[n - 1].end);
  }

  lemma {:induction false} WovenGrows(s: string, ms: seq<Range>, n: nat, gap: Rewrite, hit: Rewrite)
    requires 0 < n <= |ms|
    ensures Woven(s, ms, n, gap, hit)
         == Woven(s, ms, n - 1, gap, hit) + gap(GapText(s, ms, n - 1)) + hit(Slice(s, ms[n - 1]))
  {
  }

  /** A text that grows by a gap and a match at a time. */
  datatype Growth = Growth(texts: seq<string>, gaps: seq<string>, hits: seq<string>) {
    predicate GrowsAt(k: nat)
      requires k < |gaps| == |hits| && |texts| == |gaps| + 1
    {
      texts[k + 1] == texts[k] + gaps[k] + hits[k]
    }

    ghost predicate Valid() {
      |texts| == |gaps| + 1 && |gaps| == |hits| && forall k | 0 <= k < |gaps| :: GrowsAt(k)
    }
  }

  function Weaving(s: string, ms: seq<Range>, gap: Rewrite, hit: Rewrite): (x: Growth)
    ensures |x.texts| == |ms| + 1 && |x.gaps| == |ms| && |x.hits| == |ms|
  {
    Growth(seq(|ms| + 1, k requires 0 <= k <= |ms| => Woven(s, ms, k, gap, hit)),
           seq(|ms|, k requires 0 <= k < |ms| => gap(GapText(s, ms, k))),
           seq(|ms|, k requires 0 <= k < |ms| => hit(Slice(s, ms[k]))))
  }

  function Reading(s: string, ms: seq<Range>): (x: Growth)
    ensures |x.texts| == |ms| + 1 && |x.gaps| == |ms| && |x.hits| == |ms|
  {
    Growth(seq(|ms| + 1, k requires 0 <= k <= |ms| => Prefix(s, ms, k)),
           seq(|ms|, k requires 0 <= k < |ms| => GapText(s, ms, k)),
           seq(|ms|, k requires 0 <= k < |ms| => Slice(s, ms[k])))
  }

  lemma {:induction false} WeavingGrows(s: string, ms: seq<Range>, gap: Rewrite, hit: Rewrite)
    ensures Weaving(s, ms, gap, hit).Valid()
  {
    forall k | 0 <= k < |ms| ensures Weaving(s, ms, gap, hit).GrowsAt(k) {
      WovenGrows(s, ms, k + 1, gap, hit);
    }
  }

  lemma {:induction false} ReadingGrows(s: string, ms: seq<Range>)
    requires InOrder(ms, |s|)
    ensures Reading(s, ms).Valid()
  {
    forall k | 0 <= k < |ms| ensures Reading(s, ms).GrowsAt(k) {
      PrefixGrows(s, ms, k + 1);
    }
  }

  predicate PiecesShrinkAt(x: Growth, y: Growth, k: nat)
    requires k < |x.gaps| == |y.gaps| && k < |x.hits| == |y.hits|
  {
    Shrinks(x.gaps[k], y.gaps[k]) && Shrinks(x.hits[k], y.hits[k])
  }

  lemma {:induction false} GrowthShrinks(x: Growth, y: Growth, n: nat)
    requires x.Valid() && y.Valid() && n <= |x.gaps| == |y.gaps| && x.texts[0] == ""
    requires forall k | 0 <= k < |x.gaps| :: PiecesShrinkAt(x, y, k)
    ensures Shrinks(x.texts[n], y.texts[n])
  {
    if n == 0 {
      NothingShrinks(y.texts[0]);
    } else {
      var k := n - 1;
      GrowthShrinks(x, y, k);
      assert x.GrowsAt(k) && y.GrowsAt(k) && PiecesShrinkAt(x, y, k);
      ShrinksThrice(x.texts[k], y.texts[k], x.gaps[k], y.gaps[k], x.hits[k], y.hits[k]);
    }
  }

  lemma {:induction false} GapShrinks(gap: Rewrite, g: string)
    requires GapsShrink(gap)
    ensures Shrinks(gap(g), g)
  {
  }

  /** If every gap and every match shrinks, so does the text. */
  lemma {:induction false} WovenShrinks(s: string, ms: seq<Range>, n: nat, gap: Rewrite, hit: Rewrite)
    requires InOrder(ms, |s|) && n <= |ms| && HitsShrinkIn(s, ms, hit) && GapsShrink(gap)
    ensures LastEnd(ms, n) <= |s| && Shrinks(Woven(s, ms, n, gap, hit), Prefix(s, ms, n))
  {
    var x, y := Weaving(s, ms, gap, hit), Reading(s, ms);
    WeavingGrows(s, ms, gap, hit);
    ReadingGrows(s, ms);
    forall k | 0 <= k < |ms| ensures PiecesShrinkAt(x, y, k) {
      GapShrinks(gap, GapText(s, ms, k));
    }
    GrowthShrinks(x, y, n);
  }

  lemma {:induction false} WeaveShrinks(s: string, ms: seq<Range>, gap: string -> string, hit: string -> string)
    requires InOrder(ms, |s|) && HitsShrinkIn(s, ms, hit) && GapsShrink(gap)
    ensures Shrinks(Weave(s, ms, gap, hit), s)
  {
    var last := LastEnd(ms, |ms|);
    WovenShrinks(s, ms, |ms|, gap, hit);
    CutLast(s, last);
    GapShrinks(gap, Slice(s, Range(last, |s|)));
    ShrinksConcat(Woven(s, ms, |ms|, gap, hit), Slice(s, Range(0, last)),
                  gap(Slice(s, Range(last, |s|))), Slice(s, Range(last, |s|)));
  }

  lemma {:induction false} SameShrinks()
    ensures GapsShrink(Same)
  {
    forall g ensures Shrinks(Same(g), g) {
      SubsequenceReflexive(Core(g));
    }
  }

  lemma {:induction false} MatchesShrink(s: string, ms: seq<Range>, shape: string -> bool, hit: string -> string)
    requires AllShaped(s, ms, shape) && forall m | shape(m) :: Shrinks(hit(m), m)
    ensures HitsShrinkIn(s, ms, hit)
  {
  }

  lemma {:induction false} ReplaceShrinks(s: string, f: Finder, shape: string -> bool, hit: string -> string)
    requires Finds(f, shape) && forall m | shape(m) :: Shrinks(hit(m), m)
    ensures Shrinks(ReplaceAll(s, f, hit), s)
  {
    SameShrinks();
    assert InOrder(f(s), |s|);
    assert AllShaped(s, f(s), shape);
    MatchesShrink(s, f(s), shape, hit);
    WeaveShrinks(s, f(s), Same, hit);
  }

  lemma {:induction false} ErasedShrinks()
    ensures forall m | AnyText(m) :: Shrinks(Erase(m), m)
  {
  }

  lemma {:induction false} BlanksShrink()
    ensures forall m | Blanks(m) :: Shrinks(OneSpace(m), m)
  {
    assert Core(" ") == "" && Bytes(" ") == 1;
    forall m | Blanks(m) ensures Shrinks(OneSpace(m), m) {
      BytesAtLeast(m);
    }
  }

  lemma {:induction false} NewlinesShrink()
    ensures forall m | Newlines(m) :: Shrinks(TwoNewlines(m), m)
  {
    assert "\n\n"[..1] == "\n";
    assert Core("\n") == "" && Bytes("\n") == 1;
    assert Core("\n\n") == "" && Bytes("\n\n") == 2;
    forall m | Newlines(m) ensures Shrinks(TwoNewlines(m), m) {
      BytesAtLeast(m);
    }
  }

  lemma {:induction false} LastCharShrinks(m: string)
    requires m != ""
    ensures Shrinks(LastChar(m), m)
  {
    var c := [m[|m| - 1]];
    assert m == m[..|m| - 1] + c;
    assert Shrinks("", m[..|m| - 1]);
    SubsequenceReflexive(Core(c));
    ShrinksConcat("", m[..|m| - 1], c, c);
    assert "" + c == c;
  }

  lemma {:induction false} CapitalisedShrinks(m: string)
    requires m != "" && 'a' <= m[|m| - 1] <= 'z'
    ensures Shrinks(Capitalised(m), m)
  {
    var c := m[|m| - 1];
    assert Capitalised(m)[..|m| - 1] == m[..|m| - 1];
    assert Upper(Upper(c)) == Upper(c) && !IsWhite(Upper(c)) && !IsWhite(c);
    assert Core(Capitalised(m)) == Core(m);
    SubsequenceReflexive(Core(m));
  }

  lemma {:induction false} EraseShrinks(s: string, f: Finder)
    requires Finds(f, AnyText)
    ensures Shrinks(ReplaceAll(s, f, Erase), s)
  {
    ErasedShrinks();
    ReplaceShrinks(s, f, AnyText, Erase);
  }

  lemma {:induction false} ArticlesShrink(s: string, ms: seq<Range>, isAlphabetic: char -> bool)
    requires InOrder(ms, |s|)
    ensures Shrinks(StrippedArticles(s, ms, isAlphabetic), s)
  {
    SameShrinks();
    var kept := Followed(s, ms, |ms|, isAlphabetic);
    FollowedInOrder(s, ms, |ms|, isAlphabetic);
    assert HitsShrinkIn(s, kept, Erase);
    WeaveShrinks(s, kept, Same, Erase);
  }

  lemma {:induction false} PunctuationShrinks()
    ensures forall m | LoosePunctuation(m) :: Shrinks(LastChar(m), m)
  {
    forall m | LoosePunctuation(m) ensures Shrinks(LastChar(m), m) {
      LastCharShrinks(m);
    }
  }

  lemma {:induction false} StartsShrink()
    ensures forall m | SentenceStart(m) :: Shrinks(Capitalised(m), m)
  {
    forall m | SentenceStart(m) ensures Shrinks(Capitalised(m), m) {
      CapitalisedShrinks(m);
    }
  }

  lemma {:induction false} ThenShrinks(x: Rewrite, y: Rewrite)
    requires GapsShrink(x) && GapsShrink(y)
    ensures GapsShrink(Then(x, y))
  {
    forall s ensures Shrinks(Then(x, y)(s), s) {
      ShrinksTransitive(y(x(s)), x(s), s);
    }
  }

  lemma {:induction false} ErasingShrinks(f: Finder)
    requires Finds(f, AnyText)
    ensures GapsShrink(Replacing(f, Erase))
  {
    forall s ensures Shrinks(Replacing(f, Erase)(s), s) {
      EraseShrinks(s, f);
    }
  }

  lemma {:induction false} WithoutArticlesShrinks(rules: Rules)
    requires Finds(rules.articles, AnyText)
    ensures GapsShrink(WithoutArticles(rules))
  {
    forall s ensures Shrinks(WithoutArticles(rules)(s), s) {
      assert InOrder(rules.articles(s), |s|);
      ArticlesShrink(s, rules.articles(s), rules.isAlphabetic);
    }
  }

  lemma {:induction false} ReplacingShrinks(f: Finder, shape: string -> bool, hit: string -> string)
    requires Finds(f, shape) && forall m | shape(m) :: Shrinks(hit(m), m)
    ensures GapsShrink(Replacing(f, hit))
  {
    forall s ensures Shrinks(Replacing(f, hit)(s), s) {
      ReplaceShrinks(s, f, shape, hit);
    }
  }

  lemma {:induction false} TidyingShrinks(rules: Rules)
    requires WellFormed(rules)
    ensures GapsShrink(Replacing(rules.blanks, OneSpace)) && GapsShrink(Replacing(rules.loosePunctuation, LastChar))
    ensures GapsShrink(Replacing(rules.blankLines, TwoNewlines))
            && GapsShrink(Replacing(rules.sentenceStarts, Capitalised))
  {
    BlanksShrink();
    ReplacingShrinks(rules.blanks, Blanks, OneSpace);
    PunctuationShrinks();
    ReplacingShrinks(rules.loosePunctuation, LoosePunctuation, LastChar);
    NewlinesShrink();
    ReplacingShrinks(rules.blankLines, Newlines, TwoNewlines);
    StartsShrink();
    ReplacingShrinks(rules.sentenceStarts, SentenceStart, Capitalised);
  }

  /** Thinning out a stretch of prose drops characters and changes case and whitespace, no more. */
  lemma {:induction false} ProseShrinks(rules: Rules)
    requires WellFormed(rules)
    ensures GapsShrink(ProseBy(rules))
  {
    DropPhrasesShrinks(rules);
    WithoutArticlesShrinks(rules);
    ThenShrinks(DropPhrases(rules), WithoutArticles(rules));
    TidyingShrinks(rules);
    ThenShrinks(Replacing(rules.blanks, OneSpace), Replacing(rules.loosePunctuation, LastChar));
    ThenShrinks(Then(Replacing(rules.blanks, OneSpace), Replacing(rules.loosePunctuation, LastChar)),
                Replacing(rules.blankLines, TwoNewlines));
    ThenShrinks(Then(DropPhrases(rules), WithoutArticles(rules)), TidyUp(rules));
    ThenShrinks(Shorten(rules), Replacing(rules.sentenceStarts, Capitalised));
  }

  lemma {:induction false} DropPhrasesShrinks(rules: Rules)
    requires WellFormed(rules)
    ensures GapsShrink(DropPhrases(rules))
  {
    ErasingShrinks(rules.leaders);
    ErasingShrinks(rules.pleasantries);
    ErasingShrinks(rules.hedges);
    ErasingShrinks(rules.fillers);
    ThenShrinks(Replacing(rules.leaders, Erase), Replacing(rules.pleasantries, Erase));
    ThenShrinks(Replacing(rules.hedges, Erase), Replacing(rules.fillers, Erase));
    ThenShrinks(Then(Replacing(rules.leaders, Erase), Replacing(rules.pleasantries, Erase)),
                Then(Replacing(rules.hedges, Erase), Replacing(rules.fillers, Erase)));
  }

  lemma {:induction false} TrimsShrink(s: string)
    ensures Shrinks(TrimStart(s), s) && Shrinks(TrimEnd(s), s)
    decreases |s|
  {
    SubsequenceReflexive(Core(s));
    if s != "" {
      var rest, front := s[1..], s[..|s| - 1];
      assert s == [s[0]] + rest && s == front + [s[|s| - 1]];
      TrimsShrink(rest);
      TrimsShrink(front);
      assert Shrinks("", [s[0]]) && Shrinks("", [s[|s| - 1]]);
      ShrinksConcat("", [s[0]], TrimStart(rest), rest);
      ShrinksConcat(TrimEnd(front), front, "", [s[|s| - 1]]);
      assert "" + TrimStart(rest) == TrimStart(rest) && TrimEnd(front) + "" == TrimEnd(front);
    }
  }

  lemma {:induction false} TrimmedWeaveShrinks(text: string, source: string, spans: seq<Range>, gap: string -> string)
    requires InOrder(spans, |source|) && GapsShrink(gap) && Shrinks(source, text)
    ensures Shrinks(Trim(Weave(source, spans, gap, Same)), text)
  {
    SameShrinks();
    var whole := Weave(source, spans, gap, Same);
    WeaveShrinks(source, spans, gap, Same);
    ShrinksTransitive(whole, source, text);
    TrimsShrink(whole);
    ShrinksTransitive(TrimStart(whole), whole, text);
    TrimsShrink(TrimStart(whole));
    ShrinksTransitive(Trim(whole), TrimStart(whole), text);
  }

  /** The compressed text is never longer, and no character of it is invented, moved or doubled. */
  lemma {:induction false} CompressionShrinks(text: string, rules: Rules)
    requires WellFormed(rules)
    ensures Shrinks(Compressed(text, rules), text)
  {
    var source := TrimStart(text);
    TrimsShrink(text);
    ProseShrinks(rules);
    SpansFit(source, rules.protect);
    TrimmedWeaveShrinks(text, source, Protected(source, rules), ProseBy(rules));
  }

  // ---------------------------------------------------------------------------
  // Protected text survives.

  function Texts(s: string, spans: seq<Range>): (pieces: seq<string>)
    ensures |pieces| == |spans| && forall i | 0 <= i < |spans| :: pieces[i] == Slice(s, spans[i])
  {
    seq(|spans|, i requires 0 <= i < |spans| => Slice(s, spans[i]))
  }

  predicate OccursAt(s: string, piece: string, at: nat) {
    at + |piece| <= |s| && s[at..at + |piece|] == piece
  }

  /** The first pieces occur in the text at these places, verbatim, one after the other. */
  predicate Placed(s: string, pieces: seq<string>, at: seq<nat>) {
    && |at| <= |pieces|
    && (forall i | 0 <= i < |at| :: OccursAt(s, pieces[i], at[i]))
    && (forall i, j | 0 <= i < j < |at| :: at[i] + |pieces[i]| <= at[j])
  }

  lemma {:induction false} OccursInLonger(s: string, more: string, piece: string, at: nat)
    requires OccursAt(s, piece, at)
    ensures OccursAt(s + more, piece, at)
  {
    assert (s + more)[at..at + |piece|] == s[at..at + |piece|];
  }

  lemma {:induction false} PlacedInLonger(s: string, more: string, pieces: seq<string>, at: seq<nat>)
    requires Placed(s, pieces, at)
    ensures Placed(s + more, pieces, at)
  {
    forall i | 0 <= i < |at| ensures OccursAt(s + more, pieces[i], at[i]) {
      OccursInLonger(s, more, pieces[i], at[i]);
    }
  }

  lemma {:induction false} PlaceOneMore(s: string, pieces: seq<string>, at: seq<nat>)
    requires Placed(s, pieces, at) && |at| < |pieces|
    ensures Placed(s + pieces[|at|], pieces, at + [|s|])
  {
    PlacedInLonger(s, pieces[|at|], pieces, at);
    assert OccursAt(s + pieces[|at|], pieces[|at|], |s|);
  }

  lemma {:induction false} PlaceBehindGap(woven: string, g: string, piece: string, whole: string, pieces: seq<string>,
                                          at: seq<nat>)
    requires Placed(woven, pieces, at) && |at| < |pieces| && piece == pieces[|at|] && whole == woven + g + piece
    ensures Placed(whole, pieces, at + [|woven + g|])
  {
    PlacedInLonger(woven, g, pieces, at);
    PlaceOneMore(woven + g, pieces, at);
  }

  /** Pieces that are appended one by one, each behind a gap, end up in place. */
  lemma {:induction false} AppendedPieces(x: Growth, n: nat) returns (at: seq<nat>)
    requires x.Valid() && n <= |x.hits|
    ensures |at| == n && Placed(x.texts[n], x.hits, at)
  {
    if n == 0 {
      at := [];
    } else {
      var k := n - 1;
      var before := AppendedPieces(x, k);
      assert x.GrowsAt(k);
      PlaceBehindGap(x.texts[k], x.gaps[k], x.hits[k], x.texts[n], x.hits, before);
      at := before + [|x.texts[k] + x.gaps[k]|];
    }
  }

  lemma {:induction false} WovenPlaced(s: string, spans: seq<Range>, gap: Rewrite) returns (at: seq<nat>)
    ensures |at| == |spans| && Placed(Woven(s, spans, |spans|, gap, Same), Texts(s, spans), at)
  {
    var x := Weaving(s, spans, gap, Same);
    WeavingGrows(s, spans, gap, Same);
    at := AppendedPieces(x, |spans|);
    assert x.hits == Texts(s, spans);
  }

  ghost predicate AllClean(pieces: seq<string>) {
    forall i | 0 <= i < |pieces| :: NoWhiteEnds(pieces[i])
  }

  lemma {:induction false} OccursWithoutFirst(s: string, piece: string, at: nat)
    requires OccursAt(s, piece, at) && NoWhiteEnds(piece) && IsWhite(s[0])
    ensures at > 0 && OccursAt(s[1..], piece, at - 1)
  {
    assert s[at] == piece[0];
    assert at > 0;
    assert s[1..][at - 1..at - 1 + |piece|] == s[at..at + |piece|];
  }

  lemma {:induction false} PlacedWithoutFirst(s: string, pieces: seq<string>, at: seq<nat>) returns (at': seq<nat>)
    requires Placed(s, pieces, at) && AllClean(pieces) && s != "" && IsWhite(s[0])
    ensures |at'| == |at| && Placed(s[1..], pieces, at')
  {
    forall i | 0 <= i < |at| ensures at[i] > 0 && OccursAt(s[1..], pieces[i], at[i] - 1) {
      OccursWithoutFirst(s, pieces[i], at[i]);
    }
    at' := seq(|at|, i requires 0 <= i < |at| => at[i] - 1);
  }

  lemma {:induction false} OccursWithoutLast(s: string, piece: string, at: nat)
    requires OccursAt(s, piece, at) && NoWhiteEnds(piece) && IsWhite(s[|s| - 1])
    ensures OccursAt(s[..|s| - 1], piece, at)
  {
    assert s[at + |piece| - 1] == piece[|piece| - 1];
    assert s[..|s| - 1][at..at + |piece|] == s[at..at + |piece|];
  }

  lemma {:induction false} PlacedWithoutLast(s: string, pieces: seq<string>, at: seq<nat>)
    requires Placed(s, pieces, at) && AllClean(pieces) && s != "" && IsWhite(s[|s| - 1])
    ensures Placed(s[..|s| - 1], pieces, at)
  {
    forall i | 0 <= i < |at| ensures OccursAt(s[..|s| - 1], pieces[i], at[i]) {
      OccursWithoutLast(s, pieces[i], at[i]);
    }
  }

  lemma {:induction false} PlacedAfterTrimStart(s: string, pieces: seq<string>, at: seq<nat>) returns (at': seq<nat>)
    requires Placed(s, pieces, at) && AllClean(pieces)
    ensures |at'| == |at| && Placed(TrimStart(s), pieces, at')
    decreases |s|
  {
    at' := at;
    if s != "" && IsWhite(s[0]) {
      at' := PlacedWithoutFirst(s, pieces, at);
      at' := PlacedAfterTrimStart(s[1..], pieces, at');
    }
  }

  lemma {:induction false} PlacedAfterTrimEnd(s: string, pieces: seq<string>, at: seq<nat>)
    requires Placed(s, pieces, at) && AllClean(pieces)
    ensures Placed(TrimEnd(s), pieces, at)
    decreases |s|
  {
    if s != "" && IsWhite(s[|s| - 1]) {
      PlacedWithoutLast(s, pieces, at);
      PlacedAfterTrimEnd(s[..|s| - 1], pieces, at);
    }
  }

  predicate CleanEnds(source: string, r: Range) {
    r.start < r.end <= |source| && !IsWhite(source[r.start]) && !IsWhite(source[r.end - 1])
  }

  lemma {:induction false} CleanMatch(source: string, ms: seq<Range>, i: nat)
    requires InOrder(ms, |source|) && AllShaped(source, ms, NoWhiteEnds) && i < |ms|
    ensures CleanEnds(source, ms[i])
  {
    assert NoWhiteEnds(Slice(source, ms[i]));
  }

  lemma {:induction false} MatchEndsAreClean(source: string, rules: Rules, j: nat)
    requires WellFormed(rules) && j < |AllMatches(source, rules.protect)|
    ensures CleanEnds(source, AllMatches(source, rules.protect)[j])
  {
    var k, i := MatchesFit(source, rules.protect, j);
    var f := rules.protect[k];
    assert Finds(f, NoWhiteEnds);
    assert InOrder(f(source), |source|) && AllShaped(source, f(source), NoWhiteEnds);
    CleanMatch(source, f(source), i);
  }

  lemma {:induction false} JoinedEndsAreClean(source: string, first: Range, last: Range, span: Range)
    requires CleanEnds(source, first) && CleanEnds(source, last)
    requires span.start == first.start && span.end == last.end && span.start < span.end
    ensures CleanEnds(source, span)
  {
  }

  /** No span begins or ends with whitespace, because no match does. */
  lemma {:induction false} SpanEndsAreClean(source: string, matches: seq<Range>, i: nat)
    requires NonEmpty(matches) && i < |Merged(matches)|
    requires forall j | 0 <= j < |matches| :: CleanEnds(source, matches[j])
    ensures CleanEnds(source, Merged(matches)[i])
  {
    var first, last := SpanEndsAreMatchEnds(matches, i);
    SpansAreSeparated(matches);
    JoinedEndsAreClean(source, matches[first], matches[last], Merged(matches)[i]);
  }

  lemma {:induction false} ProtectedTextsAreClean(source: string, rules: Rules)
    requires WellFormed(rules)
    ensures AllClean(Texts(source, Protected(source, rules)))
  {
    var matches := AllMatches(source, rules.protect);
    forall j: nat | j < |matches| ensures CleanEnds(source, matches[j]) {
      MatchEndsAreClean(source, rules, j);
    }
    SpansFit(source, rules.protect);
    CleanSpans(source, matches);
  }

  lemma {:induction false} CleanSpans(source: string, matches: seq<Range>)
    requires NonEmpty(matches) && forall j | 0 <= j < |matches| :: CleanEnds(source, matches[j])
    ensures AllClean(Texts(source, Merged(matches)))
  {
    forall i: nat | i < |Merged(matches)| ensures NoWhiteEnds(Slice(source, Merged(matches)[i])) {
      SpanEndsAreClean(source, matches, i);
      CleanSlice(source, Merged(matches)[i]);
    }
  }

  lemma {:induction false} CleanSlice(source: string, r: Range)
    requires CleanEnds(source, r)
    ensures NoWhiteEnds(Slice(source, r))
  {
  }

  lemma {:induction false} PlacedInTrimmedWeave(source: string, spans: seq<Range>, gap: string -> string)
    returns (at: seq<nat>)
    requires AllClean(Texts(source, spans))
    ensures |at| == |spans| && Placed(Trim(Weave(source, spans, gap, Same)), Texts(source, spans), at)
  {
    var woven := Woven(source, spans, |spans|, gap, Same);
    var g := gap(Slice(source, Range(LastEnd(spans, |spans|), |source|)));
    at := WovenPlaced(source, spans, gap);
    PlacedInLonger(woven, g, Texts(source, spans), at);
    at := PlacedAfterTrimStart(woven + g, Texts(source, spans), at);
    PlacedAfterTrimEnd(TrimStart(woven + g), Texts(source, spans), at);
  }

  /** The compressed text holds the text of every protected span, verbatim and in order. */
  lemma {:induction false} ProtectedTextSurvives(text: string, rules: Rules) returns (at: seq<nat>)
    requires WellFormed(rules)
    ensures var source := TrimStart(text);
            var spans := Protected(source, rules);
            |at| == |spans| && Placed(Compressed(text, rules), Texts(source, spans), at)
  {
    var source := TrimStart(text);
    ProtectedTextsAreClean(source, rules);
    at := PlacedInTrimmedWeave(source, Protected(source, rules), ProseBy(rules));
  }

  // ---------------------------------------------------------------------------
  // The loops.

  /** Later matches do not matter to what is woven so far. */
  lemma {:induction false} WovenSame(s: string, a: seq<Range>, b: seq<Range>, n: nat, gap: string -> string,
                                     hit: string -> string)
    requires n <= |a| && n <= |b| && forall i | 0 <= i < n :: a[i] == b[i]
    ensures Woven(s, a, n, gap, hit) == Woven(s, b, n, gap, hit) && LastEnd(a, n) == LastEnd(b, n)
  {
    if n > 0 {
      WovenSame(s, a, b, n - 1, gap, hit);
    }
  }

  lemma {:induction false} OneMoreErased(s: string, kept: seq<Range>, m: Range)
    requires LastEnd(kept, |kept|) <= m.start <= |s|
    ensures Woven(s, kept + [m], |kept| + 1, Same, Erase)
         == Woven(s, kept, |kept|, Same, Erase) + s[LastEnd(kept, |kept|)..m.start]
  {
    WovenSame(s, kept + [m], kept, |kept|, Same, Erase);
    assert (kept + [m])[|kept|] == m;
  }

  /** One more match: the text up to it is added if a letter follows it. */
  lemma {:induction false} StripStep(s: string, ms: seq<Range>, i: nat, isAlphabetic: char -> bool)
    requires InOrder(ms, |s|) && i < |ms|
    ensures var kept, next := Followed(s, ms, i, isAlphabetic), Followed(s, ms, i + 1, isAlphabetic);
            && LastEnd(kept, |kept|) <= ms[i].start <= |s|
            && if ms[i].end < |s| && isAlphabetic(s[ms[i].end])
               then LastEnd(next, |next|) == ms[i].end
                    && Woven(s, next, |next|, Same, Erase)
                       == Woven(s, kept, |kept|, Same, Erase) + s[LastEnd(kept, |kept|)..ms[i].start]
               else next == kept
  {
    GapFits(ms, i + 1, |s|);
    FollowedInOrder(s, ms, i, isAlphabetic);
    if ms[i].end < |s| && isAlphabetic(s[ms[i].end]) {
      var kept := Followed(s, ms, i, isAlphabetic);
      KeepsOrder(kept, ms, i + 1, |s|);
      OneMoreErased(s, kept, ms[i]);
    }
  }

  method StripArticles(s: string, ms: seq<Range>, isAlphabetic: char -> bool) returns (out: string)
    requires InOrder(ms, |s|)
    ensures out == StrippedArticles(s, ms, isAlphabetic)
  {
    out := "";
    var last := 0;
    for i := 0 to |ms|
      invariant var kept := Followed(s, ms, i, isAlphabetic);
                last == LastEnd(kept, |kept|) <= |s| && out == Woven(s, kept, |kept|, Same, Erase)
    {
      StripStep(s, ms, i, isAlphabetic);
      if ms[i].end < |s| && isAlphabetic(s[ms[i].end]) {
        out := out + s[last..ms[i].start];
        last := ms[i].end;
      }
    }
    out := out + s[last..];
    assert s[last..] == Slice(s, Range(last, |s|));
  }

  method CompressProse(text: string, rules: Rules) returns (s: string)
    requires Finds(rules.articles, AnyText)
    ensures s == ProseBy(rules)(text)
  {
    s := ReplaceAll(text, rules.leaders, Erase);
    s := ReplaceAll(s, rules.pleasantries, Erase);
    s := ReplaceAll(s, rules.hedges, Erase);
    s := ReplaceAll(s, rules.fillers, Erase);
    assert InOrder(rules.articles(s), |s|);
    s := StripArticles(s, rules.articles(s), rules.isAlphabetic);
    s := ReplaceAll(s, rules.blanks, OneSpace);
    s := ReplaceAll(s, rules.loosePunctuation, LastChar);
    s := ReplaceAll(s, rules.blankLines, TwoNewlines);
    s := ReplaceAll(s, rules.sentenceStarts, Capitalised);
  }

  method Assemble(source: string, spans: seq<Range>, rules: Rules) returns (out: string)
    requires InOrder(spans, |source|) && Finds(rules.articles, AnyText)
    ensures out == Weave(source, spans, ProseBy(rules), Same)
  {
    var last := 0;
    out := "";
    for i := 0 to |spans|
      invariant last == LastEnd(spans, i) <= |source|
      invariant out == Woven(source, spans, i, ProseBy(rules), Same)
    {
      GapFits(spans, i + 1, |source|);
      var prose := CompressGap(source, last, spans[i].start, rules);
      out := out + prose;
      out := out + Slice(source, spans[i]);
      last := spans[i].end;
    }
    var prose := CompressGap(source, last, |source|, rules);
    out := out + prose;
  }

  method CompressGap(source: string, start: nat, end: nat, rules: Rules) returns (prose: string)
    requires start <= end <= |source| && Finds(rules.articles, AnyText)
    ensures prose == ProseBy(rules)(Slice(source, Range(start, end)))
  {
    prose := CompressProse(Slice(source, Range(start, end)), rules);
  }

  method CompressSource(source: string, rules: Rules) returns (compressed: string)
    requires WellFormed(rules)
    ensures compressed == Trim(Weave(source, Protected(source, rules), ProseBy(rules), Same))
  {
    var spans := ProtectedSpans(source, rules.protect);
    assert spans == Protected(source, rules);
    SpansFit(source, rules.protect);
    var out := Assemble(source, spans, rules);
    compressed := Trim(out);
  }

  method Compress(text: string, rules: Rules) returns (compressed: string, before: nat, after: nat)
    requires WellFormed(rules)
    ensures compressed == Compressed(text, rules)
    ensures before == Bytes(text) && after == Bytes(compressed) && after <= before
  {
    if text == "" {
      EmptyText(text, rules);
      return "", 0, 0;
    }
    compressed := CompressSource(TrimStart(text), rules);
    before, after := Bytes(text), Bytes(compressed);
    CompressionShrinks(text, rules);
  }

  lemma {:induction false} WeaveOfNothing(gap: string -> string, hit: string -> string)
    requires gap("") == ""
    ensures Trim(Weave("", [], gap, hit)) == ""
  {
    assert Slice("", Range(LastEnd([], 0), |""|)) == "";
  }

  /** An empty text has no matches and nothing to replace. */
  lemma {:induction false} EmptyText(text: string, rules: Rules)
    requires text == "" && WellFormed(rules)
    ensures Compressed(text, rules) == ""
  {
    SpansFit("", rules.protect);
    NoMatches(Protected("", rules), 0);
    EmptyProse(rules);
    WeaveOfNothing(ProseBy(rules), Same);
  }

  lemma {:induction false} NoMatches(ms: seq<Range>, length: nat)
    requires InOrder(ms, length)
    ensures length == 0 ==> ms == []
  {
    if ms != [] {
      assert ms[0].start < ms[0].end;
    }
  }

  lemma {:induction false} EmptyReplace(f: Finder, shape: string -> bool, hit: string -> string)
    requires Finds(f, shape)
    ensures f("") == [] && ReplaceAll("", f, hit) == ""
  {
    assert InOrder(f(""), |""|);
    NoMatches(f(""), 0);
  }

  lemma {:induction false} EmptyProse(rules: Rules)
    requires WellFormed(rules)
    ensures ProseBy(rules)("") == ""
  {
    EmptyReplace(rules.leaders, AnyText, Erase);
    EmptyReplace(rules.pleasantries, AnyText, Erase);
    EmptyReplace(rules.hedges, AnyText, Erase);
    EmptyReplace(rules.fillers, AnyText, Erase);
    EmptyReplace(rules.articles, AnyText, Erase);
    EmptyReplace(rules.blanks, Blanks, OneSpace);
    EmptyReplace(rules.loosePunctuation, LoosePunctuation, LastChar);
    EmptyReplace(rules.blankLines, Newlines, TwoNewlines);
    EmptyReplace(rules.sentenceStarts, SentenceStart, Capitalised);
  }
}
