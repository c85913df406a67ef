/**
 Compressing a compressed text: what a second pass of the prose compressor changes, and exactly when it
 changes nothing.
 */
module Recompression {
  import opened Strings
  import opened Spans
  import opened Compressor

  /** How many lower-case ASCII letters a text has. */
  function LowerCase(s: string): nat {
    if s == "" then 0 else LowerCase(s[..|s| - 1]) + if 'a' <= s[|s| - 1] <= 'z' then 1 else 0
  }

  /** What a stage makes smaller. */
  datatype Measure = InBytes | InLowerCase

  function Size(measure: Measure, s: string): nat { if measure.InBytes? then Bytes(s) else LowerCase(s) }

  lemma {:induction false} LowerCaseConcat(a: string, b: string)
    ensures LowerCase(a + b) == LowerCase(a) + LowerCase(b)
    decreases |b|
  {
    if b == "" {
      assert a + b == a;
    } else {
      LowerCaseConcat(a, b[..|b| - 1]);
      assert (a + b)[..|a + b| - 1] == a + b[..|b| - 1];
    }
  }

  lemma {:induction false} SizeConcat(measure: Measure, a: string, b: string)
    ensures Size(measure, a + b) == Size(measure, a) + Size(measure, b)
  {
    BytesConcat(a, b);
    LowerCaseConcat(a, b);
  }

  // ---------------------------------------------------------------------------
  // A stage changes a text exactly if its pattern matches.

  ghost predicate HitsLose(s: string, ms: seq<Range>, hit: string -> string, measure: Measure) {
    forall i | 0 <= i < |ms| :: Size(measure, hit(Slice(s, ms[i]))) < Size(measure, Slice(s, ms[i]))
  }

  lemma {:induction false} SizeOfThree(measure: Measure, a: string, b: string, c: string)
    ensures Size(measure, a + b + c) == Size(measure, a) + Size(measure, b) + Size(measure, c)
  {
    SizeConcat(measure, a, b);
    SizeConcat(measure, a + b, c);
  }

  /** The gap stays, the match gets smaller. */
  predicate LosesAt(x: Growth, y: Growth, measure: Measure, k: nat)
    requires k < |x.gaps| == |y.gaps| && k < |x.hits| == |y.hits|
  {
    x.gaps[k] == y.gaps[k] && Size(measure, x.hits[k]) < Size(measure, y.hits[k])
  }

  lemma {:induction false} GrowthLoses(x: Growth, y: Growth, measure: Measure, n: nat)
    requires x.Valid() && y.Valid() && n <= |x.gaps| == |y.gaps| && x.texts[0] == ""
    requires forall k | 0 <= k < |x.gaps| :: LosesAt(x, y, measure, k)
    ensures Size(measure, x.texts[n]) + n <= Size(measure, y.texts[n])
  {
    if n > 0 {
      var k := n - 1;
      GrowthLoses(x, y, measure, k);
      assert x.GrowsAt(k) && y.GrowsAt(k) && LosesAt(x, y, measure, k);
      SizeOfThree(measure, x.texts[k], x.gaps[k], x.hits[k]);
      SizeOfThree(measure, y.texts[k], y.gaps[k], y.hits[k]);
    }
  }

  lemma {:induction false} HitLoses(s: string, ms: seq<Range>, k: nat, hit: Rewrite, measure: Measure)
    requires k < |ms| && HitsLose(s, ms, hit, measure)
    ensures Size(measure, hit(Slice(s, ms[k]))) < Size(measure, Slice(s, ms[k]))
  {
  }

  /** Every match that loses makes the text lose. */
  lemma {:induction false} WovenLoses(s: string, ms: seq<Range>, n: nat, hit: Rewrite, measure: Measure)
    requires InOrder(ms, |s|) && n <= |ms| && HitsLose(s, ms, hit, measure)
    ensures LastEnd(ms, n) <= |s| && Size(measure, Woven(s, ms, n, Same, hit)) + n <= Size(measure, Prefix(s, ms, n))
  {
    var x, y := Weaving(s, ms, Same, hit), Reading(s, ms);
    WeavingGrows(s, ms, Same, hit);
    ReadingGrows(s, ms);
    forall k | 0 <= k < |ms| ensures LosesAt(x, y, measure, k) {
      HitLoses(s, ms, k, hit, measure);
    }
    GrowthLoses(x, y, measure, n);
  }

  lemma {:induction false} WeaveLoses(s: string, ms: seq<Range>, hit: string -> string, measure: Measure)
    requires InOrder(ms, |s|) && HitsLose(s, ms, hit, measure)
    ensures Size(measure, Weave(s, ms, Same, hit)) + |ms| <= Size(measure, s)
  {
    var last := LastEnd(ms, |ms|);
    WovenLoses(s, ms, |ms|, hit, measure);
    CutLast(s, last);
    var rest := Slice(s, Range(last, |s|));
    SizeConcat(measure, Slice(s, Range(0, last)), rest);
    SizeConcat(measure, Woven(s, ms, |ms|, Same, hit), rest);
  }

  lemma {:induction false} WeaveOfNoMatch(s: string, hit: string -> string)
    ensures Weave(s, [], Same, hit) == s
  {
    assert Slice(s, Range(0, |s|)) == s;
  }

  /** A stage leaves a text alone if its pattern does not match, and otherwise makes it smaller. */
  lemma {:induction false} StageIsStrict(s: string, f: Finder, shape: string -> bool, hit: string -> string,
                                         measure: Measure)
    requires Finds(f, shape) && forall m | shape(m) :: Size(measure, hit(m)) < Size(measure, m)
    ensures f(s) == [] ==> ReplaceAll(s, f, hit) == s
    ensures f(s) != [] ==> Size(measure, ReplaceAll(s, f, hit)) < Size(measure, s)
  {
    if f(s) == [] {
      WeaveOfNoMatch(s, hit);
    } else {
      assert InOrder(f(s), |s|) && AllShaped(s, f(s), shape);
      WeaveLoses(s, f(s), hit, measure);
    }
  }

  lemma {:induction false} ErasedLoses(m: string)
    requires m != ""
    ensures Bytes(Erase(m)) < Bytes(m)
  {
    BytesAtLeast(m);
  }

  lemma {:induction false} BlanksLose(m: string)
    requires Blanks(m)
    ensures Bytes(OneSpace(m)) < Bytes(m)
  {
    assert Bytes(" ") == 1;
    BytesAtLeast(m);
  }

  lemma {:induction false} NewlinesLose(m: string)
    requires Newlines(m)
    ensures Bytes(TwoNewlines(m)) < Bytes(m)
  {
    assert "\n\n"[..1] == "\n" && Bytes("\n") == 1 && Bytes("\n\n") == 2;
    BytesAtLeast(m);
  }

  lemma {:induction false} PunctuationLoses(m: string)
    requires LoosePunctuation(m)
    ensures Bytes(LastChar(m)) < Bytes(m)
  {
    var front, last := m[..|m| - 1], [m[|m| - 1]];
    assert m == front + last;
    BytesConcat(front, last);
    BytesAtLeast(front);
  }

  lemma {:induction false} CapitalLoses(front: string, c: char)
    requires 'a' <= c <= 'z'
    ensures LowerCase(front + [Upper(c)]) < LowerCase(front + [c])
  {
    assert (front + [c])[..|front|] == front && (front + [Upper(c)])[..|front|] == front;
  }

  lemma {:induction false} StartLoses(m: string)
    requires m != "" && 'a' <= m[|m| - 1] <= 'z'
    ensures LowerCase(Capitalised(m)) < LowerCase(m)
  {
    CapitalLoses(m[..|m| - 1], m[|m| - 1]);
    assert m == m[..|m| - 1] + [m[|m| - 1]];
  }

  type Condition = string -> bool

  /** The rewrite leaves a text alone exactly under the condition, and otherwise makes it smaller. */
  ghost predicate IdleWhen(x: Rewrite, idle: Condition, measure: Measure) {
    forall s :: if idle(s) then x(s) == s else x(s) != s && Size(measure, x(s)) < Size(measure, s)
  }

  function Unmatched(f: Finder): Condition { (s: string) => f(s) == [] }

  /** No match of the articles is followed by a letter. */
  function NoneFollowed(rules: Rules): Condition {
    (s: string) => Followed(s, rules.articles(s), |rules.articles(s)|, rules.isAlphabetic) == []
  }

  lemma {:induction false} ReplacingIsIdle(f: Finder, shape: string -> bool, hit: string -> string, measure: Measure)
    requires Finds(f, shape) && forall m | shape(m) :: Size(measure, hit(m)) < Size(measure, m)
    ensures IdleWhen(Replacing(f, hit), Unmatched(f), measure)
  {
    forall s
      ensures if Unmatched(f)(s) then Replacing(f, hit)(s) == s
              else Replacing(f, hit)(s) != s && Size(measure, Replacing(f, hit)(s)) < Size(measure, s)
    {
      StageIsStrict(s, f, shape, hit, measure);
    }
  }

  lemma {:induction false} ErasingIsIdle(f: Finder)
    requires Finds(f, AnyText)
    ensures IdleWhen(Replacing(f, Erase), Unmatched(f), InBytes)
  {
    forall m | AnyText(m) ensures Bytes(Erase(m)) < Bytes(m) { ErasedLoses(m); }
    ReplacingIsIdle(f, AnyText, Erase, InBytes);
  }

  lemma {:induction false} BlanksAreIdle(f: Finder)
    requires Finds(f, Blanks)
    ensures IdleWhen(Replacing(f, OneSpace), Unmatched(f), InBytes)
  {
    forall m | Blanks(m) ensures Bytes(OneSpace(m)) < Bytes(m) { BlanksLose(m); }
    ReplacingIsIdle(f, Blanks, OneSpace, InBytes);
  }

  lemma {:induction false} PunctuationIsIdle(f: Finder)
    requires Finds(f, LoosePunctuation)
    ensures IdleWhen(Replacing(f, LastChar), Unmatched(f), InBytes)
  {
    forall m | LoosePunctuation(m) ensures Bytes(LastChar(m)) < Bytes(m) { PunctuationLoses(m); }
    ReplacingIsIdle(f, LoosePunctuation, LastChar, InBytes);
  }

  lemma {:induction false} BlankLinesAreIdle(f: Finder)
    requires Finds(f, Newlines)
    ensures IdleWhen(Replacing(f, TwoNewlines), Unmatched(f), InBytes)
  {
    forall m | Newlines(m) ensures Bytes(TwoNewlines(m)) < Bytes(m) { NewlinesLose(m); }
    ReplacingIsIdle(f, Newlines, TwoNewlines, InBytes);
  }

  lemma {:induction false} StartsAreIdle(f: Finder)
    requires Finds(f, SentenceStart)
    ensures IdleWhen(Replacing(f, Capitalised), Unmatched(f), InLowerCase)
  {
    forall m | SentenceStart(m) ensures LowerCase(Capitalised(m)) < LowerCase(m) { StartLoses(m); }
    ReplacingIsIdle(f, SentenceStart, Capitalised, InLowerCase);
  }

  lemma {:induction false} KeptArticlesLose(s: string, kept: seq<Range>)
    requires InOrder(kept, |s|) && kept != []
    ensures Bytes(Weave(s, kept, Same, Erase)) < Bytes(s)
  {
    forall i | 0 <= i < |kept| ensures Bytes(Erase(Slice(s, kept[i]))) < Bytes(Slice(s, kept[i])) {
      ErasedLoses(Slice(s, kept[i]));
    }
    WeaveLoses(s, kept, Erase, InBytes);
  }

  lemma {:induction false} ArticlesAreIdle(rules: Rules)
    requires Finds(rules.articles, AnyText)
    ensures IdleWhen(WithoutArticles(rules), NoneFollowed(rules), InBytes)
  {
    forall s
      ensures if NoneFollowed(rules)(s) then WithoutArticles(rules)(s) == s
              else WithoutArticles(rules)(s) != s && Bytes(WithoutArticles(rules)(s)) < Bytes(s)
    {
      var ms := rules.articles(s);
      assert InOrder(ms, |s|);
      FollowedInOrder(s, ms, |ms|, rules.isAlphabetic);
      if NoneFollowed(rules)(s) {
        WeaveOfNoMatch(s, Erase);
      } else {
        KeptArticlesLose(s, Followed(s, ms, |ms|, rules.isAlphabetic));
      }
    }
  }

  function Both(c: Condition, d: Condition): Condition { (s: string) => c(s) && d(s) }

  /** One rewrite cannot make up for another. */
  lemma {:induction false} ThenIsIdle(x: Rewrite, y: Rewrite, c: Condition, d: Condition, measure: Measure)
    requires IdleWhen(x, c, measure) && IdleWhen(y, d, measure)
    ensures IdleWhen(Then(x, y), Both(c, d), measure)
  {
    forall s
      ensures if Both(c, d)(s) then Then(x, y)(s) == s
              else Then(x, y)(s) != s && Size(measure, Then(x, y)(s)) < Size(measure, s)
    {
      var t := x(s);
      assert Size(measure, t) <= Size(measure, s) && Size(measure, y(t)) <= Size(measure, t);
    }
  }

  lemma {:induction false} LastFixes(x: Rewrite, y: Rewrite, c: Condition, d: Condition, measure: Measure,
                                     other: Measure)
    requires IdleWhen(x, c, measure) && IdleWhen(y, d, other) && forall t :: Size(measure, y(t)) <= Size(measure, t)
    ensures FixesWhen(Then(x, y), Both(c, d))
  {
    forall s ensures Then(x, y)(s) == s <==> Both(c, d)(s) {
      assert Size(measure, y(x(s))) <= Size(measure, x(s));
    }
  }

  /** The rewrite leaves a text alone exactly under the condition. */
  ghost predicate FixesWhen(x: Rewrite, idle: Condition) { forall s :: x(s) == s <==> idle(s) }

  lemma {:induction false} ShrinkingBytes(x: Rewrite)
    requires GapsShrink(x)
    ensures forall t :: Bytes(x(t)) <= Bytes(t)
  {
    forall t ensures Bytes(x(t)) <= Bytes(t) {
      assert Shrinks(x(t), t);
    }
  }

  /** Where no stage but the last has anything to do. */
  function NoPhrases(rules: Rules): Condition {
    Both(Both(Unmatched(rules.leaders), Unmatched(rules.pleasantries)),
        Both(Unmatched(rules.hedges), Unmatched(rules.fillers)))
  }

  function IsTidy(rules: Rules): Condition {
    Both(Both(Unmatched(rules.blanks), Unmatched(rules.loosePunctuation)), Unmatched(rules.blankLines))
  }

  lemma {:induction false} DropPhrasesIsIdle(rules: Rules)
    requires WellFormed(rules)
    ensures IdleWhen(DropPhrases(rules), NoPhrases(rules), InBytes)
  {
    ErasingIsIdle(rules.leaders);
    ErasingIsIdle(rules.pleasantries);
    ErasingIsIdle(rules.hedges);
    ErasingIsIdle(rules.fillers);
    var a, b, c, d := Replacing(rules.leaders, Erase), Replacing(rules.pleasantries, Erase),
                      Replacing(rules.hedges, Erase), Replacing(rules.fillers, Erase);
    ThenIsIdle(a, b, Unmatched(rules.leaders), Unmatched(rules.pleasantries), InBytes);
    ThenIsIdle(c, d, Unmatched(rules.hedges), Unmatched(rules.fillers), InBytes);
    ThenIsIdle(Then(a, b), Then(c, d), Both(Unmatched(rules.leaders), Unmatched(rules.pleasantries)),
               Both(Unmatched(rules.hedges), Unmatched(rules.fillers)), InBytes);
  }

  lemma {:induction false} TidyUpIsIdle(rules: Rules)
    requires WellFormed(rules)
    ensures IdleWhen(TidyUp(rules), IsTidy(rules), InBytes)
  {
    BlanksAreIdle(rules.blanks);
    PunctuationIsIdle(rules.loosePunctuation);
    BlankLinesAreIdle(rules.blankLines);
    var a, b, c := Replacing(rules.blanks, OneSpace), Replacing(rules.loosePunctuation, LastChar),
                   Replacing(rules.blankLines, TwoNewlines);
    ThenIsIdle(a, b, Unmatched(rules.blanks), Unmatched(rules.loosePunctuation), InBytes);
    ThenIsIdle(Then(a, b), c, Both(Unmatched(rules.blanks), Unmatched(rules.loosePunctuation)),
        Unmatched(rules.blankLines), InBytes);
  }

  lemma {:induction false} ProseFixes(rules: Rules)
    requires WellFormed(rules)
    ensures FixesWhen(ProseBy(rules), Both(Both(Both(NoPhrases(rules), NoneFollowed(rules)), IsTidy(rules)),
                                           Unmatched(rules.sentenceStarts)))
  {
    DropPhrasesIsIdle(rules);
    ArticlesAreIdle(rules);
    ThenIsIdle(DropPhrases(rules), WithoutArticles(rules), NoPhrases(rules), NoneFollowed(rules), InBytes);
    TidyUpIsIdle(rules);
    ThenIsIdle(Then(DropPhrases(rules), WithoutArticles(rules)), TidyUp(rules),
               Both(NoPhrases(rules), NoneFollowed(rules)), IsTidy(rules), InBytes);
    StartsAreIdle(rules.sentenceStarts);
    TidyingShrinks(rules);
    ShrinkingBytes(Replacing(rules.sentenceStarts, Capitalised));
    LastFixes(Shorten(rules), Replacing(rules.sentenceStarts, Capitalised),
              Both(Both(NoPhrases(rules), NoneFollowed(rules)), IsTidy(rules)), Unmatched(rules.sentenceStarts),
                  InBytes, InLowerCase);
  }

  /** No pattern of the prose compressor matches; articles may, where no letter follows. */
  predicate Quiet(g: string, rules: Rules) {
    && rules.leaders(g) == [] && rules.pleasantries(g) == [] && rules.hedges(g) == [] && rules.fillers(g) == []
    && NoneFollowed(rules)(g)
    && rules.blanks(g) == [] && rules.loosePunctuation(g) == [] && rules.blankLines(g) == []
      && rules.sentenceStarts(g) == []
  }

  /** The prose compressor leaves a stretch alone exactly if none of its patterns matches there. */
  lemma {:induction false} ProseFixedIff(g: string, rules: Rules)
    requires WellFormed(rules)
    ensures ProseBy(rules)(g) == g <==> Quiet(g, rules)
  {
    ProseFixes(rules);
    QuietMeans(g, rules);
  }

  lemma {:induction false} QuietMeans(g: string, rules: Rules)
    ensures Quiet(g, rules) <==>
      Both(Both(Both(NoPhrases(rules), NoneFollowed(rules)), IsTidy(rules)), Unmatched(rules.sentenceStarts))(g)
  {
  }

  // ---------------------------------------------------------------------------
  // A text is a fixed point exactly if it is trimmed and its gaps are quiet.

  ghost predicate GapsStay(s: string, spans: seq<Range>, n: nat, gap: Rewrite)
    requires n <= |spans| + 1
  {
    forall k | 0 <= k < n :: gap(GapText(s, spans, k)) == GapText(s, spans, k)
  }

  lemma {:induction false} WeaveEnds(s: string, spans: seq<Range>, gap: Rewrite)
    requires InOrder(spans, |s|)
    ensures Weave(s, spans, gap, Same) == Woven(s, spans, |spans|, gap, Same) + gap(GapText(s, spans, |spans|))
    ensures s == Prefix(s, spans, |spans|) + GapText(s, spans, |spans|)
  {
    EndFits(s, spans);
    CutLast(s, LastEnd(spans, |spans|));
  }

  lemma {:induction false} EndFits(s: string, spans: seq<Range>)
    requires InOrder(spans, |s|)
    ensures LastEnd(spans, |spans|) <= |s|
  {
  }

  lemma {:induction false} IdleGapsWeaveNothing(s: string, spans: seq<Range>, n: nat, gap: Rewrite)
    requires InOrder(spans, |s|) && n <= |spans| && GapsStay(s, spans, |spans| + 1, gap)
    ensures Woven(s, spans, n, gap, Same) == Prefix(s, spans, n)
  {
    if n > 0 {
      IdleGapsWeaveNothing(s, spans, n - 1, gap);
      assert gap(GapText(s, spans, n - 1)) == GapText(s, spans, n - 1);
      OneMoreIdleGap(s, spans, n, gap);
    }
  }

  lemma {:induction false} OneMoreIdleGap(s: string, spans: seq<Range>, n: nat, gap: Rewrite)
    requires InOrder(spans, |s|) && 0 < n <= |spans|
    requires gap(GapText(s, spans, n - 1)) == GapText(s, spans, n - 1)
    requires Woven(s, spans, n - 1, gap, Same) == Prefix(s, spans, n - 1)
    ensures Woven(s, spans, n, gap, Same) == Prefix(s, spans, n)
  {
    WovenGrows(s, spans, n, gap, Same);
    PrefixGrows(s, spans, n);
  }

  /** Equal texts split at equally long ends are split alike. */
  lemma {:induction false} SplitAlike(a: string, b: string, c: string, d: string)
    requires a + b == c + d && Bytes(b) == Bytes(d)
    ensures a == c && b == d
  {
    if |b| < |d| {
      LongerEnd(a, b, c, d);
    } else if |d| < |b| {
      LongerEnd(c, d, a, b);
    } else {
      assert a == (a + b)[..|a|] && c == (c + d)[..|c|];
      assert b == (a + b)[|a|..] && d == (c + d)[|c|..];
    }
  }

  lemma {:induction false} LongerEnd(a: string, b: string, c: string, d: string)
    requires a + b == c + d && |b| < |d|
    ensures Bytes(b) < Bytes(d)
  {
    var n := |d| - |b|;
    assert d == (c + d)[|c|..] && b == (a + b)[|a|..];
    assert d == d[..n] + b;
    BytesConcat(d[..n], b);
    BytesAtLeast(d[..n]);
  }

  lemma {:induction false} PrefixBound(s: string, spans: seq<Range>, n: nat, gap: Rewrite)
    requires InOrder(spans, |s|) && n <= |spans| && GapsShrink(gap)
    ensures Bytes(Woven(s, spans, n, gap, Same)) <= Bytes(Prefix(s, spans, n))
  {
    SameShrinks();
    WovenShrinks(s, spans, n, gap, Same);
  }

  lemma {:induction false} StepBounds(s: string, spans: seq<Range>, n: nat, gap: Rewrite)
    requires InOrder(spans, |s|) && 0 < n <= |spans| && GapsShrink(gap)
    ensures Bytes(Woven(s, spans, n - 1, gap, Same)) <= Bytes(Prefix(s, spans, n - 1))
    ensures Bytes(gap(GapText(s, spans, n - 1))) <= Bytes(GapText(s, spans, n - 1))
  {
    PrefixBound(s, spans, n - 1, gap);
    assert Shrinks(gap(GapText(s, spans, n - 1)), GapText(s, spans, n - 1));
  }

  /** Two texts grow piece by piece, the first with gaps that may be shorter. */
  ghost predicate GrowAlike(first: seq<string>, second: seq<string>, shorter: seq<string>, gaps: seq<string>,
                            pieces: seq<string>) {
    && |first| == |second| == |pieces| + 1 && |shorter| == |gaps| == |pieces|
    && forall k | 0 <= k < |pieces| ::
         && first[k + 1] == first[k] + shorter[k] + pieces[k] && second[k + 1] == second[k] + gaps[k] + pieces[k]
         && Bytes(first[k]) <= Bytes(second[k]) && Bytes(shorter[k]) <= Bytes(gaps[k])
  }

  /** If they end up equal, no gap was shorter or different. */
  lemma {:induction false} EqualAtTheEnd(first: seq<string>, second: seq<string>, shorter: seq<string>,
                                         gaps: seq<string>,
                                         pieces: seq<string>, n: nat, k: nat)
    requires GrowAlike(first, second, shorter, gaps, pieces) && k < n <= |pieces| && first[n] == second[n]
    ensures shorter[k] == gaps[k]
    decreases n
  {
    var m := n - 1;
    assert first[m + 1] == first[m] + shorter[m] + pieces[m] && second[m + 1] == second[m] + gaps[m] + pieces[m];
    SameEnds(first[m], shorter[m], second[m], gaps[m], pieces[m]);
    if k < m {
      EqualAtTheEnd(first, second, shorter, gaps, pieces, m, k);
    }
  }

  /** If gaps only shrink and nothing is missing at the end, every gap is as it was. */
  lemma {:induction false} NothingWovenMeansIdleGap(s: string, spans: seq<Range>, gap: Rewrite, k: nat)
    requires InOrder(spans, |s|) && k < |spans| && GapsShrink(gap)
    requires Woven(s, spans, |spans|, gap, Same) == Prefix(s, spans, |spans|)
    ensures gap(GapText(s, spans, k)) == GapText(s, spans, k)
  {
    var n := |spans|;
    var first := seq(n + 1, i requires 0 <= i <= n => Woven(s, spans, i, gap, Same));
    var second := seq(n + 1, i requires 0 <= i <= n => Prefix(s, spans, i));
    var shorter := seq(n, i requires 0 <= i < n => gap(GapText(s, spans, i)));
    var gaps := seq(n, i requires 0 <= i < n => GapText(s, spans, i));
    var pieces := seq(n, i requires 0 <= i < n => Slice(s, spans[i]));
    forall i | 0 <= i < n
      ensures first[i + 1] == first[i] + shorter[i] + pieces[i] && second[i + 1] == second[i] + gaps[i] + pieces[i]
      ensures Bytes(first[i]) <= Bytes(second[i]) && Bytes(shorter[i]) <= Bytes(gaps[i])
    {
      WovenGrows(s, spans, i + 1, gap, Same);
      PrefixGrows(s, spans, i + 1);
      StepBounds(s, spans, i + 1, gap);
    }
    EqualAtTheEnd(first, second, shorter, gaps, pieces, n, k);
  }

  lemma {:induction false} SameEnds(woven: string, g': string, prefix: string, g: string, piece: string)
    requires woven + g' + piece == prefix + g + piece
    requires Bytes(woven) <= Bytes(prefix) && Bytes(g') <= Bytes(g)
    ensures woven == prefix && g' == g
  {
    SplitAlike(woven + g', piece, prefix + g, piece);
    BytesConcat(woven, g');
    BytesConcat(prefix, g);
    SplitAlike(woven, g', prefix, g);
  }

  lemma {:induction false} TrimLoses(s: string)
    ensures TrimStart(s) == s || Bytes(TrimStart(s)) < Bytes(s)
    ensures TrimEnd(s) == s || Bytes(TrimEnd(s)) < Bytes(s)
    decreases |s|
  {
    if s != "" {
      var rest, front := s[1..], s[..|s| - 1];
      assert s == [s[0]] + rest && s == front + [s[|s| - 1]];
      BytesConcat([s[0]], rest);
      BytesConcat(front, [s[|s| - 1]]);
      BytesAtLeast([s[0]]);
      BytesAtLeast([s[|s| - 1]]);
      TrimLoses(rest);
      TrimLoses(front);
    }
  }

  lemma {:induction false} EndStays(woven: string, g': string, prefix: string, g: string, whole: string, s: string)
    requires whole == woven + g' && s == prefix + g && Trim(whole) == s
    requires Bytes(woven) <= Bytes(prefix) && Bytes(g') <= Bytes(g)
    ensures whole == s && woven == prefix && g' == g
  {
    BytesConcat(woven, g');
    BytesConcat(prefix, g);
    NoRoomToTrim(whole, s);
    SplitAlike(woven, g', prefix, g);
  }

  lemma {:induction false} FixedMeansIdle(s: string, spans: seq<Range>, gap: Rewrite)
    requires InOrder(spans, |s|) && GapsShrink(gap) && Trim(Weave(s, spans, gap, Same)) == s
    ensures Trim(s) == s && Woven(s, spans, |spans|, gap, Same) == Prefix(s, spans, |spans|)
    ensures gap(GapText(s, spans, |spans|)) == GapText(s, spans, |spans|)
  {
    var last := GapText(s, spans, |spans|);
    WeaveEnds(s, spans, gap);
    PrefixBound(s, spans, |spans|, gap);
    ShrinkingBytes(gap);
    EndStays(Woven(s, spans, |spans|, gap, Same), gap(last), Prefix(s, spans, |spans|), last,
        Weave(s, spans, gap, Same), s);
  }

  lemma {:induction false} IdleMeansFixed(s: string, spans: seq<Range>, gap: Rewrite)
    requires InOrder(spans, |s|) && Trim(s) == s && GapsStay(s, spans, |spans| + 1, gap)
    ensures Trim(Weave(s, spans, gap, Same)) == s
  {
    WeaveEnds(s, spans, gap);
    IdleGapsWeaveNothing(s, spans, |spans|, gap);
    assert gap(GapText(s, spans, |spans|)) == GapText(s, spans, |spans|);
  }

  /** Woven and trimmed, a text is what it was exactly if it is trimmed and every gap stays. */
  lemma {:induction false} TrimmedWeaveFixedIff(s: string, spans: seq<Range>, gap: Rewrite)
    requires InOrder(spans, |s|) && GapsShrink(gap)
    ensures Trim(Weave(s, spans, gap, Same)) == s <==> Trim(s) == s && GapsStay(s, spans, |spans| + 1, gap)
  {
    if Trim(Weave(s, spans, gap, Same)) == s {
      FixedMeansIdle(s, spans, gap);
      forall k | 0 <= k < |spans| + 1 ensures gap(GapText(s, spans, k)) == GapText(s, spans, k) {
        if k < |spans| {
          NothingWovenMeansIdleGap(s, spans, gap, k);
        }
      }
    } else if Trim(s) == s && GapsStay(s, spans, |spans| + 1, gap) {
      IdleMeansFixed(s, spans, gap);
    }
  }

  lemma {:induction false} NoRoomToTrim(whole: string, s: string)
    requires Trim(whole) == s && Bytes(whole) <= Bytes(s)
    ensures whole == s
  {
    TrimLoses(whole);
    TrimLoses(TrimStart(whole));
  }

  /** No pattern matches in the text between the protected spans. */
  ghost predicate QuietText(s: string, rules: Rules) {
    var spans := Protected(s, rules);
    forall k | 0 <= k <= |spans| :: Quiet(GapText(s, spans, k), rules)
  }

  /** Compressing leaves a text alone exactly if it is trimmed and no pattern matches outside its protected spans. */
  lemma {:induction false} FixedIff(s: string, rules: Rules)
    requires WellFormed(rules)
    ensures Compressed(s, rules) == s <==> Trim(s) == s && QuietText(s, rules)
  {
    if TrimStart(s) != s {
      StaysTrimmed(s, rules);
    } else {
      var spans := Protected(s, rules);
      SpansFit(s, rules.protect);
      ProseShrinks(rules);
      TrimmedWeaveFixedIff(s, spans, ProseBy(rules));
      GapsStayIff(s, spans, rules);
    }
  }

  lemma {:induction false} GapsStayIff(s: string, spans: seq<Range>, rules: Rules)
    requires WellFormed(rules)
    ensures GapsStay(s, spans, |spans| + 1, ProseBy(rules))
            <==> forall k | 0 <= k <= |spans| :: Quiet(GapText(s, spans, k), rules)
  {
    forall k | 0 <= k <= |spans|
      ensures ProseBy(rules)(GapText(s, spans, k)) == GapText(s, spans, k) <==> Quiet(GapText(s, spans, k), rules)
    {
      ProseFixedIff(GapText(s, spans, k), rules);
    }
  }

  /** A text with white space in front is neither trimmed nor a compressed text. */
  lemma {:induction false} StaysTrimmed(s: string, rules: Rules)
    requires WellFormed(rules) && TrimStart(s) != s
    ensures Compressed(s, rules) != s && Trim(s) != s
  {
    var source := TrimStart(s);
    TrimLoses(s);
    TrimLoses(source);
    TrimsShrink(source);
    SubsequenceReflexive(Core(source));
    SpansFit(source, rules.protect);
    ProseShrinks(rules);
    TrimmedWeaveShrinks(source, source, Protected(source, rules), ProseBy(rules));
  }

  // ---------------------------------------------------------------------------
  // The second pass.

  lemma {:induction false} TrimEndKeepsFront(s: string)
    requires TrimStart(s) == s
    ensures TrimStart(TrimEnd(s)) == TrimEnd(s)
    decreases |s|
  {
    if s != "" && IsWhite(s[|s| - 1]) {
      var front := s[..|s| - 1];
      if front != "" {
        assert front[0] == s[0];
        NotWhiteInFront(s);
        assert TrimStart(front) == front;
      }
      TrimEndKeepsFront(front);
    }
  }

  lemma {:induction false} NotWhiteInFront(s: string)
    requires TrimStart(s) == s && s != ""
    ensures !IsWhite(s[0])
  {
    if IsWhite(s[0]) {
      TrimStartLength(s[1..]);
    }
  }

  lemma {:induction false} TrimStartLength(s: string)
    ensures |TrimStart(s)| <= |s|
    decreases |s|
  {
    if s != "" && IsWhite(s[0]) {
      TrimStartLength(s[1..]);
    }
  }

  lemma {:induction false} TrimmedOnce(s: string)
    ensures TrimStart(TrimStart(s)) == TrimStart(s) && TrimEnd(TrimEnd(s)) == TrimEnd(s)
    decreases |s|
  {
    if s != "" && IsWhite(s[0]) {
      TrimmedOnce(s[1..]);
    }
    if s != "" && IsWhite(s[|s| - 1]) {
      TrimmedOnce(s[..|s| - 1]);
    }
  }

  lemma {:induction false} TrimIsFinal(s: string)
    ensures Trim(Trim(s)) == Trim(s)
  {
    TrimmedOnce(s);
    TrimEndKeepsFront(TrimStart(s));
    TrimmedOnce(TrimStart(s));
  }

  /** A second pass changes nothing exactly if no pattern matches outside the protected spans of the first result. */
  lemma {:induction false} IdempotentIff(text: string, rules: Rules)
    requires WellFormed(rules)
    ensures Compressed(Compressed(text, rules), rules) == Compressed(text, rules)
            <==> QuietText(Compressed(text, rules), rules)
  {
    var source := TrimStart(text);
    TrimIsFinal(Weave(source, Protected(source, rules), ProseBy(rules), Same));
    FixedIff(Compressed(text, rules), rules);
  }

  // ---------------------------------------------------------------------------
  // A text for which the second pass goes on.

  /** A pattern that matches in one text only, at one place. */
  function Only(text: string, r: Range): Finder { (s: string) => if s == text then [r] else [] }
  function Never(): Finder { (s: string) => [] }

  /** Four texts, each one stage behind the one before, and where a pattern matches in the first three. */
  datatype Story = Story(first: string, filler: Range, gapped: string, blanks: Range, joined: string, start: Range,
                         again: string)

  /** The filler, without which the first text is the second. */
  predicate FillerGoes(t: Story) {
    && t.filler.start < t.filler.end <= |t.first|
    && t.first[..t.filler.start] + t.first[t.filler.end..] == t.gapped
  }

  /** The blanks, joined to one space in the third text. */
  predicate BlanksJoin(t: Story) {
    && t.blanks.start < t.blanks.end <= |t.gapped| && Blanks(Slice(t.gapped, t.blanks))
    && t.gapped[..t.blanks.start] + " " + t.gapped[t.blanks.end..] == t.joined
  }

  /** The sentence start, capitalised in the last text. */
  predicate StartRises(t: Story) {
    && t.start.start < t.start.end <= |t.joined| && SentenceStart(Slice(t.joined, t.start))
    && t.joined[..t.start.start] + Capitalised(t.joined[t.start.start..t.start.end]) + t.joined[t.start.end..]
       == t.again
  }

  predicate Told(t: Story) {
    && FillerGoes(t) && BlanksJoin(t) && StartRises(t)
    && TrimStart(t.first) == t.first && Trim(t.again) == t.again && t.again != ""
  }

  /** The patterns match in the texts of the story just as it says, and a hedge matches in the last one. */
  predicate Tells(rules: Rules, t: Story) {
    && AllMatches(t.first, rules.protect) == [] && AllMatches(t.again, rules.protect) == []
    && rules.leaders(t.first) == [] && rules.pleasantries(t.first) == [] && rules.hedges(t.first) == []
    && rules.fillers(t.first) == [t.filler]
    && rules.articles(t.gapped) == []
    && rules.blanks(t.gapped) == [t.blanks]
    && rules.loosePunctuation(t.joined) == [] && rules.blankLines(t.joined) == []
    && rules.sentenceStarts(t.joined) == [t.start]
    && rules.hedges(t.again) != []
  }

  lemma {:induction false} OnlyFinds(text: string, r: Range, shape: string -> bool)
    requires r.start < r.end <= |text| && shape(Slice(text, r))
    ensures Finds(Only(text, r), shape)
  {
  }

  lemma {:induction false} NeverFinds(shape: string -> bool)
    ensures Finds(Never(), shape)
  {
  }

  /** Patterns that tell the story and match nowhere else. */
  function PatternsOf(t: Story, isAlphabetic: char -> bool): Rules {
    Rules([], Never(), Never(), Only(t.again, Range(0, |t.again|)), Only(t.first, t.filler), Never(),
          Only(t.gapped, t.blanks), Never(), Never(), Only(t.joined, t.start), isAlphabetic)
  }

  lemma {:induction false} PatternsAreWellFormed(t: Story, isAlphabetic: char -> bool)
    requires Told(t)
    ensures WellFormed(PatternsOf(t, isAlphabetic))
  {
    StoryMatches(t);
    OnlyFinds(t.again, Range(0, |t.again|), AnyText);
    OnlyFinds(t.first, t.filler, AnyText);
    OnlyFinds(t.gapped, t.blanks, Blanks);
    OnlyFinds(t.joined, t.start, SentenceStart);
    NeverFinds(AnyText);
    NeverFinds(LoosePunctuation);
    NeverFinds(Newlines);
  }

  lemma {:induction false} StoryMatches(t: Story)
    requires Told(t)
    ensures 0 < |t.again| && AnyText(Slice(t.again, Range(0, |t.again|)))
    ensures t.filler.start < t.filler.end <= |t.first| && AnyText(Slice(t.first, t.filler))
    ensures t.blanks.start < t.blanks.end <= |t.gapped| && Blanks(Slice(t.gapped, t.blanks))
    ensures t.start.start < t.start.end <= |t.joined| && SentenceStart(Slice(t.joined, t.start))
  {
  }

  /** The filler makes the texts different. */
  lemma {:induction false} StoryGoesOn(t: Story)
    requires Told(t)
    ensures t.first != t.again
  {
  }

  /** Every story is told by some well-formed rules. */
  lemma {:induction false} StoriesAreTold(t: Story, isAlphabetic: char -> bool)
    requires Told(t)
    ensures WellFormed(PatternsOf(t, isAlphabetic)) && Tells(PatternsOf(t, isAlphabetic), t)
  {
    StoryGoesOn(t);
    PatternsAreWellFormed(t, isAlphabetic);
    var rules := PatternsOf(t, isAlphabetic);
    assert AllMatches(t.first, rules.protect) == [] && AllMatches(t.again, rules.protect) == [];
  }

  lemma {:induction false} ReplaceOne(text: string, f: Finder, r: Range, hit: Rewrite)
    requires r.start < r.end <= |text| && f(text) == [r]
    ensures Replacing(f, hit)(text) == text[..r.start] + hit(text[r.start..r.end]) + text[r.end..]
  {
    var ms := [r];
    assert Woven(text, ms, 0, Same, hit) == "";
    assert Woven(text, ms, 1, Same, hit) == "" + text[..r.start] + hit(text[r.start..r.end]);
  }

  lemma {:induction false} ReplaceNone(text: string, f: Finder, hit: Rewrite)
    requires f(text) == []
    ensures Replacing(f, hit)(text) == text
  {
    WeaveOfNoMatch(text, hit);
  }

  lemma {:induction false} DropsTheFiller(rules: Rules, t: Story)
    requires Told(t) && Tells(rules, t)
    ensures DropPhrases(rules)(t.first) == t.gapped
  {
    ReplaceNone(t.first, rules.leaders, Erase);
    ReplaceNone(t.first, rules.pleasantries, Erase);
    ReplaceNone(t.first, rules.hedges, Erase);
    ReplaceOne(t.first, rules.fillers, t.filler, Erase);
    assert t.first[..t.filler.start] + "" == t.first[..t.filler.start];
  }

  lemma {:induction false} ClosesTheGap(rules: Rules, t: Story)
    requires Told(t) && Tells(rules, t)
    ensures WithoutArticles(rules)(t.gapped) == t.gapped
    ensures TidyUp(rules)(t.gapped) == t.joined
  {
    WeaveOfNoMatch(t.gapped, Erase);
    ReplaceOne(t.gapped, rules.blanks, t.blanks, OneSpace);
    ReplaceNone(t.joined, rules.loosePunctuation, LastChar);
    ReplaceNone(t.joined, rules.blankLines, TwoNewlines);
  }

  lemma {:induction false} FirstPass(rules: Rules, t: Story)
    requires Told(t) && Tells(rules, t)
    ensures ProseBy(rules)(t.first) == t.again
  {
    DropsTheFiller(rules, t);
    ClosesTheGap(rules, t);
    ReplaceOne(t.joined, rules.sentenceStarts, t.start, Capitalised);
    assert Shorten(rules)(t.first) == t.joined;
  }

  lemma {:induction false} NothingProtected(text: string, rules: Rules)
    requires AllMatches(text, rules.protect) == []
    ensures Protected(text, rules) == []
  {
  }

  lemma {:induction false} UnprotectedText(text: string, out: string, gap: Rewrite)
    requires gap(text) == out
    ensures Weave(text, [], gap, Same) == out
  {
    assert Slice(text, Range(0, |text|)) == text;
    assert "" + out == out;
  }

  /**
   Whatever the patterns are and wherever else they match: if they tell the story, the first pass joins
   what another pattern then matches, and the second pass goes on.
   */
  lemma {:induction false} SecondPassGoesOn(rules: Rules, t: Story)
    requires WellFormed(rules) && Told(t) && Tells(rules, t)
    ensures Compressed(t.first, rules) == t.again && Compressed(t.again, rules) != t.again
  {
    FirstPass(rules, t);
    NothingProtected(t.first, rules);
    UnprotectedText(t.first, t.again, ProseBy(rules));
    NotQuietAgain(rules, t);
    FixedIff(t.again, rules);
  }

  lemma {:induction false} NotQuietAgain(rules: Rules, t: Story)
    requires Told(t) && Tells(rules, t)
    ensures !QuietText(t.again, rules)
  {
    NothingProtected(t.again, rules);
    assert GapText(t.again, [], 0) == t.again;
  }

  /** A lower-case letter and the rest of its word, a filler between two spaces, and more text. */
  function StoryOf(c: char, more: string, filler: string, rest: string): Story {
    var head := [c] + more;
    Story(head + " " + filler + " " + rest, Range(|head| + 1, |head| + 1 + |filler|),
          head + "  " + rest, Range(|head|, |head| + 2),
          head + " " + rest, Range(0, 1),
          [Upper(c)] + more + " " + rest)
  }

  lemma {:induction false} FillerLeavesGap(c: char, more: string, filler: string, rest: string)
    requires filler != ""
    ensures FillerGoes(StoryOf(c, more, filler, rest))
  {
    var t := StoryOf(c, more, filler, rest);
    var head := [c] + more;
    assert t.first[..t.filler.start] == head + " " && t.first[t.filler.end..] == " " + rest;
  }

  lemma {:induction false} GapIsClosed(c: char, more: string, filler: string, rest: string)
    ensures BlanksJoin(StoryOf(c, more, filler, rest))
  {
    var t := StoryOf(c, more, filler, rest);
    var head := [c] + more;
    assert t.gapped[|head|..|head| + 2] == "  ";
    assert t.gapped[..|head|] == head && t.gapped[|head| + 2..] == rest;
  }

  lemma {:induction false} StartIsCapitalised(c: char, more: string, filler: string, rest: string)
    requires 'a' <= c <= 'z'
    ensures StartRises(StoryOf(c, more, filler, rest))
  {
    var t := StoryOf(c, more, filler, rest);
    var tail := more + " " + rest;
    assert t.joined == [c] + tail && t.again == [Upper(c)] + tail;
    assert t.joined[0..1] == [c] && Capitalised([c]) == [Upper(c)];
    assert t.joined[..0] + [Upper(c)] + t.joined[1..] == [Upper(c)] + tail;
  }

  lemma {:induction false} TrimmedText(s: string)
    requires s != "" && !IsWhite(s[0]) && !IsWhite(s[|s| - 1])
    ensures TrimStart(s) == s && Trim(s) == s
  {
  }

  lemma {:induction false} StoryIsTold(c: char, more: string, filler: string, rest: string)
    requires 'a' <= c <= 'z' && filler != "" && rest != "" && !IsWhite(rest[|rest| - 1])
    ensures Told(StoryOf(c, more, filler, rest))
  {
    FillerLeavesGap(c, more, filler, rest);
    GapIsClosed(c, more, filler, rest);
    StartIsCapitalised(c, more, filler, rest);
    StoryEnds(c, more, filler, rest);
  }

  lemma {:induction false} StoryEnds(c: char, more: string, filler: string, rest: string)
    requires 'a' <= c <= 'z' && rest != "" && !IsWhite(rest[|rest| - 1])
    ensures var t := StoryOf(c, more, filler, rest);
            TrimStart(t.first) == t.first && Trim(t.again) == t.again && t.again != ""
  {
    var t := StoryOf(c, more, filler, rest);
    assert t.first[0] == c && t.again[0] == Upper(c);
    assert t.first[|t.first| - 1] == rest[|rest| - 1] && t.again[|t.again| - 1] == rest[|rest| - 1];
    TrimmedText(t.first);
    TrimmedText(t.again);
  }

  /**
   So the compressor is not idempotent, under any rules that match so in the texts of one such story.
   Its own rules do, in the story of "could just potentially connect": the filler "just", the double
   space it leaves, the sentence start of "could potentially connect", and then the hedge "Could potentially ".
   */
  lemma {:induction false} NotIdempotent(rules: Rules, c: char, more: string, filler: string, rest: string)
    requires 'a' <= c <= 'z' && filler != "" && rest != "" && !IsWhite(rest[|rest| - 1])
    requires WellFormed(rules) && Tells(rules, StoryOf(c, more, filler, rest))
    ensures var text := [c] + more + " " + filler + " " + rest;
            Compressed(Compressed(text, rules), rules) != Compressed(text, rules)
  {
    StoryIsTold(c, more, filler, rest);
    SecondPassGoesOn(rules, StoryOf(c, more, filler, rest));
  }
}
