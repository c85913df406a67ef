/**
 What each stage of the prose compressor leaves, position by position, and that nothing but the erased
 matches is lost.
 */
module CompressorStages {
  import opened Strings
  import opened Spans
  import opened Compressor

  /** What is left of each position. */
  type Spelling = nat -> string

  function Letters(out: Spelling, n: nat): string { if n == 0 then "" else Letters(out, n - 1) + out(n - 1) }

  function Piece(out: Spelling, from: nat, end: nat): string
    requires from <= end
    decreases end
  {
    if from == end then "" else Piece(out, from, end - 1) + out(end - 1)
  }

  lemma {:induction false} LettersSplit(out: Spelling, from: nat, end: nat)
    requires from <= end
    ensures Letters(out, end) == Letters(out, from) + Piece(out, from, end)
    decreases end
  {
    if from == end {
      assert Letters(out, from) + "" == Letters(out, from);
    } else {
      LettersSplit(out, from, end - 1);
      Joined(Letters(out, from), Piece(out, from, end - 1), out(end - 1));
    }
  }

  lemma {:induction false} Joined(a: string, b: string, c: string)
    ensures (a + b) + c == a + (b + c)
  {
  }

  /** The stretch is spelled as it is. */
  ghost predicate Plain(out: Spelling, s: string, from: nat, end: nat) {
    forall p | from <= p < end && p < |s| :: out(p) == [s[p]]
  }

  lemma {:induction false} PlainPiece(out: Spelling, s: string, from: nat, end: nat)
    requires from <= end <= |s| && Plain(out, s, from, end)
    ensures Piece(out, from, end) == s[from..end]
    decreases end
  {
    if from < end {
      PlainPiece(out, s, from, end - 1);
      assert out(end - 1) == [s[end - 1]];
      assert s[from..end] == s[from..end - 1] + [s[end - 1]];
    }
  }

  // ---------------------------------------------------------------------------
  // Where the matches are.

  predicate Covered(ms: seq<Range>, p: nat) { exists i | 0 <= i < |ms| :: ms[i].start <= p < ms[i].end }
  predicate Begins(ms: seq<Range>, p: nat) { exists i | 0 <= i < |ms| :: ms[i].start == p }
  predicate Ends(ms: seq<Range>, p: nat) { exists i | 0 <= i < |ms| :: ms[i].end == p + 1 }

  lemma {:induction false} GapIsBare(ms: seq<Range>, length: nat, n: nat, p: nat)
    requires InOrder(ms, length) && n <= |ms| && LastEnd(ms, n) <= p && (n < |ms| ==> p < ms[n].start)
    ensures !Covered(ms, p) && !Begins(ms, p) && !Ends(ms, p)
  {
    forall i | 0 <= i < |ms| ensures !(ms[i].start <= p < ms[i].end) && ms[i].start != p && ms[i].end != p + 1 {
      if i < n {
        assert i == n - 1 || ms[i].end <= ms[n - 1].start;
      } else {
        assert i == n || ms[n].end <= ms[i].start;
      }
    }
  }

  lemma {:induction false} InsideMatch(ms: seq<Range>, length: nat, n: nat, p: nat)
    requires InOrder(ms, length) && n < |ms| && ms[n].start <= p < ms[n].end
    ensures Covered(ms, p) && (Begins(ms, p) <==> p == ms[n].start) && (Ends(ms, p) <==> p + 1 == ms[n].end)
  {
    forall i | 0 <= i < |ms| && i != n ensures ms[i].start != p && ms[i].end != p + 1 {
      assert if i < n then ms[i].end <= ms[n].start else ms[n].end <= ms[i].start;
    }
  }

  /** Gaps are spelled as they are, and each match as the rewrite does. */
  ghost predicate Fits(out: Spelling, s: string, ms: seq<Range>, hit: Rewrite) {
    && (forall p | 0 <= p < |s| && !Covered(ms, p) :: out(p) == [s[p]])
    && (forall i | 0 <= i < |ms|
      && ms[i].start <= ms[i].end :: Piece(out, ms[i].start, ms[i].end) == hit(Slice(s, ms[i])))
  }

  lemma {:induction false} BareStretch(out: Spelling, s: string, ms: seq<Range>, hit: Rewrite, n: nat, end: nat)
    requires InOrder(ms, |s|) && n <= |ms| && Fits(out, s, ms, hit)
    requires LastEnd(ms, n) <= end <= |s| && (n < |ms| ==> end <= ms[n].start)
    ensures Letters(out, end) == Letters(out, LastEnd(ms, n)) + Slice(s, Range(LastEnd(ms, n), end))
  {
    var from := LastEnd(ms, n);
    forall p | from <= p < end && p < |s| ensures out(p) == [s[p]] {
      GapIsBare(ms, |s|, n, p);
    }
    LettersSplit(out, from, end);
    PlainPiece(out, s, from, end);
  }

  /** The k-th gap and match are what the letters between two ends spell. */
  predicate SpelledAt(out: Spelling, ends: seq<nat>, x: Growth, k: nat)
    requires k + 1 < |ends| && k < |x.gaps| && k < |x.hits|
  {
    Letters(out, ends[k + 1]) == Letters(out, ends[k]) + x.gaps[k] + x.hits[k]
  }

  lemma {:induction false} GrowthIsSpelled(out: Spelling, ends: seq<nat>, x: Growth, n: nat)
    requires x.Valid() && |ends| == |x.texts| && n <= |x.gaps| && x.texts[0] == Letters(out, ends[0])
    requires forall k | 0 <= k < |x.gaps| :: SpelledAt(out, ends, x, k)
    ensures x.texts[n] == Letters(out, ends[n])
  {
    if n > 0 {
      GrowthIsSpelled(out, ends, x, n - 1);
      assert x.GrowsAt(n - 1) && SpelledAt(out, ends, x, n - 1);
    }
  }

  lemma {:induction false} MatchIsSpelled(out: Spelling, s: string, ms: seq<Range>, hit: Rewrite, k: nat)
    requires InOrder(ms, |s|) && k < |ms| && Fits(out, s, ms, hit)
    ensures Letters(out, LastEnd(ms, k + 1))
         == Letters(out, LastEnd(ms, k)) + GapText(s, ms, k) + hit(Slice(s, ms[k]))
  {
    GapFits(ms, k + 1, |s|);
    BareStretch(out, s, ms, hit, k, ms[k].start);
    LettersSplit(out, ms[k].start, ms[k].end);
  }

  function EndsOf(ms: seq<Range>): (ends: seq<nat>)
    ensures |ends| == |ms| + 1 && forall k | 0 <= k <= |ms| :: ends[k] == LastEnd(ms, k)
  {
    seq(|ms| + 1, k requires 0 <= k <= |ms| => LastEnd(ms, k))
  }

  lemma {:induction false} WeavingAt(s: string, ms: seq<Range>, gap: Rewrite, hit: Rewrite, k: nat)
    requires k < |ms|
    ensures Weaving(s, ms, gap, hit).gaps[k] == gap(GapText(s, ms, k))
    ensures Weaving(s, ms, gap, hit).hits[k] == hit(Slice(s, ms[k]))
  {
  }

  lemma {:induction false} WeavingIsSpelled(out: Spelling, s: string, ms: seq<Range>, hit: Rewrite, k: nat)
    requires InOrder(ms, |s|) && k < |ms| && Fits(out, s, ms, hit)
    ensures SpelledAt(out, EndsOf(ms), Weaving(s, ms, Same, hit), k)
  {
    WeavingAt(s, ms, Same, hit, k);
    assert Same(GapText(s, ms, k)) == GapText(s, ms, k);
    MatchIsSpelled(out, s, ms, hit, k);
  }

  lemma {:induction false} WovenIsSpelled(out: Spelling, s: string, ms: seq<Range>, hit: Rewrite)
    requires InOrder(ms, |s|) && Fits(out, s, ms, hit)
    ensures Woven(s, ms, |ms|, Same, hit) == Letters(out, LastEnd(ms, |ms|))
  {
    var x := Weaving(s, ms, Same, hit);
    WeavingGrows(s, ms, Same, hit);
    forall k | 0 <= k < |ms| ensures SpelledAt(out, EndsOf(ms), x, k) {
      WeavingIsSpelled(out, s, ms, hit, k);
    }
    assert x.texts[0] == "" && x.texts[|ms|] == Woven(s, ms, |ms|, Same, hit);
    GrowthIsSpelled(out, EndsOf(ms), x, |ms|);
  }

  /** A rewrite of matches leaves what is spelled. */
  lemma {:induction false} WeaveIsSpelled(out: Spelling, s: string, ms: seq<Range>, hit: Rewrite)
    requires InOrder(ms, |s|) && Fits(out, s, ms, hit)
    ensures Weave(s, ms, Same, hit) == Letters(out, |s|)
  {
    if ms != [] {
      GapFits(ms, |ms|, |s|);
    }
    WovenIsSpelled(out, s, ms, hit);
    BareStretch(out, s, ms, hit, |ms|, |s|);
  }

  // ---------------------------------------------------------------------------
  // The four kinds of stages.

  /** A mark for every match, and the rest of the text. */
  function Marked(s: string, ms: seq<Range>, mark: string): Spelling {
    (p: nat) => if Begins(ms, p) then mark else if Covered(ms, p) || p >= |s| then "" else [s[p]]
  }

  /** Of every match the last character, and the rest of the text. */
  function Trailing(s: string, ms: seq<Range>): Spelling {
    (p: nat) => if p >= |s| || (Covered(ms, p) && !Ends(ms, p)) then "" else [s[p]]
  }

  /** The text, with the last character of every match in upper case. */
  function Risen(s: string, ms: seq<Range>): Spelling {
    (p: nat) => if p >= |s| then "" else if Ends(ms, p) then [Upper(s[p])] else [s[p]]
  }

  lemma {:induction false} MarkedPiece(s: string, ms: seq<Range>, mark: string, n: nat, end: nat)
    requires InOrder(ms, |s|) && n < |ms| && ms[n].start < end <= ms[n].end
    ensures Piece(Marked(s, ms, mark), ms[n].start, end) == mark
    decreases end
  {
    InsideMatch(ms, |s|, n, end - 1);
    if end - 1 > ms[n].start {
      MarkedPiece(s, ms, mark, n, end - 1);
      assert mark + "" == mark;
    } else {
      assert "" + mark == mark;
    }
  }

  lemma {:induction false} MarkedFits(s: string, ms: seq<Range>, mark: string, hit: Rewrite)
    requires InOrder(ms, |s|) && forall i | 0 <= i < |ms| :: hit(Slice(s, ms[i])) == mark
    ensures Fits(Marked(s, ms, mark), s, ms, hit)
  {
    forall p | 0 <= p < |s| && !Covered(ms, p) ensures Marked(s, ms, mark)(p) == [s[p]] {
      NotBegun(ms, |s|, p);
    }
    forall i | 0 <= i < |ms| ensures Piece(Marked(s, ms, mark), ms[i].start, ms[i].end) == mark {
      MarkedPiece(s, ms, mark, i, ms[i].end);
    }
  }

  lemma {:induction false} NotBegun(ms: seq<Range>, length: nat, p: nat)
    requires InOrder(ms, length) && !Covered(ms, p)
    ensures !Begins(ms, p) && !Ends(ms, p)
  {
    forall i | 0 <= i < |ms| ensures ms[i].start != p && ms[i].end != p + 1 {
      assert !(ms[i].start <= p < ms[i].end);
    }
  }

  lemma {:induction false} TrailingPiece(s: string, ms: seq<Range>, n: nat, end: nat)
    requires InOrder(ms, |s|) && n < |ms| && ms[n].start <= end < ms[n].end
    ensures Piece(Trailing(s, ms), ms[n].start, end) == ""
    decreases end
  {
    if end > ms[n].start {
      InsideMatch(ms, |s|, n, end - 1);
      TrailingPiece(s, ms, n, end - 1);
    }
  }

  lemma {:induction false} TrailingFits(s: string, ms: seq<Range>)
    requires InOrder(ms, |s|)
    ensures Fits(Trailing(s, ms), s, ms, LastChar)
  {
    forall i | 0 <= i < |ms| ensures Piece(Trailing(s, ms), ms[i].start, ms[i].end) == LastChar(Slice(s, ms[i])) {
      TrailingMatch(s, ms, i);
    }
  }

  lemma {:induction false} TrailingMatch(s: string, ms: seq<Range>, n: nat)
    requires InOrder(ms, |s|) && n < |ms|
    ensures Piece(Trailing(s, ms), ms[n].start, ms[n].end) == LastChar(Slice(s, ms[n]))
  {
    var last := ms[n].end - 1;
    TrailingPiece(s, ms, n, last);
    InsideMatch(ms, |s|, n, last);
    assert "" + [s[last]] == [s[last]];
    assert Slice(s, ms[n])[|Slice(s, ms[n])| - 1] == s[last];
  }

  lemma {:induction false} RisenFits(s: string, ms: seq<Range>)
    requires InOrder(ms, |s|)
    ensures Fits(Risen(s, ms), s, ms, Capitalised)
  {
    forall p | 0 <= p < |s| && !Covered(ms, p) ensures Risen(s, ms)(p) == [s[p]] {
      NotBegun(ms, |s|, p);
    }
    forall i | 0 <= i < |ms| ensures Piece(Risen(s, ms), ms[i].start, ms[i].end) == Capitalised(Slice(s, ms[i])) {
      RisenPiece(s, ms, i);
    }
  }

  lemma {:induction false} RisenPiece(s: string, ms: seq<Range>, n: nat)
    requires InOrder(ms, |s|) && n < |ms|
    ensures Piece(Risen(s, ms), ms[n].start, ms[n].end) == Capitalised(Slice(s, ms[n]))
  {
    var m := ms[n];
    var last := m.end - 1;
    forall p | m.start <= p < last && p < |s| ensures Risen(s, ms)(p) == [s[p]] {
      InsideMatch(ms, |s|, n, p);
    }
    PlainPiece(Risen(s, ms), s, m.start, last);
    InsideMatch(ms, |s|, n, last);
    var t := Slice(s, m);
    assert t[..|t| - 1] == s[m.start..last] && t[|t| - 1] == s[last];
  }

  /** Erasing stages leave exactly the positions without a match. */
  lemma {:induction false} ErasingLeaves(s: string, ms: seq<Range>)
    requires InOrder(ms, |s|)
    ensures Weave(s, ms, Same, Erase) == Letters(Marked(s, ms, ""), |s|)
  {
    MarkedFits(s, ms, "", Erase);
    WeaveIsSpelled(Marked(s, ms, ""), s, ms, Erase);
  }

  /** A run of blanks leaves one space. */
  lemma {:induction false} BlanksLeaveOneSpace(s: string, ms: seq<Range>)
    requires InOrder(ms, |s|)
    ensures Weave(s, ms, Same, OneSpace) == Letters(Marked(s, ms, " "), |s|)
  {
    MarkedFits(s, ms, " ", OneSpace);
    WeaveIsSpelled(Marked(s, ms, " "), s, ms, OneSpace);
  }

  /** Three or more newlines leave two. */
  lemma {:induction false} NewlinesLeaveTwo(s: string, ms: seq<Range>)
    requires InOrder(ms, |s|)
    ensures Weave(s, ms, Same, TwoNewlines) == Letters(Marked(s, ms, "\n\n"), |s|)
  {
    MarkedFits(s, ms, "\n\n", TwoNewlines);
    WeaveIsSpelled(Marked(s, ms, "\n\n"), s, ms, TwoNewlines);
  }

  /** Loose punctuation loses what stands in front of it, and stays. */
  lemma {:induction false} PunctuationStays(s: string, ms: seq<Range>)
    requires InOrder(ms, |s|)
    ensures Weave(s, ms, Same, LastChar) == Letters(Trailing(s, ms), |s|)
  {
    TrailingFits(s, ms);
    WeaveIsSpelled(Trailing(s, ms), s, ms, LastChar);
  }

  /** Sentence starts rise, and nothing else changes. */
  lemma {:induction false} StartsRise(s: string, ms: seq<Range>)
    requires InOrder(ms, |s|)
    ensures Weave(s, ms, Same, Capitalised) == Letters(Risen(s, ms), |s|)
  {
    RisenFits(s, ms);
    WeaveIsSpelled(Risen(s, ms), s, ms, Capitalised);
  }

  /** The articles that go are exactly the matches that are directly followed by a letter. */
  lemma {:induction false} FollowedIff(s: string, ms: seq<Range>, n: nat, isAlphabetic: char -> bool, m: Range)
    requires n <= |ms|
    ensures m in Followed(s, ms, n, isAlphabetic)
            <==> exists i | 0 <= i < n :: ms[i] == m && m.end < |s| && isAlphabetic(s[m.end])
    decreases n
  {
    if n > 0 {
      FollowedIff(s, ms, n - 1, isAlphabetic, m);
    }
  }

  // ---------------------------------------------------------------------------
  // The whole prose compressor.

  /** The text without its matches. */
  function Without(s: string, ms: seq<Range>): string { Letters(Marked(s, ms, ""), |s|) }

  /** The text with every match spelled as the mark. */
  function With(s: string, ms: seq<Range>, mark: string): string { Letters(Marked(s, ms, mark), |s|) }

  /** The articles in front of a letter. */
  function LetterBound(rules: Rules, s: string): seq<Range> {
    Followed(s, rules.articles(s), |rules.articles(s)|, rules.isAlphabetic)
  }

  /** What the phrases, the fillers and the articles leave, one after the other. */
  function Thinned(rules: Rules, s: string): string {
    var a := Without(s, rules.leaders(s));
    var b := Without(a, rules.pleasantries(a));
    var c := Without(b, rules.hedges(b));
    var d := Without(c, rules.fillers(c));
    Without(d, LetterBound(rules, d))
  }

  /** What tidying up leaves of a text. */
  function Tidied(rules: Rules, s: string): string {
    var a := With(s, rules.blanks(s), " ");
    var b := Letters(Trailing(a, rules.loosePunctuation(a)), |a|);
    With(b, rules.blankLines(b), "\n\n")
  }

  function Raised(rules: Rules, s: string): string { Letters(Risen(s, rules.sentenceStarts(s)), |s|) }

  lemma {:induction false} Found(f: Finder, shape: string -> bool, s: string)
    requires Finds(f, shape)
    ensures InOrder(f(s), |s|) && AllShaped(s, f(s), shape)
  {
  }

  lemma {:induction false} ErasingStage(f: Finder, s: string)
    requires Finds(f, AnyText)
    ensures Replacing(f, Erase)(s) == Without(s, f(s))
  {
    Found(f, AnyText, s);
    ErasingLeaves(s, f(s));
  }

  lemma {:induction false} PhrasesLeave(rules: Rules, s: string)
    requires WellFormed(rules)
    ensures Then(DropPhrases(rules), WithoutArticles(rules))(s) == Thinned(rules, s)
  {
    var a := Without(s, rules.leaders(s));
    var b := Without(a, rules.pleasantries(a));
    var c := Without(b, rules.hedges(b));
    var d := Without(c, rules.fillers(c));
    ErasingStage(rules.leaders, s);
    ErasingStage(rules.pleasantries, a);
    ErasingStage(rules.hedges, b);
    ErasingStage(rules.fillers, c);
    Found(rules.articles, AnyText, d);
    FollowedInOrder(d, rules.articles(d), |rules.articles(d)|, rules.isAlphabetic);
    ErasingLeaves(d, LetterBound(rules, d));
  }

  lemma {:induction false} TidyingLeaves(rules: Rules, s: string)
    requires WellFormed(rules)
    ensures TidyUp(rules)(s) == Tidied(rules, s)
  {
    var a := With(s, rules.blanks(s), " ");
    var b := Letters(Trailing(a, rules.loosePunctuation(a)), |a|);
    Found(rules.blanks, Blanks, s);
    BlanksLeaveOneSpace(s, rules.blanks(s));
    Found(rules.loosePunctuation, LoosePunctuation, a);
    PunctuationStays(a, rules.loosePunctuation(a));
    Found(rules.blankLines, Newlines, b);
    NewlinesLeaveTwo(b, rules.blankLines(b));
  }

  /** All nine stages, position by position and in their order. */
  lemma {:induction false} ProseLeaves(rules: Rules, s: string)
    requires WellFormed(rules)
    ensures ProseBy(rules)(s) == Raised(rules, Tidied(rules, Thinned(rules, s)))
  {
    PhrasesLeave(rules, s);
    TidyingLeaves(rules, Thinned(rules, s));
    var t := Tidied(rules, Thinned(rules, s));
    Found(rules.sentenceStarts, SentenceStart, t);
    StartsRise(t, rules.sentenceStarts(t));
  }

  // ---------------------------------------------------------------------------
  // What is not lost.

  lemma {:induction false} CoreOfLetters(out: Spelling, s: string, n: nat)
    requires n <= |s| && forall p | 0 <= p < n :: Core(out(p)) == Core([s[p]])
    ensures Core(Letters(out, n)) == Core(s[..n])
    decreases n
  {
    if n > 0 {
      CoreOfLetters(out, s, n - 1);
      CoreConcat(Letters(out, n - 1), out(n - 1));
      CoreConcat(s[..n - 1], [s[n - 1]]);
      assert s[..n] == s[..n - 1] + [s[n - 1]];
    }
  }

  lemma {:induction false} CoreOfWhite(c: char)
    requires IsWhite(c)
    ensures Core([c]) == ""
  {
    assert [c][..0] == "";
  }

  lemma {:induction false} CoreOfMarks()
    ensures Core("") == "" && Core(" ") == "" && Core("\n\n") == ""
  {
    CoreOfWhite(' ');
    CoreOfWhite('\n');
    CoreConcat("\n", "\n");
    assert "\n\n" == "\n" + "\n";
  }

  /** All of the matches is white, but perhaps their last characters. */
  ghost predicate WhiteInFront(s: string, ms: seq<Range>) {
    forall i, p | 0 <= i < |ms| && ms[i].start <= p < ms[i].end - 1 && p < |s| :: IsWhite(s[p])
  }

  ghost predicate WhiteAll(s: string, ms: seq<Range>) {
    forall i, p | 0 <= i < |ms| && ms[i].start <= p < ms[i].end && p < |s| :: IsWhite(s[p])
  }

  lemma {:induction false} MarksKeepCore(s: string, ms: seq<Range>, mark: string)
    requires InOrder(ms, |s|) && WhiteAll(s, ms) && Core(mark) == ""
    ensures Core(With(s, ms, mark)) == Core(s)
  {
    var out := Marked(s, ms, mark);
    assert Core("") == "";
    forall p | 0 <= p < |s| ensures Core(out(p)) == Core([s[p]]) {
      if Covered(ms, p) {
        var i :| 0 <= i < |ms| && ms[i].start <= p < ms[i].end;
        CoreOfWhite(s[p]);
      } else {
        NotBegun(ms, |s|, p);
      }
    }
    CoreOfLetters(out, s, |s|);
    assert s[..|s|] == s;
  }

  lemma {:induction false} TrailingKeepsCore(s: string, ms: seq<Range>)
    requires InOrder(ms, |s|) && WhiteInFront(s, ms)
    ensures Core(Letters(Trailing(s, ms), |s|)) == Core(s)
  {
    var out := Trailing(s, ms);
    assert Core("") == "";
    forall p | 0 <= p < |s| ensures Core(out(p)) == Core([s[p]]) {
      if Covered(ms, p) && !Ends(ms, p) {
        var i :| 0 <= i < |ms| && ms[i].start <= p < ms[i].end;
        assert ms[i].end != p + 1;
        CoreOfWhite(s[p]);
      }
    }
    CoreOfLetters(out, s, |s|);
    assert s[..|s|] == s;
  }

  lemma {:induction false} CoreOfUpper(c: char)
    ensures Core([Upper(c)]) == Core([c])
  {
    assert [Upper(c)][..0] == "" && [c][..0] == "";
    assert Upper(Upper(c)) == Upper(c) && (c != Upper(c) ==> !IsWhite(c) && !IsWhite(Upper(c)));
  }

  lemma {:induction false} RisingKeepsCore(s: string, ms: seq<Range>)
    ensures Core(Letters(Risen(s, ms), |s|)) == Core(s)
  {
    var out := Risen(s, ms);
    forall p | 0 <= p < |s| ensures Core(out(p)) == Core([s[p]]) {
      CoreOfUpper(s[p]);
    }
    CoreOfLetters(out, s, |s|);
    assert s[..|s|] == s;
  }

  lemma {:induction false} ShapedAt(s: string, ms: seq<Range>, shape: string -> bool, i: nat, p: nat)
    requires InOrder(ms, |s|) && AllShaped(s, ms, shape) && i < |ms| && ms[i].start <= p < ms[i].end
    ensures ms[i].end <= |s| && shape(Slice(s, ms[i])) && Slice(s, ms[i])[p - ms[i].start] == s[p]
    ensures |Slice(s, ms[i])| == ms[i].end - ms[i].start
  {
  }

  lemma {:induction false} BlanksAreWhite(s: string, ms: seq<Range>)
    requires InOrder(ms, |s|) && (AllShaped(s, ms, Blanks) || AllShaped(s, ms, Newlines))
    ensures WhiteAll(s, ms)
  {
    forall i, p | 0 <= i < |ms| && ms[i].start <= p < ms[i].end && p < |s| ensures IsWhite(s[p]) {
      if AllShaped(s, ms, Blanks) {
        ShapedAt(s, ms, Blanks, i, p);
      } else {
        ShapedAt(s, ms, Newlines, i, p);
      }
      assert s[p] in Slice(s, ms[i]);
    }
  }

  lemma {:induction false} PunctuationIsWhiteInFront(s: string, ms: seq<Range>)
    requires InOrder(ms, |s|) && AllShaped(s, ms, LoosePunctuation)
    ensures WhiteInFront(s, ms)
  {
    forall i, p | 0 <= i < |ms| && ms[i].start <= p < ms[i].end - 1 && p < |s| ensures IsWhite(s[p]) {
      ShapedAt(s, ms, LoosePunctuation, i, p);
    }
  }

  /** Tidying up keeps every character that is not white. */
  lemma {:induction false} TidyingKeepsCore(rules: Rules, s: string)
    requires WellFormed(rules)
    ensures Core(TidyUp(rules)(s)) == Core(s)
  {
    TidyingLeaves(rules, s);
    CoreOfMarks();
    var a := With(s, rules.blanks(s), " ");
    var b := Letters(Trailing(a, rules.loosePunctuation(a)), |a|);
    Found(rules.blanks, Blanks, s);
    BlanksAreWhite(s, rules.blanks(s));
    MarksKeepCore(s, rules.blanks(s), " ");
    Found(rules.loosePunctuation, LoosePunctuation, a);
    PunctuationIsWhiteInFront(a, rules.loosePunctuation(a));
    TrailingKeepsCore(a, rules.loosePunctuation(a));
    Found(rules.blankLines, Newlines, b);
    BlanksAreWhite(b, rules.blankLines(b));
    MarksKeepCore(b, rules.blankLines(b), "\n\n");
  }

  /** Capitalising keeps every character but its case. */
  lemma {:induction false} CapitalisingKeepsCore(rules: Rules, s: string)
    requires WellFormed(rules)
    ensures Core(Replacing(rules.sentenceStarts, Capitalised)(s)) == Core(s)
  {
    Found(rules.sentenceStarts, SentenceStart, s);
    StartsRise(s, rules.sentenceStarts(s));
    RisingKeepsCore(s, rules.sentenceStarts(s));
  }

  /** A stretch of prose loses white space, and of the rest exactly its erased matches. */
  lemma {:induction false} ProseKeeps(rules: Rules, s: string)
    requires WellFormed(rules)
    ensures Core(ProseBy(rules)(s)) == Core(Thinned(rules, s))
  {
    PhrasesLeave(rules, s);
    TidyingKeepsCore(rules, Thinned(rules, s));
    CapitalisingKeepsCore(rules, TidyUp(rules)(Thinned(rules, s)));
  }

  function ThinnedBy(rules: Rules): Rewrite { (s: string) => Thinned(rules, s) }

  /** The protected spans, and between them what a rewrite leaves of the gaps. */
  function Remains(gap: Rewrite, s: string, spans: seq<Range>, n: nat): string
    requires n <= |spans|
  {
    if n == 0 then "" else Remains(gap, s, spans, n - 1) + gap(GapText(s, spans, n - 1)) + Slice(s, spans[n - 1])
  }

  lemma {:induction false} SameCores(a: string, b: string, c: string, a': string, b': string)
    requires Core(a) == Core(a') && Core(b) == Core(b')
    ensures Core(a + b + c) == Core(a' + b' + c)
  {
    CoreConcat(a, b);
    CoreConcat(a + b, c);
    CoreConcat(a', b');
    CoreConcat(a' + b', c);
  }

  ghost predicate SameCore(x: Rewrite, y: Rewrite) { forall s :: Core(x(s)) == Core(y(s)) }

  lemma {:induction false} WovenKeeps(x: Rewrite, y: Rewrite, s: string, spans: seq<Range>, n: nat)
    requires SameCore(x, y) && n <= |spans|
    ensures Core(Woven(s, spans, n, x, Same)) == Core(Remains(y, s, spans, n))
  {
    if n > 0 {
      var g := GapText(s, spans, n - 1);
      WovenKeeps(x, y, s, spans, n - 1);
      WovenGrows(s, spans, n, x, Same);
      assert Core(x(g)) == Core(y(g));
      SameCores(Woven(s, spans, n - 1, x, Same), x(g), Slice(s, spans[n - 1]), Remains(y, s, spans, n - 1), y(g));
    }
  }

  lemma {:induction false} TrimKeepsCore(s: string)
    ensures Core(TrimStart(s)) == Core(s) && Core(TrimEnd(s)) == Core(s)
    decreases |s|
  {
    if s != "" {
      assert s == [s[0]] + s[1..];
      CoreConcat([s[0]], s[1..]);
      TrimKeepsCore(s[1..]);
      TrimKeepsCore(s[..|s| - 1]);
      if IsWhite(s[0]) {
        CoreOfWhite(s[0]);
      }
    }
  }

  /** The compressed text has the core of the protected spans and of what the erasing stages leave between them. */
  lemma {:induction false} NothingElseIsLost(text: string, rules: Rules)
    requires WellFormed(rules)
    ensures var source := TrimStart(text);
            var spans := Protected(source, rules);
            Core(Compressed(text, rules))
            == Core(Remains(ThinnedBy(rules), source, spans, |spans|)
                    + Thinned(rules, GapText(source, spans, |spans|)))
  {
    var source := TrimStart(text);
    var spans := Protected(source, rules);
    var g := GapText(source, spans, |spans|);
    var whole := Weave(source, spans, ProseBy(rules), Same);
    TrimKeepsCore(whole);
    TrimKeepsCore(TrimStart(whole));
    forall t ensures Core(ProseBy(rules)(t)) == Core(ThinnedBy(rules)(t)) {
      ProseKeeps(rules, t);
    }
    WovenKeeps(ProseBy(rules), ThinnedBy(rules), source, spans, |spans|);
    ProseKeeps(rules, g);
    CoreConcat(Woven(source, spans, |spans|, ProseBy(rules), Same), ProseBy(rules)(g));
    CoreConcat(Remains(ThinnedBy(rules), source, spans, |spans|), Thinned(rules, g));
  }

  /** The rewrite changes no gap. */
  ghost predicate Idle(gap: Rewrite, s: string, spans: seq<Range>) {
    forall k | 0 <= k <= |spans| :: gap(GapText(s, spans, k)) == GapText(s, spans, k)
  }

  lemma {:induction false} RemainsIsPrefix(gap: Rewrite, s: string, spans: seq<Range>, n: nat)
    requires InOrder(spans, |s|) && Idle(gap, s, spans) && n <= |spans|
    ensures Remains(gap, s, spans, n) == Prefix(s, spans, n)
  {
    if n > 0 {
      RemainsIsPrefix(gap, s, spans, n - 1);
      PrefixGrows(s, spans, n);
      IdleAt(gap, s, spans, n - 1);
    }
  }

  lemma {:induction false} IdleAt(gap: Rewrite, s: string, spans: seq<Range>, k: nat)
    requires Idle(gap, s, spans) && k <= |spans|
    ensures gap(GapText(s, spans, k)) == GapText(s, spans, k)
  {
  }

  /** A text in which nothing is to be erased keeps all its characters but white space and case. */
  lemma {:induction false} CoreSurvives(text: string, rules: Rules)
    requires WellFormed(rules)
    requires Idle(ThinnedBy(rules), TrimStart(text), Protected(TrimStart(text), rules))
    ensures Core(Compressed(text, rules)) == Core(text)
  {
    var source := TrimStart(text);
    var spans := Protected(source, rules);
    NothingElseIsLost(text, rules);
    SpansFit(source, rules.protect);
    RemainsIsPrefix(ThinnedBy(rules), source, spans, |spans|);
    assert ThinnedBy(rules)(GapText(source, spans, |spans|)) == GapText(source, spans, |spans|);
    LastFits(source, spans);
    TrimKeepsCore(text);
  }

  lemma {:induction false} LastFits(s: string, spans: seq<Range>)
    requires InOrder(spans, |s|)
    ensures Prefix(s, spans, |spans|) + GapText(s, spans, |spans|) == s
  {
    if spans != [] {
      GapFits(spans, |spans|, |s|);
    }
    CutLast(s, LastEnd(spans, |spans|));
  }
}
