/** Ranges of a text: the matches of patterns, and the protected spans merged from them. */
module Spans {
  /** The half-open range `start..end`. */
  datatype Range = Range(start: nat, end: nat)

  predicate NonEmpty(ranges: seq<Range>) {
    forall i | 0 <= i < |ranges| :: ranges[i].start < ranges[i].end
  }

  predicate Covers(ranges: seq<Range>, position: nat) {
    exists i | 0 <= i < |ranges| :: ranges[i].start <= position < ranges[i].end
  }

  predicate Inside(r: Range, outer: Range) { outer.start <= r.start && r.end <= outer.end }

  predicate SortedByStart(ranges: seq<Range>) {
    forall i, j | 0 <= i < j < |ranges| :: ranges[i].start <= ranges[j].start
  }

  /** Every range ends strictly before the next begins: no two overlap or touch. */
  predicate Separated(ranges: seq<Range>) {
    forall i, j | 0 <= i < j < |ranges| :: ranges[i].end < ranges[j].start
  }

  // ---------------------------------------------------------------------------
  // The stable sort by start.

  function Insert(sorted: seq<Range>, r: Range): seq<Range> {
    if sorted == [] || sorted[|sorted| - 1].start <= r.start then sorted + [r]
    else Insert(sorted[..|sorted| - 1], r) + [sorted[|sorted| - 1]]
  }

  function SortByStart(ranges: seq<Range>): seq<Range> {
    if ranges == [] then [] else Insert(SortByStart(ranges[..|ranges| - 1]), ranges[|ranges| - 1])
  }

  lemma {:induction false} InsertSorts(sorted: seq<Range>, r: Range)
    requires SortedByStart(sorted)
    ensures SortedByStart(Insert(sorted, r))
    ensures multiset(Insert(sorted, r)) == multiset(sorted) + multiset{r}
    ensures forall x | x in Insert(sorted, r) :: x == r || x in sorted
    decreases |sorted|
  {
    if sorted != [] {
      var last := sorted[|sorted| - 1];
      assert sorted == sorted[..|sorted| - 1] + [last];
      if last.start > r.start {
        InsertSorts(sorted[..|sorted| - 1], r);
        var front := Insert(sorted[..|sorted| - 1], r);
        forall i | 0 <= i < |front| ensures front[i].start <= last.start {
          assert front[i] in front;
        }
      }
    }
  }

  lemma {:induction false} SortSorts(ranges: seq<Range>)
    ensures SortedByStart(SortByStart(ranges)) && multiset(SortByStart(ranges)) == multiset(ranges)
    decreases |ranges|
  {
    if ranges != [] {
      assert ranges == ranges[..|ranges| - 1] + [ranges[|ranges| - 1]];
      SortSorts(ranges[..|ranges| - 1]);
      InsertSorts(SortByStart(ranges[..|ranges| - 1]), ranges[|ranges| - 1]);
    }
  }

  // ---------------------------------------------------------------------------
  // Merging.

  /** Extend the last span by a range that begins inside or right behind it, or begin a new one. */
  function Extend(merged: seq<Range>, r: Range): seq<Range> {
    if merged != [] && r.start <= merged[|merged| - 1].end then
      var last := merged[|merged| - 1];
      merged[..|merged| - 1] + [Range(last.start, if last.end < r.end then r.end else last.end)]
    else merged + [r]
  }

  function Merge(sorted: seq<Range>): seq<Range> {
    if sorted == [] then [] else Extend(Merge(sorted[..|sorted| - 1]), sorted[|sorted| - 1])
  }

  /** The spans the matches amount to. */
  function Merged(matches: seq<Range>): seq<Range> { Merge(SortByStart(matches)) }

  lemma {:induction false} ExtendShape(spans: seq<Range>, r: Range)
    requires NonEmpty(spans) && Separated(spans) && r.start < r.end
    requires spans != [] ==> spans[|spans| - 1].start <= r.start
    ensures NonEmpty(Extend(spans, r)) && Separated(Extend(spans, r))
    ensures Extend(spans, r)[|Extend(spans, r)| - 1].start <= r.start
    ensures Inside(r, Extend(spans, r)[|Extend(spans, r)| - 1])
  {
  }

  lemma {:induction false} SortedFront(sorted: seq<Range>)
    requires NonEmpty(sorted) && SortedByStart(sorted) && sorted != []
    ensures NonEmpty(sorted[..|sorted| - 1]) && SortedByStart(sorted[..|sorted| - 1])
    ensures |sorted| > 1 ==> sorted[..|sorted| - 1][|sorted| - 2].start <= sorted[|sorted| - 1].start
  {
  }

  lemma {:induction false} MergeShape(sorted: seq<Range>)
    requires NonEmpty(sorted) && SortedByStart(sorted)
    ensures NonEmpty(Merge(sorted)) && Separated(Merge(sorted))
    ensures sorted != [] ==> Merge(sorted) != []
                             && Merge(sorted)[|Merge(sorted)| - 1].start <= sorted[|sorted| - 1].start
                             && Inside(sorted[|sorted| - 1], Merge(sorted)[|Merge(sorted)| - 1])
    decreases |sorted|
  {
    if sorted != [] {
      SortedFront(sorted);
      MergeShape(sorted[..|sorted| - 1]);
      MergeShapeStep(sorted);
    }
  }

  lemma {:induction false} MergeShapeStep(sorted: seq<Range>)
    requires sorted != [] && sorted[|sorted| - 1].start < sorted[|sorted| - 1].end
    requires var front := Merge(sorted[..|sorted| - 1]);
             && NonEmpty(front) && Separated(front)
             && (front != [] ==> front[|front| - 1].start <= sorted[|sorted| - 1].start)
    ensures NonEmpty(Merge(sorted)) && Separated(Merge(sorted)) && Merge(sorted) != []
    ensures Merge(sorted)[|Merge(sorted)| - 1].start <= sorted[|sorted| - 1].start
    ensures Inside(sorted[|sorted| - 1], Merge(sorted)[|Merge(sorted)| - 1])
  {
    ExtendShape(Merge(sorted[..|sorted| - 1]), sorted[|sorted| - 1]);
  }

  /** The sorted range that begins where a span begins, and the one that ends where it ends. */
  lemma {:induction false} MergeEnds(sorted: seq<Range>, i: nat) returns (first: nat, last: nat)
    requires i < |Merge(sorted)|
    ensures first < |sorted| && sorted[first].start == Merge(sorted)[i].start
    ensures last < |sorted| && sorted[last].end == Merge(sorted)[i].end
    decreases |sorted|
  {
    var front, r := sorted[..|sorted| - 1], sorted[|sorted| - 1];
    if i < |Merge(front)| {
      first, last := MergeEnds(front, i);
      if Merge(sorted)[i].end != Merge(front)[i].end {
        last := |sorted| - 1;
      }
    } else {
      first, last := |sorted| - 1, |sorted| - 1;
    }
  }

  lemma {:induction false} ExtendKeeps(sorted: seq<Range>, i: nat, x: Range)
    requires sorted != [] && i < |Merge(sorted[..|sorted| - 1])| && Inside(x, Merge(sorted[..|sorted| - 1])[i])
    ensures i < |Merge(sorted)| && Inside(x, Merge(sorted)[i])
  {
  }

  /** The span a sorted range ended up in. */
  lemma {:induction false} MergeKeeps(sorted: seq<Range>, k: nat) returns (i: nat)
    requires NonEmpty(sorted) && SortedByStart(sorted) && k < |sorted|
    ensures i < |Merge(sorted)| && Inside(sorted[k], Merge(sorted)[i])
    decreases |sorted|
  {
    if k < |sorted| - 1 {
      SortedFront(sorted);
      i := MergeKeeps(sorted[..|sorted| - 1], k);
      ExtendKeeps(sorted, i, sorted[k]);
    } else {
      MergeShape(sorted);
      i := |Merge(sorted)| - 1;
    }
  }

  /** The sorted range that covers a position of a span. */
  lemma {:induction false} MergeAddsNothing(sorted: seq<Range>, i: nat, p: nat) returns (k: nat)
    requires i < |Merge(sorted)| && Merge(sorted)[i].start <= p < Merge(sorted)[i].end
    ensures k < |sorted| && sorted[k].start <= p < sorted[k].end
    decreases |sorted|
  {
    var front := sorted[..|sorted| - 1];
    if i < |Merge(front)| && p < Merge(front)[i].end {
      k := MergeAddsNothing(front, i, p);
    } else {
      k := |sorted| - 1;
    }
  }

  lemma {:induction false} SortIndex(matches: seq<Range>, k: nat) returns (j: nat)
    requires k < |SortByStart(matches)|
    ensures j < |matches| && matches[j] == SortByStart(matches)[k]
  {
    SortSorts(matches);
    assert SortByStart(matches)[k] in multiset(matches);
    j :| 0 <= j < |matches| && matches[j] == SortByStart(matches)[k];
  }

  lemma {:induction false} SortedIndex(matches: seq<Range>, j: nat) returns (k: nat)
    requires j < |matches|
    ensures k < |SortByStart(matches)| && matches[j] == SortByStart(matches)[k]
  {
    SortSorts(matches);
    assert matches[j] in multiset(SortByStart(matches));
    k :| 0 <= k < |SortByStart(matches)| && matches[j] == SortByStart(matches)[k];
  }

  lemma {:induction false} SortKeepsNonEmpty(matches: seq<Range>)
    requires NonEmpty(matches)
    ensures NonEmpty(SortByStart(matches)) && SortedByStart(SortByStart(matches))
  {
    SortSorts(matches);
    forall k: nat | k < |SortByStart(matches)| ensures SortByStart(matches)[k].start < SortByStart(matches)[k].end {
      var j := SortIndex(matches, k);
    }
  }

  /** The spans are in order and neither overlap nor touch. */
  lemma {:induction false} SpansAreSeparated(matches: seq<Range>)
    requires NonEmpty(matches)
    ensures NonEmpty(Merged(matches)) && Separated(Merged(matches))
  {
    SortKeepsNonEmpty(matches);
    MergeShape(SortByStart(matches));
  }

  /** A span begins where some match begins and ends where some match ends. */
  lemma {:induction false} SpanEndsAreMatchEnds(matches: seq<Range>, i: nat) returns (first: nat, last: nat)
    requires i < |Merged(matches)|
    ensures first < |matches| && matches[first].start == Merged(matches)[i].start
    ensures last < |matches| && matches[last].end == Merged(matches)[i].end
  {
    var f, l := MergeEnds(SortByStart(matches), i);
    first := SortIndex(matches, f);
    last := SortIndex(matches, l);
  }

  /** Every match lies in one span. */
  lemma {:induction false} MatchesAreProtected(matches: seq<Range>, j: nat) returns (i: nat)
    requires NonEmpty(matches) && j < |matches|
    ensures i < |Merged(matches)| && Inside(matches[j], Merged(matches)[i])
  {
    SortKeepsNonEmpty(matches);
    var k := SortedIndex(matches, j);
    i := MergeKeeps(SortByStart(matches), k);
  }

  /** The spans cover exactly the matched positions. */
  lemma {:induction false} SpansCoverTheMatches(matches: seq<Range>, p: nat)
    requires NonEmpty(matches)
    ensures Covers(Merged(matches), p) <==> Covers(matches, p)
  {
    var spans := Merged(matches);
    if Covers(spans, p) {
      var i :| 0 <= i < |spans| && spans[i].start <= p < spans[i].end;
      var k := MergeAddsNothing(SortByStart(matches), i, p);
      var j := SortIndex(matches, k);
    }
    if Covers(matches, p) {
      var j :| 0 <= j < |matches| && matches[j].start <= p < matches[j].end;
      var i := MatchesAreProtected(matches, j);
    }
  }

  // ---------------------------------------------------------------------------
  // Separated spans are determined by the positions they cover.

  lemma {:induction false} FirstSpan(spans: seq<Range>, p: nat)
    requires NonEmpty(spans) && Separated(spans) && spans != []
    ensures Covers(spans, spans[0].start) && !Covers(spans, spans[0].end)
    ensures Covers(spans, p) ==> spans[0].start <= p
    ensures spans[0].start <= p < spans[0].end ==> Covers(spans, p)
    ensures Covers(spans[1..], p) <==> Covers(spans, p) && spans[0].end <= p
  {
    assert spans[0].start < spans[0].end;
    if Covers(spans[1..], p) {
      var i :| 0 <= i < |spans[1..]| && spans[1..][i].start <= p < spans[1..][i].end;
      assert spans[i + 1].start <= p < spans[i + 1].end;
    }
    if Covers(spans, p) && spans[0].end <= p {
      var i :| 0 <= i < |spans| && spans[i].start <= p < spans[i].end;
      assert spans[1..][i - 1] == spans[i];
    }
  }

  lemma {:induction false} SpansAreUnique(a: seq<Range>, b: seq<Range>)
    requires NonEmpty(a) && Separated(a) && NonEmpty(b) && Separated(b)
    requires forall p: nat :: Covers(a, p) <==> Covers(b, p)
    ensures a == b
    decreases |a|
  {
    if a == [] {
      if b != [] {
        FirstSpan(b, 0);
      }
    } else if b == [] {
      FirstSpan(a, 0);
    } else {
      SameFirstSpan(a, b);
      forall p: nat ensures Covers(a[1..], p) <==> Covers(b[1..], p) {
        FirstSpan(a, p);
        FirstSpan(b, p);
      }
      SpansAreUnique(a[1..], b[1..]);
      assert a == [a[0]] + a[1..] && b == [b[0]] + b[1..];
    }
  }

  lemma {:induction false} SameFirstSpan(a: seq<Range>, b: seq<Range>)
    requires NonEmpty(a) && Separated(a) && NonEmpty(b) && Separated(b) && a != [] && b != []
    requires forall p: nat :: Covers(a, p) <==> Covers(b, p)
    ensures a[0] == b[0]
  {
    FirstSpan(a, b[0].start);
    FirstSpan(b, a[0].start);
    FirstSpan(a, b[0].end);
    FirstSpan(b, a[0].end);
  }

  /** The order of the patterns and of their matches, repeats and nesting do not matter. */
  lemma {:induction false} OnlyCoverageMatters(a: seq<Range>, b: seq<Range>)
    requires NonEmpty(a) && NonEmpty(b)
    ensures Merged(a) == Merged(b) <==> forall p: nat :: Covers(a, p) <==> Covers(b, p)
  {
    SpansAreSeparated(a);
    SpansAreSeparated(b);
    forall p: nat
      ensures Covers(Merged(a), p) <==> Covers(a, p)
      ensures Covers(Merged(b), p) <==> Covers(b, p)
    {
      SpansCoverTheMatches(a, p);
      SpansCoverTheMatches(b, p);
    }
    if forall p: nat :: Covers(a, p) <==> Covers(b, p) {
      SpansAreUnique(Merged(a), Merged(b));
    }
  }

  // ---------------------------------------------------------------------------

  method ProtectedSpans(text: string, patterns: seq<string -> seq<Range>>) returns (spans: seq<Range>)
    ensures spans == Merged(AllMatches(text, patterns))
  {
    var ranges: seq<Range> := [];
    for i := 0 to |patterns|
      invariant ranges == AllMatches(text, patterns[..i])
    {
      assert patterns[..i + 1][..i] == patterns[..i];
      ranges := ranges + patterns[i](text);
    }
    assert patterns[..|patterns|] == patterns;
    ranges := SortByStart(ranges);
    spans := [];
    for i := 0 to |ranges|
      invariant spans == Merge(ranges[..i])
    {
      assert ranges[..i + 1][..i] == ranges[..i] && ranges[..i + 1][i] == ranges[i];
      var r := ranges[i];
      if |spans| > 0 && r.start <= spans[|spans| - 1].end {
        var last := spans[|spans| - 1];
        spans := spans[..|spans| - 1] + [Range(last.start, if last.end < r.end then r.end else last.end)];
      } else {
        spans := spans + [r];
      }
    }
    assert ranges[..|ranges|] == ranges;
  }

  /** Every match of every pattern. */
  function AllMatches(text: string, patterns: seq<string -> seq<Range>>): seq<Range> {
    if patterns == [] then []
    else AllMatches(text, patterns[..|patterns| - 1]) + patterns[|patterns| - 1](text)
  }

  /** The matches of every pattern are there, and no others. */
  lemma {:induction false} EveryMatchIsThere(text: string, patterns: seq<string -> seq<Range>>, r: Range)
    ensures r in AllMatches(text, patterns) <==> exists k :: 0 <= k < |patterns| && r in patterns[k](text)
    decreases |patterns|
  {
    if patterns != [] {
      var last := |patterns| - 1;
      EveryMatchIsThere(text, patterns[..last], r);
      if r in AllMatches(text, patterns[..last]) {
        var k :| 0 <= k < last && r in patterns[..last][k](text);
        assert patterns[..last][k] == patterns[k];
      }
      if k :| 0 <= k < last && r in patterns[k](text) {
        assert patterns[..last][k] == patterns[k];
      }
    }
  }
}
