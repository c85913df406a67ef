/** What a stream that was read to its end amounts to, in terms of all its lines together. */
module StreamAssembly {
  import opened Wrappers
  import opened Chat
  import opened SseFraming
  import opened Telemetry
  import opened ChatTurn

  /** What one decoded line contributes: only the first choice of a frame is read. */
  function Content(d: Decoded): string {
    if d.Data? && d.frame.choices != [] then d.frame.choices[0].content.GetOr("") else ""
  }

  function Deltas(d: Decoded): seq<CallDelta> {
    if d.Data? && d.frame.choices != [] then d.frame.choices[0].calls else []
  }

  /** The text of all lines, their call fragments, and the last usage report, in the order of the lines. */
  function Contents(lines: seq<seq<byte>>, decode: seq<byte> -> Decoded): string {
    if lines == [] then "" else Content(decode(lines[0])) + Contents(lines[1..], decode)
  }

  function Fragments(lines: seq<seq<byte>>, decode: seq<byte> -> Decoded): seq<CallDelta> {
    if lines == [] then [] else Deltas(decode(lines[0])) + Fragments(lines[1..], decode)
  }

  function LastUsage(lines: seq<seq<byte>>, decode: seq<byte> -> Decoded, before: Option<Usage>): Option<Usage> {
    if lines == [] then before
    else
      var d := decode(lines[0]);
      LastUsage(lines[1..], decode, if d.Data? && d.frame.usage.Some? then d.frame.usage else before)
  }

  // ---------------------------------------------------------------------------
  // Fragments of calls add up across lines.

  lemma {:induction false} GrownTwice(had: ToolUse, xs: seq<CallDelta>, ys: seq<CallDelta>, i: nat)
    ensures Grown(had, xs + ys, i) == Grown(Grown(had, xs, i), ys, i)
    decreases |xs|
  {
    if xs == [] {
      assert xs + ys == ys && Grown(had, xs, i) == had;
    } else {
      assert (xs + ys)[1..] == xs[1..] + ys && (xs + ys)[0] == xs[0];
      GrownFront(had, xs + ys, i);
      GrownFront(had, xs, i);
      GrownTwice(WithDelta(had, xs[0], i), xs[1..], ys, i);
    }
  }

  lemma {:induction false} ExtendedTwice(first: map<nat, ToolUse>, second: map<nat, ToolUse>, third: map<nat, ToolUse>,
                      xs: seq<CallDelta>, ys: seq<CallDelta>, i: nat)
    requires Extended(first, second, xs, i) && Extended(second, third, ys, i)
    ensures Extended(first, third, xs + ys, i)
  {
    GrownTwice(CallAt(first, i), xs, ys, i);
    assert Indices(xs + ys) == Indices(xs) + Indices(ys);
  }

  // ---------------------------------------------------------------------------
  // Line by line.

  lemma {:induction false} CallsKeepUsage(a: Assembly, ds: seq<CallDelta>)
    ensures AbsorbCalls(a, ds).state.usage == a.usage
    decreases |ds|
  {
    if ds != [] && AbsorbCall(a, ds[0]).Accept? {
      CallsKeepUsage(AbsorbCall(a, ds[0]).state, ds[1..]);
    }
  }

  /** `b` is `a` with what the line contributes. */
  predicate Adds(a: Assembly, b: Assembly, d: Decoded, i: nat) {
    && b.text == a.text + Content(d)
    && b.usage == (if d.Data? && d.frame.usage.Some? then d.frame.usage else a.usage)
    && Extended(a.calls, b.calls, Deltas(d), i)
  }

  lemma {:induction false} LineAdds(a: Assembly, d: Decoded, i: nat)
    requires Absorb(a, d).Accept?
    ensures Adds(a, Absorb(a, d).state, d, i)
  {
    if d.Data? && d.frame.choices != [] {
      var seen := if HasOutput(d.frame) then a.(output := true) else a;
      var counted := if d.frame.usage.Some? then seen.(usage := d.frame.usage) else seen;
      var choice := d.frame.choices[0];
      var grown := if choice.content.None? then counted
                   else counted.(text := counted.text + choice.content.value,
                                 events := counted.events + [Text(choice.content.value)]);
      AbsorbCallsKeeps(grown, choice.calls);
      CallsKeepUsage(grown, choice.calls);
      CallsAreTheirFragments(grown, choice.calls, i);
    }
  }

  /** `b` is `a` with what all the lines contribute. */
  predicate AddsAll(a: Assembly, b: Assembly, lines: seq<seq<byte>>, decode: seq<byte> -> Decoded, i: nat) {
    && b.text == a.text + Contents(lines, decode)
    && b.usage == LastUsage(lines, decode, a.usage)
    && Extended(a.calls, b.calls, Fragments(lines, decode), i)
  }

  lemma {:induction false} AddsFront(a: Assembly, next: Assembly, b: Assembly, lines: seq<seq<byte>>,
                                     decode: seq<byte> -> Decoded, i: nat)
    requires lines != [] && Adds(a, next, decode(lines[0]), i) && AddsAll(next, b, lines[1..], decode, i)
    ensures AddsAll(a, b, lines, decode, i)
  {
    var d := decode(lines[0]);
    Joined(a.text, Content(d), Contents(lines[1..], decode));
    ExtendedTwice(a.calls, next.calls, b.calls, Deltas(d), Fragments(lines[1..], decode), i);
  }

  lemma {:induction false} HandledLinesAddUp(lines: seq<seq<byte>>, a: Assembly,
                                             f: (Assembly, seq<byte>) -> Verdict<Assembly>,
                                             decode: seq<byte> -> Decoded, i: nat)
    requires forall x, l | f(x, l).Accept? :: Adds(x, f(x, l).state, decode(l), i)
    requires HandleLines(lines, a, f).Accept?
    ensures AddsAll(a, HandleLines(lines, a, f).state, lines, decode, i)
    decreases |lines|
  {
    if lines == [] {
      assert Grown(CallAt(a.calls, i), [], i) == CallAt(a.calls, i);
    } else {
      var next := f(a, lines[0]).state;
      HandledLinesAddUp(lines[1..], next, f, decode, i);
      AddsFront(a, next, HandleLines(lines, a, f).state, lines, decode, i);
    }
  }

  /** Accepted lines leave their whole text, every fragment of every call, and the last usage. */
  lemma {:induction false} LinesAddUp(lines: seq<seq<byte>>, a: Assembly, decode: seq<byte> -> Decoded, i: nat)
    requires HandleLines(lines, a, Handler(decode)).Accept?
    ensures AddsAll(a, HandleLines(lines, a, Handler(decode)).state, lines, decode, i)
  {
    forall x, l | Handler(decode)(x, l).Accept? ensures Adds(x, Handler(decode)(x, l).state, decode(l), i) {
      LineAdds(x, decode(l), i);
    }
    HandledLinesAddUp(lines, a, Handler(decode), decode, i);
  }

  /** The calls an assembly holds are those with a fragment. */
  lemma {:induction false} CallsOfLines(lines: seq<seq<byte>>, decode: seq<byte> -> Decoded)
    requires HandleLines(lines, EMPTY, Handler(decode)).Accept?
    ensures HandleLines(lines, EMPTY, Handler(decode)).state.calls.Keys == Indices(Fragments(lines, decode))
  {
    var b := HandleLines(lines, EMPTY, Handler(decode)).state;
    forall i: nat ensures i in b.calls.Keys <==> i in Indices(Fragments(lines, decode)) {
      LinesAddUp(lines, EMPTY, decode, i);
    }
  }

  /**
   A successful attempt tells the whole stream: it consists of complete lines, the emitted text is all
   content deltas in order, the reply has one call per stream index, sorted by index and made up of all
   fragments for that index, and the one usage report is the last one of the stream.
   */
  lemma {:induction false} RepliesTellTheStream(chunks: seq<seq<byte>>, ending: Ending, decode: seq<byte> -> Decoded,
                             encodedSize: Message -> nat, bodySize: nat, i: nat)
    requires CompleteOnce(Streamed(chunks, ending), decode, encodedSize, bodySize).outcome.Success?
    ensures var once := CompleteOnce(Streamed(chunks, ending), decode, encodedSize, bodySize);
            var lines := Lines(Flatten(chunks));
            var ds := Fragments(lines, decode);
            && ending == Ended && Flatten(lines) == Flatten(chunks)
            && Observe(once.events).text == Contents(lines, decode)
            && Observe(once.events).reports == Listed(LastUsage(lines, decode, None))
            && |Calls(once.outcome.reply)| == |Indices(ds)|
            && (i in Indices(ds) ==>
                  var rank := |set x | x in Indices(ds) && x < i|;
                  && rank < |Indices(ds)|
                  && Calls(once.outcome.reply)[rank] == Grown(ToolUse("", "", ""), ds, i))
  {
    var bytes := Flatten(chunks);
    var lines := Lines(bytes);
    var a := HandleLines(lines, EMPTY, Handler(decode)).state;
    LinesCutTheBytes(bytes);
    ChunksDoNotMatter(EMPTY, chunks, Handler(decode));
    assert Rest(bytes) == [] && HandleLines(lines, EMPTY, Handler(decode)) == Accept(a);
    ReadingIsTidy(bytes, decode);
    ConcludeIsFaithful(a, encodedSize);
    LinesAddUp(lines, EMPTY, decode, i);
    CallsOfLines(lines, decode);
    CallsInOrder(a.calls, i);
  }

  lemma {:induction false} CallsInOrder(calls: map<nat, ToolUse>, i: nat)
    ensures |InOrder(calls)| == |calls.Keys|
    ensures i in calls ==>
              var rank := |set x | x in calls.Keys && x < i|; rank < |calls.Keys| && InOrder(calls)[rank] == calls[i]
  {
    if i in calls {
      InOrderByIndex(calls, i);
      assert (set x | x in calls && x < i) == set x | x in calls.Keys && x < i;
    } else if calls != map[] {
      var j :| j in calls;
      InOrderByIndex(calls, j);
    }
  }
}
