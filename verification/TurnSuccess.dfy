/** Exactly when an attempt of a chat turn succeeds, and exactly when a failed one is tried again. */
module TurnSuccess {
  import opened Wrappers
  import opened Strings
  import opened Limits
  import opened Telemetry
  import opened Chat
  import opened SseFraming
  import opened ChatTurn
  import opened StreamAssembly

  const NO_CALL := ToolUse("", "", "")

  // ---------------------------------------------------------------------------
  // The fragments of the calls.

  predicate IdFits(d: CallDelta) { d.id.Some? ==> Bytes(d.id.value) <= MAX_MESSAGE_BODY_BYTES }

  predicate Small(c: ToolUse) {
    Bytes(c.name) <= MAX_MESSAGE_BODY_BYTES && Bytes(c.arguments) <= MAX_MESSAGE_BODY_BYTES
  }

  ghost predicate Within(calls: map<nat, ToolUse>) { forall i: nat :: Small(CallAt(calls, i)) }

  predicate IdsFit(ds: seq<CallDelta>) { forall k | 0 <= k < |ds| :: IdFits(ds[k]) }

  ghost predicate CallsFit(calls: map<nat, ToolUse>, ds: seq<CallDelta>) {
    forall i: nat :: Small(Grown(CallAt(calls, i), ds, i))
  }

  /** Every id fits, and so does every call with its fragments. */
  ghost predicate FragmentsFit(calls: map<nat, ToolUse>, ds: seq<CallDelta>) { IdsFit(ds) && CallsFit(calls, ds) }

  lemma {:induction false} GrownIsLarger(had: ToolUse, ds: seq<CallDelta>, i: nat)
    requires Small(Grown(had, ds, i))
    ensures Small(had)
  {
    BytesConcat(had.name, Names(ds, i));
    BytesConcat(had.arguments, Arguments(ds, i));
  }

  lemma {:induction false} GrownByNothing(had: ToolUse, i: nat)
    ensures Grown(had, [], i) == had
  {
    assert had.name + "" == had.name && had.arguments + "" == had.arguments;
  }

  lemma {:induction false} GrowIff(sofar: string, delta: Option<string>)
    requires Bytes(sofar) <= MAX_MESSAGE_BODY_BYTES
    ensures Grow(sofar, delta)
            == if Bytes(sofar + delta.GetOr("")) <= MAX_MESSAGE_BODY_BYTES then Some(sofar + delta.GetOr("")) else None
  {
    BytesConcat(sofar, delta.GetOr(""));
    assert sofar + "" == sofar;
  }

  lemma {:induction false} DeltaFits(a: Assembly, d: CallDelta)
    requires Small(CallAt(a.calls, d.index))
    ensures AbsorbCall(a, d).Accept? <==> IdFits(d) && Small(WithDelta(CallAt(a.calls, d.index), d, d.index))
  {
    var had := CallAt(a.calls, d.index);
    GrowIff(had.name, d.name);
    GrowIff(had.arguments, d.arguments);
  }

  lemma {:induction false} DeltaKeepsWithin(a: Assembly, d: CallDelta)
    requires Within(a.calls) && AbsorbCall(a, d).Accept?
    ensures Within(AbsorbCall(a, d).state.calls)
  {
    var next := AbsorbCall(a, d).state;
    DeltaFits(a, d);
    forall i: nat ensures Small(CallAt(next.calls, i)) {
      OneFragment(a, d, i);
      assert Small(CallAt(a.calls, i));
    }
  }

  lemma {:induction false} FitFront(a: Assembly, ds: seq<CallDelta>)
    requires ds != [] && AbsorbCall(a, ds[0]).Accept? && IdFits(ds[0])
    ensures FragmentsFit(AbsorbCall(a, ds[0]).state.calls, ds[1..]) <==> FragmentsFit(a.calls, ds)
  {
    var next, rest := AbsorbCall(a, ds[0]).state, ds[1..];
    forall i: nat ensures Grown(CallAt(next.calls, i), rest, i) == Grown(CallAt(a.calls, i), ds, i) {
      OneFragment(a, ds[0], i);
      GrownFront(CallAt(a.calls, i), ds, i);
    }
    IdsFront(ds);
    SameGrowth(a.calls, ds, next.calls, rest);
  }

  lemma {:induction false} IdsFront(ds: seq<CallDelta>)
    requires ds != [] && IdFits(ds[0])
    ensures IdsFit(ds) <==> IdsFit(ds[1..])
  {
    assert forall k | 0 < k < |ds| :: ds[k] == ds[1..][k - 1];
  }

  lemma {:induction false} SameGrowth(calls: map<nat, ToolUse>, ds: seq<CallDelta>, calls': map<nat, ToolUse>,
                                      ds': seq<CallDelta>)
    requires forall i: nat :: Grown(CallAt(calls', i), ds', i) == Grown(CallAt(calls, i), ds, i)
    ensures CallsFit(calls, ds) <==> CallsFit(calls', ds')
  {
  }

  /** Deltas are accepted exactly if every id fits, and every call with all its fragments. */
  lemma {:induction false} CallsAcceptIff(a: Assembly, ds: seq<CallDelta>)
    requires Within(a.calls)
    ensures AbsorbCalls(a, ds).Accept? <==> FragmentsFit(a.calls, ds)
    ensures AbsorbCalls(a, ds).Accept? ==> Within(AbsorbCalls(a, ds).state.calls)
    decreases |ds|
  {
    if ds == [] {
      forall i: nat ensures Small(Grown(CallAt(a.calls, i), ds, i)) {
        GrownByNothing(CallAt(a.calls, i), i);
      }
    } else {
      var d := ds[0];
      assert Small(CallAt(a.calls, d.index));
      DeltaFits(a, d);
      if AbsorbCall(a, d).Accept? {
        DeltaKeepsWithin(a, d);
        CallsAcceptIff(AbsorbCall(a, d).state, ds[1..]);
        FitFront(a, ds);
      } else if FragmentsFit(a.calls, ds) {
        assert Small(Grown(CallAt(a.calls, d.index), ds, d.index));
        GrownFront(CallAt(a.calls, d.index), ds, d.index);
        GrownIsLarger(WithDelta(CallAt(a.calls, d.index), d, d.index), ds[1..], d.index);
      }
    }
  }

  // ---------------------------------------------------------------------------
  // The lines.

  /** A line that is data, if it is text, and no error. */
  predicate IsGood(d: Decoded) { d.NotData? || d.DoneMarker? || d.Data? }

  ghost predicate Sound(a: Assembly) { Bytes(a.text) <= MAX_MESSAGE_BODY_BYTES && Within(a.calls) }

  lemma {:induction false} ChoiceAcceptIff(a: Assembly, choice: Choice)
    requires Sound(a)
    ensures AbsorbChoice(a, choice).Accept?
            <==> Bytes(a.text + choice.content.GetOr("")) <= MAX_MESSAGE_BODY_BYTES
                 && FragmentsFit(a.calls, choice.calls)
    ensures AbsorbChoice(a, choice).Accept? ==> Within(AbsorbChoice(a, choice).state.calls)
  {
    var value := choice.content.GetOr("");
    BytesConcat(a.text, value);
    assert a.text + "" == a.text;
    CallsAcceptIff(a, choice.calls);
    CallsAcceptIff(a.(text := a.text + value, events := a.events + [Text(value)]), choice.calls);
  }

  lemma {:induction false} AbsorbKeepsText(a: Assembly, choice: Choice)
    ensures AbsorbChoice(a, choice).Accept? ==>
              AbsorbChoice(a, choice).state.text == a.text + choice.content.GetOr("")
  {
    var value := choice.content.GetOr("");
    assert a.text + "" == a.text;
    AbsorbCallsKeeps(a, choice.calls);
    AbsorbCallsKeeps(a.(text := a.text + value, events := a.events + [Text(value)]), choice.calls);
  }

  lemma {:induction false} FrameAcceptIff(a: Assembly, frame: Frame)
    requires Sound(a)
    ensures AbsorbFrame(a, frame).Accept?
            <==> Bytes(a.text + Content(Data(frame))) <= MAX_MESSAGE_BODY_BYTES
                 && FragmentsFit(a.calls, Deltas(Data(frame)))
    ensures AbsorbFrame(a, frame).Accept? ==> Sound(AbsorbFrame(a, frame).state)
  {
    var counted := if frame.usage.Some? then a.(usage := frame.usage) else a;
    if frame.choices == [] {
      assert a.text + "" == a.text;
      CallsAcceptIff(a, []);
    } else {
      ChoiceAcceptIff(counted, frame.choices[0]);
      AbsorbKeepsText(counted, frame.choices[0]);
    }
  }

  lemma {:induction false} LineAcceptIff(a: Assembly, d: Decoded)
    requires Sound(a)
    ensures Absorb(a, d).Accept?
            <==> IsGood(d) && Bytes(a.text + Content(d)) <= MAX_MESSAGE_BODY_BYTES && FragmentsFit(a.calls, Deltas(d))
    ensures Absorb(a, d).Accept? ==> Sound(Absorb(a, d).state)
  {
    if d.Data? {
      FrameAcceptIff(if HasOutput(d.frame) then a.(output := true) else a, d.frame);
    } else {
      assert a.text + "" == a.text;
      CallsAcceptIff(a, []);
    }
  }

  predicate LineFits(line: seq<byte>, decode: seq<byte> -> Decoded) {
    |line| <= MAX_SSE_FRAME_BYTES && IsGood(decode(line))
  }

  predicate AllGood(lines: seq<seq<byte>>, decode: seq<byte> -> Decoded) {
    forall k | 0 <= k < |lines| :: LineFits(lines[k], decode)
  }

  /** Every line fits and is good, and so do the text and the calls of all lines together. */
  ghost predicate LinesFit(a: Assembly, lines: seq<seq<byte>>, decode: seq<byte> -> Decoded) {
    && AllGood(lines, decode)
    && Bytes(a.text + Contents(lines, decode)) <= MAX_MESSAGE_BODY_BYTES
    && FragmentsFit(a.calls, Fragments(lines, decode))
  }

  lemma {:induction false} FitTogether(calls: map<nat, ToolUse>, calls': map<nat, ToolUse>, xs: seq<CallDelta>,
                                       ys: seq<CallDelta>)
    requires forall i: nat :: CallAt(calls', i) == Grown(CallAt(calls, i), xs, i)
    ensures FragmentsFit(calls, xs + ys) <==> FragmentsFit(calls, xs) && FragmentsFit(calls', ys)
  {
    forall i: nat ensures Grown(CallAt(calls, i), xs + ys, i) == Grown(CallAt(calls', i), ys, i) {
      GrownTwice(CallAt(calls, i), xs, ys, i);
    }
    SameGrowth(calls, xs + ys, calls', ys);
    assert IdsFit(xs + ys)
      <==> IdsFit(xs) && IdsFit(ys) by {
      IdsTogether(xs, ys);
    }
    if FragmentsFit(calls', ys) {
      forall i: nat ensures Small(Grown(CallAt(calls, i), xs, i)) {
        assert Small(Grown(CallAt(calls', i), ys, i));
        GrownIsLarger(CallAt(calls', i), ys, i);
      }
    }
  }

  lemma {:induction false} IdsTogether(xs: seq<CallDelta>, ys: seq<CallDelta>)
    ensures IdsFit(xs + ys)
            <==> IdsFit(xs) && IdsFit(ys)
  {
    assert forall k | 0 <= k < |xs| :: (xs + ys)[k] == xs[k];
    assert forall k | 0 <= k < |ys| :: (xs + ys)[|xs| + k] == ys[k];
    assert forall k | |xs| <= k < |xs + ys| :: (xs + ys)[k] == ys[k - |xs|];
  }

  lemma {:induction false} LinesFitFront(a: Assembly, next: Assembly, lines: seq<seq<byte>>,
                                         decode: seq<byte> -> Decoded)
    requires lines != [] && next.text == a.text + Content(decode(lines[0]))
    requires forall i: nat :: CallAt(next.calls, i) == Grown(CallAt(a.calls, i), Deltas(decode(lines[0])), i)
    ensures LinesFit(a, lines, decode)
            <==> LineFits(lines[0], decode) && FragmentsFit(a.calls, Deltas(decode(lines[0])))
                 && LinesFit(next, lines[1..], decode)
  {
    var d, rest := decode(lines[0]), lines[1..];
    Joined(a.text, Content(d), Contents(rest, decode));
    FitTogether(a.calls, next.calls, Deltas(d), Fragments(rest, decode));
    assert forall k | 0 < k < |lines| :: lines[k] == rest[k - 1];
  }

  lemma {:induction false} TextGrows(a: Assembly, lines: seq<seq<byte>>, decode: seq<byte> -> Decoded)
    requires lines != [] && LinesFit(a, lines, decode)
    ensures Bytes(a.text + Content(decode(lines[0]))) <= MAX_MESSAGE_BODY_BYTES
    ensures FragmentsFit(a.calls, Deltas(decode(lines[0])))
  {
    var d, rest := decode(lines[0]), lines[1..];
    Joined(a.text, Content(d), Contents(rest, decode));
    BytesConcat(a.text + Content(d), Contents(rest, decode));
    var xs, ys := Deltas(d), Fragments(rest, decode);
    IdsTogether(xs, ys);
    forall i: nat ensures Small(Grown(CallAt(a.calls, i), xs, i)) {
      assert Small(Grown(CallAt(a.calls, i), xs + ys, i));
      GrownTwice(CallAt(a.calls, i), xs, ys, i);
      GrownIsLarger(Grown(CallAt(a.calls, i), xs, i), ys, i);
    }
  }

  lemma {:induction false} OneLineAdds(a: Assembly, d: Decoded)
    requires Absorb(a, d).Accept?
    ensures Absorb(a, d).state.text == a.text + Content(d)
    ensures forall i: nat :: CallAt(Absorb(a, d).state.calls, i) == Grown(CallAt(a.calls, i), Deltas(d), i)
  {
    LineAdds(a, d, 0);
    forall i: nat ensures CallAt(Absorb(a, d).state.calls, i) == Grown(CallAt(a.calls, i), Deltas(d), i) {
      LineAdds(a, d, i);
    }
  }

  lemma {:induction false} LinesAcceptIff(a: Assembly, lines: seq<seq<byte>>, decode: seq<byte> -> Decoded)
    requires Sound(a)
    ensures HandleLines(lines, a, Handler(decode)).Accept? <==> LinesFit(a, lines, decode)
    decreases |lines|
  {
    if lines == [] {
      assert a.text + "" == a.text;
      CallsAcceptIff(a, []);
    } else {
      var d := decode(lines[0]);
      LineAcceptIff(a, d);
      assert Handler(decode)(a, lines[0]) == Absorb(a, d);
      if Absorb(a, d).Accept? {
        OneLineAdds(a, d);
        LinesFitFront(a, Absorb(a, d).state, lines, decode);
        LinesAcceptIff(Absorb(a, d).state, lines[1..], decode);
      } else if LinesFit(a, lines, decode) {
        TextGrows(a, lines, decode);
      }
    }
  }

  // ---------------------------------------------------------------------------
  // The calls of a whole stream.

  /** The call of a stream index, made of all its fragments. */
  function CallOf(ds: seq<CallDelta>, i: nat): ToolUse { Grown(NO_CALL, ds, i) }

  function AllCalls(ds: seq<CallDelta>): map<nat, ToolUse> { map i | i in Indices(ds) :: CallOf(ds, i) }

  lemma {:induction false} NoFragments(ds: seq<CallDelta>, i: nat)
    requires i !in Indices(ds)
    ensures Names(ds, i) == "" && Arguments(ds, i) == "" && LastId(ds, i, "") == ""
    decreases |ds|
  {
    if ds != [] {
      IndicesFront(ds);
      NoFragments(ds[1..], i);
    }
  }

  predicate AllSmall(ds: seq<CallDelta>) { forall i | i in Indices(ds) :: Small(CallOf(ds, i)) }

  lemma {:induction false} FitMeans(ds: seq<CallDelta>)
    ensures FragmentsFit(map[], ds)
            <==> IdsFit(ds) && AllSmall(ds)
  {
    if AllSmall(ds) {
      forall i: nat ensures Small(Grown(CallAt(map[], i), ds, i)) {
        if i !in Indices(ds) {
          NoFragments(ds, i);
        } else {
          assert Small(CallOf(ds, i));
        }
      }
    }
    if FragmentsFit(map[], ds) {
      forall i | i in Indices(ds) ensures Small(CallOf(ds, i)) {
        assert Small(Grown(CallAt(map[], i), ds, i));
      }
    }
  }

  lemma {:induction false} CallsOfStream(lines: seq<seq<byte>>, a: Assembly, decode: seq<byte> -> Decoded)
    requires HandleLines(lines, EMPTY, Handler(decode)) == Accept(a)
    ensures a.calls == AllCalls(Fragments(lines, decode)) && a.text == Contents(lines, decode)
  {
    var ds := Fragments(lines, decode);
    CallsOfLines(lines, decode);
    LinesAddUp(lines, EMPTY, decode, 0);
    assert EMPTY.text + Contents(lines, decode) == Contents(lines, decode);
    forall i | i in Indices(ds) ensures a.calls[i] == CallOf(ds, i) {
      OneCallOfStream(lines, a, decode, i);
    }
    SameCalls(a.calls, ds);
  }

  lemma {:induction false} OneCallOfStream(lines: seq<seq<byte>>, a: Assembly, decode: seq<byte> -> Decoded, i: nat)
    requires HandleLines(lines, EMPTY, Handler(decode)) == Accept(a)
    ensures CallAt(a.calls, i) == CallOf(Fragments(lines, decode), i)
  {
    LinesAddUp(lines, EMPTY, decode, i);
  }

  lemma {:induction false} SameCalls(calls: map<nat, ToolUse>, ds: seq<CallDelta>)
    requires calls.Keys == Indices(ds) && forall i | i in Indices(ds) :: calls[i] == CallOf(ds, i)
    ensures calls == AllCalls(ds)
  {
  }

  lemma {:induction false} MemberOfOrder(calls: map<nat, ToolUse>, c: ToolUse) returns (i: nat)
    requires c in InOrder(calls)
    ensures i in calls && calls[i] == c
    decreases |calls|
  {
    var m := Least(calls.Keys);
    if c == calls[m] {
      i := m;
    } else {
      assert (calls - {m}).Keys == calls.Keys - {m};
      i := MemberOfOrder(calls - {m}, c);
    }
  }

  lemma {:induction false} UsableIff(calls: map<nat, ToolUse>)
    ensures (forall k | 0 <= k < |InOrder(calls)| :: Usable(InOrder(calls)[k]))
            <==> (forall i | i in calls :: Usable(calls[i]))
  {
    if forall i | i in calls :: Usable(calls[i]) {
      forall k | 0 <= k < |InOrder(calls)| ensures Usable(InOrder(calls)[k]) {
        var i := MemberOfOrder(calls, InOrder(calls)[k]);
      }
    } else {
      var i :| i in calls && !Usable(calls[i]);
      InOrderByIndex(calls, i);
    }
  }

  // ---------------------------------------------------------------------------
  // Success.

  /** The message of a stream, given its text and fragments. */
  function MessageOf(text: string, ds: seq<CallDelta>): Message {
    Assistant(if text == "" then None else Some(text), InOrder(AllCalls(ds)))
  }

  /**
   A stream that makes a turn: it ended with its last line, every line fits and decodes, none is an error,
   text, ids, names and arguments stay within their caps, every call has an id and a name, and the
   message, if there is one, fits.
   */
  ghost predicate MakesATurn(chunks: seq<seq<byte>>, ending: Ending, decode: seq<byte> -> Decoded,
                             encodedSize: Message -> nat)
  {
    var lines := Lines(Flatten(chunks));
    var text, ds := Contents(lines, decode), Fragments(lines, decode);
    && ending == Ended && Rest(Flatten(chunks)) == []
    && (forall k | 0 <= k < |lines| ::
          |lines[k]| <= MAX_SSE_FRAME_BYTES && decode(lines[k]) != NotUtf8 && decode(lines[k]) != BadJson
          && decode(lines[k]) != ErrorFrame)
    && Bytes(text) <= MAX_MESSAGE_BODY_BYTES
    && (forall k | 0 <= k < |ds| && ds[k].id.Some? :: Bytes(ds[k].id.value) <= MAX_MESSAGE_BODY_BYTES)
    && (forall i | i in Indices(ds) :: Small(CallOf(ds, i)) && !Blank(CallOf(ds, i).id) && !Blank(CallOf(ds, i).name))
    && (text != "" || ds != [] ==> encodedSize(MessageOf(text, ds)) <= MAX_MESSAGE_BODY_BYTES)
  }

  lemma {:induction false} EmptyIsSound()
    ensures Sound(EMPTY)
  {
    assert Bytes("") == 0;
  }

  lemma {:induction false} StreamAcceptIff(chunks: seq<seq<byte>>, ending: Ending, decode: seq<byte> -> Decoded)
    ensures var lines := Lines(Flatten(chunks));
            Finish(FeedAll(EMPTY, chunks, Handler(decode)), ending).Accept?
            <==> ending == Ended && Rest(Flatten(chunks)) == [] && LinesFit(EMPTY, lines, decode)
    ensures Finish(FeedAll(EMPTY, chunks, Handler(decode)), ending).Accept? ==>
              HandleLines(Lines(Flatten(chunks)), EMPTY, Handler(decode))
              == Finish(FeedAll(EMPTY, chunks, Handler(decode)), ending)
  {
    var bytes := Flatten(chunks);
    ChunksDoNotMatter(EMPTY, chunks, Handler(decode));
    EmptyIsSound();
    LinesAcceptIff(EMPTY, Lines(bytes), decode);
  }

  lemma {:induction false} LinesFitMeans(a: Assembly, lines: seq<seq<byte>>, decode: seq<byte> -> Decoded)
    requires a.text == "" && a.calls == map[]
    ensures var ds := Fragments(lines, decode);
            LinesFit(a, lines, decode)
            <==> && AllGood(lines, decode) && Bytes(Contents(lines, decode)) <= MAX_MESSAGE_BODY_BYTES
                 && IdsFit(ds) && AllSmall(ds)
  {
    var ds := Fragments(lines, decode);
    FitMeans(ds);
    assert a.text + Contents(lines, decode) == Contents(lines, decode);
  }

  /** Every call has an id and a name, and the message, if there is one, fits. */
  ghost predicate MakesMessage(text: string, ds: seq<CallDelta>, encodedSize: Message -> nat) {
    && (forall i | i in Indices(ds) :: Usable(CallOf(ds, i)))
    && (text != "" || ds != [] ==> encodedSize(MessageOf(text, ds)) <= MAX_MESSAGE_BODY_BYTES)
  }

  lemma {:induction false} CompleteMeans(chunks: seq<seq<byte>>, ending: Ending, decode: seq<byte> -> Decoded,
                                         encodedSize: Message -> nat)
    ensures var lines := Lines(Flatten(chunks));
            MakesATurn(chunks, ending, decode, encodedSize)
            <==> && ending == Ended && Rest(Flatten(chunks)) == [] && LinesFit(EMPTY, lines, decode)
                 && MakesMessage(Contents(lines, decode), Fragments(lines, decode), encodedSize)
  {
    var lines := Lines(Flatten(chunks));
    LinesFitMeans(EMPTY, lines, decode);
    GoodLines(lines, decode);
    IdsMean(Fragments(lines, decode));
  }

  lemma {:induction false} IdsMean(ds: seq<CallDelta>)
    ensures IdsFit(ds)
            <==> (forall k | 0 <= k < |ds| && ds[k].id.Some? :: Bytes(ds[k].id.value) <= MAX_MESSAGE_BODY_BYTES)
  {
    forall k | 0 <= k < |ds|
      ensures IdFits(ds[k]) <==> (ds[k].id.Some? ==> Bytes(ds[k].id.value) <= MAX_MESSAGE_BODY_BYTES)
    {
    }
  }

  lemma {:induction false} UsableMeans(ds: seq<CallDelta>)
    ensures (forall i | i in AllCalls(ds) :: Usable(AllCalls(ds)[i]))
            <==> (forall i | i in Indices(ds) :: Usable(CallOf(ds, i)))
  {
    if forall i | i in AllCalls(ds) :: Usable(AllCalls(ds)[i]) {
      forall i | i in Indices(ds) ensures Usable(CallOf(ds, i)) {
        assert i in AllCalls(ds);
      }
    }
  }

  lemma {:induction false} ConcludeIff(a: Assembly, text: string, ds: seq<CallDelta>, encodedSize: Message -> nat)
    requires a.text == text && a.calls == AllCalls(ds)
    ensures Conclude(a, encodedSize).Accept? <==> MakesMessage(text, ds, encodedSize)
  {
    var calls := AllCalls(ds);
    UsableIff(calls);
    UsableMeans(ds);
    if ds != [] {
      IndicesFront(ds);
      assert ds[0].index in calls;
      InOrderByIndex(calls, ds[0].index);
    } else {
      assert calls == map[];
    }
  }

  /** An attempt succeeds exactly if its stream makes a turn. */
  lemma {:induction false} AttemptSucceedsIff(attempt: Attempt, decode: seq<byte> -> Decoded,
                                              encodedSize: Message -> nat,
                                              bodySize: nat)
    ensures CompleteOnce(attempt, decode, encodedSize, bodySize).outcome.Success?
            <==> attempt.Streamed? && MakesATurn(attempt.chunks, attempt.ending, decode, encodedSize)
  {
    if attempt.Streamed? {
      var lines := Lines(Flatten(attempt.chunks));
      StreamAcceptIff(attempt.chunks, attempt.ending, decode);
      CompleteMeans(attempt.chunks, attempt.ending, decode, encodedSize);
      var read := Finish(FeedAll(EMPTY, attempt.chunks, Handler(decode)), attempt.ending);
      if read.Accept? {
        CallsOfStream(lines, read.state, decode);
        ConcludeIff(read.state, Contents(lines, decode), Fragments(lines, decode), encodedSize);
      }
    }
  }

  lemma {:induction false} GoodLines(lines: seq<seq<byte>>, decode: seq<byte> -> Decoded)
    ensures AllGood(lines, decode)
            <==> (forall k | 0 <= k < |lines| ::
                    |lines[k]| <= MAX_SSE_FRAME_BYTES && decode(lines[k]) != NotUtf8 && decode(lines[k]) != BadJson
                    && decode(lines[k]) != ErrorFrame)
  {
    forall k | 0 <= k < |lines|
      ensures LineFits(lines[k], decode)
              <==> |lines[k]| <= MAX_SSE_FRAME_BYTES && decode(lines[k]) != NotUtf8 && decode(lines[k]) != BadJson
                   && decode(lines[k]) != ErrorFrame
    {
    }
  }

  // ---------------------------------------------------------------------------
  // Retries.

  /** The line carries content, or a fragment of a call. */
  predicate ShowsOutput(d: Decoded) {
    d.Data? && exists i | 0 <= i < |d.frame.choices| ::
      d.frame.choices[i].calls != [] || d.frame.choices[i].content.GetOr("") != ""
  }

  lemma {:induction false} LineShows(a: Assembly, d: Decoded)
    ensures Absorb(a, d).state.output == (a.output || ShowsOutput(d))
  {
    if d.Data? && d.frame.choices != [] {
      var seen := if HasOutput(d.frame) then a.(output := true) else a;
      var counted := if d.frame.usage.Some? then seen.(usage := d.frame.usage) else seen;
      var choice := d.frame.choices[0];
      AbsorbCallsKeeps(counted, choice.calls);
      if choice.content.Some? && Grow(counted.text, choice.content).Some? {
        AbsorbCallsKeeps(counted.(text := Grow(counted.text, choice.content).value,
                                  events := counted.events + [Text(choice.content.value)]), choice.calls);
      }
    }
  }

  lemma {:induction false} LinesShow(lines: seq<seq<byte>>, a: Assembly, decode: seq<byte> -> Decoded)
    requires HandleLines(lines, a, Handler(decode)).Accept?
    ensures HandleLines(lines, a, Handler(decode)).state.output
            <==> a.output || exists k :: 0 <= k < |lines| && ShowsOutput(decode(lines[k]))
    decreases |lines|
  {
    if lines != [] {
      var next := Absorb(a, decode(lines[0])).state;
      LineShows(a, decode(lines[0]));
      LinesShow(lines[1..], next, decode);
      assert forall k | 0 < k < |lines| :: lines[k] == lines[1..][k - 1];
    }
  }

  /** A dropped stream that timed out before any output: all it brought was accepted. */
  ghost predicate TimedOutSilently(chunks: seq<seq<byte>>, ending: Ending, decode: seq<byte> -> Decoded) {
    var lines := Lines(Flatten(chunks));
    && ending == Dropped(true) && |Rest(Flatten(chunks))| <= MAX_SSE_FRAME_BYTES
    && LinesFit(EMPTY, lines, decode)
    && !(exists k :: 0 <= k < |lines| && ShowsOutput(decode(lines[k])))
  }

  /** Handlers never fail like a connection. */
  lemma {:induction false} LinesRejectOtherwise(lines: seq<seq<byte>>, a: Assembly, decode: seq<byte> -> Decoded)
    requires HandleLines(lines, a, Handler(decode)).Reject?
    ensures !HandleLines(lines, a, Handler(decode)).why.Transport?
    decreases |lines|
  {
    if |lines[0]| <= MAX_SSE_FRAME_BYTES {
      LineRejectsOtherwise(a, decode(lines[0]));
      if Absorb(a, decode(lines[0])).Accept? {
        LinesRejectOtherwise(lines[1..], Absorb(a, decode(lines[0])).state, decode);
      }
    }
  }

  lemma {:induction false} LineRejectsOtherwise(a: Assembly, d: Decoded)
    ensures Absorb(a, d).Reject? ==> Absorb(a, d).why.Rejected?
  {
    if d.Data? && d.frame.choices != [] {
      var seen := if HasOutput(d.frame) then a.(output := true) else a;
      var counted := if d.frame.usage.Some? then seen.(usage := d.frame.usage) else seen;
      var choice := d.frame.choices[0];
      CallsRejectOtherwise(counted, choice.calls);
      if choice.content.Some? && Grow(counted.text, choice.content).Some? {
        CallsRejectOtherwise(counted.(text := Grow(counted.text, choice.content).value,
                                      events := counted.events + [Text(choice.content.value)]), choice.calls);
      }
    }
  }

  lemma {:induction false} CallsRejectOtherwise(a: Assembly, ds: seq<CallDelta>)
    ensures AbsorbCalls(a, ds).Reject? ==> AbsorbCalls(a, ds).why.Rejected?
    decreases |ds|
  {
    if ds != [] && AbsorbCall(a, ds[0]).Accept? {
      CallsRejectOtherwise(AbsorbCall(a, ds[0]).state, ds[1..]);
    }
  }

  /**
   A failed attempt is tried again exactly if its request timed out, the provider was overloaded or broken,
   or its stream timed out before any output.
   */
  lemma {:induction false} RetryableIff(attempt: Attempt, decode: seq<byte> -> Decoded, encodedSize: Message -> nat,
                                        bodySize: nat)
    ensures CompleteOnce(attempt, decode, encodedSize, bodySize).outcome == Failure(true)
            <==> match attempt
                 case SendFailed(timeout) => timeout
                 case HttpError(status) => status == 429 || 500 <= status < 600
                 case Streamed(chunks, ending) => TimedOutSilently(chunks, ending, decode)
  {
    if attempt.Streamed? {
      var bytes := Flatten(attempt.chunks);
      var lines := Lines(bytes);
      ChunksDoNotMatter(EMPTY, attempt.chunks, Handler(decode));
      EmptyIsSound();
      LinesAcceptIff(EMPTY, lines, decode);
      if HandleLines(lines, EMPTY, Handler(decode)).Accept? {
        LinesShow(lines, EMPTY, decode);
      } else {
        LinesRejectOtherwise(lines, EMPTY, decode);
      }
    }
  }

  /** How each attempt ends if it is made. */
  function Outcomes(attempts: seq<Attempt>, decode: seq<byte> -> Decoded, encodedSize: Message -> nat, bodySize: nat)
    : (os: seq<Outcome>)
    ensures |os| == |attempts|
  {
    seq(|attempts|, k requires 0 <= k < |attempts| =>
      CompleteOnce(attempts[k], decode, encodedSize, bodySize).outcome)
  }

  /** The k-th attempt is the first, from the n-th on, that is not tried again. */
  predicate IsLast(os: seq<Outcome>, n: nat, k: nat) {
    n <= k < |os| && os[k] != Failure(true) && forall j | n <= j < k :: os[j] == Failure(true)
  }

  lemma {:induction false} OneAttempt(attempts: seq<Attempt>, n: nat, o: Outcome, decode: seq<byte> -> Decoded,
                                      encodedSize: Message -> nat, bodySize: nat)
    requires n < |attempts| && o == Outcomes(attempts, decode, encodedSize, bodySize)[n]
    ensures Complete(attempts, n, decode, encodedSize, bodySize).outcome
         == if o == Failure(true) && n + 1 < |attempts|
            then Complete(attempts, n + 1, decode, encodedSize, bodySize).outcome else o
  {
  }

  lemma {:induction false} LastIsReached(attempts: seq<Attempt>, os: seq<Outcome>, n: nat, k: nat,
                                         decode: seq<byte> -> Decoded, encodedSize: Message -> nat, bodySize: nat)
    requires os == Outcomes(attempts, decode, encodedSize, bodySize) && IsLast(os, n, k)
    ensures Complete(attempts, n, decode, encodedSize, bodySize).outcome == os[k]
    decreases k - n
  {
    OneAttempt(attempts, n, os[n], decode, encodedSize, bodySize);
    if n < k {
      LastIsReached(attempts, os, n + 1, k, decode, encodedSize, bodySize);
    }
  }

  lemma {:induction false} AllAreTried(attempts: seq<Attempt>, os: seq<Outcome>, n: nat,
                                       decode: seq<byte> -> Decoded, encodedSize: Message -> nat, bodySize: nat)
    requires os == Outcomes(attempts, decode, encodedSize, bodySize) && n < |os|
    requires forall j | n <= j < |os| :: os[j] == Failure(true)
    ensures Complete(attempts, n, decode, encodedSize, bodySize).outcome == Failure(true)
    decreases |os| - n
  {
    OneAttempt(attempts, n, os[n], decode, encodedSize, bodySize);
    if n + 1 < |os| {
      AllAreTried(attempts, os, n + 1, decode, encodedSize, bodySize);
    }
  }

  lemma {:induction false} LastExists(os: seq<Outcome>, n: nat) returns (k: nat)
    requires n < |os| && !(forall j | n <= j < |os| :: os[j] == Failure(true))
    ensures IsLast(os, n, k)
    decreases |os| - n
  {
    if os[n] == Failure(true) {
      k := LastExists(os, n + 1);
    } else {
      k := n;
    }
  }

  /** A turn succeeds exactly if some attempt does and all before it are tried again. */
  lemma {:induction false} TurnSucceedsIff(attempts: seq<Attempt>, decode: seq<byte> -> Decoded,
                                           encodedSize: Message -> nat, bodySize: nat)
    requires attempts != []
    ensures var os := Outcomes(attempts, decode, encodedSize, bodySize);
            Complete(attempts, 0, decode, encodedSize, bodySize).outcome.Success?
            <==> exists k: nat :: IsLast(os, 0, k) && os[k].Success?
  {
    var os := Outcomes(attempts, decode, encodedSize, bodySize);
    if forall j | 0 <= j < |os| :: os[j] == Failure(true) {
      AllAreTried(attempts, os, 0, decode, encodedSize, bodySize);
    } else {
      var k := LastExists(os, 0);
      LastIsReached(attempts, os, 0, k, decode, encodedSize, bodySize);
      forall l: nat | IsLast(os, 0, l) ensures l == k {
      }
    }
  }

  // ---------------------------------------------------------------------------
  // Estimates.

  predicate ReportsUsage(d: Decoded) { d.Data? && d.frame.usage.Some? }

  lemma {:induction false} LineCounts(a: Assembly, d: Decoded)
    ensures var b := Absorb(a, d).state;
            && (b.usage.Some? <==> a.usage.Some? || ReportsUsage(d))
            && (b.done <==> a.done || d.DoneMarker?)
  {
    if d.Data? && d.frame.choices != [] {
      var seen := if HasOutput(d.frame) then a.(output := true) else a;
      var counted := if d.frame.usage.Some? then seen.(usage := d.frame.usage) else seen;
      ChoiceCounts(counted, d.frame.choices[0]);
    }
  }

  lemma {:induction false} ChoiceCounts(a: Assembly, choice: Choice)
    ensures var b := AbsorbChoice(a, choice).state; b.usage == a.usage && b.done == a.done
  {
    var value := choice.content.GetOr("");
    CallsCount(a, choice.calls);
    CallsCount(a.(text := a.text + value, events := a.events + [Text(value)]), choice.calls);
  }

  lemma {:induction false} CallsCount(a: Assembly, ds: seq<CallDelta>)
    ensures var b := AbsorbCalls(a, ds).state; b.usage == a.usage && b.done == a.done
    decreases |ds|
  {
    if ds != [] && AbsorbCall(a, ds[0]).Accept? {
      CallsCount(AbsorbCall(a, ds[0]).state, ds[1..]);
    }
  }

  /** One of the first n lines completes the stream. */
  predicate Completes(lines: seq<seq<byte>>, decode: seq<byte> -> Decoded, n: nat) {
    exists j :: 0 <= j < |lines| && j < n && decode(lines[j]).DoneMarker?
  }

  /** The line is within the cap and reports a usage. */
  predicate CountsIn(line: seq<byte>, decode: seq<byte> -> Decoded) {
    |line| <= MAX_SSE_FRAME_BYTES && ReportsUsage(decode(line))
  }

  /** One of the first n lines does. */
  predicate Reports(lines: seq<seq<byte>>, decode: seq<byte> -> Decoded, n: nat) {
    exists j :: 0 <= j < |lines| && j < n && CountsIn(lines[j], decode)
  }

  lemma {:induction false} MoreLines(lines: seq<seq<byte>>, decode: seq<byte> -> Decoded, n: nat)
    requires lines != []
    ensures Completes(lines, decode, n + 1) <==> decode(lines[0]).DoneMarker? || Completes(lines[1..], decode, n)
    ensures Reports(lines, decode, n + 1) <==> CountsIn(lines[0], decode) || Reports(lines[1..], decode, n)
  {
    var rest := lines[1..];
    if j :| 0 <= j < |rest| && j < n && decode(rest[j]).DoneMarker? {
      assert lines[j + 1] == rest[j];
    }
    if j :| 0 < j < |lines| && j < n + 1 && decode(lines[j]).DoneMarker? {
      assert rest[j - 1] == lines[j];
    }
    if j :| 0 <= j < |rest| && j < n && CountsIn(rest[j], decode) {
      assert lines[j + 1] == rest[j];
    }
    if j :| 0 < j < |lines| && j < n + 1 && CountsIn(lines[j], decode) {
      assert rest[j - 1] == lines[j];
    }
  }

  /** The first n lines are taken in, and they are all lines, or the next one is refused. */
  ghost predicate Refused(lines: seq<seq<byte>>, a: Assembly, decode: seq<byte> -> Decoded, n: nat) {
    && n <= |lines| && HandleLines(lines[..n], a, Handler(decode)).Accept?
    && (n < |lines| ==> HandleLines(lines[..n + 1], a, Handler(decode)).Reject?)
  }

  /** What the lines before the refused one completed, and what they and the refused one counted. */
  lemma {:induction false} LinesCountExactly(lines: seq<seq<byte>>, a: Assembly, decode: seq<byte> -> Decoded)
    returns (n: nat)
    ensures var b := HandleLines(lines, a, Handler(decode)).state;
            && Refused(lines, a, decode, n)
            && (b.done <==> a.done || Completes(lines, decode, n))
            && (b.usage.Some? <==> a.usage.Some? || Reports(lines, decode, n + 1))
    decreases |lines|
  {
    n := 0;
    assert lines[..0] == [];
    if lines != [] {
      assert lines[..1][0] == lines[0] && lines[..1][1..] == [];
      MoreLines(lines, decode, 0);
      if |lines[0]| <= MAX_SSE_FRAME_BYTES {
        LineCounts(a, decode(lines[0]));
        if Absorb(a, decode(lines[0])).Accept? {
          n := LinesCountExactly(lines[1..], Absorb(a, decode(lines[0])).state, decode);
          MoreLines(lines, decode, n);
          MoreLines(lines, decode, n + 1);
          RefusedLater(lines, a, decode, n);
          n := n + 1;
        }
      }
    }
  }

  lemma {:induction false} RefusedLater(lines: seq<seq<byte>>, a: Assembly, decode: seq<byte> -> Decoded, n: nat)
    requires lines != [] && |lines[0]| <= MAX_SSE_FRAME_BYTES && Absorb(a, decode(lines[0])).Accept?
    requires Refused(lines[1..], Absorb(a, decode(lines[0])).state, decode, n)
    ensures Refused(lines, a, decode, n + 1)
  {
    assert lines[..n + 1][0] == lines[0] && lines[..n + 1][1..] == lines[1..][..n];
    if n < |lines| - 1 {
      assert lines[..n + 2][0] == lines[0] && lines[..n + 2][1..] == lines[1..][..n + 1];
    }
  }

  /** An estimate is a quarter of the bytes sent, and of the text streamed, rounded up. */
  predicate ReportsEstimateIff(d: Digest, estimated: bool, bodySize: nat) {
    d.reports == if estimated then [Estimated((bodySize + 3) / 4, (Bytes(d.text) + 3) / 4)] else []
  }

  /** The first n lines fit, and no more of them do. */
  ghost predicate TakenIn(lines: seq<seq<byte>>, decode: seq<byte> -> Decoded, n: nat) {
    && n <= |lines| && LinesFit(EMPTY, lines[..n], decode)
    && (n < |lines| ==> !LinesFit(EMPTY, lines[..n + 1], decode))
  }

  /**
   A failed stream reports its estimate exactly if a chunk came and it was not both completed by a line that was
   taken in and counted by such a line, or by the one that was refused.
   */
  lemma {:induction false} FailuresAreEstimatedIff(chunks: seq<seq<byte>>, ending: Ending, decode: seq<byte> -> Decoded,
                                                   encodedSize: Message -> nat, bodySize: nat)
    returns (n: nat)
    requires CompleteOnce(Streamed(chunks, ending), decode, encodedSize, bodySize).outcome.Failure?
    ensures var d := Observe(CompleteOnce(Streamed(chunks, ending), decode, encodedSize, bodySize).events);
            var lines := Lines(Flatten(chunks));
            && TakenIn(lines, decode, n)
            && ReportsEstimateIff(d, chunks != []
              && !(Completes(lines, decode, n) && Reports(lines, decode, n + 1)), bodySize)
  {
    var lines := Lines(Flatten(chunks));
    var a := EndState(chunks, ending, decode);
    n := EndCounts(lines, a, decode);
    FailedEvents(chunks, ending, decode, encodedSize, bodySize);
    EstimateIsExact(a, chunks != [], bodySize);
  }

  lemma {:induction false} EndCounts(lines: seq<seq<byte>>, a: Assembly, decode: seq<byte> -> Decoded) returns (n: nat)
    requires a == HandleLines(lines, EMPTY, Handler(decode)).state
    ensures TakenIn(lines, decode, n)
    ensures a.done && a.usage.Some? <==> Completes(lines, decode, n) && Reports(lines, decode, n + 1)
  {
    n := LinesCountExactly(lines, EMPTY, decode);
    RefusedMeans(lines, decode, n);
  }

  lemma {:induction false} RefusedMeans(lines: seq<seq<byte>>, decode: seq<byte> -> Decoded, n: nat)
    requires Refused(lines, EMPTY, decode, n)
    ensures TakenIn(lines, decode, n)
  {
    EmptyIsSound();
    LinesAcceptIff(EMPTY, lines[..n], decode);
    if n < |lines| {
      LinesAcceptIff(EMPTY, lines[..n + 1], decode);
    }
  }

  lemma {:induction false} EstimateIsExact(a: Assembly, started: bool, bodySize: nat)
    requires Tidy(a)
    ensures var d := Observe(a.events + EstimateIfUncounted(a, started, bodySize));
            ReportsEstimateIff(d, started && !(a.done && a.usage.Some?), bodySize)
  {
    var estimate := EstimateIfUncounted(a, started, bodySize);
    if estimate == [] {
      assert a.events + estimate == a.events;
    } else {
      assert estimate == [estimate[0]];
      ObserveMore(a.events, estimate[0]);
    }
  }

  /** What was assembled when the stream ended or broke. */
  function EndState(chunks: seq<seq<byte>>, ending: Ending, decode: seq<byte> -> Decoded): (a: Assembly)
    ensures Tidy(a) && a == HandleLines(Lines(Flatten(chunks)), EMPTY, Handler(decode)).state
  {
    ChunksDoNotMatter(EMPTY, chunks, Handler(decode));
    ReadingIsTidy(Flatten(chunks), decode);
    Finish(FeedAll(EMPTY, chunks, Handler(decode)), ending).state
  }

  lemma {:induction false} FailedEvents(chunks: seq<seq<byte>>, ending: Ending, decode: seq<byte> -> Decoded,
                                        encodedSize: Message -> nat, bodySize: nat)
    requires CompleteOnce(Streamed(chunks, ending), decode, encodedSize, bodySize).outcome.Failure?
    ensures var a := EndState(chunks, ending, decode);
            CompleteOnce(Streamed(chunks, ending), decode, encodedSize, bodySize).events
            == a.events + EstimateIfUncounted(a, chunks != [], bodySize)
  {
  }

  // ---------------------------------------------------------------------------
  // The order of the closing events.

  /** The message, then its calls in order, then the usage, and last the completion. */
  lemma {:induction false} ClosingInOrder(text: string, calls: seq<ToolUse>, usage: Option<Usage>)
    ensures var closing := Closing(text, calls, usage);
            var counted := if usage.Some? then 1 else 0;
            && |closing| == 1 + |calls| + counted + (if calls == [] then 1 else 0)
            && closing[0] == AssistantMessage(text, calls)
            && (forall i | 0 <= i < |calls| :: closing[1 + i] == ToolCall(calls[i]))
            && (usage.Some? ==> closing[1 + |calls|] == UsageReport(usage.value))
            && (calls == [] ==> closing[|closing| - 1] == TurnCompleted)
  {
  }

  /** A successful attempt emits its text, and then its closing events. */
  lemma {:induction false} SuccessIsClosed(attempt: Attempt, decode: seq<byte> -> Decoded, encodedSize: Message -> nat,
                                           bodySize: nat)
    returns (front: seq<Event>, usage: Option<Usage>)
    requires CompleteOnce(attempt, decode, encodedSize, bodySize).outcome.Success?
    ensures var once := CompleteOnce(attempt, decode, encodedSize, bodySize);
            var text := Observe(once.events).text;
            && once.events == front + Closing(text, Calls(once.outcome.reply), usage)
            && Observe(front) == Digest(text, [], [], 0, [])
  {
    var a := EndState(attempt.chunks, attempt.ending, decode);
    ConcludeIsFaithful(a, encodedSize);
    front, usage := a.events, a.usage;
  }
}
