/** Exactly when an attempt of a Responses turn succeeds, and when a failed one is tried again. */
module ResponsesSuccess {
  import opened Wrappers
  import opened Strings
  import opened Limits
  import opened SseFraming
  import opened ResponsesStream
  import opened ResponsesAssembly
  import opened ResponsesTurn
  import ChatTurn

  // ---------------------------------------------------------------------------
  // Which events are accepted.

  /** The text so far fits with what the event streams, or offers. */
  predicate TextFits(before: seq<Frame>, e: Frame) {
    Bytes(Fallback(before + [e]) + Deltas(before + [e])) <= MAX_MESSAGE_BODY_BYTES
  }

  /** A fragment fits behind the arguments its item has so far, and complete arguments fit. */
  predicate ArgumentsFit(before: seq<Frame>, e: Frame) {
    match e
    case ArgumentsDelta(item, Some(fragment)) =>
      Bytes(Arguments(Own(AllPatches(before), item))) + Bytes(fragment) <= MAX_COMMAND_BODY_BYTES
    case ArgumentsDone(_, Some(arguments)) => Bytes(arguments) <= MAX_COMMAND_BODY_BYTES
    case _ => true
  }

  /** The event reports a failure. */
  predicate IsFailure(e: Frame) {
    e.ErrorFrame? || e.FailedFrame? || (e.Completed? && e.response.Some? && e.response.value.failed)
  }

  predicate EventFits(before: seq<Frame>, e: Frame) { !IsFailure(e) && TextFits(before, e) && ArgumentsFit(before, e) }

  predicate IsBounded(s: Parse) { Bytes(s.text) <= MAX_MESSAGE_BODY_BYTES }

  lemma {:induction false} AddTextIff(s: Parse, value: string)
    requires IsBounded(s)
    ensures AddText(s, value).1.None? <==> Bytes(s.text + value) <= MAX_MESSAGE_BODY_BYTES
    ensures IsBounded(AddText(s, value).0)
  {
    BytesConcat(s.text, value);
  }

  lemma {:induction false} AddTextsIff(s: Parse, values: seq<string>)
    requires IsBounded(s)
    ensures AddTexts(s, values).1.None? <==> Bytes(s.text + Concat(values)) <= MAX_MESSAGE_BODY_BYTES
    ensures IsBounded(AddTexts(s, values).0)
    decreases |values|
  {
    if values == [] {
      assert s.text + "" == s.text;
    } else {
      var before, last := values[..|values| - 1], values[|values| - 1];
      AddTextsIff(s, before);
      AddTextIff(AddTexts(s, before).0, last);
      ChatTurn.Joined(s.text, Concat(before), last);
      BytesConcat(s.text + Concat(before), last);
      if AddTexts(s, before).1.None? {
        AddTextsTells(s, before);
      }
    }
  }

  lemma {:induction false} CompleteIff(s: Parse, r: Response)
    requires IsBounded(s)
    ensures Complete(s, r).1.None? <==>
              !r.failed && (s.text == "" && r.output.Some? ==>
                              Bytes(Concat(OutputTexts(r.output.value))) <= MAX_MESSAGE_BODY_BYTES)
    ensures IsBounded(Complete(s, r).0)
  {
    if r.output.Some? {
      var named := WithId(s, r.id);
      var counted := if r.usage.Some? then named.(usage := r.usage) else named;
      var merged := counted.(calls := PatchedAll(counted.calls, OutputPatches(r.output.value)));
      AddTextsIff(merged, OutputTexts(r.output.value));
      if s.text == "" {
        assert s.text + Concat(OutputTexts(r.output.value)) == Concat(OutputTexts(r.output.value));
      }
    }
  }

  /** What an accepted event adds to the text. */
  function Addition(s: Parse, e: Frame): string { if s.text == "" then Streamed(e) + Offered(e) else Streamed(e) }

  lemma {:induction false} DeltaIff(s: Parse, e: Frame, value: string)
    requires IsBounded(s) && e.TextDelta? && e.delta.GetOr("") == value
    ensures ParseEvent(s, e).1.None? <==> Bytes(s.text + Addition(s, e)) <= MAX_MESSAGE_BODY_BYTES
    ensures IsBounded(ParseEvent(s, e).0)
  {
    AddTextIff(s, value);
    assert s.text + "" == s.text;
    assert Addition(s, e) == value;
  }

  lemma {:induction false} DoneIff(s: Parse, e: Frame, value: string)
    requires IsBounded(s) && e.TextDone? && e.text.GetOr("") == value
    ensures ParseEvent(s, e).1.None? <==> Bytes(s.text + Addition(s, e)) <= MAX_MESSAGE_BODY_BYTES
    ensures IsBounded(ParseEvent(s, e).0)
  {
    AddTextIff(s, value);
    assert s.text + "" == s.text;
    assert Addition(s, e) == if s.text == "" then value else "";
  }

  lemma {:induction false} PlainEventIff(s: Parse, e: Frame)
    requires IsBounded(s) && !e.Completed? && !e.ArgumentsDelta? && !e.ArgumentsDone?
    ensures ParseEvent(s, e).1.None? <==> !IsFailure(e) && Bytes(s.text + Addition(s, e)) <= MAX_MESSAGE_BODY_BYTES
    ensures IsBounded(ParseEvent(s, e).0)
  {
    if e.TextDelta? {
      DeltaIff(s, e, e.delta.GetOr(""));
    } else if e.TextDone? {
      DoneIff(s, e, e.text.GetOr(""));
    } else {
      assert s.text + Addition(s, e) == s.text;
    }
  }

  lemma {:induction false} CompletedIff(s: Parse, e: Frame)
    requires IsBounded(s) && e.Completed?
    ensures ParseEvent(s, e).1.None? <==> !IsFailure(e) && Bytes(s.text + Addition(s, e)) <= MAX_MESSAGE_BODY_BYTES
    ensures IsBounded(ParseEvent(s, e).0)
  {
    assert s.text + "" == s.text;
    assert "" + Offered(e) == Offered(e);
    if e.response.Some? {
      CompleteIff(s, e.response.value);
      if s.text == "" {
        assert s.text + Offered(e) == Offered(e);
        assert Bytes("") == 0;
      }
    }
  }

  lemma {:induction false} ArgumentsIff(s: Parse, before: seq<Frame>, e: Frame)
    requires IsBounded(s) && (e.ArgumentsDelta? || e.ArgumentsDone?)
    requires s.calls == PatchedAll(map[], AllPatches(before))
    ensures ParseEvent(s, e).1.None? <==> ArgumentsFit(before, e)
    ensures IsBounded(ParseEvent(s, e).0)
  {
    var own := Own(AllPatches(before), e.itemId);
    CallsAreTheirPatches(AllPatches(before), e.itemId);
    assert CallAt(s.calls, e.itemId).arguments == Arguments(own);
  }

  lemma {:induction false} NothingAdded(s: Parse, e: Frame)
    requires e.ArgumentsDelta? || e.ArgumentsDone?
    ensures s.text + Addition(s, e) == s.text
  {
  }

  lemma {:induction false} EventAcceptIff(s: Parse, before: seq<Frame>, e: Frame)
    requires IsBounded(s) && s.text == Fallback(before) + Deltas(before)
    requires s.calls == PatchedAll(map[], AllPatches(before))
    ensures ParseEvent(s, e).1.None? <==> EventFits(before, e)
    ensures IsBounded(ParseEvent(s, e).0)
  {
    FallbackGrows(before, e, s.text);
    if e.Completed? {
      CompletedIff(s, e);
    } else if e.ArgumentsDelta? || e.ArgumentsDone? {
      ArgumentsIff(s, before, e);
      NothingAdded(s, e);
    } else {
      PlainEventIff(s, e);
    }
  }

  ghost predicate AllFit(es: seq<Frame>) { forall i | 0 <= i < |es| :: EventFits(es[..i], es[i]) }

  lemma {:induction false} AllFitPush(before: seq<Frame>, e: Frame)
    ensures AllFit(before + [e]) <==> AllFit(before) && EventFits(before, e)
  {
    var es := before + [e];
    assert es[..|before|] == before && es[|before|] == e;
    forall i | 0 <= i < |before| ensures EventFits(es[..i], es[i]) <==> EventFits(before[..i], before[i]) {
      assert es[..i] == before[..i];
    }
    if AllFit(es) {
      assert EventFits(es[..|before|], es[|before|]);
    }
  }

  /**
   A stream of events is accepted exactly if none reports a failure and, at every event, the text fits and
   the arguments of its item do.
   */
  lemma {:induction false} AcceptedIff(es: seq<Frame>)
    ensures Accepted(START, es) <==> AllFit(es)
    ensures Accepted(START, es) ==> IsBounded(Parsed(START, es))
    decreases |es|
  {
    if es == [] {
      assert Bytes("") == 0;
    } else {
      var before, e := es[..|es| - 1], es[|es| - 1];
      assert es == before + [e];
      AcceptedIff(before);
      AllFitPush(before, e);
      if Accepted(START, before) {
        TextIsFallbackAndDeltas(START, before);
        CallsArePatched(before);
        EventAcceptIff(Parsed(START, before), before, e);
      }
    }
  }

  // ---------------------------------------------------------------------------
  // Which streams are accepted.

  predicate LineFits(c: Codec<Frame>, line: seq<byte>) {
    |line| <= MAX_SSE_FRAME_BYTES && !Decode(c, line).NotUtf8? && !Decode(c, line).BadJson?
  }

  predicate LinesFit(c: Codec<Frame>, lines: seq<seq<byte>>) { forall k | 0 <= k < |lines| :: LineFits(c, lines[k]) }

  /** What may be left behind the last newline: white space, or a data line. */
  predicate RestFits(c: Codec<Frame>, rest: seq<byte>) {
    |rest| <= MAX_SSE_FRAME_BYTES && (AllAsciiSpace(rest) || Decode(c, rest).DoneMarker? || Decode(c, rest).Event?)
  }

  lemma {:induction false} ParseFrontRejects(s: Parse, e: Frame, es: seq<Frame>)
    requires ParseEvent(s, e).1.Some?
    ensures ParseAll(s, [e] + es).1.Some?
    decreases |es|
  {
    var all := [e] + es;
    if es == [] {
      assert all[..|all| - 1] == [] && all[|all| - 1] == e;
    } else {
      ParseFrontRejects(s, e, es[..|es| - 1]);
      assert all[..|all| - 1] == [e] + es[..|es| - 1];
    }
  }

  lemma {:induction false} FitFront(c: Codec<Frame>, lines: seq<seq<byte>>)
    requires lines != []
    ensures LinesFit(c, lines) <==> LineFits(c, lines[0]) && LinesFit(c, lines[1..])
  {
    assert forall k | 0 < k < |lines| :: lines[k] == lines[1..][k - 1];
  }

  lemma {:induction false} LinesAcceptIff(s: Parse, c: Codec<Frame>, lines: seq<seq<byte>>)
    ensures HandleLines(lines, s, LineHandler(c, ParseEvent)).Accept?
            <==> LinesFit(c, lines) && Accepted(s, EventsOf(c, lines))
    decreases |lines|
  {
    if lines != [] {
      var line, rest := Decode(c, lines[0]), lines[1..];
      var next := OnLine(s, line, ParseEvent);
      assert LineHandler(c, ParseEvent)(s, lines[0]) == next;
      FitFront(c, lines);
      if line.Event? {
        assert EventsOf(c, lines) == [line.event] + EventsOf(c, rest);
        if next.Accept? {
          LinesAcceptIff(next.state, c, rest);
          ParseFront(s, line.event, EventsOf(c, rest));
        } else {
          ParseFrontRejects(s, line.event, EventsOf(c, rest));
        }
      } else {
        assert EventsOf(c, lines) == EventsOf(c, rest);
        if next.Accept? {
          LinesAcceptIff(s, c, rest);
        }
      }
    }
  }

  lemma {:induction false} RestAcceptIff(s: Parse, es: seq<Frame>, c: Codec<Frame>, rest: seq<byte>)
    requires ParseAll(START, es) == (s, None) && |rest| <= MAX_SSE_FRAME_BYTES
    ensures var last := if !AllAsciiSpace(rest) && Decode(c, rest).Event? then [Decode(c, rest).event] else [];
            Finish(Open(rest, s), c, ParseEvent).Accept? <==> RestFits(c, rest) && Accepted(START, es + last)
  {
    if !AllAsciiSpace(rest) && Decode(c, rest).Event? {
      var e := Decode(c, rest).event;
      assert (es + [e])[..|es|] == es && (es + [e])[|es|] == e;
    } else {
      assert es + [] == es;
    }
  }

  lemma {:induction false} FewerAccepted(es: seq<Frame>, more: seq<Frame>)
    requires Accepted(START, es + more) && |more| <= 1
    ensures Accepted(START, es)
  {
    if more == [] {
      assert es + more == es;
    } else {
      assert (es + more)[..|es|] == es;
    }
  }

  /**
   A stream is accepted exactly if it ended, every line fits and is UTF-8 and JSON where it is data, what is
   left behind the last newline is white space or a data line, and its events are accepted.
   */
  lemma {:induction false} StreamAcceptIff(c: Codec<Frame>, chunks: seq<seq<byte>>, ending: Ending)
    ensures var bytes := Flatten(chunks);
            ReadStream(START, chunks, ending, c, ParseEvent).Accept?
            <==> ending == Ended && LinesFit(c, Lines(bytes)) && RestFits(c, Rest(bytes))
                 && Accepted(START, StreamEvents(c, bytes))
  {
    var bytes := Flatten(chunks);
    var v := HandleLines(Lines(bytes), START, LineHandler(c, ParseEvent));
    ReadMeans(c, chunks, ending, v);
    LinesAcceptIff(START, c, Lines(bytes));
    if v.Accept? {
      LinesParse(START, c, Lines(bytes));
    }
    AcceptTogether(v, EventsOf(c, Lines(bytes)), c, Rest(bytes));
  }

  lemma {:induction false} ReadMeans(c: Codec<Frame>, chunks: seq<seq<byte>>, ending: Ending, v: Verdict<Parse>)
    requires v == HandleLines(Lines(Flatten(chunks)), START, LineHandler(c, ParseEvent))
    ensures var rest := Rest(Flatten(chunks));
            ReadStream(START, chunks, ending, c, ParseEvent).Accept?
            <==> ending == Ended && v.Accept? && |rest| <= MAX_SSE_FRAME_BYTES
                 && Finish(Open(rest, v.state), c, ParseEvent).Accept?
  {
    ChunksDoNotMatter(START, chunks, LineHandler(c, ParseEvent));
  }

  lemma {:induction false} AcceptTogether(v: Verdict<Parse>, es: seq<Frame>, c: Codec<Frame>, rest: seq<byte>)
    requires v.Accept? ==> ParseAll(START, es) == (v.state, None)
    ensures var last := if !AllAsciiSpace(rest) && Decode(c, rest).Event? then [Decode(c, rest).event] else [];
            (v.Accept? && |rest| <= MAX_SSE_FRAME_BYTES && Finish(Open(rest, v.state), c, ParseEvent).Accept?)
            <==> v.Accept? && RestFits(c, rest) && Accepted(START, es + last)
    ensures var last := if !AllAsciiSpace(rest) && Decode(c, rest).Event? then [Decode(c, rest).event] else [];
            Accepted(START, es + last) ==> Accepted(START, es)
  {
    var last := if !AllAsciiSpace(rest) && Decode(c, rest).Event? then [Decode(c, rest).event] else [];
    if Accepted(START, es + last) {
      FewerAccepted(es, last);
    }
    if v.Accept? && |rest| <= MAX_SSE_FRAME_BYTES {
      RestAcceptIff(v.state, es, c, rest);
    }
  }

  // ---------------------------------------------------------------------------
  // Which attempts succeed.

  predicate ItemUsable(own: seq<Patch>, isJson: string -> bool) {
    isJson(Made(own).arguments) && !Blank(Made(own).name)
  }

  /** Every item that an event touched makes a call with a name and JSON arguments. */
  ghost predicate ItemsUsable(ps: seq<Patch>, isJson: string -> bool) {
    forall item | Own(ps, item) != [] :: ItemUsable(Own(ps, item), isJson)
  }

  predicate HasId(es: seq<Frame>) { exists i | 0 <= i < |es| :: IdOf(es[i]).Some? }
  predicate HasCompletion(es: seq<Frame>) { exists i | 0 <= i < |es| :: es[i].Completed? }

  /** A stream that makes a turn: accepted, with a response id, completed, and with usable calls. */
  ghost predicate MakesATurn(c: Codec<Frame>, chunks: seq<seq<byte>>, ending: Ending, isJson: string -> bool) {
    var bytes := Flatten(chunks);
    var es := StreamEvents(c, bytes);
    && ending == Ended && LinesFit(c, Lines(bytes)) && RestFits(c, Rest(bytes)) && AllFit(es)
    && HasId(es) && HasCompletion(es) && ItemsUsable(AllPatches(es), isJson)
  }

  lemma {:induction false} LatestIff(es: seq<Frame>)
    ensures Latest(es, IdOf).Some? <==> HasId(es)
    decreases |es|
  {
    if es != [] {
      var before := es[..|es| - 1];
      LatestIff(before);
      assert forall i | 0 <= i < |before| :: before[i] == es[i];
    }
  }

  lemma {:induction false} UsableItem(ps: seq<Patch>, calls: map<string, Call>, item: string, isJson: string -> bool)
    requires calls == PatchedAll(map[], ps)
    ensures item in calls <==> Own(ps, item) != []
    ensures item in calls ==> (Usable(calls[item], isJson) <==> ItemUsable(Own(ps, item), isJson))
  {
    CallsAreTheirPatches(ps, item);
  }

  lemma {:induction false} UsableIff(ps: seq<Patch>, calls: map<string, Call>, isJson: string -> bool)
    requires calls == PatchedAll(map[], ps)
    ensures !(exists item | item in calls :: !Usable(calls[item], isJson)) <==> ItemsUsable(ps, isJson)
  {
    if item :| item in calls && !Usable(calls[item], isJson) {
      UsableItem(ps, calls, item, isJson);
    }
    if item :| Own(ps, item) != [] && !ItemUsable(Own(ps, item), isJson) {
      UsableItem(ps, calls, item, isJson);
    }
  }

  lemma {:induction false} ConcludeIff(s: Parse, es: seq<Frame>, visit: Visit, isJson: string -> bool)
    requires ParseAll(START, es) == (s, None)
    ensures Conclude(s, visit, isJson).outcome.Turned?
            <==> HasId(es) && HasCompletion(es) && ItemsUsable(AllPatches(es), isJson)
  {
    ParsedCounts(es);
    LatestIff(es);
    CallsArePatched(es);
    UsableIff(AllPatches(es), s.calls, isJson);
  }

  lemma {:induction false} StreamSucceedsIff(c: Codec<Frame>, chunks: seq<seq<byte>>, ending: Ending, visit: Visit,
                                             isJson: string -> bool, v: Verdict<Parse>)
    requires v == ReadStream(START, chunks, ending, c, ParseEvent)
    ensures v.Accept? && Conclude(v.state, visit, isJson).outcome.Turned? <==> MakesATurn(c, chunks, ending, isJson)
  {
    var es := StreamEvents(c, Flatten(chunks));
    StreamAcceptIff(c, chunks, ending);
    AcceptedIff(es);
    if v.Accept? {
      StreamIsParsed(c, chunks, ending);
      ConcludeIff(v.state, es, visit, isJson);
    }
  }

  /** An attempt succeeds exactly if its stream makes a turn. */
  lemma {:induction false} AttemptSucceedsIff(attempt: ChatTurn.Attempt, c: Codec<Frame>, visit: Visit,
                                              isJson: string -> bool)
    ensures CompleteOnce(attempt, c, visit, isJson).outcome.Turned?
            <==> attempt.Streamed? && MakesATurn(c, attempt.chunks, attempt.ending, isJson)
  {
    if attempt.Streamed? {
      var v := ReadStream(START, attempt.chunks, attempt.ending, c, ParseEvent);
      StreamSucceedsIff(c, attempt.chunks, attempt.ending, visit, isJson, v);
    }
  }

  /** A failed attempt is tried again exactly if its request timed out, or the provider was overloaded or broken. */
  lemma {:induction false} RetryableIff(attempt: ChatTurn.Attempt, c: Codec<Frame>, visit: Visit,
                                        isJson: string -> bool)
    ensures CompleteOnce(attempt, c, visit, isJson).outcome == Failed(true)
            <==> match attempt
                 case SendFailed(timeout) => timeout
                 case HttpError(status) => status == 429 || 500 <= status < 600
                 case Streamed(_, _) => false
  {
  }

  /** A turn is its first attempt that is not tried again, or the last one; all before it are tried again. */
  lemma {:induction false} OneAttemptDecides(attempts: seq<ChatTurn.Attempt>, n: nat, c: Codec<Frame>, visit: Visit,
                                             isJson: string -> bool)
    returns (k: nat)
    requires n < |attempts|
    ensures n <= k < |attempts|
            && CompleteFrom(attempts, n, c, visit, isJson) == CompleteOnce(attempts[k], c, visit, isJson)
    ensures CompleteOnce(attempts[k], c, visit, isJson).outcome == Failed(true) ==> k == |attempts| - 1
    ensures forall j | n <= j < k :: CompleteOnce(attempts[j], c, visit, isJson).outcome == Failed(true)
    decreases |attempts| - n
  {
    if CompleteOnce(attempts[n], c, visit, isJson).outcome == Failed(true) && n + 1 < |attempts| {
      k := OneAttemptDecides(attempts, n + 1, c, visit, isJson);
    } else {
      k := n;
    }
  }
}
