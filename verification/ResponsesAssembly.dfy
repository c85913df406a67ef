/**
 What the events of an OpenAI Responses stream make of the parse state: the text with its fallbacks, and
 the function calls, which are patched by item from three kinds of events.

 An event is given by the fields that are read of it.
 */
module ResponsesAssembly {
  import opened Wrappers
  import opened Strings
  import opened Limits
  import opened Telemetry
  import opened SseFraming
  import opened ResponsesStream
  import ChatTurn

  /** A function call as an event describes it, in whole or in part. */
  datatype Item = Item(id: string, callId: Option<string>, name: Option<string>, arguments: Option<string>)

  datatype Output = CallOutput(item: Item) | MessageOutput(texts: seq<string>) | OtherOutput

  datatype Response = Response(id: Option<string>, failed: bool, usage: Option<Usage>, output: Option<seq<Output>>)

  datatype Frame =
    | ErrorFrame
    | Created(id: Option<string>)
    | TextDelta(delta: Option<string>)
    | TextDone(text: Option<string>)
    | ItemFrame(item: Option<Item>)
    | ArgumentsDelta(itemId: string, fragment: Option<string>)
    | ArgumentsDone(itemId: string, arguments: Option<string>)
    | Completed(response: Option<Response>)
    | FailedFrame
    | Unknown

  /** The accumulator of one function call. */
  datatype Call = Call(callId: string, name: string, arguments: string)

  const NO_CALL := Call("", "", "")

  datatype Parse = Parse(
    responseId: Option<string>,
    text: string,
    calls: map<string, Call>,
    usage: Option<Usage>,
    completed: bool,
    // the events emitted
    events: seq<ChatTurn.Event>)

  const START := Parse(None, "", map[], None, false, [])

  // ---------------------------------------------------------------------------
  // parse_response_event

  /** What an event does to the call of one item: arguments are replaced, or appended to. */
  datatype Patch = Patch(item: string, callId: Option<string>, name: Option<string>, replaced: Option<string>,
                         appended: Option<string>)

  function CallAt(calls: map<string, Call>, item: string): Call { if item in calls then calls[item] else NO_CALL }

  function Applied(c: Call, p: Patch): Call {
    Call(p.callId.GetOr(c.callId), p.name.GetOr(c.name), p.replaced.GetOr(c.arguments) + p.appended.GetOr(""))
  }

  function Patched(calls: map<string, Call>, p: Patch): map<string, Call> {
    calls[p.item := Applied(CallAt(calls, p.item), p)]
  }

  function PatchedAll(calls: map<string, Call>, ps: seq<Patch>): map<string, Call> {
    if ps == [] then calls else Patched(PatchedAll(calls, ps[..|ps| - 1]), ps[|ps| - 1])
  }

  function ItemPatch(i: Item): Patch { Patch(i.id, i.callId, i.name, i.arguments, None) }

  function OutputPatches(output: seq<Output>): seq<Patch> {
    if output == [] then []
    else
      var last := output[|output| - 1];
      OutputPatches(output[..|output| - 1]) + if last.CallOutput? then [ItemPatch(last.item)] else []
  }

  function OutputTexts(output: seq<Output>): seq<string> {
    if output == [] then []
    else
      var last := output[|output| - 1];
      OutputTexts(output[..|output| - 1]) + if last.MessageOutput? then last.texts else []
  }

  function WithId(s: Parse, id: Option<string>): Parse {
    if id.Some? && !Blank(id.value) then s.(responseId := id) else s
  }

  function AddText(s: Parse, value: string): (Parse, Option<string>) {
    if Bytes(s.text) + Bytes(value) > MAX_MESSAGE_BODY_BYTES
    then (s, Some("OpenAI assistant content exceeds the configured size cap"))
    else (s.(text := s.text + value, events := s.events + [ChatTurn.Text(value)]), None)
  }

  function AddTexts(s: Parse, values: seq<string>): (Parse, Option<string>) {
    if values == [] then (s, None)
    else
      var (t, error) := AddTexts(s, values[..|values| - 1]);
      if error.Some? then (t, error) else AddText(t, values[|values| - 1])
  }

  function Patching(s: Parse, p: Patch, size: nat): (Parse, Option<string>) {
    if size > MAX_COMMAND_BODY_BYTES
    then (s.(calls := Patched(s.calls, Patch(p.item, None, None, None, None))),
          Some("OpenAI function arguments exceed the configured size cap"))
    else (s.(calls := Patched(s.calls, p)), None)
  }

  /** The final event: usage, calls, and the text if none has come. */
  function Complete(s: Parse, r: Response): (Parse, Option<string>) {
    var named := WithId(s, r.id);
    if r.failed then (named, Some("OpenAI response failed"))
    else
      var counted := if r.usage.Some? then named.(usage := r.usage) else named;
      match r.output
      case None => (counted.(completed := true), None)
      case Some(output) =>
        var merged := counted.(calls := PatchedAll(counted.calls, OutputPatches(output)));
        if merged.text != "" then (merged.(completed := true), None)
        else
          var (told, error) := AddTexts(merged, OutputTexts(output));
          if error.Some? then (told, error) else (told.(completed := true), None)
  }

  function ParseEvent(s: Parse, e: Frame): (Parse, Option<string>) {
    match e
    case ErrorFrame => (s, Some("stream error"))
    case Created(id) => (WithId(s, id), None)
    case TextDelta(delta) => if delta.Some? then AddText(s, delta.value) else (s, None)
    case TextDone(text) => if s.text == "" && text.Some? then AddText(s, text.value) else (s, None)
    case ItemFrame(item) =>
      if item.Some? then (s.(calls := Patched(s.calls, ItemPatch(item.value))), None) else (s, None)
    case ArgumentsDelta(item, fragment) =>
      Patching(s, Patch(item, None, None, None, fragment),
               if fragment.Some? then Bytes(CallAt(s.calls, item).arguments) + Bytes(fragment.value) else 0)
    case ArgumentsDone(item, arguments) =>
      Patching(s, Patch(item, None, None, arguments, None), if arguments.Some? then Bytes(arguments.value) else 0)
    case Completed(response) =>
      if response.Some? then Complete(s, response.value) else (s.(completed := true), None)
    case FailedFrame => (s, Some("OpenAI response failed"))
    case Unknown => (s, None)
  }

  /** All events of a stream up to the first that is refused. */
  function ParseAll(s: Parse, es: seq<Frame>): (Parse, Option<string>) {
    if es == [] then (s, None)
    else
      var (t, error) := ParseAll(s, es[..|es| - 1]);
      if error.Some? then (t, error) else ParseEvent(t, es[|es| - 1])
  }

  predicate Accepted(s: Parse, es: seq<Frame>) { ParseAll(s, es).1.None? }

  function Parsed(s: Parse, es: seq<Frame>): Parse { ParseAll(s, es).0 }

  // ---------------------------------------------------------------------------
  // The text: what was streamed, behind a fallback if the stream began with one.

  function Concat(texts: seq<string>): string {
    if texts == [] then "" else Concat(texts[..|texts| - 1]) + texts[|texts| - 1]
  }

  /** The text an event streams. */
  function Streamed(e: Frame): string { if e.TextDelta? then e.delta.GetOr("") else "" }

  /** The text an event offers in case none has come yet. */
  function Offered(e: Frame): string {
    match e
    case TextDone(text) => text.GetOr("")
    case Completed(response) =>
      if response.Some? && response.value.output.Some? then Concat(OutputTexts(response.value.output.value)) else ""
    case _ => ""
  }

  function Deltas(es: seq<Frame>): string {
    if es == [] then "" else Deltas(es[..|es| - 1]) + Streamed(es[|es| - 1])
  }

  /** The first text offered before any was streamed. */
  function Fallback(es: seq<Frame>): string {
    if es == [] then ""
    else
      var before := es[..|es| - 1];
      if Fallback(before) != "" || Deltas(before) != "" then Fallback(before) else Offered(es[|es| - 1])
  }

  /** Text and events of `t` are those of `s` and then `text`. */
  predicate Tells(s: Parse, t: Parse, text: string) {
    && t.text == s.text + text
    && ChatTurn.Observe(t.events) == ChatTurn.Observe(s.events).(text := ChatTurn.Observe(s.events).text + text)
  }

  lemma {:induction false} AddTextTells(s: Parse, value: string)
    requires AddText(s, value).1.None?
    ensures Tells(s, AddText(s, value).0, value)
  {
    ChatTurn.ObserveMore(s.events, ChatTurn.Text(value));
  }

  lemma {:induction false} TellsOn(s: Parse, t: Parse, u: Parse, a: string, b: string)
    requires Tells(s, t, a) && Tells(t, u, b)
    ensures Tells(s, u, a + b)
  {
    ChatTurn.Joined(s.text, a, b);
    ChatTurn.Joined(ChatTurn.Observe(s.events).text, a, b);
  }

  lemma {:induction false} TellsNothing(s: Parse, t: Parse)
    requires t.text == s.text && t.events == s.events
    ensures Tells(s, t, "")
  {
    assert s.text + "" == s.text;
    assert ChatTurn.Observe(s.events).text + "" == ChatTurn.Observe(s.events).text;
  }

  lemma {:induction false} AddTextsTells(s: Parse, values: seq<string>)
    requires AddTexts(s, values).1.None?
    ensures Tells(s, AddTexts(s, values).0, Concat(values))
    ensures AddTexts(s, values).0.(text := s.text, events := s.events) == s
    decreases |values|
  {
    if values == [] {
      TellsNothing(s, s);
    } else {
      var before, last := values[..|values| - 1], values[|values| - 1];
      AddTextsTells(s, before);
      AddTextTells(AddTexts(s, before).0, last);
      TellsOn(s, AddTexts(s, before).0, AddTexts(s, values).0, Concat(before), last);
    }
  }

  /** An accepted event adds what it streams, or, to an empty text, what it offers. */
  lemma {:induction false} EventTells(s: Parse, e: Frame)
    requires ParseEvent(s, e).1.None?
    ensures Tells(s, ParseEvent(s, e).0, if s.text == "" then Streamed(e) + Offered(e) else Streamed(e))
  {
    var t := ParseEvent(s, e).0;
    match e
    case TextDelta(delta) =>
      if delta.Some? { AddTextTells(s, delta.value); } else { TellsNothing(s, t); }
      assert Streamed(e) + "" == Streamed(e);
    case TextDone(text) =>
      if s.text == "" && text.Some? { AddTextTells(s, text.value); } else { TellsNothing(s, t); }
      assert "" + Offered(e) == Offered(e);
    case Completed(response) =>
      if response.Some? {
        CompleteTells(s, response.value);
      } else {
        TellsNothing(s, t);
      }
      assert "" + Offered(e) == Offered(e);
    case _ =>
      TellsNothing(s, t);
  }

  lemma {:induction false} CompleteTells(s: Parse, r: Response)
    requires Complete(s, r).1.None?
    ensures Tells(s, Complete(s, r).0, if s.text == "" then Offered(Completed(Some(r))) else "")
  {
    var t := Complete(s, r).0;
    if s.text == "" && r.output.Some? {
      var named := WithId(s, r.id);
      var counted := if r.usage.Some? then named.(usage := r.usage) else named;
      var merged := counted.(calls := PatchedAll(counted.calls, OutputPatches(r.output.value)));
      AddTextsTells(merged, OutputTexts(r.output.value));
    } else {
      TellsNothing(s, t);
    }
  }

  /** While a stream is read, the events are the text so far and nothing else. */
  predicate Tidy(s: Parse) { ChatTurn.Observe(s.events) == ChatTurn.Digest(s.text, [], [], 0, []) }

  lemma {:induction false} AddTextTidy(s: Parse, value: string)
    requires Tidy(s)
    ensures Tidy(AddText(s, value).0)
  {
    if AddText(s, value).1.None? {
      AddTextTells(s, value);
    }
  }

  lemma {:induction false} AddTextsTidy(s: Parse, values: seq<string>)
    requires Tidy(s)
    ensures Tidy(AddTexts(s, values).0)
    decreases |values|
  {
    if values != [] {
      AddTextsTidy(s, values[..|values| - 1]);
      AddTextTidy(AddTexts(s, values[..|values| - 1]).0, values[|values| - 1]);
    }
  }

  /** Every event, refused or not, emits the text it adds. */
  lemma {:induction false} EventKeepsTidy(s: Parse, e: Frame)
    requires Tidy(s)
    ensures Tidy(ParseEvent(s, e).0)
  {
    if e.TextDelta? && e.delta.Some? {
      AddTextTidy(s, e.delta.value);
    } else if e.TextDone? && e.text.Some? {
      AddTextTidy(s, e.text.value);
    } else if e.Completed? && e.response.Some? {
      CompleteTidy(s, e.response.value);
    }
  }

  lemma {:induction false} CompleteTidy(s: Parse, r: Response)
    requires Tidy(s)
    ensures Tidy(Complete(s, r).0)
  {
    if r.output.Some? {
      var named := WithId(s, r.id);
      var counted := if r.usage.Some? then named.(usage := r.usage) else named;
      var merged := counted.(calls := PatchedAll(counted.calls, OutputPatches(r.output.value)));
      AddTextsTidy(merged, OutputTexts(r.output.value));
    }
  }

  /** The text of an accepted stream: the fallback, if the stream began with one, and all that was streamed. */
  lemma {:induction false} TextIsFallbackAndDeltas(s: Parse, es: seq<Frame>)
    requires s.text == "" && Accepted(s, es)
    ensures Parsed(s, es).text == Fallback(es) + Deltas(es)
    decreases |es|
  {
    if es != [] {
      var before, e := es[..|es| - 1], es[|es| - 1];
      assert es == before + [e];
      ParsedPush(s, before, e);
      TextIsFallbackAndDeltas(s, before);
      EventTells(Parsed(s, before), e);
      FallbackGrows(before, e, Parsed(s, before).text);
    }
  }

  lemma {:induction false} ParsedPush(s: Parse, before: seq<Frame>, e: Frame)
    requires Accepted(s, before + [e])
    ensures Accepted(s, before) && ParseEvent(Parsed(s, before), e) == (Parsed(s, before + [e]), None)
  {
    assert (before + [e])[..|before|] == before;
  }

  lemma {:induction false} FallbackGrows(before: seq<Frame>, e: Frame, text: string)
    requires text == Fallback(before) + Deltas(before)
    ensures text + (if text == "" then Streamed(e) + Offered(e) else Streamed(e))
         == Fallback(before + [e]) + Deltas(before + [e])
  {
    assert (before + [e])[..|before|] == before;
    if text == "" {
      assert Fallback(before) == "" && Deltas(before) == "";
      assert Streamed(e) == "" || Offered(e) == "";
    } else {
      ChatTurn.Joined(Fallback(before), Deltas(before), Streamed(e));
    }
  }

  /** The event offers text before any was streamed. */
  predicate OffersFirst(es: seq<Frame>, i: nat)
    requires i < |es|
  {
    Offered(es[i]) != "" && Deltas(es[..i]) == ""
  }

  lemma {:induction false} OfferFallsBack(es: seq<Frame>, i: nat)
    requires i < |es| && OffersFirst(es, i)
    ensures Fallback(es) != ""
    decreases |es|
  {
    var before := es[..|es| - 1];
    if i < |before| {
      assert before[..i] == es[..i] && before[i] == es[i];
      OfferFallsBack(before, i);
    } else {
      assert es[..i] == before;
    }
  }

  lemma {:induction false} FallbackWasOffered(es: seq<Frame>) returns (i: nat)
    requires Fallback(es) != ""
    ensures i < |es| && OffersFirst(es, i)
    decreases |es|
  {
    var before := es[..|es| - 1];
    if Fallback(before) != "" {
      i := FallbackWasOffered(before);
      assert before[..i] == es[..i];
    } else {
      i := |before|;
    }
  }

  /**
   The deltas are the whole text exactly unless some event offers text before any was streamed: then the
   offer comes first, and what is streamed later is added to it.
   */
  lemma {:induction false} DeltasAreTheTextIff(es: seq<Frame>)
    requires Accepted(START, es)
    ensures Parsed(START, es).text == Deltas(es) <==> !(exists i :: 0 <= i < |es| && OffersFirst(es, i))
  {
    TextIsFallbackAndDeltas(START, es);
    assert |Fallback(es) + Deltas(es)| == |Fallback(es)| + |Deltas(es)|;
    if Fallback(es) == "" {
      assert "" + Deltas(es) == Deltas(es);
      if i :| 0 <= i < |es| && OffersFirst(es, i) {
        OfferFallsBack(es, i);
      }
    } else {
      var i := FallbackWasOffered(es);
    }
  }

  lemma {:induction false} ParseTwo(s: Parse, a: Frame, b: Frame)
    requires ParseEvent(s, a).1.None?
    ensures ParseAll(s, [a, b]) == ParseEvent(ParseEvent(s, a).0, b)
    ensures Deltas([a, b]) == Streamed(a) + Streamed(b)
  {
    var one, two := [a], [a, b];
    assert two[..1] == one && one[..0] == [];
    assert ParseAll(s, one) == ParseEvent(s, a);
    assert Deltas(one) == "" + Streamed(a) == Streamed(a);
  }

  lemma {:induction false} AddTextFits(s: Parse, value: string)
    requires Bytes(s.text) + Bytes(value) <= MAX_MESSAGE_BODY_BYTES
    ensures AddText(s, value).1.None? && AddText(s, value).0.text == s.text + value
  {
  }

  /** For one: a delta behind a complete text is added to it. */
  lemma {:induction false} LateDeltasAreAdded(s: Parse, first: string, later: string)
    requires s.text == "" && first != "" && Bytes(first) + Bytes(later) <= MAX_MESSAGE_BODY_BYTES
    ensures var es := [TextDone(Some(first)), TextDelta(Some(later))];
            Accepted(s, es) && Deltas(es) == later && Parsed(s, es).text == first + later
  {
    var a, b := TextDone(Some(first)), TextDelta(Some(later));
    assert Bytes(s.text) == 0 && s.text + first == first;
    AddTextFits(s, first);
    var t := AddText(s, first).0;
    assert ParseEvent(s, a) == (t, None);
    AddTextFits(t, later);
    ParseTwo(s, a, b);
    assert "" + later == later;
  }

  // ---------------------------------------------------------------------------
  // The calls: each is made of the patches of its item.

  function PatchesOf(e: Frame): seq<Patch> {
    match e
    case ItemFrame(item) => if item.Some? then [ItemPatch(item.value)] else []
    case ArgumentsDelta(item, fragment) => [Patch(item, None, None, None, fragment)]
    case ArgumentsDone(item, arguments) => [Patch(item, None, None, arguments, None)]
    case Completed(response) =>
      if response.Some? && response.value.output.Some? then OutputPatches(response.value.output.value) else []
    case _ => []
  }

  function AllPatches(es: seq<Frame>): seq<Patch> {
    if es == [] then [] else AllPatches(es[..|es| - 1]) + PatchesOf(es[|es| - 1])
  }

  lemma {:induction false} PatchedConcat(calls: map<string, Call>, ps: seq<Patch>, qs: seq<Patch>)
    ensures PatchedAll(calls, ps + qs) == PatchedAll(PatchedAll(calls, ps), qs)
    decreases |qs|
  {
    if qs == [] {
      assert ps + qs == ps;
    } else {
      PatchedConcat(calls, ps, qs[..|qs| - 1]);
      assert (ps + qs)[..|ps + qs| - 1] == ps + qs[..|qs| - 1];
    }
  }

  lemma {:induction false} PatchedOne(calls: map<string, Call>, p: Patch)
    ensures PatchedAll(calls, [p]) == Patched(calls, p)
  {
    assert [p][..0] == [];
  }

  lemma {:induction false} CompletePatches(s: Parse, r: Response)
    requires Complete(s, r).1.None?
    ensures Complete(s, r).0.calls == PatchedAll(s.calls, PatchesOf(Completed(Some(r))))
  {
    if r.output.Some? {
      var named := WithId(s, r.id);
      var counted := if r.usage.Some? then named.(usage := r.usage) else named;
      var merged := counted.(calls := PatchedAll(counted.calls, OutputPatches(r.output.value)));
      if merged.text == "" {
        AddTextsTells(merged, OutputTexts(r.output.value));
      }
    }
  }

  lemma {:induction false} EventPatches(s: Parse, e: Frame)
    requires ParseEvent(s, e).1.None?
    ensures ParseEvent(s, e).0.calls == PatchedAll(s.calls, PatchesOf(e))
  {
    if |PatchesOf(e)| == 1 && !e.Completed? {
      PatchedOne(s.calls, PatchesOf(e)[0]);
    } else if e.Completed? && e.response.Some? {
      CompletePatches(s, e.response.value);
    } else if e.TextDelta? && e.delta.Some? {
      AddTextTells(s, e.delta.value);
    }
  }

  lemma {:induction false} CallsArePatched(es: seq<Frame>)
    requires Accepted(START, es)
    ensures Parsed(START, es).calls == PatchedAll(map[], AllPatches(es))
    decreases |es|
  {
    if es != [] {
      var before, e := es[..|es| - 1], es[|es| - 1];
      CallsArePatched(before);
      EventPatches(Parsed(START, before), e);
      PatchedConcat(map[], AllPatches(before), PatchesOf(e));
    }
  }

  /** The patches of one item. */
  function Own(ps: seq<Patch>, item: string): seq<Patch> {
    if ps == [] then []
    else Own(ps[..|ps| - 1], item) + if ps[|ps| - 1].item == item then [ps[|ps| - 1]] else []
  }

  /** The last call id and the last name given, and the arguments. */
  function LastId(ps: seq<Patch>): string {
    if ps == [] then "" else ps[|ps| - 1].callId.GetOr(LastId(ps[..|ps| - 1]))
  }

  function LastName(ps: seq<Patch>): string {
    if ps == [] then "" else ps[|ps| - 1].name.GetOr(LastName(ps[..|ps| - 1]))
  }

  function Arguments(ps: seq<Patch>): string {
    if ps == [] then ""
    else ps[|ps| - 1].replaced.GetOr(Arguments(ps[..|ps| - 1])) + ps[|ps| - 1].appended.GetOr("")
  }

  function Made(ps: seq<Patch>): Call { Call(LastId(ps), LastName(ps), Arguments(ps)) }

  /** A call is what its own patches make, however those of other items are interleaved with them. */
  lemma {:induction false} CallsAreTheirPatches(ps: seq<Patch>, item: string)
    ensures item in PatchedAll(map[], ps) <==> Own(ps, item) != []
    ensures CallAt(PatchedAll(map[], ps), item) == Made(Own(ps, item))
    decreases |ps|
  {
    if ps != [] {
      var before, p := ps[..|ps| - 1], ps[|ps| - 1];
      CallsAreTheirPatches(before, item);
      if p.item == item {
        MadeOneMore(Own(before, item), p);
      } else {
        assert Own(ps, item) == Own(before, item);
      }
    }
  }

  lemma {:induction false} MadeOneMore(ps: seq<Patch>, p: Patch)
    ensures Made(ps + [p]) == Applied(Made(ps), p)
  {
    assert (ps + [p])[..|ps|] == ps;
  }

  function Appendices(ps: seq<Patch>): string {
    if ps == [] then "" else Appendices(ps[..|ps| - 1]) + ps[|ps| - 1].appended.GetOr("")
  }

  /** Complete arguments win over all fragments before them; only later fragments are added. */
  lemma {:induction false} CompleteArgumentsWin(ps: seq<Patch>, p: Patch, later: seq<Patch>)
    requires p.replaced.Some? && p.appended.None? && forall i | 0 <= i < |later| :: later[i].replaced.None?
    ensures Arguments(ps + [p] + later) == p.replaced.value + Appendices(later)
    decreases |later|
  {
    var all := ps + [p] + later;
    if later == [] {
      assert all[|all| - 1] == p;
      assert p.replaced.value + "" == p.replaced.value;
    } else {
      var before := later[..|later| - 1];
      CompleteArgumentsWin(ps, p, before);
      assert all[..|all| - 1] == ps + [p] + before && all[|all| - 1] == later[|later| - 1];
      ChatTurn.Joined(p.replaced.value, Appendices(before), later[|later| - 1].appended.GetOr(""));
    }
  }

  /** Without complete arguments, the fragments are the arguments. */
  lemma {:induction false} FragmentsAddUp(ps: seq<Patch>)
    requires forall i | 0 <= i < |ps| :: ps[i].replaced.None?
    ensures Arguments(ps) == Appendices(ps)
    decreases |ps|
  {
    if ps != [] {
      FragmentsAddUp(ps[..|ps| - 1]);
    }
  }

  // ---------------------------------------------------------------------------
  // Response id, usage and completion.

  function IdOf(e: Frame): Option<string> {
    var id := match e
              case Created(id) => id
              case Completed(response) => if response.Some? then response.value.id else None
              case _ => None;
    if id.Some? && !Blank(id.value) then id else None
  }

  function UsageOf(e: Frame): Option<Usage> {
    if e.Completed? && e.response.Some? then e.response.value.usage else None
  }

  /** The last of the values that is there. */
  function Latest<T>(es: seq<Frame>, get: Frame -> Option<T>): Option<T> {
    if es == [] then None
    else if get(es[|es| - 1]).Some? then get(es[|es| - 1])
    else Latest(es[..|es| - 1], get)
  }

  lemma {:induction false} EventCounts(s: Parse, e: Frame)
    requires ParseEvent(s, e).1.None?
    ensures var t := ParseEvent(s, e).0;
            && t.responseId == (if IdOf(e).Some? then IdOf(e) else s.responseId)
            && t.usage == (if UsageOf(e).Some? then UsageOf(e) else s.usage)
            && t.completed == (s.completed || e.Completed?)
  {
    if e.Completed? && e.response.Some? && e.response.value.output.Some? {
      var r := e.response.value;
      var named := WithId(s, r.id);
      var counted := if r.usage.Some? then named.(usage := r.usage) else named;
      var merged := counted.(calls := PatchedAll(counted.calls, OutputPatches(r.output.value)));
      if merged.text == "" {
        AddTextsTells(merged, OutputTexts(r.output.value));
      }
    }
  }

  lemma {:induction false} ParsedCounts(es: seq<Frame>)
    requires Accepted(START, es)
    ensures Parsed(START, es).responseId == Latest(es, IdOf)
    ensures Parsed(START, es).usage == Latest(es, UsageOf)
    ensures Parsed(START, es).completed <==> exists i :: 0 <= i < |es| && es[i].Completed?
    decreases |es|
  {
    if es != [] {
      var before, e := es[..|es| - 1], es[|es| - 1];
      ParsedCounts(before);
      EventCounts(Parsed(START, before), e);
      assert forall i | 0 <= i < |before| :: before[i] == es[i];
    }
  }

  // ---------------------------------------------------------------------------
  // From the bytes of a stream to its events.

  function EventsOf(c: Codec<Frame>, lines: seq<seq<byte>>): seq<Frame> {
    if lines == [] then []
    else
      var line := Decode(c, lines[0]);
      (if line.Event? then [line.event] else []) + EventsOf(c, lines[1..])
  }

  /** The events of a whole stream: those of its lines, and of a last line without newline. */
  function StreamEvents(c: Codec<Frame>, bytes: seq<byte>): seq<Frame> {
    var rest := Rest(bytes);
    EventsOf(c, Lines(bytes)) + if !AllAsciiSpace(rest) && Decode(c, rest).Event? then [Decode(c, rest).event] else []
  }

  lemma {:induction false} ParseFront(s: Parse, e: Frame, es: seq<Frame>)
    requires ParseEvent(s, e).1.None?
    ensures ParseAll(s, [e] + es) == ParseAll(ParseEvent(s, e).0, es)
    decreases |es|
  {
    var all := [e] + es;
    if es == [] {
      assert all[..|all| - 1] == [] && all[|all| - 1] == e;
    } else {
      ParseFront(s, e, es[..|es| - 1]);
      assert all[..|all| - 1] == [e] + es[..|es| - 1] && all[|all| - 1] == es[|es| - 1];
    }
  }

  lemma {:induction false} LinesParse(s: Parse, c: Codec<Frame>, lines: seq<seq<byte>>)
    requires HandleLines(lines, s, LineHandler(c, ParseEvent)).Accept?
    ensures ParseAll(s, EventsOf(c, lines)) == (HandleLines(lines, s, LineHandler(c, ParseEvent)).state, None)
    decreases |lines|
  {
    if lines != [] {
      var line := Decode(c, lines[0]);
      var next := OnLine(s, line, ParseEvent);
      assert LineHandler(c, ParseEvent)(s, lines[0]) == next;
      LinesParse(next.state, c, lines[1..]);
      if line.Event? {
        ParseFront(s, line.event, EventsOf(c, lines[1..]));
      } else {
        assert EventsOf(c, lines) == EventsOf(c, lines[1..]);
      }
    }
  }

  lemma {:induction false} LineKeepsTidy(s: Parse, line: Line<Frame>)
    requires Tidy(s)
    ensures Tidy(OnLine(s, line, ParseEvent).state) && Tidy(OnTail(s, line, ParseEvent).state)
  {
    if line.Event? {
      EventKeepsTidy(s, line.event);
    }
  }

  /** However a stream ends, its events are the text so far. */
  lemma {:induction false} ReadingIsTidy(c: Codec<Frame>, chunks: seq<seq<byte>>, ending: Ending)
    ensures Tidy(ReadStream(START, chunks, ending, c, ParseEvent).state)
  {
    var bytes, f := Flatten(chunks), LineHandler(c, ParseEvent);
    forall s, line | Tidy(s) ensures Tidy(f(s, line).state) {
      LineKeepsTidy(s, Decode(c, line));
    }
    ChunksDoNotMatter(START, chunks, f);
    HandleKeeps(Lines(bytes), START, f, Tidy);
    var handled := HandleLines(Lines(bytes), START, f).state;
    LineKeepsTidy(handled, Decode(c, Rest(bytes)));
  }

  lemma {:induction false} EndParses(s: Parse, es: seq<Frame>, c: Codec<Frame>, rest: seq<byte>)
    requires ParseAll(START, es) == (s, None) && Finish(Open(rest, s), c, ParseEvent).Accept?
    ensures var last := if !AllAsciiSpace(rest) && Decode(c, rest).Event? then [Decode(c, rest).event] else [];
            ParseAll(START, es + last) == (Finish(Open(rest, s), c, ParseEvent).state, None)
  {
    if !AllAsciiSpace(rest) && Decode(c, rest).Event? {
      var e := Decode(c, rest).event;
      assert (es + [e])[..|es|] == es && (es + [e])[|es|] == e;
    } else {
      assert es + [] == es;
    }
  }

  /** A stream that is read to its end has been parsed event by event, its last line included. */
  lemma {:induction false} StreamIsParsed(c: Codec<Frame>, chunks: seq<seq<byte>>, ending: Ending)
    requires ReadStream(START, chunks, ending, c, ParseEvent).Accept?
    ensures ending == Ended
    ensures ParseAll(START, StreamEvents(c, Flatten(chunks)))
         == (ReadStream(START, chunks, ending, c, ParseEvent).state, None)
  {
    var bytes, f := Flatten(chunks), LineHandler(c, ParseEvent);
    ChunksDoNotMatter(START, chunks, f);
    var handled := HandleLines(Lines(bytes), START, f);
    assert Frames(bytes, START, f) == Open(Rest(bytes), handled.state);
    LinesParse(START, c, Lines(bytes));
    EndParses(handled.state, EventsOf(c, Lines(bytes)), c, Rest(bytes));
  }
}
