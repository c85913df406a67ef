/**
 One turn against the Chat Completions endpoint: reading the event stream, assembling the assistant
 message from its deltas, the events the turn emits, and the retries around it.

 Decoding a line of the stream is a parameter.
 */
module ChatTurn {
  import opened Wrappers
  import opened Strings
  import opened Limits
  import opened Telemetry
  import opened Chat
  import opened SseFraming
  import ChatSession

  const MAX_TURN_ATTEMPTS: nat := 3

  datatype CallDelta = CallDelta(index: nat, id: Option<string>, name: Option<string>, arguments: Option<string>)
  datatype Choice = Choice(content: Option<string>, calls: seq<CallDelta>)
  datatype Frame = Frame(usage: Option<Usage>, choices: seq<Choice>)

  /** What a line of the stream decodes to. */
  datatype Decoded = NotUtf8 | NotData | DoneMarker | BadJson | ErrorFrame | Data(frame: Frame)

  /** What a turn emits; `Ready`, which names the provider's session, by a Responses turn only. */
  datatype Event =
    | Text(text: string)
    | Ready(session: string)
    | AssistantMessage(content: string, calls: seq<ToolUse>)
    | ToolCall(call: ToolUse)
    | UsageReport(usage: Usage)
    | TurnCompleted

  /** The accumulators of one attempt, and the events it has emitted. */
  datatype Assembly = Assembly(
    text: string,
    calls: map<nat, ToolUse>,
    usage: Option<Usage>,
    done: bool,
    output: bool,
    events: seq<Event>)

  const EMPTY := Assembly("", map[], None, false, false, [])

  // ---------------------------------------------------------------------------
  // parse_chunk

  /** The frame carries content or a tool call in one of its choices. */
  predicate HasOutput(frame: Frame) {
    exists i | 0 <= i < |frame.choices| ::
      (frame.choices[i].content.Some? && frame.choices[i].content.value != "") || frame.choices[i].calls != []
  }

  function Grow(sofar: string, delta: Option<string>): Option<string> {
    if delta.None? then Some(sofar)
    else if Bytes(sofar) + Bytes(delta.value) > MAX_MESSAGE_BODY_BYTES then None
    else Some(sofar + delta.value)
  }

  function AbsorbCall(a: Assembly, d: CallDelta): Verdict<Assembly> {
    var before := if d.index in a.calls then a.calls[d.index] else ToolUse("", "", "");
    if d.id.Some? && Bytes(d.id.value) > MAX_MESSAGE_BODY_BYTES then
      Reject(a.(calls := a.calls[d.index := before]), Rejected("tool call id exceeds the configured size cap"))
    else
      var named := before.(id := d.id.GetOr(before.id));
      match Grow(named.name, d.name)
      case None => Reject(a.(calls := a.calls[d.index := named]), Rejected("tool name exceeds the configured size cap"))
      case Some(name) =>
        match Grow(named.arguments, d.arguments)
        case None => Reject(a.(calls := a.calls[d.index := named.(name := name)]),
                            Rejected("tool arguments exceed the configured size cap"))
        case Some(arguments) => Accept(a.(calls := a.calls[d.index := named.(name := name, arguments := arguments)]))
  }

  function AbsorbCalls(a: Assembly, ds: seq<CallDelta>): Verdict<Assembly>
    decreases |ds|
  {
    if ds == [] then Accept(a)
    else match AbsorbCall(a, ds[0])
      case Accept(a') => AbsorbCalls(a', ds[1..])
      case Reject(a', why) => Reject(a', why)
  }

  /** The name fragments sent for stream index `i`, in order; likewise the arguments and the last id. */
  function Names(ds: seq<CallDelta>, i: nat): string {
    if ds == [] then "" else (if ds[0].index == i then ds[0].name.GetOr("") else "") + Names(ds[1..], i)
  }

  function Arguments(ds: seq<CallDelta>, i: nat): string {
    if ds == [] then "" else (if ds[0].index == i then ds[0].arguments.GetOr("") else "") + Arguments(ds[1..], i)
  }

  function LastId(ds: seq<CallDelta>, i: nat, before: string): string {
    if ds == [] then before
    else LastId(ds[1..], i, if ds[0].index == i then ds[0].id.GetOr(before) else before)
  }

  function CallAt(calls: map<nat, ToolUse>, i: nat): ToolUse {
    if i in calls then calls[i] else ToolUse("", "", "")
  }

  /** What a call becomes by fragments for its stream index. */
  function Grown(had: ToolUse, ds: seq<CallDelta>, i: nat): ToolUse {
    ToolUse(LastId(ds, i, had.id), had.name + Names(ds, i), had.arguments + Arguments(ds, i))
  }

  /** One accepted delta changes its own call only. */
  lemma {:induction false} OneFragment(a: Assembly, d: CallDelta, i: nat)
    requires AbsorbCall(a, d).Accept?
    ensures var calls, had := AbsorbCall(a, d).state.calls, CallAt(a.calls, i);
            && (i in calls <==> i in a.calls || d.index == i)
            && CallAt(calls, i) == WithDelta(had, d, i)
  {
  }

  lemma {:induction false} Joined(a: string, b: string, c: string)
    ensures (a + b) + c == a + (b + c)
  {
  }

  function WithDelta(had: ToolUse, d: CallDelta, i: nat): ToolUse {
    if d.index != i then had else
    ToolUse(d.id.GetOr(had.id), had.name + d.name.GetOr(""), had.arguments + d.arguments.GetOr(""))
  }

  lemma {:induction false} GrownFront(had: ToolUse, ds: seq<CallDelta>, i: nat)
    requires ds != []
    ensures Grown(had, ds, i) == Grown(WithDelta(had, ds[0], i), ds[1..], i)
  {
    var d, rest := ds[0], ds[1..];
    if d.index == i {
      Joined(had.name, d.name.GetOr(""), Names(rest, i));
      Joined(had.arguments, d.arguments.GetOr(""), Arguments(rest, i));
    } else {
      assert "" + Names(rest, i) == Names(rest, i) && "" + Arguments(rest, i) == Arguments(rest, i);
    }
  }

  function Indices(ds: seq<CallDelta>): set<nat> { set d | d in ds :: d.index }

  lemma {:induction false} IndicesFront(ds: seq<CallDelta>)
    requires ds != []
    ensures Indices(ds) == {ds[0].index} + Indices(ds[1..])
  {
    assert ds == [ds[0]] + ds[1..];
  }

  /** `has` is `had` with the fragments for index `i` added. */
  predicate Extended(had: map<nat, ToolUse>, has: map<nat, ToolUse>, ds: seq<CallDelta>, i: nat) {
    (i in has <==> i in had || i in Indices(ds)) && CallAt(has, i) == Grown(CallAt(had, i), ds, i)
  }

  /** Accepted deltas make up each call from its own fragments, however the calls were interleaved. */
  lemma {:induction false} CallsAreTheirFragments(a: Assembly, ds: seq<CallDelta>, i: nat)
    requires AbsorbCalls(a, ds).Accept?
    ensures Extended(a.calls, AbsorbCalls(a, ds).state.calls, ds, i)
    decreases |ds|
  {
    if ds == [] {
      assert Grown(CallAt(a.calls, i), ds, i) == CallAt(a.calls, i);
    } else {
      var next := AbsorbCall(a, ds[0]).state;
      OneFragment(a, ds[0], i);
      CallsAreTheirFragments(next, ds[1..], i);
      GrownFront(CallAt(a.calls, i), ds, i);
      IndicesFront(ds);
    }
  }

  function AbsorbChoice(a: Assembly, choice: Choice): Verdict<Assembly> {
    match choice.content
    case None => AbsorbCalls(a, choice.calls)
    case Some(value) =>
      match Grow(a.text, choice.content)
      case None => Reject(a, Rejected("assistant content exceeds the configured size cap"))
      case Some(text) => AbsorbCalls(a.(text := text, events := a.events + [Text(value)]), choice.calls)
  }

  function AbsorbFrame(a: Assembly, frame: Frame): Verdict<Assembly> {
    var counted := if frame.usage.Some? then a.(usage := frame.usage) else a;
    if frame.choices == [] then Accept(counted) else AbsorbChoice(counted, frame.choices[0])
  }

  /** What the reading loop does with one decoded line. */
  function Absorb(a: Assembly, d: Decoded): Verdict<Assembly> {
    match d
    case NotUtf8 => Reject(a, Rejected("SSE is not UTF-8"))
    case NotData => Accept(a)
    case DoneMarker => Accept(a.(done := true))
    case BadJson => Reject(a, Rejected("frame is not JSON"))
    case ErrorFrame => Reject(a, Rejected("stream error"))
    case Data(frame) => AbsorbFrame(if HasOutput(frame) then a.(output := true) else a, frame)
  }

  function Handler(decode: seq<byte> -> Decoded): (Assembly, seq<byte>) -> Verdict<Assembly> {
    (a: Assembly, line: seq<byte>) => Absorb(a, decode(line))
  }

  // ---------------------------------------------------------------------------
  // complete_turn_once

  /** How the provider answers one attempt. */
  datatype Attempt =
    | SendFailed(timeout: bool)
    | HttpError(status: nat)
    | Streamed(chunks: seq<seq<byte>>, ending: Ending)

  /** The reply is the assistant message pushed onto the transcript, if one was. */
  datatype Outcome = Success(reply: Option<Message>) | Failure(retryable: bool)

  datatype Once = Once(events: seq<Event>, outcome: Outcome)

  /** The end of the stream: a kept line, or a dropped connection, is a failure. */
  function Finish(r: Reader<Assembly>, ending: Ending): Verdict<Assembly> {
    match r
    case Broken(a, why) => Reject(a, why)
    case Open(rest, a) =>
      if ending.Dropped? then Reject(a, Transport(ending.timeout))
      else if rest != [] then Reject(a, EndedMidFrame)
      else Accept(a)
  }

  function Least(s: set<nat>): (m: nat)
    requires s != {}
    ensures m in s && forall x | x in s :: m <= x
  {
    LeastExists(s);
    var m :| m in s && forall x | x in s :: m <= x;
    m
  }

  lemma {:induction false} LeastExists(s: set<nat>)
    requires s != {}
    ensures exists m :: m in s && forall x | x in s :: m <= x
    decreases |s|
  {
    var y :| y in s;
    if s != {y} {
      assert s - {y} != {};
      LeastExists(s - {y});
      var m :| m in s - {y} && forall x | x in s - {y} :: m <= x;
      var least := if y <= m then y else m;
      assert least in s && forall x | x in s :: least <= x by {
        forall x | x in s ensures least <= x { if x != y { assert x in s - {y}; } }
      }
    }
  }

  /** The accumulated calls in the order of their stream index. */
  function InOrder(calls: map<nat, ToolUse>): seq<ToolUse>
    decreases |calls|
  {
    if calls == map[] then []
    else
      var i := Least(calls.Keys);
      assert (calls - {i}).Keys == calls.Keys - {i};
      [calls[i]] + InOrder(calls - {i})
  }

  /** The call at stream index `i` comes behind exactly the calls with a smaller index. */
  lemma {:induction false} InOrderByIndex(calls: map<nat, ToolUse>, i: nat)
    requires i in calls
    ensures |InOrder(calls)| == |calls|
    ensures var rank := |set x | x in calls && x < i|; rank < |calls| && InOrder(calls)[rank] == calls[i]
    decreases |calls|
  {
    var m := Least(calls.Keys);
    var smaller := set x | x in calls && x < i;
    var others := calls - {m};
    assert others.Keys == calls.Keys - {m};
    if others == map[] {
      assert i == m by { assert i !in others.Keys; }
      assert smaller == {};
    } else if i == m {
      assert smaller == {};
      var j :| j in others;
      InOrderByIndex(others, j);
    } else {
      InOrderByIndex(others, i);
      assert smaller == (set x | x in others && x < i) + {m};
    }
  }

  predicate Usable(call: ToolUse) { !Blank(call.id) && !Blank(call.name) }

  /** Build the assistant message and emit the closing events of a stream that was read to its end. */
  function Conclude(a: Assembly, encodedSize: Message -> nat): Verdict<(seq<Event>, Option<Message>)> {
    var calls := InOrder(a.calls);
    if exists i | 0 <= i < |calls| :: !Usable(calls[i]) then
      Reject((a.events, None), Rejected("tool call is missing an id or function name"))
    else
      var reply := Assistant(if a.text == "" then None else Some(a.text), calls);
      var pushed := a.text != "" || calls != [];
      if pushed && encodedSize(reply) > MAX_MESSAGE_BODY_BYTES then
        Reject((a.events, None), Rejected("assistant turn exceeds the configured size cap"))
      else
        Accept((a.events + Closing(a.text, calls, a.usage), if pushed then Some(reply) else None))
  }

  /** The message, its calls, the usage, and last the completion of a turn that waits for no tool. */
  function Closing(text: string, calls: seq<ToolUse>, usage: Option<Usage>): seq<Event> {
    [AssistantMessage(text, calls)] + Each(calls)
    + (if usage.Some? then [UsageReport(usage.value)] else [])
    + (if calls == [] then [TurnCompleted] else [])
  }

  function Listed(usage: Option<Usage>): seq<Usage> { if usage.Some? then [usage.value] else [] }

  function Each(calls: seq<ToolUse>): seq<Event> {
    seq(|calls|, i requires 0 <= i < |calls| => ToolCall(calls[i]))
  }

  /** A failed stream reports an estimate unless it was complete and reported its own usage. */
  function EstimateIfUncounted(a: Assembly, started: bool, bodySize: nat): seq<Event> {
    if started && (a.usage.None? || !a.done)
    then [UsageReport(Estimated((bodySize + 3) / 4, (Bytes(a.text) + 3) / 4))] else []
  }

  /** Read the stream chunk by chunk; the first chunk, even an empty one, starts it. */
  function ReadOnce(chunks: seq<seq<byte>>, ending: Ending, decode: seq<byte> -> Decoded,
                    encodedSize: Message -> nat, bodySize: nat): Once
  {
    var started := chunks != [];
    var read := Finish(FeedAll(EMPTY, chunks, Handler(decode)), ending);
    var a := read.state;
    match read
    case Reject(_, why) =>
      Once(a.events + EstimateIfUncounted(a, started, bodySize), Failure(why == Transport(true) && !a.output))
    case Accept(_) =>
      match Conclude(a, encodedSize)
      case Reject(_, _) => Once(a.events + EstimateIfUncounted(a, started, bodySize), Failure(false))
      case Accept((events, reply)) => Once(events, Success(reply))
  }

  function CompleteOnce(attempt: Attempt, decode: seq<byte> -> Decoded, encodedSize: Message -> nat,
                        bodySize: nat): Once {
    match attempt
    case SendFailed(timeout) => Once([], Failure(timeout))
    case HttpError(status) => Once([], Failure(status == 429 || 500 <= status < 600))
    case Streamed(chunks, ending) => ReadOnce(chunks, ending, decode, encodedSize, bodySize)
  }

  // ---------------------------------------------------------------------------
  // complete_turn

  /** The turn from its n-th attempt on, over the answers the provider has for each attempt. */
  function Complete(attempts: seq<Attempt>, n: nat, decode: seq<byte> -> Decoded, encodedSize: Message -> nat,
                    bodySize: nat): Once
    requires n < |attempts|
    decreases |attempts| - n
  {
    var once := CompleteOnce(attempts[n], decode, encodedSize, bodySize);
    if once.outcome == Failure(true) && n + 1 < |attempts| then
      var later := Complete(attempts, n + 1, decode, encodedSize, bodySize);
      Once(once.events + later.events, later.outcome)
    else once
  }

  // ---------------------------------------------------------------------------
  // What an observer makes of the events.

  /** Concatenated text, announced messages, requested tool calls, completions and usage reports, each in order. */
  datatype Digest = Digest(text: string, announced: seq<(string, seq<ToolUse>)>, requested: seq<ToolUse>,
                           completions: nat, reports: seq<Usage>)

  function Add(d: Digest, e: Event): Digest {
    match e
    case Text(text) => d.(text := d.text + text)
    case Ready(_) => d
    case AssistantMessage(content, calls) => d.(announced := d.announced + [(content, calls)])
    case ToolCall(call) => d.(requested := d.requested + [call])
    case UsageReport(usage) => d.(reports := d.reports + [usage])
    case TurnCompleted => d.(completions := d.completions + 1)
  }

  function Observe(events: seq<Event>): Digest {
    if events == [] then Digest("", [], [], 0, [])
    else Add(Observe(events[..|events| - 1]), events[|events| - 1])
  }

  function Join(a: Digest, b: Digest): Digest {
    Digest(a.text + b.text, a.announced + b.announced, a.requested + b.requested, a.completions
      + b.completions, a.reports + b.reports)
  }

  lemma {:induction false} JoinAdd(a: Digest, b: Digest, e: Event)
    ensures Join(a, Add(b, e)) == Add(Join(a, b), e)
  {
    match e
    case Text(text) => Joined(a.text, b.text, text);
    case _ =>
  }

  lemma {:induction false} ObserveMore(xs: seq<Event>, e: Event)
    ensures Observe(xs + [e]) == Add(Observe(xs), e)
  {
    assert (xs + [e])[..|xs|] == xs;
  }

  lemma {:induction false} JoinNothing(d: Digest)
    ensures Join(d, Digest("", [], [], 0, [])) == d
  {
  }

  lemma {:induction false} ConcatMore(xs: seq<Event>, front: seq<Event>, last: Event)
    requires Observe(xs + front) == Join(Observe(xs), Observe(front))
    ensures Observe(xs + (front + [last])) == Join(Observe(xs), Observe(front + [last]))
  {
    EventsJoined(xs, front, [last]);
    ObserveMore(xs + front, last);
    ObserveMore(front, last);
    DigestsJoin(Observe(xs), Observe(front), last, Observe(xs + front), Observe(front + [last]));
  }

  lemma {:induction false} DigestsJoin(x: Digest, f: Digest, e: Event, xf: Digest, fe: Digest)
    requires xf == Join(x, f) && fe == Add(f, e)
    ensures Add(xf, e) == Join(x, fe)
  {
    JoinAdd(x, f, e);
  }

  lemma {:induction false} ObserveConcat(xs: seq<Event>, ys: seq<Event>)
    ensures Observe(xs + ys) == Join(Observe(xs), Observe(ys))
    decreases |ys|
  {
    if ys == [] {
      assert xs + ys == xs;
      JoinNothing(Observe(xs));
    } else {
      var front, last := ys[..|ys| - 1], ys[|ys| - 1];
      assert ys == front + [last];
      ObserveConcat(xs, front);
      ConcatMore(xs, front, last);
    }
  }

  lemma {:induction false} ObserveOne(e: Event)
    ensures Observe([e]) == Add(Digest("", [], [], 0, []), e)
  {
    assert [e][..0] == [];
    assert Observe([e]) == Add(Observe([]), e);
  }

  lemma {:induction false} ObserveEach(calls: seq<ToolUse>)
    ensures Observe(Each(calls)) == Digest("", [], calls, 0, [])
    decreases |calls|
  {
    if calls != [] {
      var before := calls[..|calls| - 1];
      assert Each(calls)[..|calls| - 1] == Each(before);
      ObserveEach(before);
      assert calls == before + [calls[|calls| - 1]];
    }
  }

  /** While a stream is read, the events are the text so far and nothing else. */
  predicate Tidy(a: Assembly) {
    Observe(a.events) == Digest(a.text, [], [], 0, []) && (a.text != "" ==> a.output)
  }

  predicate SameTale(a: Assembly, b: Assembly) { b.text == a.text && b.events == a.events && b.output == a.output }

  lemma {:induction false} AbsorbCallKeeps(a: Assembly, d: CallDelta)
    ensures SameTale(a, AbsorbCall(a, d).state)
  {
  }

  lemma {:induction false} AbsorbCallsKeeps(a: Assembly, ds: seq<CallDelta>)
    ensures SameTale(a, AbsorbCalls(a, ds).state)
    decreases |ds|
  {
    if ds != [] {
      AbsorbCallKeeps(a, ds[0]);
      if AbsorbCall(a, ds[0]).Accept? {
        AbsorbCallsKeeps(AbsorbCall(a, ds[0]).state, ds[1..]);
      }
    }
  }

  lemma {:induction false} TextKeepsTidy(a: Assembly, value: string)
    requires Tidy(a) && (value != "" ==> a.output)
    ensures Tidy(a.(text := a.text + value, events := a.events + [Text(value)]))
  {
    assert (a.events + [Text(value)])[..|a.events|] == a.events;
  }

  lemma {:induction false} SameTaleIsTidy(a: Assembly, b: Assembly)
    requires Tidy(a) && SameTale(a, b)
    ensures Tidy(b)
  {
  }

  lemma {:induction false} ChoiceKeepsTidy(a: Assembly, text: string, value: string, calls: seq<CallDelta>)
    requires Tidy(a) && (value != "" ==> a.output) && text == a.text + value
    ensures Tidy(AbsorbCalls(a, calls).state)
    ensures Tidy(AbsorbCalls(a.(text := text, events := a.events + [Text(value)]), calls).state)
  {
    var b := a.(text := text, events := a.events + [Text(value)]);
    TextKeepsTidy(a, value);
    AbsorbCallsKeeps(a, calls);
    SameTaleIsTidy(a, AbsorbCalls(a, calls).state);
    AbsorbCallsKeeps(b, calls);
    SameTaleIsTidy(b, AbsorbCalls(b, calls).state);
  }

  lemma {:induction false} FrameKeepsTidy(a: Assembly, frame: Frame)
    requires Tidy(a) && (HasOutput(frame) ==> a.output)
    ensures Tidy(AbsorbFrame(a, frame).state)
  {
    var counted := if frame.usage.Some? then a.(usage := frame.usage) else a;
    SameTaleIsTidy(a, counted);
    if frame.choices != [] {
      var choice := frame.choices[0];
      var value := choice.content.GetOr("");
      assert value != "" ==> HasOutput(frame);
      ChoiceKeepsTidy(counted, counted.text + value, value, choice.calls);
    }
  }

  lemma {:induction false} AbsorbKeepsTidy(a: Assembly, d: Decoded)
    requires Tidy(a)
    ensures Tidy(Absorb(a, d).state)
  {
    if d.Data? {
      FrameKeepsTidy(if HasOutput(d.frame) then a.(output := true) else a, d.frame);
    }
  }

  lemma {:induction false} ReadingIsTidy(bytes: seq<byte>, decode: seq<byte> -> Decoded)
    ensures Tidy(Frames(bytes, EMPTY, Handler(decode)).state)
  {
    var f := Handler(decode);
    forall a, line | Tidy(a)
      ensures Tidy(f(a, line).state)
    {
      AbsorbKeepsTidy(a, decode(line));
    }
    HandleKeeps(Lines(bytes), EMPTY, f, Tidy);
  }

  /** The calls of the reply, none if there is no reply. */
  function Calls(reply: Option<Message>): seq<ToolUse> {
    if reply.Some? && reply.value.Assistant? then reply.value.calls else []
  }

  /**
   What the events of a turn say together, for every outcome. On success: one message, whose content
   is the text streamed and whose calls are the calls requested; the turn is completed, as its last
   event, exactly when there is no call. On failure: no message, no call, no completion.
   */
  predicate Faithful(o: Once) {
    var d := Observe(o.events);
    match o.outcome
    case Failure(_) => d.announced == [] && d.requested == [] && d.completions == 0
    case Success(reply) =>
      && d.announced == [(d.text, Calls(reply))]
      && d.requested == Calls(reply)
      && d.completions == (if Calls(reply) == [] then 1 else 0)
      && (Calls(reply) == [] ==> o.events != [] && o.events[|o.events| - 1] == TurnCompleted)
      && reply == (if d.text == "" && Calls(reply) == [] then None
                   else Some(Assistant(if d.text == "" then None else Some(d.text), Calls(reply))))
      && forall i | 0 <= i < |Calls(reply)| :: Usable(Calls(reply)[i])
  }

  lemma {:induction false} ObserveMessage(text: string, calls: seq<ToolUse>)
    ensures Observe([AssistantMessage(text, calls)] + Each(calls)) == Digest("", [(text, calls)], calls, 0, [])
  {
    ObserveOne(AssistantMessage(text, calls));
    ObserveEach(calls);
    ObserveConcat([AssistantMessage(text, calls)], Each(calls));
  }

  lemma {:induction false} ObserveClosing(text: string, calls: seq<ToolUse>, usage: Option<Usage>)
    ensures Observe(Closing(text, calls, usage))
            == Digest("", [(text, calls)], calls, if calls == [] then 1 else 0, Listed(usage))
  {
    var message := [AssistantMessage(text, calls)] + Each(calls);
    ObserveMessage(text, calls);
    var counted := message + (if usage.Some? then [UsageReport(usage.value)] else []);
    if usage.Some? {
      ObserveMore(message, UsageReport(usage.value));
    } else {
      assert counted == message;
    }
    assert Observe(counted) == Digest("", [(text, calls)], calls, 0, Listed(usage));
    if calls == [] {
      ObserveMore(counted, TurnCompleted);
    } else {
      assert Closing(text, calls, usage) == counted;
    }
  }

  lemma {:induction false} ConcludeIsFaithful(a: Assembly, encodedSize: Message -> nat)
    requires Tidy(a) && Conclude(a, encodedSize).Accept?
    ensures Faithful(Once(Conclude(a, encodedSize).state.0, Success(Conclude(a, encodedSize).state.1)))
    ensures Observe(Conclude(a, encodedSize).state.0)
         == Digest(a.text, [(a.text, InOrder(a.calls))], InOrder(a.calls), if a.calls == map[] then 1
           else 0, Listed(a.usage))
    ensures Calls(Conclude(a, encodedSize).state.1) == InOrder(a.calls)
  {
    var calls := InOrder(a.calls);
    var (events, reply) := Conclude(a, encodedSize).state;
    ObserveClosing(a.text, calls, a.usage);
    ObserveConcat(a.events, Closing(a.text, calls, a.usage));
    assert Observe(events) == Digest(a.text, [(a.text, calls)], calls, if calls == [] then 1 else 0, Listed(a.usage));
    assert Calls(reply) == calls;
  }

  /** Events without text, message, call or completion may come first. */
  lemma {:induction false} SilentFront(front: seq<Event>, o: Once)
    requires Observe(front).(reports := []) == Digest("", [], [], 0, []) && Faithful(o)
    ensures Faithful(o.(events := front + o.events))
  {
    ObserveConcat(front, o.events);
    assert Join(Observe(front), Observe(o.events)).(reports := []) == Observe(o.events).(reports := []);
    if o.outcome.Success? && Calls(o.outcome.reply) == [] {
      assert (front + o.events)[|front + o.events| - 1] == o.events[|o.events| - 1];
    }
  }

  lemma {:induction false} ObserveFailure(a: Assembly, started: bool, bodySize: nat)
    requires Tidy(a)
    ensures Observe(a.events + EstimateIfUncounted(a, started, bodySize)).(reports := [])
            == Digest(a.text, [], [], 0, [])
  {
    var estimate := EstimateIfUncounted(a, started, bodySize);
    ObserveConcat(a.events, estimate);
    if estimate != [] { ObserveOne(estimate[0]); }
  }

  lemma {:induction false} ReadIsFaithful(chunks: seq<seq<byte>>, ending: Ending, decode: seq<byte> -> Decoded,
                       encodedSize: Message -> nat, bodySize: nat)
    ensures var o := ReadOnce(chunks, ending, decode, encodedSize, bodySize);
            Faithful(o) && (o.outcome == Failure(true) ==> Observe(o.events).text == "")
  {
    ChunksDoNotMatter(EMPTY, chunks, Handler(decode));
    ReadingIsTidy(Flatten(chunks), decode);
    var a := Finish(FeedAll(EMPTY, chunks, Handler(decode)), ending).state;
    ObserveFailure(a, chunks != [], bodySize);
    if Conclude(a, encodedSize).Accept? {
      ConcludeIsFaithful(a, encodedSize);
    }
  }

  lemma {:induction false} OnceIsFaithful(attempt: Attempt, decode: seq<byte> -> Decoded, encodedSize: Message -> nat,
                                          bodySize: nat)
    ensures var o := CompleteOnce(attempt, decode, encodedSize, bodySize);
            Faithful(o) && (o.outcome == Failure(true) ==> Observe(o.events).text == "")
  {
    if attempt.Streamed? {
      ReadIsFaithful(attempt.chunks, attempt.ending, decode, encodedSize, bodySize);
    }
  }

  /** Over all attempts of a turn together, the events tell the story of the one reply. */
  lemma {:induction false} TurnIsFaithful(attempts: seq<Attempt>, n: nat, decode: seq<byte> -> Decoded,
                                          encodedSize: Message -> nat, bodySize: nat)
    requires n < |attempts|
    ensures Faithful(Complete(attempts, n, decode, encodedSize, bodySize))
    decreases |attempts| - n
  {
    var once := CompleteOnce(attempts[n], decode, encodedSize, bodySize);
    OnceIsFaithful(attempts[n], decode, encodedSize, bodySize);
    if once.outcome == Failure(true) && n + 1 < |attempts| {
      TurnIsFaithful(attempts, n + 1, decode, encodedSize, bodySize);
      SilentFront(once.events, Complete(attempts, n + 1, decode, encodedSize, bodySize));
    }
  }

  /** An attempt from which visible text was emitted is the last attempt. */
  lemma {:induction false} VisibleTextIsNeverRetried(attempts: seq<Attempt>, n: nat, decode: seq<byte> -> Decoded,
                                                     encodedSize: Message -> nat, bodySize: nat)
    requires n < |attempts|
    requires Observe(CompleteOnce(attempts[n], decode, encodedSize, bodySize).events).text != ""
    ensures Complete(attempts, n, decode, encodedSize, bodySize)
            == CompleteOnce(attempts[n], decode, encodedSize, bodySize)
  {
    OnceIsFaithful(attempts[n], decode, encodedSize, bodySize);
  }

  /** The bytes of a stream that is started decide about an attempt; so do they if the stream ends well. */
  lemma {:induction false} BytesDecide(a: seq<seq<byte>>, b: seq<seq<byte>>, ending: Ending,
                                       decode: seq<byte> -> Decoded, encodedSize: Message -> nat, bodySize: nat)
    requires Flatten(a) == Flatten(b) && (a == [] <==> b == [])
    ensures CompleteOnce(Streamed(a, ending), decode, encodedSize, bodySize)
            == CompleteOnce(Streamed(b, ending), decode, encodedSize, bodySize)
  {
    ChunksDoNotMatter(EMPTY, a, Handler(decode));
    ChunksDoNotMatter(EMPTY, b, Handler(decode));
  }

  lemma {:induction false} NothingRead(chunks: seq<seq<byte>>, f: (Assembly, seq<byte>) -> Verdict<Assembly>)
    requires Flatten(chunks) == []
    ensures FeedAll(EMPTY, chunks, f) == Open([], EMPTY)
  {
    ChunksDoNotMatter(EMPTY, chunks, f);
    var none: seq<byte> := [];
    assert Lines(none) == [] && Rest(none) == [];
  }

  lemma {:induction false} NothingConcluded(encodedSize: Message -> nat)
    ensures Conclude(EMPTY, encodedSize) == Accept(([AssistantMessage("", []), TurnCompleted], None))
  {
    var none: seq<ToolUse> := [];
    assert InOrder(map[]) == none && Each(none) == [];
    var closing := Closing("", none, None);
    assert closing == [AssistantMessage("", none), TurnCompleted];
    assert EMPTY.events + closing == closing;
  }

  /** A stream that ends without bytes is an empty answer. */
  lemma {:induction false} NoBytesEnded(chunks: seq<seq<byte>>, decode: seq<byte> -> Decoded,
                                        encodedSize: Message -> nat, bodySize: nat)
    requires Flatten(chunks) == []
    ensures CompleteOnce(Streamed(chunks, Ended), decode, encodedSize, bodySize)
            == Once([AssistantMessage("", []), TurnCompleted], Success(None))
  {
    NothingRead(chunks, Handler(decode));
    NothingConcluded(encodedSize);
  }

  /** A stream that is dropped without bytes reports an estimate if a chunk arrived. */
  lemma {:induction false} NoBytesDropped(chunks: seq<seq<byte>>, timeout: bool,
                                          decode: seq<byte> -> Decoded, encodedSize: Message -> nat, bodySize: nat)
    requires Flatten(chunks) == []
    ensures CompleteOnce(Streamed(chunks, Dropped(timeout)), decode, encodedSize, bodySize)
            == Once(EstimateIfUncounted(EMPTY, chunks != [], bodySize), Failure(timeout))
    ensures EstimateIfUncounted(EMPTY, chunks != [], bodySize) == [] <==> chunks == []
  {
    NothingRead(chunks, Handler(decode));
    var estimate := EstimateIfUncounted(EMPTY, chunks != [], bodySize);
    assert EMPTY.events + estimate == estimate;
  }

  /**
   The events and the outcome of an attempt depend on the bytes alone, however they were split, exactly
   unless a stream that is dropped before its first byte brought an empty chunk in one splitting and
   none in the other: the empty chunk starts the stream, and a started stream reports an estimate.
   */
  lemma {:induction false} SplitDoesNotMatterIff(a: seq<seq<byte>>, b: seq<seq<byte>>, ending: Ending,
                                                 decode: seq<byte> -> Decoded, encodedSize: Message -> nat,
                                                     bodySize: nat)
    requires Flatten(a) == Flatten(b)
    ensures CompleteOnce(Streamed(a, ending), decode, encodedSize, bodySize)
            == CompleteOnce(Streamed(b, ending), decode, encodedSize, bodySize)
            <==> (a == [] <==> b == []) || ending == Ended
  {
    if a == [] <==> b == [] {
      BytesDecide(a, b, ending, decode, encodedSize, bodySize);
    } else {
      match ending
      case Ended =>
        NoBytesEnded(a, decode, encodedSize, bodySize);
        NoBytesEnded(b, decode, encodedSize, bodySize);
      case Dropped(timeout) =>
        NoBytesDropped(a, timeout, decode, encodedSize, bodySize);
        NoBytesDropped(b, timeout, decode, encodedSize, bodySize);
    }
  }

  /** The outcome of a turn is a valid input of the session loop, and the loop waits for all of its calls. */
  lemma {:induction false} RepliesSuitTheSession(attempts: seq<Attempt>, decode: seq<byte> -> Decoded,
                                                 encodedSize: Message -> nat, bodySize: nat)
    requires attempts != []
    ensures var o := Complete(attempts, 0, decode, encodedSize, bodySize).outcome;
            o.Success? ==>
              && ChatSession.ValidTurn(ChatSession.Replied(o.reply))
              && (o.reply.Some? ==> Ids(o.reply.value) == set c | c in Calls(o.reply) :: c.id)
  {
    TurnIsFaithful(attempts, 0, decode, encodedSize, bodySize);
  }

  // ---------------------------------------------------------------------------
  // The loops.

  /** Read one attempt's stream, chunk by chunk. */
  method CompleteTurnOnce(attempt: Attempt, decode: seq<byte> -> Decoded, encodedSize: Message -> nat, bodySize: nat)
    returns (once: Once)
    ensures once == CompleteOnce(attempt, decode, encodedSize, bodySize)
  {
    match attempt
    case SendFailed(timeout) => once := Once([], Failure(timeout));
    case HttpError(status) => once := Once([], Failure(status == 429 || 500 <= status < 600));
    case Streamed(chunks, ending) =>
      var r := ReadChunks(chunks, EMPTY, Handler(decode));
      var read := Finish(r, ending);
      var a := read.state;
      var failed := Once(a.events + EstimateIfUncounted(a, chunks != [], bodySize), Failure(false));
      if read.Reject? {
        once := failed.(outcome := Failure(read.why == Transport(true) && !a.output));
      } else {
        var concluded := Conclude(a, encodedSize);
        once := if concluded.Accept? then Once(concluded.state.0, Success(concluded.state.1)) else failed;
      }
  }

  /** One attempt of a turn whose earlier attempts emitted `events`: it is the last one, or the turn goes on. */
  lemma {:induction false} AttemptMoves(attempts: seq<Attempt>, n: nat, once: Once, events: seq<Event>, whole: Once,
                                        decode: seq<byte> -> Decoded, encodedSize: Message -> nat, bodySize: nat)
    requires n < |attempts| && once == CompleteOnce(attempts[n], decode, encodedSize, bodySize)
    requires whole.outcome == Complete(attempts, n, decode, encodedSize, bodySize).outcome
    requires whole.events == events + Complete(attempts, n, decode, encodedSize, bodySize).events
    ensures if once.outcome == Failure(true) && n + 1 < |attempts|
            then var later := Complete(attempts, n + 1, decode, encodedSize, bodySize);
                 whole.outcome == later.outcome && whole.events == events + once.events + later.events
            else whole == Once(events + once.events, once.outcome)
  {
    if once.outcome == Failure(true) && n + 1 < |attempts| {
      EventsJoined(events, once.events, Complete(attempts, n + 1, decode, encodedSize, bodySize).events);
    }
  }

  lemma {:induction false} EventsJoined(a: seq<Event>, b: seq<Event>, c: seq<Event>)
    ensures (a + b) + c == a + (b + c)
  {
  }

  /** `complete_turn`: at most three attempts, each retried only after a retryable failure. */
  method CompleteTurn(attempts: seq<Attempt>, decode: seq<byte> -> Decoded, encodedSize: Message -> nat, bodySize: nat)
    returns (turn: Once, tried: nat)
    requires |attempts| == MAX_TURN_ATTEMPTS
    ensures turn == Complete(attempts, 0, decode, encodedSize, bodySize)
    ensures 1 <= tried <= MAX_TURN_ATTEMPTS
  {
    var events: seq<Event> := [];
    ghost var whole := Complete(attempts, 0, decode, encodedSize, bodySize);
    for n := 0 to MAX_TURN_ATTEMPTS
      invariant n < MAX_TURN_ATTEMPTS
      invariant whole.outcome == Complete(attempts, n, decode, encodedSize, bodySize).outcome
      invariant whole.events == events + Complete(attempts, n, decode, encodedSize, bodySize).events
    {
      var once := CompleteTurnOnce(attempts[n], decode, encodedSize, bodySize);
      AttemptMoves(attempts, n, once, events, whole, decode, encodedSize, bodySize);
      events := events + once.events;
      if once.outcome.Success? || !once.outcome.retryable || n + 1 == MAX_TURN_ATTEMPTS {
        return Once(events, once.outcome), n + 1;
      }
    }
    assert false;
  }
}
