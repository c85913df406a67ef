/**
 The command loop of an OpenRouter session: which transcripts it sends to the provider, and when.
 Every command comes with the outcome the provider's turn has if the command starts one.
 */
module ChatSession {
  import opened Wrappers
  import opened Strings
  import opened Chat

  /** A turn fails, or succeeds with an assistant message or with an empty answer. */
  datatype Turn = Failed | Replied(reply: Option<Message>)

  predicate ValidTurn(t: Turn) { t.Replied? && t.reply.Some? ==> t.reply.value.Assistant? }

  type Input = i: (Command, Turn) | ValidTurn(i.1) witness (Stop, Failed)

  datatype Session = Session(
    messages: seq<Message>,
    pending: set<string>,
    completed: set<string>,
    stopped: bool,
    // history: the transcripts sent, and the number of commands answered with an error
    requests: seq<seq<Message>>,
    errors: nat)

  function LastIds(ms: seq<Message>): set<string> {
    if ms == [] then {} else Ids(ms[|ms| - 1])
  }

  function Start(messages: seq<Message>): Session {
    Session(messages, {}, ToolIds(messages), false, [], 0)
  }

  /** Send the transcript, then take in the outcome. */
  function CompleteTurn(s: Session, t: Turn): Session
    requires ValidTurn(t)
  {
    var sent := s.(requests := s.requests + [s.messages]);
    match t
    case Failed => sent.(pending := {}, errors := s.errors + 1)
    case Replied(None) => sent.(pending := LastIds(s.messages))
    case Replied(Some(reply)) => sent.(messages := s.messages + [reply], pending := Ids(reply))
  }

  /** Record the answer to a pending call. */
  function Answered(s: Session, id: string, output: string): Session {
    s.(pending := s.pending - {id}, completed := s.completed + {id}, messages := s.messages + [ToolMessage(id, output)])
  }

  function Step(s: Session, i: Input): Session {
    if s.stopped then s else
    match i.0
    case UserMessage(role, content) =>
      if s.pending != {} then s.(errors := s.errors + 1)
      else CompleteTurn(s.(messages := s.messages + [Plain(if Blank(role) then "user" else role, content)]), i.1)
    case ToolResult(id, output) =>
      if id in s.completed then s
      else if id !in s.pending then s.(errors := s.errors + 1)
      else
        var answered := Answered(s, id, output);
        if answered.pending != {} then answered else CompleteTurn(answered, i.1)
    case Stop => s.(stopped := true)
  }

  function Run(s: Session, inputs: seq<Input>): Session {
    if inputs == [] then s else Step(Run(s, inputs[..|inputs| - 1]), inputs[|inputs| - 1])
  }

  // ---------------------------------------------------------------------------
  // Answered transcripts.

  /** How many tool messages at position `from` or later carry the id. */
  function Answers(ms: seq<Message>, from: nat, id: string): nat {
    if |ms| <= from then 0
    else
      var last := ms[|ms| - 1];
      Answers(ms[..|ms| - 1], from, id) + if last.ToolMessage? && last.callId == id then 1 else 0
  }

  /** Every tool call of every assistant message is answered by exactly one later tool message. */
  ghost predicate Settled(ms: seq<Message>) {
    forall i, id | 0 <= i < |ms| && id in Ids(ms[i]) :: Answers(ms, i + 1, id) == 1
  }

  function LastAssistant(ms: seq<Message>): int
    ensures -1 <= LastAssistant(ms) < |ms|
    ensures LastAssistant(ms) >= 0 ==> ms[LastAssistant(ms)].Assistant?
    ensures forall i | LastAssistant(ms) < i < |ms| :: !ms[i].Assistant?
  {
    if ms == [] then -1
    else if ms[|ms| - 1].Assistant? then |ms| - 1
    else LastAssistant(ms[..|ms| - 1])
  }

  /** The ids of the last assistant message that no later tool message answers. */
  function Unanswered(ms: seq<Message>): set<string> {
    var last := LastAssistant(ms);
    if last < 0 then {} else set id | id in Ids(ms[last]) && Answers(ms, last + 1, id) == 0
  }

  /** Like `Settled`, except that calls of the last assistant message may still be open. */
  ghost predicate SettledButLast(ms: seq<Message>) {
    forall i, id | 0 <= i < |ms| && id in Ids(ms[i]) ::
      Answers(ms, i + 1, id) == 1 || (i == LastAssistant(ms) && Answers(ms, i + 1, id) == 0)
  }

  /** The loop invariant: `pending` is what the last assistant message still waits for. */
  ghost predicate Inv(s: Session) {
    && s.pending == Unanswered(s.messages)
    && s.completed == ToolIds(s.messages)
    && SettledButLast(s.messages)
    && forall r | r in s.requests :: Settled(r)
  }

  lemma {:induction false} AnswersPush(ms: seq<Message>, m: Message, from: nat, id: string)
    ensures Answers(ms + [m], from, id)
            == (if from <= |ms| && m.ToolMessage? && m.callId == id then 1 else 0) + Answers(ms, from, id)
  {
    assert (ms + [m])[..|ms|] == ms;
  }

  /** A tool message is counted wherever the count starts at or before it. */
  lemma {:induction false} AnsweredMeansCompleted(ms: seq<Message>, from: nat, id: string)
    ensures Answers(ms, from, id) > 0 ==> id in ToolIds(ms)
    decreases |ms|
  {
    if |ms| > from {
      AnsweredMeansCompleted(ms[..|ms| - 1], from, id);
    }
  }

  lemma {:induction false} PushIds(ms: seq<Message>, m: Message)
    ensures ToolIds(ms + [m]) == ToolIds(ms) + if m.ToolMessage? then {m.callId} else {}
    ensures LastAssistant(ms + [m]) == if m.Assistant? then |ms| else LastAssistant(ms)
  {
    assert (ms + [m])[..|ms|] == ms;
    PushToolIds(ms, m);
  }

  /** A settled transcript is one that waits for nothing. */
  lemma {:induction false} SettledIffNothingPending(ms: seq<Message>)
    requires SettledButLast(ms)
    ensures Settled(ms) <==> Unanswered(ms) == {}
  {
    var last := LastAssistant(ms);
    if last >= 0 {
      forall id | id in Ids(ms[last])
        ensures Answers(ms, last + 1, id) == 0 ==> id in Unanswered(ms)
      {
      }
    }
  }

  lemma {:induction false} PushPlain(ms: seq<Message>, m: Message)
    requires m.Plain? && SettledButLast(ms)
    ensures SettledButLast(ms + [m]) && Unanswered(ms + [m]) == Unanswered(ms) && ToolIds(ms + [m]) == ToolIds(ms)
  {
    PushIds(ms, m);
    forall from, id
      ensures Answers(ms + [m], from, id) == Answers(ms, from, id)
    {
      AnswersPush(ms, m, from, id);
    }
  }

  lemma {:induction false} PushAssistant(ms: seq<Message>, m: Message)
    requires m.Assistant? && Settled(ms)
    ensures SettledButLast(ms + [m]) && Unanswered(ms + [m]) == Ids(m) && ToolIds(ms + [m]) == ToolIds(ms)
  {
    PushIds(ms, m);
    forall from, id
      ensures Answers(ms + [m], from, id) == Answers(ms, from, id)
    {
      AnswersPush(ms, m, from, id);
    }
  }

  /** Answering an id never answered before closes it and disturbs no other call. */
  lemma {:induction false} PushAnswer(ms: seq<Message>, m: Message)
    requires m.ToolMessage? && SettledButLast(ms)
    requires m.callId in Unanswered(ms) && m.callId !in ToolIds(ms)
    ensures SettledButLast(ms + [m]) && Unanswered(ms + [m]) == Unanswered(ms) - {m.callId}
    ensures ToolIds(ms + [m]) == ToolIds(ms) + {m.callId}
  {
    PushIds(ms, m);
    var last := LastAssistant(ms);
    forall i, id | 0 <= i < |ms + [m]| && id in Ids((ms + [m])[i])
      ensures Answers(ms + [m], i + 1, id) == 1 || (i == last && Answers(ms + [m], i + 1, id) == 0)
    {
      AnswersPush(ms, m, i + 1, id);
      AnsweredMeansCompleted(ms, i + 1, id);
    }
    forall id | id in Ids(ms[last])
      ensures Answers(ms + [m], last + 1, id) == 0 <==> Answers(ms, last + 1, id) == 0 && id != m.callId
    {
      AnswersPush(ms, m, last + 1, id);
    }
  }

  lemma {:induction false} TurnKeepsInv(s: Session, t: Turn)
    requires Inv(s) && s.pending == {} && ValidTurn(t)
    requires s.messages != [] && !s.messages[|s.messages| - 1].Assistant?
    ensures Inv(CompleteTurn(s, t))
  {
    SettledIffNothingPending(s.messages);
    if t.Replied? && t.reply.Some? {
      PushAssistant(s.messages, t.reply.value);
    }
  }

  lemma {:induction false} MessageKeepsInv(s: Session, i: Input)
    requires Inv(s) && i.0.UserMessage?
    ensures Inv(Step(s, i))
  {
    if !s.stopped && s.pending == {} {
      var m := Plain(if Blank(i.0.role) then "user" else i.0.role, i.0.content);
      PushPlain(s.messages, m);
      var asked := s.(messages := s.messages + [m]);
      assert Inv(asked);
      TurnKeepsInv(asked, i.1);
    }
  }

  lemma {:induction false} AnswerKeepsInv(s: Session, id: string, output: string)
    requires Inv(s) && id !in s.completed && id in s.pending
    ensures Inv(Answered(s, id, output))
  {
    PushAnswer(s.messages, ToolMessage(id, output));
  }

  lemma {:induction false} ResultKeepsInv(s: Session, i: Input)
    requires Inv(s) && i.0.ToolResult?
    ensures Inv(Step(s, i))
  {
    var ToolResult(id, output) := i.0;
    if !s.stopped && id !in s.completed && id in s.pending {
      AnswerKeepsInv(s, id, output);
      if Answered(s, id, output).pending == {} {
        TurnKeepsInv(Answered(s, id, output), i.1);
      }
    }
  }

  lemma {:induction false} StepKeepsInv(s: Session, i: Input)
    requires Inv(s)
    ensures Inv(Step(s, i))
  {
    match i.0
    case UserMessage(_, _) => MessageKeepsInv(s, i);
    case ToolResult(_, _) => ResultKeepsInv(s, i);
    case Stop =>
  }

  /** The command starts a turn: a message when nothing is awaited, or the last awaited result. */
  predicate StartsTurn(s: Session, c: Command) {
    && !s.stopped
    && ((c.UserMessage? && s.pending == {})
        || (c.ToolResult? && c.callId !in s.completed && s.pending == {c.callId}))
  }

  /** What a command says in the conversation. */
  function Said(c: Command): Message
    requires !c.Stop?
  {
    if c.UserMessage? then Plain(if Blank(c.role) then "user" else c.role, c.content)
      else ToolMessage(c.callId, c.output)
  }

  /**
   A turn sends the conversation so far and what was said, and adds that and the reply to it; then the ids of
   the reply are awaited. Every other command sends nothing, and adds nothing but an awaited result.
   */
  lemma {:induction false} TurnsAreRecorded(s: Session, i: Input)
    ensures var t := Step(s, i);
            if StartsTurn(s, i.0) then
              var sent := s.messages + [Said(i.0)];
              && t.requests == s.requests + [sent]
              && (match i.1
                  case Failed => t.messages == sent && t.pending == {}
                  case Replied(None) => t.messages == sent && t.pending == {}
                  case Replied(Some(reply)) => t.messages == sent + [reply] && t.pending == Ids(reply))
            else
              && t.requests == s.requests
              && t.messages == s.messages + (if !s.stopped && i.0.ToolResult? && i.0.callId in s.pending - s.completed
                                             then [Said(i.0)] else [])
  {
    if i.0.ToolResult? && i.0.callId in s.pending {
      assert s.pending - {i.0.callId} == {} <==> s.pending == {i.0.callId};
    }
  }

  /**
   A command is answered with an error exactly if its turn fails, if it is a message while results are
   awaited, or if it is a result that is neither awaited nor known.
   */
  lemma {:induction false} ErrorsIff(s: Session, i: Input)
    ensures Step(s, i).errors
            == if (StartsTurn(s, i.0) && i.1 == Failed)
                  || (!s.stopped && i.0.UserMessage? && s.pending != {})
                  || (!s.stopped && i.0.ToolResult? && i.0.callId !in s.completed && i.0.callId !in s.pending)
               then s.errors + 1 else s.errors
  {
    if i.0.ToolResult? && i.0.callId in s.pending {
      assert s.pending - {i.0.callId} == {} <==> s.pending == {i.0.callId};
    }
  }

  lemma {:induction false} RunKeepsInv(s: Session, inputs: seq<Input>)
    requires Inv(s)
    ensures Inv(Run(s, inputs))
    decreases |inputs|
  {
    if inputs != [] {
      RunKeepsInv(s, inputs[..|inputs| - 1]);
      StepKeepsInv(Run(s, inputs[..|inputs| - 1]), inputs[|inputs| - 1]);
    }
  }

  /** Every transcript the loop ever sends has each tool call answered exactly once. */
  lemma {:induction false} RequestsAreSettled(initial: seq<Message>, inputs: seq<Input>, r: seq<Message>)
    requires Settled(initial)
    requires r in Run(Start(initial), inputs).requests
    ensures Settled(r)
  {
    SettledIffNothingPending(initial);
    RunKeepsInv(Start(initial), inputs);
  }

  /** What the loop waits for is what the last assistant message of its transcript waits for. */
  lemma {:induction false} PendingIsUnanswered(initial: seq<Message>, inputs: seq<Input>)
    requires Settled(initial)
    ensures Run(Start(initial), inputs).pending == Unanswered(Run(Start(initial), inputs).messages)
  {
    SettledIffNothingPending(initial);
    RunKeepsInv(Start(initial), inputs);
  }

  // ---------------------------------------------------------------------------
  // When the next request goes out.

  /** While an awaited result is missing, nothing is sent, whatever else is submitted. */
  lemma {:induction false} NothingSentWhileWaiting(s: Session, inputs: seq<Input>)
    requires !s.stopped && s.pending !! s.completed && NoStop(inputs)
    requires !(s.pending <= Submitted(inputs))
    ensures var t := Run(s, inputs);
            && t.requests == s.requests && !t.stopped
            && t.pending == s.pending - Submitted(inputs)
            && t.completed == s.completed + s.pending * Submitted(inputs)
            && t.messages == s.messages + Collected(s.pending, inputs)
    decreases |inputs|
  {
    if inputs != [] {
      var before := inputs[..|inputs| - 1];
      SubmittedLast(inputs);
      NothingSentWhileWaiting(s, before);
    }
  }

  /**
   With fresh ids, the submission that supplies the last awaited result sends exactly one request,
   and it carries the first result submitted for each id. Nothing was sent before it.
   */
  lemma {:induction false} LastResultSendsOneRequest(s: Session, inputs: seq<Input>)
    requires !s.stopped && s.pending !! s.completed && NoStop(inputs) && inputs != []
    requires !(s.pending <= Submitted(inputs[..|inputs| - 1])) && s.pending <= Submitted(inputs)
    ensures Run(s, inputs).requests == s.requests + [s.messages + Collected(s.pending, inputs)]
    ensures Run(s, inputs[..|inputs| - 1]).requests == s.requests
  {
    var before, last := inputs[..|inputs| - 1], inputs[|inputs| - 1].0;
    LastAwaited(s.pending, inputs);
    NothingSentWhileWaiting(s, before);
    var m := ToolMessage(last.callId, last.output);
    assert Collected(s.pending, inputs) == Collected(s.pending, before) + [m];
    AnswerToTheLastSends(Run(s, before), inputs[|inputs| - 1]);
    assert Run(s, before).messages + [m] == s.messages + Collected(s.pending, inputs);
  }

  lemma {:induction false} AnswerToTheLastSends(s: Session, i: Input)
    requires !s.stopped && i.0.ToolResult? && s.pending == {i.0.callId} && i.0.callId !in s.completed
    ensures Step(s, i).requests == s.requests + [s.messages + [ToolMessage(i.0.callId, i.0.output)]]
  {
    assert Answered(s, i.0.callId, i.0.output).pending == {};
  }

  ghost predicate CanRequest(s: Session) {
    exists inputs :: |Run(s, inputs).requests| > |s.requests|
  }

  lemma {:induction false} RunFront(s: Session, i: Input, rest: seq<Input>)
    ensures Run(s, [i] + rest) == Run(Step(s, i), rest)
    decreases |rest|
  {
    if rest == [] {
      assert [i] + rest == [i] && [i][..0] == [];
      assert Run(s, [i]) == Step(Run(s, []), i);
    } else {
      assert ([i] + rest)[..|[i] + rest| - 1] == [i] + rest[..|rest| - 1];
      RunFront(s, i, rest[..|rest| - 1]);
    }
  }

  lemma {:induction false} FreshCanRequest(s: Session)
    requires !s.stopped && s.pending !! s.completed
    ensures CanRequest(s)
    decreases |s.pending|
  {
    if s.pending == {} {
      var i: Input := (UserMessage("", ""), Failed);
      RunFront(s, i, []);
      assert [i] + [] == [i];
      assert |Run(s, [i]).requests| > |s.requests|;
    } else {
      var id :| id in s.pending;
      var i: Input := (ToolResult(id, ""), Failed);
      if s.pending - {id} == {} {
        RunFront(s, i, []);
        assert [i] + [] == [i];
        assert |Run(s, [i]).requests| > |s.requests|;
      } else {
        FreshCanRequest(Step(s, i));
        var rest :| |Run(Step(s, i), rest).requests| > |Step(s, i).requests|;
        RunFront(s, i, rest);
        assert |Run(s, [i] + rest).requests| > |s.requests|;
      }
    }
  }

  lemma {:induction false} WedgedForever(s: Session, inputs: seq<Input>, id: string)
    requires s.stopped || (id in s.pending && id in s.completed)
    ensures Run(s, inputs).requests == s.requests
    ensures Run(s, inputs).stopped || (id in Run(s, inputs).pending && id in Run(s, inputs).completed)
    decreases |inputs|
  {
    if inputs != [] {
      WedgedForever(s, inputs[..|inputs| - 1], id);
    }
  }

  /**
   A session can still reach the provider exactly when it runs and waits for no id it has already
   seen answered: a provider that reuses a completed call id wedges the loop for good.
   */
  lemma {:induction false} ProgressIffIdsAreFresh(s: Session)
    ensures CanRequest(s) <==> !s.stopped && s.pending !! s.completed
  {
    if !s.stopped && s.pending !! s.completed {
      FreshCanRequest(s);
    } else {
      var id := "";
      if !s.stopped {
        id :| id in s.pending && id in s.completed;
      }
      forall inputs: seq<Input>
        ensures Run(s, inputs).requests == s.requests
      {
        WedgedForever(s, inputs, id);
      }
    }
  }

  /**
   A provider wedges a real session: any settled conversation, one message whose reply asks for a tool,
   the answer, and a reply to it that asks under the same id again.
   */
  lemma {:induction false} ReusedIdWedges(initial: seq<Message>, call: ToolUse, again: ToolUse, content: string,
                                          output: string)
    returns (inputs: seq<Input>)
    requires Settled(initial) && !Blank(call.id) && again.id == call.id && call.id !in ToolIds(initial)
    ensures var s := Run(Start(initial), inputs);
            && !s.stopped && call.id in s.pending && call.id in s.completed && |s.requests| == 2
            && !CanRequest(s)
  {
    var first: Input := (UserMessage("user", content), Replied(Some(Assistant(None, [call]))));
    var second: Input := (ToolResult(call.id, output), Replied(Some(Assistant(None, [again]))));
    var none: seq<Input> := [];
    var start := Start(initial);
    assert Run(start, none) == start;
    var asked := Step(start, first);
    RunFront(start, first, none);
    assert none + [first] == [first] == [first] + none;
    assert Ids(Assistant(None, [call])) == {call.id} && Ids(Assistant(None, [again])) == {call.id};
    assert asked.pending == {call.id} && asked.completed == start.completed && |asked.requests| == 1;
    inputs := [first, second];
    assert inputs[..1] == [first] && inputs == [first] + [second];
    RunFront(start, first, [second]);
    RunFront(asked, second, none);
    assert [second] + none == [second];
    var s := Step(asked, second);
    assert Run(start, inputs) == s;
    ProgressIffIdsAreFresh(s);
  }

  // ---------------------------------------------------------------------------
  // The loop itself.

  predicate ValidTranscriptMessage(m: Message) {
    m.Assistant? || m.ToolMessage? || (m.Plain? && m.role in {"user", "assistant", "tool"})
  }

  function ValidOnly(ms: seq<Message>): seq<Message> {
    if ms == [] then []
    else ValidOnly(ms[..|ms| - 1])
         + if ValidTranscriptMessage(ms[|ms| - 1]) then [ms[|ms| - 1]] else []
  }

  /** Each message of the transcript is taken over in its place exactly if its role is known. */
  lemma {:induction false} KnownMessagesAreTakenOver(before: seq<Message>, m: Message, after: seq<Message>)
    ensures ValidOnly(before + [m] + after)
         == ValidOnly(before) + (if m.Plain? && m.role !in {"user", "assistant", "tool"} then [] else [m])
           + ValidOnly(after)
    decreases |after|
  {
    if after == [] {
      assert before + [m] + after == before + [m] && (before + [m])[..|before|] == before;
    } else {
      var all, last := before + [m] + after, |after| - 1;
      KnownMessagesAreTakenOver(before, m, after[..last]);
      assert all[..|all| - 1] == before + [m] + after[..last] && all[|all| - 1] == after[last];
    }
  }

  /** `run_session`: the commands are served in order until one of them is a stop. */
  method RunSession(instructions: string, transcript: seq<Message>, inputs: seq<Input>)
    returns (messages: seq<Message>, requests: seq<seq<Message>>, errors: nat)
    ensures var s := Run(Start([Plain("system", instructions)] + ValidOnly(transcript)), inputs);
            messages == s.messages && requests == s.requests && errors == s.errors
  {
    messages := [Plain("system", instructions)];
    for n := 0 to |transcript|
      invariant messages == [Plain("system", instructions)] + ValidOnly(transcript[..n])
    {
      assert transcript[..n + 1][..n] == transcript[..n];
      if ValidTranscriptMessage(transcript[n]) {
        messages := messages + [transcript[n]];
      }
    }
    assert transcript[..|transcript|] == transcript;
    ghost var start := Start(messages);
    var pending: set<string> := {};
    var completed := set m | m in messages && m.ToolMessage? :: m.callId;
    var stopped := false;
    requests, errors := [], 0;
    var n := 0;
    while n < |inputs|
      invariant 0 <= n <= |inputs|
      invariant Run(start, inputs[..n]) == Session(messages, pending, completed, stopped, requests, errors)
    {
      assert inputs[..n + 1][..n] == inputs[..n];
      var (command, turn) := inputs[n];
      n := n + 1;
      var completesTurn := false;
      if stopped {
      } else {
        match command
        case UserMessage(role, content) =>
          if pending != {} {
            errors := errors + 1;
          } else {
            messages := messages + [Plain(if Blank(role) then "user" else role, content)];
            completesTurn := true;
          }
        case ToolResult(id, output) =>
          if id in completed {
          } else if id !in pending {
            errors := errors + 1;
          } else {
            pending := pending - {id};
            completed := completed + {id};
            messages := messages + [ToolMessage(id, output)];
            completesTurn := pending == {};
          }
        case Stop =>
          stopped := true;
      }
      if completesTurn {
        requests := requests + [messages];
        match turn
        case Failed =>
          pending := {};
          errors := errors + 1;
        case Replied(reply) =>
          if reply.Some? {
            messages := messages + [reply.value];
          }
          pending := Ids(messages[|messages| - 1]);
      }
    }
    assert inputs[..|inputs|] == inputs;
  }
}
