/**
 The command loop of an OpenAI Responses session. The provider keeps the conversation, so a request
 carries only what is new: messages, or the outputs of the tool calls of the last turn.

 A function-call output is a `ToolMessage`; every other input item is some other message.
 */
module ResponsesSession {
  import opened Wrappers
  import opened Strings
  import opened Chat

  datatype Turn = Failed | Completed(responseId: string, callIds: seq<string>)

  type Input = (Command, Turn)

  datatype Request = Request(previous: Option<string>, input: seq<Message>)

  datatype Session = Session(
    previous: Option<string>,
    initial: seq<Message>,
    pending: set<string>,
    queued: seq<Message>,
    stopped: bool,
    // history: requests sent, errors reported, and the call ids of the last successful turn
    requests: seq<Request>,
    errors: nat,
    lastCalls: set<string>)

  function Start(previous: Option<string>, transcript: seq<Message>): Session {
    Session(previous, transcript, {}, [], false, [], 0, {})
  }

  function CallIds(t: Turn): set<string>
    requires t.Completed?
  {
    set c | c in t.callIds
  }

  /** Send the input, and on success chain to the response and wait for its calls. */
  function Complete(s: Session, input: seq<Message>, t: Turn): Session {
    var sent := s.(requests := s.requests + [Request(s.previous, input)]);
    match t
    case Failed => sent.(errors := s.errors + 1)
    case Completed(id, _) => sent.(previous := Some(id), pending := CallIds(t), lastCalls := CallIds(t))
  }

  function MessageOf(role: string, content: string): Message {
    Plain(if Blank(role) then "user" else role, content)
  }

  /** The conversation is carried along only while the provider knows none of it. */
  function WithMessage(s: Session, m: Message): seq<Message> {
    if s.previous.None? && s.initial != [] then s.initial + [m] else [m]
  }

  function Step(s: Session, i: Input): Session {
    if s.stopped then s else
    match i.0
    case UserMessage(role, content) =>
      if s.pending != {} then s.(errors := s.errors + 1)
      else
        var input := WithMessage(s, MessageOf(role, content));
        var done := Complete(s.(initial := input), input, i.1);
        if i.1.Completed? then done.(initial := []) else done
    case ToolResult(id, output) =>
      if id !in s.pending then s.(errors := s.errors + 1)
      else
        var answered := s.(pending := s.pending - {id}, queued := s.queued + [ToolMessage(id, output)]);
        if answered.pending != {} then answered
        else Complete(answered.(queued := []), answered.queued, i.1)
    case Stop => s.(stopped := true)
  }

  function Run(s: Session, inputs: seq<Input>): Session {
    if inputs == [] then s else Step(Run(s, inputs[..|inputs| - 1]), inputs[|inputs| - 1])
  }

  // ---------------------------------------------------------------------------
  // Batches of outputs.

  predicate OnlyOutputs(ms: seq<Message>) { forall i | 0 <= i < |ms| :: ms[i].ToolMessage? }

  /** One output for each id of the set, and nothing else. */
  predicate OneOutputEach(ms: seq<Message>, ids: set<string>) {
    OnlyOutputs(ms) && ToolIds(ms) == ids && |ms| == |ids|
  }

  /** Queued and pending ids are apart, and together they are the calls. */
  predicate Batch(pending: set<string>, queued: seq<Message>, calls: set<string>) {
    && ToolIds(queued) !! pending
    && ToolIds(queued) + pending == calls
    && OneOutputEach(queued, calls - pending)
  }

  /** While calls are pending, they and the queued outputs are the calls of the last turn. */
  predicate Inv(s: Session) {
    if s.pending == {} then s.queued == [] else Batch(s.pending, s.queued, s.lastCalls)
  }

  lemma {:induction false} AnswerQueues(pending: set<string>, queued: seq<Message>, calls: set<string>, id: string,
                                        output: string)
    requires Batch(pending, queued, calls) && id in pending
    ensures Batch(pending - {id}, queued + [ToolMessage(id, output)], calls)
  {
    PushToolIds(queued, ToolMessage(id, output));
    assert ToolIds(queued + [ToolMessage(id, output)]) == ToolIds(queued) + {id};
    assert calls - (pending - {id}) == (calls - pending) + {id};
  }

  /** The moment nothing is pending, the queue holds one output for each call. */
  lemma {:induction false} BatchIsFull(queued: seq<Message>, calls: set<string>)
    requires Batch({}, queued, calls)
    ensures OneOutputEach(queued, calls)
  {
    assert calls - {} == calls;
  }

  lemma {:induction false} NewBatch(calls: set<string>)
    ensures Batch(calls, [], calls)
  {
    assert calls - calls == {};
  }

  lemma {:induction false} CompleteKeepsInv(s: Session, input: seq<Message>, t: Turn)
    requires s.pending == {} && s.queued == []
    ensures Inv(Complete(s, input, t))
  {
    if t.Completed? {
      NewBatch(CallIds(t));
    }
  }

  lemma {:induction false} MessageKeepsInv(s: Session, i: Input)
    requires Inv(s) && !s.stopped && i.0.UserMessage?
    ensures Inv(Step(s, i))
  {
    if s.pending == {} {
      var input := WithMessage(s, MessageOf(i.0.role, i.0.content));
      CompleteKeepsInv(s.(initial := input), input, i.1);
    }
  }

  lemma {:induction false} ResultKeepsInv(s: Session, i: Input)
    requires Inv(s) && !s.stopped && i.0.ToolResult?
    ensures Inv(Step(s, i))
  {
    var id := i.0.callId;
    if id in s.pending {
      var queued := s.queued + [ToolMessage(id, i.0.output)];
      if s.pending - {id} == {} {
        CompleteKeepsInv(s.(pending := s.pending - {id}, queued := []), queued, i.1);
      } else {
        AnswerQueues(s.pending, s.queued, s.lastCalls, id, i.0.output);
      }
    }
  }

  lemma {:induction false} StepKeepsInv(s: Session, i: Input)
    requires Inv(s)
    ensures Inv(Step(s, i))
  {
    if !s.stopped && i.0.UserMessage? {
      MessageKeepsInv(s, i);
    } else if !s.stopped && i.0.ToolResult? {
      ResultKeepsInv(s, i);
    }
  }

  lemma {:induction false} RunKeepsInv(previous: Option<string>, transcript: seq<Message>, inputs: seq<Input>)
    ensures Inv(Run(Start(previous, transcript), inputs))
    decreases |inputs|
  {
    if inputs != [] {
      RunKeepsInv(previous, transcript, inputs[..|inputs| - 1]);
      StepKeepsInv(Run(Start(previous, transcript), inputs[..|inputs| - 1]), inputs[|inputs| - 1]);
    }
  }

  /** In every run: a result that completes a batch sends exactly one output per call of the last turn. */
  lemma {:induction false} BatchesAreComplete(previous: Option<string>, transcript: seq<Message>, inputs: seq<Input>,
                                              i: Input)
    requires var s := Run(Start(previous, transcript), inputs);
             i.0.ToolResult? && Step(s, i).requests != s.requests
    ensures var s := Run(Start(previous, transcript), inputs);
            && |Step(s, i).requests| == |s.requests| + 1
            && var r := Step(s, i).requests[|s.requests|];
               r.previous == s.previous && OneOutputEach(r.input, s.lastCalls)
  {
    RunKeepsInv(previous, transcript, inputs);
    var s := Run(Start(previous, transcript), inputs);
    AnswerQueues(s.pending, s.queued, s.lastCalls, i.0.callId, i.0.output);
    BatchIsFull(s.queued + [ToolMessage(i.0.callId, i.0.output)], s.lastCalls);
  }

  // ---------------------------------------------------------------------------
  // When requests go out.

  /** While an awaited output is missing, nothing is sent. */
  lemma {:induction false} NothingSentWhileWaiting(s: Session, inputs: seq<Input>)
    requires !s.stopped && NoStop(inputs) && !(s.pending <= Submitted(inputs))
    ensures var t := Run(s, inputs);
            && t.requests == s.requests && t.previous == s.previous && !t.stopped
            && t.pending == s.pending - Submitted(inputs)
            && t.queued == s.queued + Collected(s.pending, inputs)
    decreases |inputs|
  {
    if inputs != [] {
      SubmittedLast(inputs);
      NothingSentWhileWaiting(s, inputs[..|inputs| - 1]);
    }
  }

  lemma {:induction false} AnswerToTheLastSends(s: Session, i: Input)
    requires !s.stopped && i.0.ToolResult? && s.pending == {i.0.callId}
    ensures Step(s, i).requests
            == s.requests + [Request(s.previous, s.queued + [ToolMessage(i.0.callId, i.0.output)])]
  {
    assert s.pending - {i.0.callId} == {};
  }

  /**
   The submission that supplies the last awaited output sends one request with the first output
   submitted for each id. Unlike the chat loop, this asks nothing of the ids: a reused id is served again.
   */
  lemma {:induction false} LastOutputSendsTheBatch(s: Session, inputs: seq<Input>)
    requires !s.stopped && NoStop(inputs) && inputs != []
    requires !(s.pending <= Submitted(inputs[..|inputs| - 1])) && s.pending <= Submitted(inputs)
    ensures Run(s, inputs).requests == s.requests + [Request(s.previous, s.queued + Collected(s.pending, inputs))]
    ensures Run(s, inputs[..|inputs| - 1]).requests == s.requests
  {
    var before, last := inputs[..|inputs| - 1], inputs[|inputs| - 1].0;
    LastAwaited(s.pending, inputs);
    NothingSentWhileWaiting(s, before);
    var m := ToolMessage(last.callId, last.output);
    assert Collected(s.pending, inputs) == Collected(s.pending, before) + [m];
    AnswerToTheLastSends(Run(s, before), inputs[|inputs| - 1]);
    assert Run(s, before).queued + [m] == s.queued + Collected(s.pending, inputs);
  }

  ghost predicate CanRequest(s: Session) {
    exists inputs :: |Run(s, inputs).requests| > |s.requests|
  }

  lemma {:induction false} RunFront(s: Session, i: Input, rest: seq<Input>)
    ensures Run(s, [i] + rest) == Run(Step(s, i), rest)
    decreases |rest|
  {
    if rest == [] {
      assert [i] + rest == [i] && [i][..0] == [];
      assert Run(s, [i]) == Step(Run(s, []), i);
    } else {
      assert ([i] + rest)[..|[i] + rest| - 1] == [i] + rest[..|rest| - 1];
      RunFront(s, i, rest[..|rest| - 1]);
    }
  }

  lemma {:induction false} StoppedIsSilent(s: Session, inputs: seq<Input>)
    requires s.stopped
    ensures Run(s, inputs) == s
    decreases |inputs|
  {
    if inputs != [] {
      StoppedIsSilent(s, inputs[..|inputs| - 1]);
    }
  }

  lemma {:induction false} RunningCanRequest(s: Session)
    requires !s.stopped
    ensures CanRequest(s)
    decreases |s.pending|
  {
    var i: Input := (UserMessage("", ""), Failed);
    var rest: seq<Input> := [];
    if s.pending != {} {
      var id :| id in s.pending;
      i := (ToolResult(id, ""), Failed);
      if s.pending - {id} != {} {
        RunningCanRequest(Step(s, i));
        rest :| |Run(Step(s, i), rest).requests| > |Step(s, i).requests|;
      }
    }
    RunFront(s, i, rest);
    assert |Run(s, [i] + rest).requests| > |s.requests|;
  }

  /** The Responses loop is never wedged: it can reach the provider again exactly while it runs. */
  lemma {:induction false} ProgressIffRunning(s: Session)
    ensures CanRequest(s) <==> !s.stopped
  {
    if s.stopped {
      forall inputs: seq<Input>
        ensures Run(s, inputs) == s
      {
        StoppedIsSilent(s, inputs);
      }
    } else {
      RunningCanRequest(s);
    }
  }

  /** The command starts a turn: a message when nothing is awaited, or the last awaited output. */
  predicate StartsTurn(s: Session, c: Command) {
    !s.stopped && ((c.UserMessage? && s.pending == {}) || (c.ToolResult? && s.pending == {c.callId}))
  }

  /**
   A turn sends one request chained to the last successful response. If it succeeds, the next one is chained
   to it and its calls are awaited; if it fails, the chain stays where it was. Other commands send nothing.
   */
  lemma {:induction false} TurnsAreChained(s: Session, i: Input)
    ensures var t := Step(s, i);
            if StartsTurn(s, i.0) then
              && |t.requests| == |s.requests| + 1 && t.requests[..|s.requests|] == s.requests
              && t.requests[|s.requests|].previous == s.previous
              && (match i.1
                  case Failed => t.previous == s.previous && t.pending == {}
                  case Completed(id, calls) => t.previous == Some(id) && t.pending == set c | c in calls)
            else t.requests == s.requests && t.previous == s.previous
  {
    if i.0.ToolResult? && i.0.callId in s.pending {
      assert s.pending - {i.0.callId} == {} <==> s.pending == {i.0.callId};
    }
  }

  /** Errors are failed turns, messages while outputs are awaited, and outputs that are not. */
  lemma {:induction false} ErrorsIff(s: Session, i: Input)
    ensures Step(s, i).errors
            == if (StartsTurn(s, i.0) && i.1 == Failed)
                  || (!s.stopped && i.0.UserMessage? && s.pending != {})
                  || (!s.stopped && i.0.ToolResult? && i.0.callId !in s.pending)
               then s.errors + 1 else s.errors
  {
    if i.0.ToolResult? && i.0.callId in s.pending {
      assert s.pending - {i.0.callId} == {} <==> s.pending == {i.0.callId};
    }
  }

  /**
   A message whose turn failed is repeated by the next request exactly if no turn has succeeded yet; the
   outputs of a failed turn are not repeated.
   */
  lemma {:induction false} FailedInputIsRepeatedIff(s: Session, i: Input, role: string, content: string, turn: Turn)
    requires Inv(s) && StartsTurn(s, i.0) && i.1 == Failed
    ensures var t := Step(Step(s, i), (UserMessage(role, content), turn));
            var m := Plain(if Blank(role) then "user" else role, content);
            && |t.requests| == |s.requests| + 2
            && t.requests[|s.requests| + 1].previous == s.previous
            && (i.0.UserMessage? ==>
                  t.requests[|s.requests| + 1].input
                  == if s.previous.None?
                     then s.initial + [Plain(if Blank(i.0.role) then "user" else i.0.role, i.0.content)] + [m] else [m])
            && (i.0.ToolResult? && s.previous.Some? ==> t.requests[|s.requests| + 1].input == [m])
  {
    if i.0.ToolResult? {
      assert s.pending - {i.0.callId} == {};
    } else if s.previous.None? && s.initial == [] {
      var said := MessageOf(i.0.role, i.0.content);
      assert [] + [said] == [said];
    }
  }

  // ---------------------------------------------------------------------------
  // What is carried until the provider knows the conversation.

  predicate FailedMessages(inputs: seq<Input>) {
    forall i | 0 <= i < |inputs| :: inputs[i].0.UserMessage? && inputs[i].1 == Failed
  }

  function Said(inputs: seq<Input>): seq<Message>
    requires FailedMessages(inputs)
  {
    seq(|inputs|, i requires 0 <= i < |inputs| => MessageOf(inputs[i].0.role, inputs[i].0.content))
  }

  lemma {:induction false} FailedMessageIsKept(s: Session, i: Input)
    requires s.previous == None && s.pending == {} && !s.stopped
    requires i.0.UserMessage? && i.1 == Failed
    ensures var carried := s.initial + [MessageOf(i.0.role, i.0.content)];
            Step(s, i) == s.(initial := carried, requests := s.requests + [Request(None, carried)], errors := s.errors
              + 1)
  {
    assert WithMessage(s, MessageOf(i.0.role, i.0.content)) == s.initial + [MessageOf(i.0.role, i.0.content)];
  }

  /** Until a turn succeeds, the n-th request repeats the stored transcript and all messages up to the n-th. */
  lemma {:induction false} NothingIsForgottenBeforeTheFirstTurn(transcript: seq<Message>, inputs: seq<Input>, n: nat)
    requires FailedMessages(inputs) && n <= |inputs|
    ensures var s := Run(Start(None, transcript), inputs);
            && s.previous == None && s.pending == {} && !s.stopped
            && s.initial == transcript + Said(inputs)
            && |s.requests| == |inputs|
            && (n > 0 ==> s.requests[n - 1] == Request(None, transcript + Said(inputs[..n])))
    decreases |inputs|
  {
    if inputs != [] {
      var before, last := inputs[..|inputs| - 1], inputs[|inputs| - 1];
      NothingIsForgottenBeforeTheFirstTurn(transcript, before, if n < |inputs| then n else 0);
      FailedMessageIsKept(Run(Start(None, transcript), before), last);
      SaidOneMore(transcript, inputs);
      if n < |inputs| {
        assert inputs[..n] == before[..n];
      } else {
        assert inputs[..n] == inputs;
      }
    }
  }

  lemma {:induction false} SaidOneMore(transcript: seq<Message>, inputs: seq<Input>)
    requires FailedMessages(inputs) && inputs != []
    ensures var last := inputs[|inputs| - 1].0;
            transcript + Said(inputs)
            == (transcript + Said(inputs[..|inputs| - 1])) + [MessageOf(last.role, last.content)]
  {
  }

  // ---------------------------------------------------------------------------
  // The loop itself.

  /** `run_responses_session` */
  method RunResponsesSession(resume: Option<string>, transcript: seq<Message>, inputs: seq<Input>)
    returns (requests: seq<Request>, errors: nat, previous: Option<string>)
    ensures var s := Run(Start(ResumeId(resume), transcript), inputs);
            requests == s.requests && errors == s.errors && previous == s.previous
  {
    previous := if resume.Some? && "resp_" <= resume.value then resume else None;
    var initial := transcript;
    var pending: set<string> := {};
    var queued: seq<Message> := [];
    var stopped := false;
    requests, errors := [], 0;
    ghost var start := Start(previous, transcript);
    for n := 0 to |inputs|
      invariant var s := Run(start, inputs[..n]);
                s == Session(previous, initial, pending, queued, stopped, requests, errors, s.lastCalls)
    {
      assert inputs[..n + 1][..n] == inputs[..n];
      var (command, turn) := inputs[n];
      if !stopped {
        match command
        case UserMessage(role, content) =>
          if pending != {} {
            errors := errors + 1;
          } else {
            var m := Plain(if Blank(role) then "user" else role, content);
            if previous.None? && initial != [] {
              initial := initial + [m];
            } else {
              initial := [m];
            }
            requests := requests + [Request(previous, initial)];
            if turn.Completed? {
              previous, pending, initial := Some(turn.responseId), set c | c in turn.callIds, [];
            } else {
              errors := errors + 1;
            }
          }
        case ToolResult(id, output) =>
          if id !in pending {
            errors := errors + 1;
          } else {
            pending := pending - {id};
            queued := queued + [ToolMessage(id, output)];
            if pending == {} {
              var input := queued;
              queued := [];
              requests := requests + [Request(previous, input)];
              if turn.Completed? {
                previous, pending := Some(turn.responseId), set c | c in turn.callIds;
              } else {
                errors := errors + 1;
              }
            }
          }
        case Stop =>
          stopped := true;
      }
    }
    assert inputs[..|inputs|] == inputs;
  }

  /** Only a Responses id can be chained to. */
  function ResumeId(resume: Option<string>): Option<string> {
    if resume.Some? && "resp_" <= resume.value then resume else None
  }

  /** A session goes on from a stored Responses id, and otherwise sends what it has stored. */
  lemma {:induction false} SessionsResume(resume: Option<string>, transcript: seq<Message>, role: string,
                                          content: string,
                                          t: Turn)
    ensures var m := Plain(if Blank(role) then "user" else role, content);
            var known := resume.Some? && |resume.value| >= 5 && resume.value[..5] == "resp_";
            Step(Start(ResumeId(resume), transcript), (UserMessage(role, content), t)).requests
            == [if known then Request(resume, [m]) else Request(None, transcript + [m])]
  {
    var m := Plain(if Blank(role) then "user" else role, content);
    assert [] + [m] == [m];
    if resume.Some? && "resp_" <= resume.value {
      assert resume.value[..5] == "resp_";
    }
  }
}
