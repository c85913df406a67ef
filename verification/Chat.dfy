/** The messages of a provider conversation, and the commands a provider session serves. */
module Chat {
  import opened Wrappers
  import opened Strings

  datatype ToolUse = ToolUse(id: string, name: string, arguments: string)

  datatype Message =
    | Plain(role: string, content: string)
    | Assistant(text: Option<string>, calls: seq<ToolUse>)
    | ToolMessage(callId: string, output: string)

  /** The distinct, non-blank tool-call ids of a message. */
  function Ids(m: Message): set<string> {
    if m.Assistant? then set c | c in m.calls && !Blank(c.id) :: c.id else {}
  }

  /** What a provider session is told; every command comes with what the turn does if it starts one. */
  datatype Command = UserMessage(role: string, content: string) | ToolResult(callId: string, output: string) | Stop

  function ToolIds(ms: seq<Message>): set<string> {
    set m | m in ms && m.ToolMessage? :: m.callId
  }

  lemma {:induction false} PushToolIds(ms: seq<Message>, m: Message)
    ensures ToolIds(ms + [m]) == ToolIds(ms) + if m.ToolMessage? then {m.callId} else {}
  {
    assert forall x :: x in ms + [m] <==> x in ms || x == m;
  }

  predicate NoStop<T>(inputs: seq<(Command, T)>) { forall i | 0 <= i < |inputs| :: !inputs[i].0.Stop? }

  /** The ids for which a tool result was submitted, in any order and any number of times. */
  ghost function Submitted<T>(inputs: seq<(Command, T)>): set<string> {
    set i | i in inputs && i.0.ToolResult? :: i.0.callId
  }

  /** The first result submitted for each awaited id, in the order of submission. */
  ghost function Collected<T>(awaited: set<string>, inputs: seq<(Command, T)>): seq<Message> {
    if inputs == [] then []
    else
      var before, last := inputs[..|inputs| - 1], inputs[|inputs| - 1].0;
      Collected(awaited, before)
      + if last.ToolResult? && last.callId in awaited && last.callId !in Submitted(before)
        then [ToolMessage(last.callId, last.output)] else []
  }

  lemma {:induction false} SubmittedLast<T>(inputs: seq<(Command, T)>)
    requires inputs != []
    ensures var last := inputs[|inputs| - 1].0;
            Submitted(inputs) == Submitted(inputs[..|inputs| - 1]) + if last.ToolResult? then {last.callId} else {}
  {
    assert inputs == inputs[..|inputs| - 1] + [inputs[|inputs| - 1]];
  }

  lemma {:induction false} OneMore(awaited: set<string>, submitted: set<string>, id: string)
    requires id in awaited && id !in submitted
    ensures awaited * (submitted + {id}) == awaited * submitted + {id}
    ensures |awaited * (submitted + {id})| == |awaited * submitted| + 1
  {
    assert awaited * (submitted + {id}) == awaited * submitted + {id};
  }

  /** Each awaited and submitted id is answered in what was collected, once. */
  lemma {:induction false} CollectedIds<T>(awaited: set<string>, inputs: seq<(Command, T)>)
    ensures ToolIds(Collected(awaited, inputs)) == awaited * Submitted(inputs)
    ensures |Collected(awaited, inputs)| == |awaited * Submitted(inputs)|
    decreases |inputs|
  {
    if inputs != [] {
      var before, last := inputs[..|inputs| - 1], inputs[|inputs| - 1].0;
      SubmittedLast(inputs);
      CollectedIds(awaited, before);
      if last.ToolResult? && last.callId in awaited && last.callId !in Submitted(before) {
        PushToolIds(Collected(awaited, before), ToolMessage(last.callId, last.output));
        OneMore(awaited, Submitted(before), last.callId);
      } else {
        assert Collected(awaited, inputs) == Collected(awaited, before);
        assert awaited * Submitted(inputs) == awaited * Submitted(before);
      }
    }
  }

  /** The input that supplies the last awaited id. */
  lemma {:induction false} LastAwaited<T>(awaited: set<string>, inputs: seq<(Command, T)>)
    requires inputs != [] && !(awaited <= Submitted(inputs[..|inputs| - 1])) && awaited <= Submitted(inputs)
    ensures var last := inputs[|inputs| - 1].0;
            && last.ToolResult? && last.callId in awaited && last.callId !in Submitted(inputs[..|inputs| - 1])
            && awaited - Submitted(inputs[..|inputs| - 1]) == {last.callId}
  {
    SubmittedLast(inputs);
  }

  /** What that request adds to the transcript: one answer for each awaited id. */
  lemma {:induction false} OneAnswerEach<T>(awaited: set<string>, inputs: seq<(Command, T)>)
    requires awaited <= Submitted(inputs)
    ensures ToolIds(Collected(awaited, inputs)) == awaited && |Collected(awaited, inputs)| == |awaited|
  {
    CollectedIds(awaited, inputs);
    assert awaited * Submitted(inputs) == awaited;
  }
}
