/**
 The handlers of the tool-call protocol as the orchestrator runs them, and the proof that
 each of them, wherever a store or provider call fails, is a schedule of the protocol machine.
 */
module ToolCallHandlers {
  import opened Wrappers
  import opened Strings
  import opened Json
  import opened Limits
  import opened ToolCalls

  datatype Outcome = Finished | Failed(error: string)

  /** What the store says when asked for an approval. */
  datatype Asked = Created(id: ApprovalId, ttl: nat) | NotCreated(error: Option<string>)

  const NOT_CREATED := "Frank could not create an approval request"

  /** What the tool policy says of one call. */
  datatype Policy = Policy(
    /** `tool_requires_approval`, with its reason */
    requiresApproval: Option<string>,
    /** a task grant already covers the tool */
    granted: bool,
    /** the agent's policy refuses instead of asking */
    refusesToAsk: bool)
  {
    predicate MustAsk() { requiresApproval.Some? && !granted }

    predicate Refuses()
      requires MustAsk()
    {
      StartsWith(requiresApproval.value, "denied:") || refusesToAsk
    }
  }

  /** Which of the lookups, store calls and provider calls of one handler succeed. */
  datatype Weather = Weather(snapshotRead: bool, agentKnown: bool, sessionIdKnown: bool, transcriptRead: bool,
                             markerStored: bool, resultStored: bool, delivered: bool)
  {
    /** A tool-call handler gets as far as its answer; a veto needs no transcript. */
    predicate Reaches(vetoed: bool) {
      snapshotRead && agentKnown && sessionIdKnown && (vetoed || transcriptRead)
    }
  }

  /** Which of the store calls succeed that the sweep makes for one approval. */
  datatype SweepWeather = SweepWeather(latestRead: bool, committed: bool, taskRead: bool)

  predicate StartsWith(s: string, prefix: string) { prefix <= s }

  /** The approval is pending and its deadline has passed. */
  predicate Due(a: Approval, now: nat) { a.status == Pending && a.expiresAt <= now }

  /** The approval's status is the one the decision asks for. */
  predicate Carried(status: Status, decision: Decision) {
    IsAllow(status, decision) || (status == Denied && decision == DenyOnce)
  }

  /** Neither a marker nor a result of the call is stored. */
  predicate CallIsNew(b: Books, k: Key) { b.Result(k).None? && !b.Marked(k) }

  /** What the store and the provider hold of the calls. */
  datatype Books = Books(items: map<(SessionId, string), ItemValue>, submitted: seq<(Key, string)>) {
    predicate Marked(k: Key) { (k.session, RequestItem(k.call)) in items }

    /** The durable result of a call. */
    function Result(k: Key): Option<string> {
      var id := (k.session, ResultItem(k.call));
      if id in items && items[id].ToolResult? then Some(items[id].content) else None
    }
  }

  /** The answer fits the store, and the store and the provider take it. */
  predicate Delivers(call: CallId, answer: string, weather: Weather) {
    Fits(call, Capped(answer)) && weather.resultStored && weather.delivered
  }

  /**
   The call is answered: the capped answer is stored under the result id, unless that is taken, the answer
   does not fit or the store fails; and if it was stored and the provider takes it, it is handed over.
   */
  predicate Answered(before: Books, after: Books, target: SessionId, call: CallId, answer: string, weather: Weather) {
    var content := Capped(answer);
    && after.items == (if Fits(call, content) && weather.resultStored
                       then Append(before.items, target, ResultItem(call), ToolResult(call, content))
                       else before.items)
    && after.submitted == (if Delivers(call, answer, weather)
                           then before.submitted + [(Key(target, call), content)] else before.submitted)
  }

  /** Behind the marker: a parked call is left unanswered, any other is answered as the policy says. */
  predicate Proceeded(before: Books, after: Books, r: Outcome, key: Key, policy: Policy, asked: Asked, output: string,
                      weather: Weather)
  {
    var asks := policy.requiresApproval.Some? && !policy.granted;
    var refused := asks && ("denied:" <= policy.requiresApproval.value || policy.refusesToAsk);
    if asks && !refused && asked.Created? then
      r.Finished? && after == before
    else
      var answer := if !asks then output
                    else if refused then ErrorResult(policy.requiresApproval.value)
                    else ErrorResult(asked.error.GetOr(NOT_CREATED));
      && (r.Finished? <==> Delivers(key.call, answer, weather))
      && Answered(before, after, key.session, key.call, answer, weather)
  }

  function WithMarker(before: Books, key: Key): Books {
    before.(items := Append(before.items, key.session, RequestItem(key.call), Marker(key.call)))
  }

  /**
   What a call that got past the lookups is answered: a veto with its own text, a durable result with itself,
   a bare marker with "interrupted"; a new call is marked, and then answered as the policy says.
   */
  predicate Handled(before: Books, after: Books, r: Outcome, key: Key, denial: Option<string>, policy: Policy,
                    asked: Asked, output: string, weather: Weather)
  {
    if denial.Some? then
      && (r.Finished? <==> Delivers(key.call, denial.value, weather))
      && Answered(before, after, key.session, key.call, denial.value, weather)
    else if before.Result(key).Some? then
      && (r.Finished? <==> weather.delivered)
      && after.items == before.items
      && after.submitted == (if weather.delivered then before.submitted + [(key, before.Result(key).value)]
                             else before.submitted)
    else if before.Marked(key) then
      && (r.Finished? <==> Delivers(key.call, INTERRUPTED, weather))
      && Answered(before, after, key.session, key.call, INTERRUPTED, weather)
    else if !weather.markerStored then
      r.Failed? && after == before
    else
      Proceeded(WithMarker(before, key), after, r, key, policy, asked, output, weather)
  }

  /** How a call goes on that is not vetoed. */
  function Continuation(b: Books, key: Key, task: TaskId): Flight {
    if b.Result(key).Some? then Submitting(key.session, key.call, b.Result(key).value)
    else if b.Marked(key) then Delivering(key.session, key.call, INTERRUPTED)
    else Unmarked(key, task)
  }

  /**
   A call that is not vetoed runs its tool exactly if it is new, gets its marker and need not ask; it is parked
   exactly if it is new, gets its marker, must ask, is not refused and gets an approval.
   */
  ghost predicate Progressed(before: Books, effectsBefore: seq<Effect>, effects: seq<Effect>,
                             parkedBefore: map<ApprovalId, Parked>, parked: map<ApprovalId, Parked>, task: TaskId,
                             key: Key, policy: Policy, asked: Asked, weather: Weather)
  {
    var isNew := CallIsNew(before, key) && weather.markerStored;
    && effects == (if isNew && !policy.MustAsk() then effectsBefore + [Effect(key, None, None)] else effectsBefore)
    && parked == (if isNew && policy.MustAsk() && !policy.Refuses() && asked.Created?
                  then parkedBefore[asked.id := Parked(task, key)] else parkedBefore)
  }

  class Orchestrator {
    var sessions: map<TaskId, SessionId>
    var toolApprovals: map<ApprovalId, Parked>
    var clock: nat
    var items: map<(SessionId, string), ItemValue>
    var approvals: map<ApprovalId, Approval>
    var effects: seq<Effect>
    var submitted: seq<(Key, string)>
    /** decisions passed on to a provider that keeps approvals of its own */
    var forwarded: seq<(SessionId, ApprovalId, Decision)>
    /** the handlers, each stopped where it awaits */
    ghost var flights: map<FlightId, Flight>

    ghost function View(): State
      reads this
    {
      State(sessions, toolApprovals, flights, clock, items, approvals, effects, submitted)
    }

    ghost function Held(): Books
      reads this
    {
      Books(items, submitted)
    }

    constructor ()
      ensures View() == INITIAL && forwarded == []
    {
      sessions, toolApprovals, items, approvals := map[], map[], map[], map[];
      effects, submitted, forwarded, clock := [], [], [], 0;
      flights := map[];
    }

    method AppendItem(session: SessionId, id: string, value: ItemValue)
      modifies this`items
      ensures items == Append(old(items), session, id, value)
    {
      if (session, id) !in items {
        items := items[(session, id) := value];
      }
    }

    // -------------------------------------------------------------------------
    // deliver_openrouter_tool_result

    /** Make the result durable, then hand it to the provider. */
    method DeliverToolResult(ghost f: FlightId, target: SessionId, call: CallId, output: string, weather: Weather)
      returns (r: Outcome)
      requires f in flights && flights[f] == Delivering(target, call, output)
      modifies this`items, this`submitted, this`flights
      ensures Can(old(View()), View())
      ensures flights == old(flights) - {f}
      ensures r.Finished? <==> Delivers(call, output, weather)
      ensures Answered(old(Held()), Held(), target, call, output, weather)
    {
      ghost var start := View();
      var content := if Bytes(output) > MAX_COMMAND_BODY_BYTES then OVERSIZED else output;
      var stored := StoreResult(f, target, call, output, content, weather);
      if !stored {
        return Failed("store");
      }
      ghost var mid := View();
      r := ReplayResult(f, target, call, content, weather);
      CanTrans(start, mid, View());
      assert flights == old(flights) - {f};
    }

    method StoreResult(ghost f: FlightId, target: SessionId, call: CallId, ghost output: string, content: string,
                       weather: Weather)
      returns (stored: bool)
      requires f in flights && flights[f] == Delivering(target, call, output) && content == Capped(output)
      modifies this`items, this`flights
      ensures Can(old(View()), View())
      ensures stored == (Fits(call, content) && weather.resultStored)
      ensures flights == if stored then old(flights)[f := Submitting(target, call, content)] else old(flights) - {f}
      ensures items == if stored then Append(old(items), target, ResultItem(call), ToolResult(call, content))
                       else old(items)
    {
      ghost var start := View();
      if EnvelopeSize(call, content) > MAX_COMMAND_BODY_BYTES || !weather.resultStored {
        flights := flights - {f};
        CanAbandon(start, f);
        return false;
      }
      AppendItem(target, ResultItem(call), ToolResult(call, content));
      flights := flights[f := Submitting(target, call, content)];
      CanAppendResult(start, f);
      return true;
    }

    /** Hand a result that has a durable item to the provider. */
    method ReplayResult(ghost f: FlightId, target: SessionId, call: CallId, content: string, weather: Weather)
      returns (r: Outcome)
      requires f in flights && flights[f] == Submitting(target, call, content)
      modifies this`submitted, this`flights
      ensures Can(old(View()), View())
      ensures flights == old(flights) - {f}
      ensures r.Finished? <==> weather.delivered
      ensures submitted == if r.Finished? then old(submitted) + [(Key(target, call), content)] else old(submitted)
    {
      ghost var start := View();
      flights := flights - {f};
      if weather.delivered {
        submitted := submitted + [(Key(target, call), content)];
        CanSubmit(start, f);
        return Finished;
      } else {
        CanAbandon(start, f);
        return Failed("provider");
      }
    }

    // -------------------------------------------------------------------------
    // handle_openrouter_tool_call

    method RefuseCall(ghost f: FlightId, key: Key, message: string, weather: Weather) returns (r: Outcome)
      requires f in flights && flights[f].Marked? && flights[f].key == key
      modifies this`items, this`submitted, this`flights
      ensures Can(old(View()), View())
      ensures flights == old(flights) - {f}
      ensures r.Finished? <==> Delivers(key.call, ErrorResult(message), weather)
      ensures Answered(old(Held()), Held(), key.session, key.call, ErrorResult(message), weather)
    {
      ghost var start := View();
      var answer := ErrorResult(message);
      flights := flights[f := Delivering(key.session, key.call, answer)];
      CanRefuse(start, f, answer);
      ghost var mid := View();
      r := DeliverToolResult(f, key.session, key.call, answer, weather);
      CanTrans(start, mid, View());
      assert flights == old(flights) - {f};
    }

    method AskForApproval(ghost f: FlightId, approval: ApprovalId, asked: Approval, ghost ttl: nat)
      requires f in flights && flights[f] == Marked(asked.origin, asked.task) && approval !in approvals
      requires asked.status == Pending && asked.expiresAt == clock + ttl
      modifies this`approvals, this`flights
      ensures Can(old(View()), View())
      ensures flights == old(flights)[f := Routing(asked.origin, asked.task, approval)]
      ensures approvals == old(approvals)[approval := asked]
    {
      ghost var start := View();
      approvals := approvals[approval := asked];
      flights := flights[f := Routing(asked.origin, asked.task, approval)];
      CanAsk(start, f, approval, ttl, asked);
    }

    method ParkCall(ghost f: FlightId, approval: ApprovalId, asked: Approval, ghost ttl: nat)
      requires f in flights && flights[f] == Marked(asked.origin, asked.task) && approval !in approvals
      requires asked.status == Pending && asked.expiresAt == clock + ttl
      modifies this`approvals, this`toolApprovals, this`flights
      ensures Can(old(View()), View())
      ensures flights == old(flights) - {f}
      ensures toolApprovals == old(toolApprovals)[approval := Parked(asked.task, asked.origin)]
      ensures approvals == old(approvals)[approval := asked]
    {
      ghost var start := View();
      AskForApproval(f, approval, asked, ttl);
      ghost var mid := View();
      toolApprovals := toolApprovals[approval := Parked(asked.task, asked.origin)];
      flights := flights - {f};
      CanPark(mid, f);
      CanTrans(start, mid, View());
      assert flights == old(flights) - {f};
    }

    method RunTool(ghost f: FlightId, key: Key, output: string)
      requires f in flights && flights[f].Marked? && flights[f].key == key
      modifies this`flights, this`effects
      ensures Can(old(View()), View())
      ensures flights == old(flights)[f := Delivering(key.session, key.call, output)]
      ensures effects == old(effects) + [Effect(key, None, None)]
    {
      ghost var start := View();
      flights := flights[f := Direct(key, flights[f].task)];
      CanRunDirect(start, f);
      ghost var mid := View();
      effects := effects + [Effect(key, None, None)];
      flights := flights[f := Delivering(key.session, key.call, output)];
      CanExecuteDirect(mid, f, output);
      CanTrans(start, mid, View());
    }

    method ExecuteCall(ghost f: FlightId, key: Key, output: string, weather: Weather) returns (r: Outcome)
      requires f in flights && flights[f].Marked? && flights[f].key == key
      modifies this`items, this`submitted, this`flights, this`effects
      ensures Can(old(View()), View())
      ensures flights == old(flights) - {f}
      ensures effects == old(effects) + [Effect(key, None, None)]
      ensures r.Finished? <==> Delivers(key.call, output, weather)
      ensures Answered(old(Held()), Held(), key.session, key.call, output, weather)
    {
      ghost var start := View();
      RunTool(f, key, output);
      ghost var mid := View();
      r := DeliverToolResult(f, key.session, key.call, output, weather);
      CanTrans(start, mid, View());
      assert flights == old(flights) - {f};
    }

    /** The part of the handler behind the durable marker: refuse, ask for approval, or run. */
    method RunMarkedCall(ghost f: FlightId, key: Key, task: TaskId, policy: Policy,
                         asked: Asked, output: string, weather: Weather)
      returns (r: Outcome)
      requires f in flights && flights[f] == Marked(key, task)
      requires asked.Created? ==> asked.id !in approvals
      modifies this`items, this`submitted, this`flights, this`effects, this`approvals, this`toolApprovals
      ensures Can(old(View()), View())
      ensures flights == old(flights) - {f}
      ensures effects == if policy.MustAsk() then old(effects) else old(effects) + [Effect(key, None, None)]
      ensures if policy.MustAsk() && !policy.Refuses() && asked.Created?
              then toolApprovals == old(toolApprovals)[asked.id := Parked(task, key)]
                   && approvals == old(approvals)[asked.id :=
                                                    Approval(Pending, key, task, clock + asked.ttl)]
              else toolApprovals == old(toolApprovals) && approvals == old(approvals)
      ensures Proceeded(old(Held()), Held(), r, key, policy, asked, output, weather)
    {
      if policy.MustAsk() {
        if policy.Refuses() {
          r := RefuseCall(f, key, policy.requiresApproval.value, weather);
        } else if asked.Created? {
          ParkCall(f, asked.id, Approval(Pending, key, task, clock + asked.ttl), asked.ttl);
          r := Finished;
        } else {
          r := RefuseCall(f, key, asked.error.GetOr(NOT_CREATED), weather);
        }
      } else {
        r := ExecuteCall(f, key, output, weather);
      }
    }

    /** Write the durable marker. */
    method WriteMarker(ghost f: FlightId, key: Key, task: TaskId, weather: Weather)
      requires f in flights && flights[f] == Unmarked(key, task)
      modifies this`items, this`flights
      ensures Can(old(View()), View())
      ensures flights == if weather.markerStored then old(flights)[f := Marked(key, task)] else old(flights) - {f}
      ensures items == if weather.markerStored
                       then Append(old(items), key.session, RequestItem(key.call), Marker(key.call)) else old(items)
    {
      ghost var start := View();
      if weather.markerStored {
        AppendItem(key.session, RequestItem(key.call), Marker(key.call));
        flights := flights[f := Marked(key, task)];
        CanAppendMarker(start, f);
      } else {
        flights := flights - {f};
        CanAbandon(start, f);
      }
    }

    /** Write the durable marker, then go on behind it. */
    method MarkCall(ghost f: FlightId, key: Key, task: TaskId, policy: Policy,
                    asked: Asked, output: string, weather: Weather)
      returns (r: Outcome)
      requires f in flights && flights[f] == Unmarked(key, task)
      requires asked.Created? ==> asked.id !in approvals
      modifies this`items, this`submitted, this`flights, this`effects, this`approvals, this`toolApprovals
      ensures Can(old(View()), View())
      ensures flights == old(flights) - {f}
      ensures effects == if policy.MustAsk() || !weather.markerStored then old(effects)
                         else old(effects) + [Effect(key, None, None)]
      ensures if policy.MustAsk() && !policy.Refuses() && asked.Created? && weather.markerStored
              then toolApprovals == old(toolApprovals)[asked.id := Parked(task, key)]
                   && approvals == old(approvals)[asked.id :=
                                                    Approval(Pending, key, task, clock + asked.ttl)]
              else toolApprovals == old(toolApprovals) && approvals == old(approvals)
      ensures if weather.markerStored
              then Proceeded(WithMarker(old(Held()), key), Held(), r, key, policy, asked, output, weather)
              else r.Failed? && Held() == old(Held())
    {
      ghost var start := View();
      WriteMarker(f, key, task, weather);
      if !weather.markerStored {
        return Failed("store");
      }
      ghost var mid := View();
      r := RunMarkedCall(f, key, task, policy, asked, output, weather);
      CanTrans(start, mid, View());
      assert flights == old(flights) - {f};
    }

    /**
     Handle one provider tool call. `denial` is the organization's veto as an error result, `asked` what the
     store says when asked for an approval, `output` what the tool returns if run.
     */
    method HandleToolCall(ghost f: FlightId, task: TaskId, call: CallId, denial: Option<string>, policy: Policy,
                          asked: Asked, output: string, weather: Weather)
      returns (r: Outcome)
      requires f !in flights
      requires task in sessions ==> SerialFor(View(), sessions[task])
      requires asked.Created? ==> asked.id !in approvals
      modifies this
      ensures Can(old(View()), View())
      ensures flights == old(flights) && sessions == old(sessions) && forwarded == old(forwarded)
      ensures Blank(call) || task !in sessions || !weather.Reaches(denial.Some?) ==>
                r.Failed? && View() == old(View())
      ensures !Blank(call) && task in sessions && weather.Reaches(denial.Some?) ==>
                Handled(old(Held()), Held(), r, Key(sessions[task], call), denial, policy, asked, output, weather)
      ensures if !Blank(call) && task in sessions && denial.None? && weather.Reaches(false)
              then Progressed(old(Held()), old(effects), effects, old(toolApprovals), toolApprovals, task,
                              Key(sessions[task], call), policy, asked, weather)
              else effects == old(effects) && toolApprovals == old(toolApprovals)
    {
      var error := LookUp(task, call, denial.Some?, weather);
      if error.Some? {
        CanStay(View());
        return Failed(error.value);
      }
      ghost var start := View();
      flights := flights[f := CallStart(View(), task, call, denial)];
      CanBeginCall(start, f, task, call, denial);
      ghost var mid := View();
      r := ContinueCall(f, task, call, denial, policy, asked, output, weather);
      CanTrans(start, mid, View());
      assert flights == old(flights);
    }

    /** What must be in place before a call is looked at: the error, if something is not. */
    method LookUp(task: TaskId, call: CallId, vetoed: bool, weather: Weather) returns (error: Option<string>)
      ensures error.Some? <==> Blank(call) || task !in sessions || !weather.Reaches(vetoed)
    {
      if Blank(call) {
        return Some("OpenRouter tool call is missing its id");
      }
      if task !in sessions {
        return Some("not found");
      }
      if !weather.snapshotRead {
        return Some("store");
      }
      if !weather.agentKnown {
        return Some("not found");
      }
      if !weather.sessionIdKnown {
        return Some("OpenRouter session id is unavailable");
      }
      if !vetoed && !weather.transcriptRead {
        return Some("store");
      }
      error := None;
    }

    /** A veto is the answer; otherwise the durable transcript says how to go on. */
    method ContinueCall(ghost f: FlightId, task: TaskId, call: CallId, denial: Option<string>, policy: Policy,
                        asked: Asked, output: string, weather: Weather)
      returns (r: Outcome)
      requires task in sessions && f in flights && flights[f] == CallStart(View(), task, call, denial)
      requires asked.Created? ==> asked.id !in approvals
      modifies this`items, this`submitted, this`flights, this`effects, this`approvals, this`toolApprovals
      ensures Can(old(View()), View())
      ensures flights == old(flights) - {f}
      ensures Handled(old(Held()), Held(), r, Key(sessions[task], call), denial, policy, asked, output, weather)
      ensures if denial.Some? then effects == old(effects) && toolApprovals == old(toolApprovals)
              else Progressed(old(Held()), old(effects), effects, old(toolApprovals), toolApprovals, task,
                              Key(sessions[task], call), policy, asked, weather)
    {
      if denial.Some? {
        r := DeliverToolResult(f, sessions[task], call, denial.value, weather);
      } else {
        r := GoOn(f, task, Key(sessions[task], call), policy, asked, output, weather);
      }
    }

    /** Go on from what the durable transcript says of the call. */
    method GoOn(ghost f: FlightId, task: TaskId, key: Key, policy: Policy, asked: Asked, output: string,
                weather: Weather)
      returns (r: Outcome)
      requires f in flights && flights[f] == Continuation(Held(), key, task)
      requires asked.Created? ==> asked.id !in approvals
      modifies this`items, this`submitted, this`flights, this`effects, this`approvals, this`toolApprovals
      ensures Can(old(View()), View())
      ensures flights == old(flights) - {f}
      ensures Handled(old(Held()), Held(), r, key, None, policy, asked, output, weather)
      ensures Progressed(old(Held()), old(effects), effects, old(toolApprovals), toolApprovals, task, key, policy,
                asked,
                         weather)
    {
      if (key.session, ResultItem(key.call)) in items && items[(key.session, ResultItem(key.call))].ToolResult? {
        r := ReplayResult(f, key.session, key.call, items[(key.session, ResultItem(key.call))].content, weather);
      } else if (key.session, RequestItem(key.call)) in items {
        r := DeliverToolResult(f, key.session, key.call, INTERRUPTED, weather);
      } else {
        r := MarkCall(f, key, task, policy, asked, output, weather);
      }
    }

    // -------------------------------------------------------------------------
    // DecideApproval and respond_to_provider_approval

    /**
     Decide an approval and answer the call behind it. `grantValid` says whether a grant for the whole
     task may be given, `committed` whether the store takes the decision.
     */
    method DecideApproval(ghost f: FlightId, approval: ApprovalId, decision: Decision, grantValid: bool,
                          committed: bool, output: string, weather: Weather)
      returns (r: Outcome)
      requires f !in flights
      modifies this`approvals, this`toolApprovals, this`items, this`submitted, this`flights, this`effects,
               this`forwarded
      ensures Can(old(View()), View())
      ensures flights == old(flights)
      ensures r.Finished? <==>
                && approval in old(approvals) && old(approvals)[approval].status == Pending && committed
                && (decision == AllowForTask && clock < old(approvals)[approval].expiresAt ==> grantValid)
      ensures r.Failed? ==> View() == old(View()) && forwarded == old(forwarded)
      ensures r.Finished? ==>
                var inTime := clock < old(approvals)[approval].expiresAt;
                && approvals == old(approvals)[approval := old(approvals)[approval].(
                                                 status := if inTime then StatusFor(decision) else Expired)]
                && effects == (if weather.snapshotRead && inTime && StatusFor(decision) == Approved
                                  && approval in old(toolApprovals) && old(toolApprovals)[approval].task in sessions
                               then old(effects)
                                    + [Effect(old(toolApprovals)[approval].key, Some(approval), Some(decision))]
                               else old(effects))
      ensures r.Finished? ==>
                if weather.snapshotRead && approval in old(toolApprovals)
                  && old(toolApprovals)[approval].task in sessions
                then var pending := old(toolApprovals)[approval];
                     Answered(old(Held()), Held(), sessions[pending.task], pending.key.call,
                              if clock >= old(approvals)[approval].expiresAt then EXPIRED_ANSWER
                              else if decision == DenyOnce then DENIED_ANSWER
                              else output, weather)
                else Held() == old(Held())
    {
      if approval !in approvals {
        CanStay(View());
        return Failed("not found");
      }
      var inTime := clock < approvals[approval].expiresAt;
      if approvals[approval].status != Pending || !committed || (decision == AllowForTask && inTime && !grantValid) {
        CanStay(View());
        return Failed("refused");
      }
      ApplyDecision(f, approval, decision, output, weather);
      r := Finished;
    }

    /** A decision that is accepted, and the response to it. */
    method ApplyDecision(ghost f: FlightId, approval: ApprovalId, decision: Decision, output: string, weather: Weather)
      requires f !in flights && approval in approvals && approvals[approval].status == Pending
      modifies this`approvals, this`toolApprovals, this`items, this`submitted, this`flights, this`effects,
               this`forwarded
      ensures Can(old(View()), View())
      ensures flights == old(flights)
      ensures var inTime := clock < old(approvals)[approval].expiresAt;
              && approvals == old(approvals)[approval := old(approvals)[approval].(
                                               status := if inTime then StatusFor(decision) else Expired)]
              && effects == (if weather.snapshotRead && inTime && StatusFor(decision) == Approved
                                && approval in old(toolApprovals) && old(toolApprovals)[approval].task in sessions
                             then old(effects)
                                  + [Effect(old(toolApprovals)[approval].key, Some(approval), Some(decision))]
                             else old(effects))
              && if weather.snapshotRead && approval in old(toolApprovals)
                && old(toolApprovals)[approval].task in sessions
                 then var pending := old(toolApprovals)[approval];
                      Answered(old(Held()), Held(), sessions[pending.task], pending.key.call,
                               if !inTime then EXPIRED_ANSWER else if decision == DenyOnce then DENIED_ANSWER
                               else output, weather)
                 else Held() == old(Held())
    {
      ghost var start := View();
      CommitDecision(f, approval, decision);
      ghost var mid := View();
      RespondToApproval(f, approval, decision, output, weather);
      CanTrans(start, mid, View());
      assert flights == old(flights);
    }

    /** The reducer of a decision: too late, it expires the approval. */
    method CommitDecision(ghost f: FlightId, approval: ApprovalId, decision: Decision)
      requires f !in flights && approval in approvals && approvals[approval].status == Pending
      modifies this`approvals, this`flights
      ensures Can(old(View()), View())
      ensures flights == old(flights)[f := Decided(approval, decision)]
      ensures approvals == old(approvals)[approval := old(approvals)[approval].(
                             status := if clock < old(approvals)[approval].expiresAt then StatusFor(decision)
                                       else Expired)]
    {
      ghost var start := View();
      var status := if approvals[approval].expiresAt <= clock then Expired else StatusFor(decision);
      approvals := approvals[approval := approvals[approval].(status := status)];
      flights := flights[f := Decided(approval, decision)];
      CanCommit(start, f, approval, decision);
    }

    /** Read what the store says of the approval. */
    method ReadApproval(ghost f: FlightId, approval: ApprovalId, decision: Decision)
      requires f in flights && flights[f] == Decided(approval, decision) && approval in approvals
      modifies this`flights
      ensures Can(old(View()), View())
      ensures flights == old(flights)[f := Responding(approval, approvals[approval].status, decision)]
    {
      ghost var start := View();
      flights := flights[f := Responding(approval, approvals[approval].status, decision)];
      CanBeginResponse(start, f);
    }

    /** Take the call that waits for the approval. */
    method TakeCall(ghost f: FlightId, approval: ApprovalId, status: Status, decision: Decision)
      returns (taken: Option<Parked>)
      requires f in flights && flights[f] == Responding(approval, status, decision)
      modifies this`toolApprovals, this`flights
      ensures Can(old(View()), View())
      ensures toolApprovals == old(toolApprovals) - {approval}
      ensures taken == if approval in old(toolApprovals) then Some(old(toolApprovals)[approval]) else None
      ensures flights == if taken.None? then old(flights) - {f}
                         else old(flights)[f := Taken(taken.value.key, taken.value.task, approval, status, decision)]
    {
      ghost var start := View();
      CanTakeParked(start, f);
      if approval in toolApprovals {
        taken := Some(toolApprovals[approval]);
        flights := flights[f := Taken(taken.value.key, taken.value.task, approval, status, decision)];
      } else {
        taken := None;
        flights := flights - {f};
      }
      toolApprovals := toolApprovals - {approval};
    }

    method ReadAndTake(ghost f: FlightId, approval: ApprovalId, decision: Decision) returns (taken: Option<Parked>)
      requires f in flights && flights[f] == Decided(approval, decision) && approval in approvals
      modifies this`toolApprovals, this`flights
      ensures Can(old(View()), View())
      ensures toolApprovals == old(toolApprovals) - {approval}
      ensures taken == if approval in old(toolApprovals) then Some(old(toolApprovals)[approval]) else None
      ensures flights == if taken.None? then old(flights) - {f}
                         else old(flights)[f := Taken(taken.value.key, taken.value.task, approval,
                                                      approvals[approval].status, decision)]
    {
      ghost var start := View();
      ReadApproval(f, approval, decision);
      ghost var mid := View();
      taken := TakeCall(f, approval, approvals[approval].status, decision);
      CanTrans(start, mid, View());
      assert flights == if taken.None? then old(flights) - {f}
                        else old(flights)[f := Taken(taken.value.key, taken.value.task, approval,
                                                     approvals[approval].status, decision)];
    }

    /** Answer the call that waits for `approval`, now that `decision` has been applied to it. */
    method RespondToApproval(ghost f: FlightId, approval: ApprovalId, decision: Decision, output: string,
                             weather: Weather)
      requires f in flights && flights[f] == Decided(approval, decision)
      modifies this`toolApprovals, this`items, this`submitted, this`flights, this`effects, this`forwarded
      ensures Can(old(View()), View())
      ensures flights == old(flights) - {f}
      ensures !weather.snapshotRead || approval !in approvals ==>
                View() == Land(old(View()), f) && forwarded == old(forwarded)
      ensures weather.snapshotRead && approval in approvals ==>
                && toolApprovals == old(toolApprovals) - {approval}
                && effects == (if approval in old(toolApprovals) && old(toolApprovals)[approval].task in sessions
                                  && IsAllow(approvals[approval].status, decision)
                               then old(effects)
                                    + [Effect(old(toolApprovals)[approval].key, Some(approval), Some(decision))]
                               else old(effects))
                && forwarded == (if approval !in old(toolApprovals) && approvals[approval].task in sessions
                                    && Carried(approvals[approval].status, decision)
                                 then old(forwarded) + [(sessions[approvals[approval].task], approval, decision)]
                                 else old(forwarded))
      ensures if weather.snapshotRead && approval in approvals && approval in old(toolApprovals)
                 && old(toolApprovals)[approval].task in sessions
              then var pending := old(toolApprovals)[approval];
                   Answered(old(Held()), Held(), sessions[pending.task], pending.key.call,
                            if IsAllow(approvals[approval].status, decision) then output
                            else Refusal(approvals[approval].status), weather)
              else Held() == old(Held())
    {
      ghost var start := View();
      if !weather.snapshotRead || approval !in approvals {
        flights := flights - {f};
        CanAbandon(start, f);
        return;
      }
      var taken := ReadAndTake(f, approval, decision);
      ghost var mid := View();
      if taken.Some? {
        AnswerTakenCall(f, taken.value, approval, approvals[approval].status, decision, output, weather);
        CanTrans(start, mid, View());
        assert flights == old(flights) - {f};
      } else if Carried(approvals[approval].status, decision) && approvals[approval].task in sessions {
        forwarded := forwarded + [(sessions[approvals[approval].task], approval, decision)];
      }
    }

    /** Find the session that gets the answer, if there still is one. */
    method FindTarget(ghost f: FlightId, pending: Parked, approval: ApprovalId, status: Status, decision: Decision)
      requires f in flights && flights[f] == Taken(pending.key, pending.task, approval, status, decision)
      modifies this`flights
      ensures Can(old(View()), View())
      ensures flights == if pending.task !in sessions then old(flights) - {f}
                         else if IsAllow(status, decision)
                         then old(flights)[f := Allowed(pending.key, approval, decision, sessions[pending.task])]
                         else old(flights)[f := Delivering(sessions[pending.task], pending.key.call, Refusal(status))]
    {
      ghost var start := View();
      CanFindSession(start, f);
      if pending.task !in sessions {
        flights := flights - {f};
      } else if IsAllow(status, decision) {
        flights := flights[f := Allowed(pending.key, approval, decision, sessions[pending.task])];
      } else {
        flights := flights[f := Delivering(sessions[pending.task], pending.key.call, Refusal(status))];
      }
    }

    method AnswerTakenCall(ghost f: FlightId, pending: Parked, approval: ApprovalId, status: Status,
                           decision: Decision, output: string, weather: Weather)
      requires f in flights && flights[f] == Taken(pending.key, pending.task, approval, status, decision)
      modifies this`items, this`submitted, this`flights, this`effects
      ensures Can(old(View()), View())
      ensures flights == old(flights) - {f}
      ensures effects == if pending.task in sessions && IsAllow(status, decision)
                         then old(effects) + [Effect(pending.key, Some(approval), Some(decision))] else old(effects)
      ensures if pending.task in sessions
              then Answered(old(Held()), Held(), sessions[pending.task], pending.key.call,
                            if IsAllow(status, decision) then output else Refusal(status), weather)
              else Held() == old(Held())
    {
      ghost var start := View();
      FindTarget(f, pending, approval, status, decision);
      if pending.task in sessions {
        var session := sessions[pending.task];
        ghost var mid := View();
        if IsAllow(status, decision) {
          ExecuteApprovedCall(f, pending.key, approval, decision, session, output, weather);
        } else {
          var _ := DeliverToolResult(f, session, pending.key.call, Refusal(status), weather);
        }
        CanTrans(start, mid, View());
        assert flights == old(flights) - {f};
      }
    }

    method ExecuteApprovedCall(ghost f: FlightId, key: Key, approval: ApprovalId, decision: Decision,
                               session: SessionId, output: string, weather: Weather)
      requires f in flights && flights[f] == Allowed(key, approval, decision, session)
      modifies this`items, this`submitted, this`flights, this`effects
      ensures Can(old(View()), View())
      ensures flights == old(flights) - {f}
      ensures effects == old(effects) + [Effect(key, Some(approval), Some(decision))]
      ensures Answered(old(Held()), Held(), session, key.call, output, weather)
    {
      ghost var start := View();
      effects := effects + [Effect(key, Some(approval), Some(decision))];
      flights := flights[f := Delivering(session, key.call, output)];
      CanExecuteApproved(start, f, output);
      ghost var mid := View();
      var _ := DeliverToolResult(f, session, key.call, output, weather);
      CanTrans(start, mid, View());
      assert flights == old(flights) - {f};
    }

    // -------------------------------------------------------------------------
    // expire_approvals

    /** Expire one approval if it is still due, and drop the call that waits for it. */
    method ExpireOne(approval: ApprovalId) returns (expired: bool)
      modifies this`approvals, this`toolApprovals
      ensures Can(old(View()), View())
      ensures expired == (approval in old(approvals) && Due(old(approvals)[approval], clock))
      ensures (approvals, toolApprovals) == ExpiredOne(old(approvals), old(toolApprovals), approval, clock)
    {
      ghost var start := View();
      if approval !in approvals || !Due(approvals[approval], clock) {
        CanStay(start);
        return false;
      }
      approvals := approvals[approval := approvals[approval].(status := Expired)];
      CanExpire(start, approval);
      ghost var mid := View();
      toolApprovals := toolApprovals - {approval};
      CanUnpark(mid, approval);
      CanTrans(start, mid, View());
      expired := true;
    }

    /** Tear down the session of a task that is Running or Ready with an assigned agent. */
    method StopSession(task: TaskId, activeTasks: set<TaskId>)
      modifies this`sessions
      ensures Can(old(View()), View())
      ensures sessions == if task in activeTasks then old(sessions) - {task} else old(sessions)
    {
      ghost var start := View();
      if task in activeTasks {
        sessions := sessions - {task};
        CanDropSession(start, task);
      } else {
        CanStay(start);
      }
    }

    /**
     The sweep's work on one approval: read the store again, expire the approval if it is still due, and
     read once more to tear down the session of its task. A failing store call ends the sweep.
     */
    method SweepOne(approval: ApprovalId, task: TaskId, activeTasks: set<TaskId>, weather: SweepWeather)
      returns (goesOn: bool)
      modifies this`approvals, this`toolApprovals, this`sessions
      ensures Can(old(View()), View())
      ensures var due := approval in old(approvals) && Due(old(approvals)[approval], clock);
              var expires := due && weather.latestRead && weather.committed;
              && goesOn == (weather.latestRead && (due ==> weather.committed && weather.taskRead))
              && (approvals, toolApprovals) == (if expires
                                                then ExpiredOne(old(approvals), old(toolApprovals), approval, clock)
                                                else (old(approvals), old(toolApprovals)))
              && sessions == (if expires && weather.taskRead && task in activeTasks then old(sessions) - {task}
                              else old(sessions))
    {
      ghost var start := View();
      if !weather.latestRead {
        CanStay(start);
        return false;
      }
      if approval in approvals && Due(approvals[approval], clock) && !weather.committed {
        CanStay(start);
        return false;
      }
      var expired := ExpireOne(approval);
      if !expired {
        return true;
      }
      if !weather.taskRead {
        return false;
      }
      ghost var mid := View();
      StopSession(task, activeTasks);
      CanTrans(start, mid, View());
      goesOn := true;
    }

    /** The sweep's work on the next entry of its snapshot, if that was due. */
    method SweepEntry(ghost w: Sweep, ghost parked: map<ApprovalId, Parked>, i: nat, entry: (ApprovalId, Approval),
                      activeTasks: set<TaskId>, weather: SweepWeather)
      returns (goesOn: bool)
      requires i < |w.snapshot| && w.snapshot[i] == entry && w.activeTasks == activeTasks && w.now == clock
      requires forall i, j | 0 <= i < j < |w.snapshot| :: w.snapshot[i].0 != w.snapshot[j].0
      requires Progress(w, i, approvals, sessions) && OnlyTorn(w, sessions)
      requires Swept(w.approvals, parked, approvals, toolApprovals, clock)
      modifies this`approvals, this`toolApprovals, this`sessions
      ensures Can(old(View()), View())
      ensures OnlyTorn(w, sessions) && Swept(w.approvals, parked, approvals, toolApprovals, clock)
      ensures goesOn ==> Progress(w, i + 1, approvals, sessions)
    {
      ghost var start := View();
      if !Due(entry.1, clock) {
        ProgressSkip(w, i, approvals, sessions);
        CanStay(start);
        return true;
      }
      SweptOneMore(w.approvals, parked, approvals, toolApprovals, entry.0, clock);
      goesOn := SweepOne(entry.0, entry.1.task, activeTasks, weather);
      TornOneMore(w, i, start.approvals, start.sessions, sessions);
      if goesOn {
        ProgressStep(w, i, start.approvals, approvals, start.sessions, sessions);
      }
    }

    /** The expiry sweep over the approvals of an earlier snapshot. */
    method ExpireApprovals(snapshot: seq<(ApprovalId, Approval)>, activeTasks: set<TaskId>, weather: seq<SweepWeather>)
      returns (finished: bool)
      requires |weather| == |snapshot|
      requires forall i, j | 0 <= i < j < |snapshot| :: snapshot[i].0 != snapshot[j].0
      modifies this`approvals, this`toolApprovals, this`sessions
      ensures Can(old(View()), View())
      ensures Swept(old(approvals), old(toolApprovals), approvals, toolApprovals, clock)
      ensures var w := Sweep(snapshot, activeTasks, clock, old(approvals), old(sessions));
              && OnlyTorn(w, sessions)
              && (finished ==> forall i | 0 <= i < |snapshot| && Due(snapshot[i].1, clock) ::
                                 SweptAway(w, i, approvals, sessions))
    {
      ghost var w := Sweep(snapshot, activeTasks, clock, approvals, sessions);
      ghost var start := View();
      CanStay(start);
      var i := 0;
      while i < |snapshot|
        invariant 0 <= i <= |snapshot|
        invariant Can(start, View())
        invariant Swept(w.approvals, start.parked, approvals, toolApprovals, clock)
        invariant Progress(w, i, approvals, sessions) && OnlyTorn(w, sessions)
      {
        ghost var mid := View();
        var goesOn := SweepEntry(w, start.parked, i, snapshot[i], activeTasks, weather[i]);
        CanTrans(start, mid, View());
        if !goesOn {
          return false;
        }
        i := i + 1;
      }
      finished := true;
    }
  }

  lemma {:induction false} CanAsk(s: State, f: FlightId, approval: ApprovalId, ttl: nat, asked: Approval)
    requires f in s.flights && s.flights[f] == Marked(asked.origin, asked.task) && approval !in s.approvals
    requires asked.status == Pending && asked.expiresAt == s.clock + ttl
    ensures Can(s, s.(flights := s.flights[f := Routing(asked.origin, asked.task, approval)],
                      approvals := s.approvals[approval := asked]))
  {
    CanRequestApproval(s, f, approval, ttl);
  }

  lemma {:induction false} CanCommit(s: State, f: FlightId, approval: ApprovalId, decision: Decision)
    requires f !in s.flights && approval in s.approvals && s.approvals[approval].status == Pending
    ensures var status := if s.approvals[approval].expiresAt <= s.clock then Expired else StatusFor(decision);
            Can(s, s.(flights := s.flights[f := Decided(approval, decision)],
                      approvals := s.approvals[approval := s.approvals[approval].(status := status)]))
  {
    CanDecide(s, f, approval, decision);
  }

  /** Approvals and parked calls after one approval was expired, if it was due. */
  function ExpiredOne(approvals: map<ApprovalId, Approval>, parked: map<ApprovalId, Parked>, p: ApprovalId, now: nat)
    : (map<ApprovalId, Approval>, map<ApprovalId, Parked>)
  {
    if p in approvals && Due(approvals[p], now)
    then (approvals[p := approvals[p].(status := Expired)], parked - {p})
    else (approvals, parked)
  }

  /** Only due approvals changed, to Expired; expired calls no longer wait, the others still do. */
  ghost predicate Swept(before: map<ApprovalId, Approval>, parkedBefore: map<ApprovalId, Parked>,
                        after: map<ApprovalId, Approval>, parkedAfter: map<ApprovalId, Parked>, now: nat)
  {
    && after.Keys == before.Keys
    && (forall p | p in before ::
          after[p] == before[p] || (Due(before[p], now) && after[p] == before[p].(status := Expired)))
    && (forall p | p in parkedAfter :: p in parkedBefore && parkedAfter[p] == parkedBefore[p])
    && (forall p | p in parkedBefore :: p in parkedAfter <==> !(p in after && after[p] != before[p]))
  }

  /** A sweep: its snapshot, the tasks that are active, the time, and the approvals and sessions it found. */
  datatype Sweep = Sweep(snapshot: seq<(ApprovalId, Approval)>, activeTasks: set<TaskId>, now: nat,
                         approvals: map<ApprovalId, Approval>, sessions: map<TaskId, SessionId>)

  /** The entry is due no more, and if the sweep expired it, the session of its active task is gone. */
  predicate SweptAway(w: Sweep, i: nat, approvals: map<ApprovalId, Approval>, sessions: map<TaskId, SessionId>)
    requires i < |w.snapshot|
  {
    var (p, seen) := w.snapshot[i];
    p in w.approvals ==>
      && p in approvals
      && !Due(approvals[p], w.now)
      && (Due(w.approvals[p], w.now) && seen.task in w.activeTasks ==> seen.task !in sessions)
  }

  /** The sweep left the entry's approval alone. */
  predicate Untouched(w: Sweep, i: nat, approvals: map<ApprovalId, Approval>)
    requires i < |w.snapshot|
  {
    var p := w.snapshot[i].0;
    (p in approvals <==> p in w.approvals) && (p in approvals ==> approvals[p] == w.approvals[p])
  }

  /** The first `n` entries are swept away, and the approvals of the others are as they were. */
  ghost predicate Progress(w: Sweep, n: nat, approvals: map<ApprovalId, Approval>, sessions: map<TaskId, SessionId>) {
    && n <= |w.snapshot|
    && (forall j | n <= j < |w.snapshot| :: Untouched(w, j, approvals))
    && (forall j | 0 <= j < n && Due(w.snapshot[j].1, w.now) :: SweptAway(w, j, approvals, sessions))
  }

  lemma {:induction false} ProgressSkip(w: Sweep, n: nat, approvals: map<ApprovalId, Approval>,
                                        sessions: map<TaskId, SessionId>)
    requires n < |w.snapshot| && !Due(w.snapshot[n].1, w.now)
    requires Progress(w, n, approvals, sessions)
    ensures Progress(w, n + 1, approvals, sessions)
  {
  }

  /** Expiring the next entry, if it is due, and tearing down the session of its task makes progress. */
  lemma {:induction false} ProgressStep(w: Sweep, n: nat, mid: map<ApprovalId, Approval>,
                                        approvals: map<ApprovalId, Approval>, sessionsMid: map<TaskId, SessionId>,
                                        sessions: map<TaskId, SessionId>)
    requires n < |w.snapshot| && (forall i, j | 0 <= i < j < |w.snapshot| :: w.snapshot[i].0 != w.snapshot[j].0)
    requires Progress(w, n, mid, sessionsMid)
    requires var (p, seen) := w.snapshot[n];
             var due := p in mid && Due(mid[p], w.now);
             && approvals == (if due then mid[p := mid[p].(status := Expired)] else mid)
             && sessions == (if due && seen.task in w.activeTasks then sessionsMid - {seen.task} else sessionsMid)
    ensures Progress(w, n + 1, approvals, sessions)
  {
    forall j | 0 <= j < n + 1 && Due(w.snapshot[j].1, w.now)
      ensures SweptAway(w, j, approvals, sessions)
    {
      if j < n {
        assert SweptAway(w, j, mid, sessionsMid);
      } else {
        assert Untouched(w, j, mid);
      }
    }
    forall j | n + 1 <= j < |w.snapshot|
      ensures Untouched(w, j, approvals)
    {
      assert Untouched(w, j, mid);
    }
  }

  /** An entry of the task is among those whose approval was due. */
  ghost predicate Torn(w: Sweep, task: TaskId) {
    exists i :: 0 <= i < |w.snapshot| && w.snapshot[i].1.task == task && w.snapshot[i].0 in w.approvals
                && Due(w.approvals[w.snapshot[i].0], w.now)
  }

  /** Only sessions of active tasks with a due approval are gone, and none is new. */
  ghost predicate OnlyTorn(w: Sweep, sessions: map<TaskId, SessionId>) {
    && (forall task | task in sessions :: task in w.sessions && sessions[task] == w.sessions[task])
    && (forall task | task in w.sessions && task !in sessions :: task in w.activeTasks && Torn(w, task))
  }

  lemma {:induction false} TornOneMore(w: Sweep, n: nat, mid: map<ApprovalId, Approval>,
                                       sessionsMid: map<TaskId, SessionId>, sessions: map<TaskId, SessionId>)
    requires Progress(w, n, mid, sessionsMid) && n < |w.snapshot|
    requires OnlyTorn(w, sessionsMid)
    requires sessions == sessionsMid
             || (var (p, seen) := w.snapshot[n];
                 p in mid && Due(mid[p], w.now) && seen.task in w.activeTasks && sessions == sessionsMid - {seen.task})
    ensures OnlyTorn(w, sessions)
  {
    if sessions != sessionsMid {
      assert Untouched(w, n, mid);
      assert Torn(w, w.snapshot[n].1.task);
    }
  }

  lemma {:induction false} SweptOneMore(before: map<ApprovalId, Approval>, parkedBefore: map<ApprovalId, Parked>,
                                        after: map<ApprovalId, Approval>, parkedAfter: map<ApprovalId, Parked>,
                                        p: ApprovalId, now: nat)
    requires Swept(before, parkedBefore, after, parkedAfter, now)
    ensures var (approvals, parked) := ExpiredOne(after, parkedAfter, p, now);
            Swept(before, parkedBefore, approvals, parked, now)
  {
  }
}
