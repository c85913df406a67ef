/**
 The durable tool-call protocol of the orchestrator.

 A provider tool call first leaves a durable request marker, then runs directly or
 waits for an approval, and finally leaves a durable result. The live maps (`sessions`,
 the parked calls of `tool_approvals`) and the running handlers are lost in a crash,
 the stored items and approvals are not.

 The handlers are asynchronous, so the machine below breaks them at every store call
 and every lock: an `Action` is one uninterrupted piece of one handler, a `Flight` is a
 handler stopped between two pieces, and any interleaving of actions is a run. Crashes
 and failed store calls can therefore strike between any two pieces.
 */
module ToolCalls {
  import opened Wrappers
  import opened Strings
  import opened Json
  import opened Limits

  type TaskId = nat
  type ApprovalId = nat
  type FlightId = nat
  type SessionId = string
  type CallId = string

  /** One tool call of one provider session. */
  datatype Key = Key(session: SessionId, call: CallId)

  datatype Status = Pending | Approved | Denied | Expired
  datatype Decision = AllowOnce | AllowForTask | DenyOnce

  /** A stored approval; `origin` is the call its operation text names, `expiresAt` its deadline in seconds. */
  datatype Approval = Approval(status: Status, origin: Key, task: TaskId, expiresAt: nat)

  /** A stored item of a provider session. */
  datatype ItemValue = Marker(call: CallId) | ToolResult(call: CallId, content: string) | Other

  /** An entry of `tool_approvals`. */
  datatype Parked = Parked(task: TaskId, key: Key)

  /** The side effect of a call, with the approval and the decision it ran under, if any. */
  datatype Effect = Effect(key: Key, via: Option<ApprovalId>, decision: Option<Decision>)

  /** A handler stopped between two store calls. */
  datatype Flight =
    | Unmarked(key: Key, task: TaskId)
    | Marked(key: Key, task: TaskId)
    | Direct(key: Key, task: TaskId)
    | Routing(key: Key, task: TaskId, approval: ApprovalId)
    | Decided(approval: ApprovalId, decision: Decision)
    | Responding(approval: ApprovalId, status: Status, decision: Decision)
    | Taken(key: Key, task: TaskId, approval: ApprovalId, status: Status, decision: Decision)
    | Allowed(key: Key, approval: ApprovalId, decision: Decision, target: SessionId)
    | Delivering(target: SessionId, call: CallId, output: string)
    | Submitting(target: SessionId, call: CallId, content: string)

  datatype State = State(
    // volatile
    sessions: map<TaskId, SessionId>,
    parked: map<ApprovalId, Parked>,
    flights: map<FlightId, Flight>,
    // the daemon's clock, in seconds
    clock: nat,
    // durable
    items: map<(SessionId, string), ItemValue>,
    approvals: map<ApprovalId, Approval>,
    // history
    effects: seq<Effect>,
    submitted: seq<(Key, string)>)

  const INTERRUPTED :=
    "{\"error\":\"OpenRouter tool call was interrupted before its result was durable\",\"ok\":false}"
  const OVERSIZED := "{\"error\":\"tool result exceeded Frank's output cap\",\"ok\":false}"

  function RequestItem(call: CallId): string { "tool-" + call + "-request" }
  function ResultItem(call: CallId): string { "tool-" + call }

  /** The items that hold tool calls and results; all other writers use other ids. */
  predicate IsToolItem(id: string) { "tool-" <= id }

  /** The store keeps the first value written under an item id. */
  function Append(items: map<(SessionId, string), ItemValue>, session: SessionId, id: string, value: ItemValue)
    : map<(SessionId, string), ItemValue>
  {
    if (session, id) in items then items else items[(session, id) := value]
  }

  function Capped(content: string): string {
    if Bytes(content) > MAX_COMMAND_BODY_BYTES then OVERSIZED else content
  }

  /** The store refuses an item that exceeds the cap as text, wrapped and escaped. */
  predicate Fits(call: CallId, content: string) { EnvelopeSize(call, content) <= MAX_COMMAND_BODY_BYTES }

  predicate IsAllow(status: Status, decision: Decision) {
    status == Approved && (decision == AllowOnce || decision == AllowForTask)
  }

  const EXPIRED_ANSWER := "{\"error\":\"Frank approval expired\",\"ok\":false}"
  const DENIED_ANSWER := "{\"error\":\"Frank denied this operation\",\"ok\":false}"
  const UNGRANTED_ANSWER := "{\"error\":\"Frank approval was not granted\",\"ok\":false}"

  function Refusal(status: Status): string {
    match status
    case Expired => EXPIRED_ANSWER
    case Denied => DENIED_ANSWER
    case _ => UNGRANTED_ANSWER
  }

  /** The status a decision leads to, if it comes before the deadline. */
  function StatusFor(decision: Decision): Status { if decision == DenyOnce then Denied else Approved }

  datatype Action =
    | Tick
    // sessions come and go; tearing one down may also drop its parked calls
    | OpenSession(task: TaskId, session: SessionId)
    | DropSession(task: TaskId)
    | ClearParked(task: TaskId)
    | StoreItem(session: SessionId, id: string)
    // handle_openrouter_tool_call
    | BeginCall(flight: FlightId, task: TaskId, call: CallId, denial: Option<string>)
    | AppendMarker(flight: FlightId)
    | RunDirect(flight: FlightId)
    | Refuse(flight: FlightId, reason: string)
    | RequestApproval(flight: FlightId, approval: ApprovalId, ttl: nat)
    | Park(flight: FlightId)
    | ExecuteDirect(flight: FlightId, output: string)
    // a decision, and respond_to_provider_approval behind it
    | Decide(flight: FlightId, approval: ApprovalId, decision: Decision)
    | BeginResponse(flight: FlightId)
    | TakeParked(flight: FlightId)
    | FindSession(flight: FlightId)
    | ExecuteApproved(flight: FlightId, output: string)
    // deliver_openrouter_tool_result
    | AppendResult(flight: FlightId)
    | Submit(flight: FlightId)
    // a handler that returns early because a store or provider call failed
    | Abandon(flight: FlightId)
    // the expiry sweep
    | Expire(approval: ApprovalId)
    | Unpark(approval: ApprovalId)
    | Crash

  /** Handlers of one session are serial between the transcript read and the marker append. */
  ghost predicate SerialFor(s: State, session: SessionId) {
    forall f | f in s.flights && s.flights[f].Unmarked? :: s.flights[f].key.session != session
  }

  function Land(s: State, f: FlightId): State { s.(flights := s.flights - {f}) }
  function Move(s: State, f: FlightId, to: Flight): State { s.(flights := s.flights[f := to]) }

  /** The handler goes on as `to`, or ends. */
  function Put(s: State, f: FlightId, to: Option<Flight>): State {
    s.(flights := if to.Some? then s.flights[f := to.value] else s.flights - {f})
  }

  /** The state in which a tool-call handler stops after reading the transcript. */
  function CallStart(s: State, task: TaskId, call: CallId, denial: Option<string>): Flight
    requires task in s.sessions
  {
    var session := s.sessions[task];
    if denial.Some? then
      Delivering(session, call, denial.value)
    else if (session, ResultItem(call)) in s.items && s.items[(session, ResultItem(call))].ToolResult? then
      Submitting(session, call, s.items[(session, ResultItem(call))].content)
    else if (session, RequestItem(call)) in s.items then
      Delivering(session, call, INTERRUPTED)
    else
      Unmarked(Key(session, call), task)
  }

  ghost function OnBeginCall(s: State, f: FlightId, task: TaskId, call: CallId, denial: Option<string>): State {
    if Blank(call) || f in s.flights || task !in s.sessions || !SerialFor(s, s.sessions[task]) then s
    else Move(s, f, CallStart(s, task, call, denial))
  }

  function OnAppendMarker(s: State, f: FlightId): State {
    if f !in s.flights || !s.flights[f].Unmarked? then s
    else
      var Unmarked(key, task) := s.flights[f];
      Move(s, f, Marked(key, task)).(items := Append(s.items, key.session, RequestItem(key.call), Marker(key.call)))
  }

  function OnRunDirect(s: State, f: FlightId): State {
    if f !in s.flights || !s.flights[f].Marked? then s
    else Move(s, f, Direct(s.flights[f].key, s.flights[f].task))
  }

  function OnRefuse(s: State, f: FlightId, reason: string): State {
    if f !in s.flights || !s.flights[f].Marked? then s
    else Move(s, f, Delivering(s.flights[f].key.session, s.flights[f].key.call, reason))
  }

  function OnRequestApproval(s: State, f: FlightId, approval: ApprovalId, ttl: nat): State {
    if f !in s.flights || !s.flights[f].Marked? || approval in s.approvals then s
    else
      var Marked(key, task) := s.flights[f];
      Move(s, f, Routing(key, task, approval))
        .(approvals := s.approvals[approval := Approval(Pending, key, task, s.clock + ttl)])
  }

  function OnPark(s: State, f: FlightId): State {
    if f !in s.flights || !s.flights[f].Routing? then s
    else
      var Routing(key, task, approval) := s.flights[f];
      Land(s, f).(parked := s.parked[approval := Parked(task, key)])
  }

  function OnExecuteDirect(s: State, f: FlightId, output: string): State {
    if f !in s.flights || !s.flights[f].Direct? then s
    else
      var Direct(key, task) := s.flights[f];
      Move(s, f, Delivering(key.session, key.call, output)).(effects := s.effects + [Effect(key, None, None)])
  }

  /** Only a pending approval is decided, and after its deadline it expires; the responder comes next. */
  function OnDecide(s: State, f: FlightId, approval: ApprovalId, decision: Decision): State {
    if f in s.flights || approval !in s.approvals || s.approvals[approval].status != Pending then s
    else
      var status := if s.approvals[approval].expiresAt <= s.clock then Expired else StatusFor(decision);
      Move(s, f, Decided(approval, decision))
        .(approvals := s.approvals[approval := s.approvals[approval].(status := status)])
  }

  function OnBeginResponse(s: State, f: FlightId): State {
    if f !in s.flights || !s.flights[f].Decided? || s.flights[f].approval !in s.approvals then s
    else
      var Decided(approval, decision) := s.flights[f];
      Move(s, f, Responding(approval, s.approvals[approval].status, decision))
  }

  function OnTakeParked(s: State, f: FlightId): State {
    if f !in s.flights || !s.flights[f].Responding? then s
    else
      var Responding(approval, status, decision) := s.flights[f];
      var taken :=
        if approval !in s.parked then None
        else Some(Taken(s.parked[approval].key, s.parked[approval].task, approval, status, decision));
      Put(s, f, taken).(parked := s.parked - {approval})
  }

  function OnFindSession(s: State, f: FlightId): State {
    if f !in s.flights || !s.flights[f].Taken? then s
    else
      var Taken(key, task, approval, status, decision) := s.flights[f];
      var next :=
        if task !in s.sessions then None
        else if IsAllow(status, decision) then Some(Allowed(key, approval, decision, s.sessions[task]))
        else Some(Delivering(s.sessions[task], key.call, Refusal(status)));
      Put(s, f, next)
  }

  function OnExecuteApproved(s: State, f: FlightId, output: string): State {
    if f !in s.flights || !s.flights[f].Allowed? then s
    else
      var Allowed(key, approval, decision, target) := s.flights[f];
      Move(s, f, Delivering(target, key.call, output))
        .(effects := s.effects + [Effect(key, Some(approval), Some(decision))])
  }

  /** A result that does not fit the store ends its delivery. */
  function OnAppendResult(s: State, f: FlightId): State {
    if f !in s.flights || !s.flights[f].Delivering? then s
    else
      var Delivering(target, call, output) := s.flights[f];
      var content := Capped(output);
      var next := if Fits(call, content) then Some(Submitting(target, call, content)) else None;
      var items :=
        if Fits(call, content) then Append(s.items, target, ResultItem(call), ToolResult(call, content)) else s.items;
      Put(s, f, next).(items := items)
  }

  function OnSubmit(s: State, f: FlightId): State {
    if f !in s.flights || !s.flights[f].Submitting? then s
    else
      var Submitting(target, call, content) := s.flights[f];
      Land(s, f).(submitted := s.submitted + [(Key(target, call), content)])
  }

  function OnExpire(s: State, approval: ApprovalId): State {
    if approval !in s.approvals || s.approvals[approval].status != Pending || s.clock < s.approvals[approval].expiresAt
    then s
    else s.(approvals := s.approvals[approval := s.approvals[approval].(status := Expired)])
  }

  function OnStoreItem(s: State, session: SessionId, id: string): State {
    if IsToolItem(id) then s else s.(items := Append(s.items, session, id, Other))
  }

  /** One action. An action that is not enabled leaves the state alone. */
  ghost function Step(s: State, a: Action): State {
    match a
    case Tick => s.(clock := s.clock + 1)
    case OpenSession(task, session) => s.(sessions := s.sessions[task := session])
    case DropSession(task) => s.(sessions := s.sessions - {task})
    case ClearParked(task) => s.(parked := map p | p in s.parked && s.parked[p].task != task :: s.parked[p])
    case StoreItem(session, id) => OnStoreItem(s, session, id)
    case BeginCall(f, task, call, denial) => OnBeginCall(s, f, task, call, denial)
    case AppendMarker(f) => OnAppendMarker(s, f)
    case RunDirect(f) => OnRunDirect(s, f)
    case Refuse(f, reason) => OnRefuse(s, f, reason)
    case RequestApproval(f, approval, ttl) => OnRequestApproval(s, f, approval, ttl)
    case Park(f) => OnPark(s, f)
    case ExecuteDirect(f, output) => OnExecuteDirect(s, f, output)
    case Decide(f, approval, decision) => OnDecide(s, f, approval, decision)
    case BeginResponse(f) => OnBeginResponse(s, f)
    case TakeParked(f) => OnTakeParked(s, f)
    case FindSession(f) => OnFindSession(s, f)
    case ExecuteApproved(f, output) => OnExecuteApproved(s, f, output)
    case AppendResult(f) => OnAppendResult(s, f)
    case Submit(f) => OnSubmit(s, f)
    case Abandon(f) => Land(s, f)
    case Expire(approval) => OnExpire(s, approval)
    case Unpark(approval) => s.(parked := s.parked - {approval})
    case Crash => s.(sessions := map[], parked := map[], flights := map[])
  }

  ghost function Run(s: State, actions: seq<Action>): State
    decreases |actions|
  {
    if actions == [] then s else Run(Step(s, actions[0]), actions[1..])
  }

  /** A freshly installed daemon: nothing live, nothing stored. */
  const INITIAL := State(map[], map[], map[], 0, map[], map[], [], [])

  // ---------------------------------------------------------------------------
  // The permits of a call: wherever the right to run its effect can sit.

  datatype Holder = Done(index: nat) | Waiting(approval: ApprovalId) | InFlight(flight: FlightId)

  predicate Carries(f: Flight) {
    f.Marked? || f.Direct? || f.Routing? || f.Taken? || f.Allowed?
  }

  predicate Holds(s: State, h: Holder, k: Key) {
    match h
    case Done(i) => i < |s.effects| && s.effects[i].key == k
    case Waiting(p) => p in s.parked && s.parked[p].key == k
    case InFlight(f) => f in s.flights && Carries(s.flights[f]) && s.flights[f].key == k
  }

  /** The approval a permit came through, if any. */
  function Via(s: State, h: Holder): Option<ApprovalId>
    requires exists k :: Holds(s, h, k)
  {
    match h
    case Done(i) => s.effects[i].via
    case Waiting(p) => Some(p)
    case InFlight(f) =>
      var x := s.flights[f];
      if x.Routing? || x.Taken? || x.Allowed? then Some(x.approval) else None
  }

  predicate HasMarker(s: State, k: Key) { (k.session, RequestItem(k.call)) in s.items }

  /** No call has two permits, and a call with a permit has its marker id taken. */
  ghost predicate OnePermit(s: State) {
    && (forall h, h', k | Holds(s, h, k) && Holds(s, h', k) :: h == h')
    && (forall h, k | Holds(s, h, k) :: HasMarker(s, k))
    && (forall f, h | f in s.flights && s.flights[f].Unmarked? :: !Holds(s, h, s.flights[f].key))
    && (forall f, g | f in s.flights && g in s.flights && s.flights[f].Unmarked? && s.flights[g].Unmarked?
                      && s.flights[f].key.session == s.flights[g].key.session :: f == g)
  }

  /** Permits that came through an approval name the stored approval of that very call. */
  ghost predicate Traced(s: State) {
    && (forall h, k | Holds(s, h, k) :: var v := Via(s, h);
          v.Some? ==> v.value in s.approvals && s.approvals[v.value].origin == k)
    && (forall h, k, p | Holds(s, h, k) && p in s.approvals && s.approvals[p].origin == k :: Via(s, h) == Some(p))
    && (forall f, p | f in s.flights && s.flights[f].Unmarked? && p in s.approvals ::
          s.approvals[p].origin != s.flights[f].key)
    && (forall p | p in s.approvals :: HasMarker(s, s.approvals[p].origin))
  }

  /** The approval has been decided by `decision`, in time or too late. */
  predicate DecidedBy(approvals: map<ApprovalId, Approval>, p: ApprovalId, decision: Decision) {
    p in approvals && approvals[p].status in {StatusFor(decision), Expired}
  }

  /** What a handler knows of its approval: its decision was applied, and the status it read still stands. */
  predicate ReadOk(approvals: map<ApprovalId, Approval>, f: Flight) {
    match f
    case Decided(p, decision) => DecidedBy(approvals, p, decision)
    case Responding(p, status, decision) => DecidedBy(approvals, p, decision) && approvals[p].status == status
    case Taken(_, _, p, status, decision) => DecidedBy(approvals, p, decision) && approvals[p].status == status
    case Allowed(_, p, decision, _) => p in approvals && IsAllow(approvals[p].status, decision)
    case _ => true
  }

  predicate RanOk(approvals: map<ApprovalId, Approval>, e: Effect) {
    e.via.Some? ==>
      && e.via.value in approvals
      && e.decision.Some?
      && IsAllow(approvals[e.via.value].status, e.decision.value)
  }

  /** Every handler behind a decision knows what the store still says. */
  ghost predicate ReadsFinal(s: State) {
    && (forall f | f in s.flights :: ReadOk(s.approvals, s.flights[f]))
    && (forall i | 0 <= i < |s.effects| :: RanOk(s.approvals, s.effects[i]))
  }

  ghost predicate Inv(s: State) { OnePermit(s) && Traced(s) && ReadsFinal(s) }

  /** The permit of `s` that a permit held after the action moved from. */
  function Before(s: State, a: Action, h: Holder): Holder {
    match a
    case Park(f) =>
      if f in s.flights && s.flights[f].Routing? && h == Waiting(s.flights[f].approval) then InFlight(f) else h
    case TakeParked(f) =>
      if f in s.flights && s.flights[f].Responding? && h == InFlight(f) then Waiting(s.flights[f].approval) else h
    case ExecuteDirect(f, _) =>
      if f in s.flights && s.flights[f].Direct? && h == Done(|s.effects|) then InFlight(f) else h
    case ExecuteApproved(f, _) =>
      if f in s.flights && s.flights[f].Allowed? && h == Done(|s.effects|) then InFlight(f) else h
    case _ => h
  }

  /** The one action that creates a permit: the marker append of a call that had none. */
  predicate Grants(s: State, a: Action, h: Holder, k: Key) {
    && a.AppendMarker? && h == InFlight(a.flight)
    && a.flight in s.flights && s.flights[a.flight].Unmarked? && s.flights[a.flight].key == k
  }

  lemma {:induction false} DoneMoves(s: State, a: Action, i: nat, k: Key)
    requires Holds(Step(s, a), Done(i), k)
    ensures Holds(s, Before(s, a, Done(i)), k)
  {
  }

  lemma {:induction false} WaitingMoves(s: State, a: Action, p: ApprovalId, k: Key)
    requires Holds(Step(s, a), Waiting(p), k)
    ensures Holds(s, Before(s, a, Waiting(p)), k)
  {
  }

  lemma {:induction false} FlightMoves(s: State, a: Action, f: FlightId, k: Key)
    requires Holds(Step(s, a), InFlight(f), k)
    ensures Grants(s, a, InFlight(f), k) || Holds(s, Before(s, a, InFlight(f)), k)
  {
    if ActorOf(a) != Some(f) {
      OthersStay(s, a, f);
    } else {
      OwnFlightMoves(s, a, f, k);
    }
  }

  lemma {:induction false} OwnFlightMoves(s: State, a: Action, f: FlightId, k: Key)
    requires ActorOf(a) == Some(f) && Holds(Step(s, a), InFlight(f), k)
    ensures Grants(s, a, InFlight(f), k) || Holds(s, Before(s, a, InFlight(f)), k)
  {
  }

  /** The handler that takes the action, if one does. */
  function ActorOf(a: Action): Option<FlightId> {
    match a
    case BeginCall(f, _, _, _) => Some(f)
    case AppendMarker(f) => Some(f)
    case RunDirect(f) => Some(f)
    case Refuse(f, _) => Some(f)
    case RequestApproval(f, _, _) => Some(f)
    case Park(f) => Some(f)
    case ExecuteDirect(f, _) => Some(f)
    case Decide(f, _, _) => Some(f)
    case BeginResponse(f) => Some(f)
    case TakeParked(f) => Some(f)
    case FindSession(f) => Some(f)
    case ExecuteApproved(f, _) => Some(f)
    case AppendResult(f) => Some(f)
    case Submit(f) => Some(f)
    case Abandon(f) => Some(f)
    case _ => None
  }

  /** Pieces of a tool-call handler, up to the answer. */
  predicate Calls(a: Action) {
    || a.BeginCall? || a.AppendMarker? || a.RunDirect? || a.Refuse? || a.RequestApproval? || a.Park? || a.ExecuteDirect?
  }

  /** Pieces of a decision and of the responder behind it, up to the answer. */
  predicate Responds(a: Action) {
    a.Decide? || a.BeginResponse? || a.TakeParked? || a.FindSession? || a.ExecuteApproved?
  }

  /** No action moves the handler of another. */
  lemma {:induction false} OthersStay(s: State, a: Action, f: FlightId)
    requires f in Step(s, a).flights && ActorOf(a) != Some(f)
    ensures f in s.flights && Step(s, a).flights[f] == s.flights[f]
  {
    if Calls(a) {
      OtherCallsStay(s, a, f);
    } else if Responds(a) {
      OtherResponsesStay(s, a, f);
    } else if ActorOf(a).Some? {
      OtherDeliveriesStay(s, a, f);
    }
  }

  lemma {:induction false} OtherDeliveriesStay(s: State, a: Action, f: FlightId)
    requires f in Step(s, a).flights && ActorOf(a).Some? && ActorOf(a).value != f && !Calls(a) && !Responds(a)
    ensures f in s.flights && Step(s, a).flights[f] == s.flights[f]
  {
  }

  lemma {:induction false} OtherCallsStay(s: State, a: Action, f: FlightId)
    requires f in Step(s, a).flights && ActorOf(a) != Some(f) && Calls(a)
    ensures f in s.flights && Step(s, a).flights[f] == s.flights[f]
  {
  }

  lemma {:induction false} OtherResponsesStay(s: State, a: Action, f: FlightId)
    requires f in Step(s, a).flights && ActorOf(a) != Some(f) && Responds(a)
    ensures f in s.flights && Step(s, a).flights[f] == s.flights[f]
  {
  }

  /** A permit is moved, dropped or granted; it is never copied. */
  lemma {:induction false} PermitMoves(s: State, a: Action, h: Holder, k: Key)
    requires Holds(Step(s, a), h, k)
    ensures Grants(s, a, h, k) || Holds(s, Before(s, a, h), k)
  {
    match h
    case Done(i) => DoneMoves(s, a, i, k);
    case Waiting(p) => WaitingMoves(s, a, p, k);
    case InFlight(f) => FlightMoves(s, a, f, k);
  }

  lemma {:induction false} PermitsDoNotMerge(s: State, a: Action, h: Holder, h': Holder, k: Key)
    requires Holds(Step(s, a), h, k) && Holds(Step(s, a), h', k)
    requires Before(s, a, h) == Before(s, a, h')
    ensures h == h'
  {
  }

  lemma {:induction false} ItemsGrow(s: State, a: Action)
    ensures forall i | i in s.items :: i in Step(s, a).items && Step(s, a).items[i] == s.items[i]
  {
  }

  lemma {:induction false} ApprovalsStay(s: State, a: Action)
    ensures forall p | p in s.approvals ::
              && p in Step(s, a).approvals
              && Step(s, a).approvals[p].(status := s.approvals[p].status) == s.approvals[p]
              && (s.approvals[p].status != Pending ==> Step(s, a).approvals[p] == s.approvals[p])
  {
  }

  lemma {:induction false} EffectsGrow(s: State, a: Action)
    ensures s.effects <= Step(s, a).effects
  {
  }

  lemma {:induction false} DurableGrows(s: State, a: Action)
    ensures forall i | i in s.items :: i in Step(s, a).items && Step(s, a).items[i] == s.items[i]
    ensures forall p | p in s.approvals ::
              && p in Step(s, a).approvals
              && Step(s, a).approvals[p].(status := s.approvals[p].status) == s.approvals[p]
              && (s.approvals[p].status != Pending ==> Step(s, a).approvals[p] == s.approvals[p])
    ensures s.effects <= Step(s, a).effects
  {
    ItemsGrow(s, a);
    ApprovalsStay(s, a);
    EffectsGrow(s, a);
  }

  lemma {:induction false} UnmarkedComesFrom(s: State, a: Action, f: FlightId)
    requires f in Step(s, a).flights && Step(s, a).flights[f].Unmarked?
    ensures (f in s.flights && s.flights[f] == Step(s, a).flights[f])
            || (a.BeginCall? && a.flight == f && !HasMarker(s, Step(s, a).flights[f].key)
                && SerialFor(s, Step(s, a).flights[f].key.session) && Step(s, a) == Move(s, f, Step(s, a).flights[f]))
    ensures !(a.AppendMarker? && a.flight == f)
  {
    if ActorOf(a) == Some(f) {
      OwnUnmarked(s, a, f);
    } else {
      OthersStay(s, a, f);
    }
  }

  lemma {:induction false} OwnUnmarked(s: State, a: Action, f: FlightId)
    requires ActorOf(a) == Some(f) && f in Step(s, a).flights && Step(s, a).flights[f].Unmarked?
    ensures (f in s.flights && s.flights[f] == Step(s, a).flights[f])
            || (a.BeginCall? && a.flight == f && !HasMarker(s, Step(s, a).flights[f].key)
                && SerialFor(s, Step(s, a).flights[f].key.session) && Step(s, a) == Move(s, f, Step(s, a).flights[f]))
    ensures !a.AppendMarker?
  {
  }

  lemma {:induction false} StepKeepsOnePermit(s: State, a: Action)
    requires OnePermit(s)
    ensures OnePermit(Step(s, a))
  {
    var t := Step(s, a);
    DurableGrows(s, a);
    forall h, h', k | Holds(t, h, k) && Holds(t, h', k)
      ensures h == h'
    {
      PermitMoves(s, a, h, k);
      PermitMoves(s, a, h', k);
      if Holds(s, Before(s, a, h), k) && Holds(s, Before(s, a, h'), k) {
        PermitsDoNotMerge(s, a, h, h', k);
      }
    }
    forall h, k | Holds(t, h, k)
      ensures HasMarker(t, k)
    {
      PermitMoves(s, a, h, k);
    }
    forall f, h | f in t.flights && t.flights[f].Unmarked?
      ensures !Holds(t, h, t.flights[f].key)
    {
      UnmarkedComesFrom(s, a, f);
      var k := t.flights[f].key;
      if Holds(t, h, k) {
        PermitMoves(s, a, h, k);
      }
    }
    forall f, g | f in t.flights && g in t.flights && t.flights[f].Unmarked? && t.flights[g].Unmarked?
                  && t.flights[f].key.session == t.flights[g].key.session
      ensures f == g
    {
      UnmarkedComesFrom(s, a, f);
      UnmarkedComesFrom(s, a, g);
    }
  }

  /** The permit was just routed to a new approval. */
  ghost predicate Routed(s: State, a: Action, h: Holder, k: Key) {
    && a.RequestApproval? && h == InFlight(a.flight) && a.approval !in s.approvals
    && Holds(s, h, k) && Holds(Step(s, a), h, k)
    && Step(s, a).approvals.Keys == s.approvals.Keys + {a.approval}
    && Step(s, a).approvals[a.approval].origin == k
    && Via(s, h) == None && Via(Step(s, a), h) == Some(a.approval)
  }

  lemma {:induction false} FlightVia(s: State, a: Action, f: FlightId, k: Key)
    requires Holds(Step(s, a), InFlight(f), k) && Holds(s, Before(s, a, InFlight(f)), k)
    ensures Via(Step(s, a), InFlight(f)) == Via(s, Before(s, a, InFlight(f))) || Routed(s, a, InFlight(f), k)
  {
    if ActorOf(a) == Some(f) {
      OwnVia(s, a, f, k);
    } else {
      OthersStay(s, a, f);
    }
  }

  lemma {:induction false} OwnVia(s: State, a: Action, f: FlightId, k: Key)
    requires ActorOf(a) == Some(f)
    requires Holds(Step(s, a), InFlight(f), k) && Holds(s, Before(s, a, InFlight(f)), k)
    ensures Via(Step(s, a), InFlight(f)) == Via(s, Before(s, a, InFlight(f))) || Routed(s, a, InFlight(f), k)
  {
  }

  lemma {:induction false} DoneVia(s: State, a: Action, i: nat, k: Key)
    requires Holds(Step(s, a), Done(i), k) && Holds(s, Before(s, a, Done(i)), k)
    ensures Via(Step(s, a), Done(i)) == Via(s, Before(s, a, Done(i)))
  {
  }

  lemma {:induction false} WaitingVia(s: State, a: Action, p: ApprovalId, k: Key)
    requires Holds(Step(s, a), Waiting(p), k) && Holds(s, Before(s, a, Waiting(p)), k)
    ensures Via(Step(s, a), Waiting(p)) == Via(s, Before(s, a, Waiting(p)))
  {
  }

  /** Only asking for an approval changes the approval behind a permit. */
  lemma {:induction false} ViaMoves(s: State, a: Action, h: Holder, k: Key)
    requires Holds(Step(s, a), h, k) && Holds(s, Before(s, a, h), k)
    ensures Via(Step(s, a), h) == Via(s, Before(s, a, h)) || Routed(s, a, h, k)
  {
    match h
    case Done(i) => DoneVia(s, a, i, k);
    case Waiting(p) => WaitingVia(s, a, p, k);
    case InFlight(f) => FlightVia(s, a, f, k);
  }

  /** A stored approval is old, or was just requested for a call whose permit is a marked handler. */
  lemma {:induction false} ApprovalComesFrom(s: State, a: Action, p: ApprovalId)
    requires p in Step(s, a).approvals
    ensures (p in s.approvals && s.approvals[p].origin == Step(s, a).approvals[p].origin)
            || (a.RequestApproval? && a.approval == p && p !in s.approvals
              && Holds(s, InFlight(a.flight), Step(s, a).approvals[p].origin)
                && Via(s, InFlight(a.flight)) == None)
  {
  }

  lemma {:induction false} PermitTraced(s: State, a: Action, h: Holder, k: Key)
    requires Traced(s) && Holds(Step(s, a), h, k)
    ensures var v := Via(Step(s, a), h);
            v.Some? ==> v.value in Step(s, a).approvals && Step(s, a).approvals[v.value].origin == k
  {
    PermitMoves(s, a, h, k);
    DurableGrows(s, a);
    if !Grants(s, a, h, k) {
      ViaMoves(s, a, h, k);
    }
  }

  lemma {:induction false} PermitNamesApproval(s: State, a: Action, h: Holder, k: Key, p: ApprovalId)
    requires OnePermit(s) && Traced(s) && Holds(Step(s, a), h, k)
    requires p in Step(s, a).approvals && Step(s, a).approvals[p].origin == k
    ensures Via(Step(s, a), h) == Some(p)
  {
    PermitMoves(s, a, h, k);
    ApprovalComesFrom(s, a, p);
    if !Grants(s, a, h, k) {
      ViaMoves(s, a, h, k);
    }
  }

  lemma {:induction false} StepKeepsTraced(s: State, a: Action)
    requires OnePermit(s) && Traced(s)
    ensures Traced(Step(s, a))
  {
    var t := Step(s, a);
    forall h, k | Holds(t, h, k)
      ensures Via(t, h).Some? ==> Via(t, h).value in t.approvals && t.approvals[Via(t, h).value].origin == k
    {
      PermitTraced(s, a, h, k);
    }
    forall h, k, p | Holds(t, h, k) && p in t.approvals && t.approvals[p].origin == k
      ensures Via(t, h) == Some(p)
    {
      PermitNamesApproval(s, a, h, k, p);
    }
    forall f, p | f in t.flights && t.flights[f].Unmarked? && p in t.approvals
      ensures t.approvals[p].origin != t.flights[f].key
    {
      UnmarkedComesFrom(s, a, f);
      ApprovalComesFrom(s, a, p);
    }
    forall p | p in t.approvals
      ensures HasMarker(t, t.approvals[p].origin)
    {
      DurableGrows(s, a);
      ApprovalComesFrom(s, a, p);
    }
  }

  /** What a handler knows stays true, since final statuses stay. */
  lemma {:induction false} ReadStays(approvals: map<ApprovalId, Approval>, later: map<ApprovalId, Approval>, f: Flight)
    requires forall p | p in approvals && approvals[p].status != Pending :: p in later && later[p] == approvals[p]
    requires ReadOk(approvals, f)
    ensures ReadOk(later, f)
  {
  }

  lemma {:induction false} FlightReads(s: State, a: Action, f: FlightId)
    requires f in Step(s, a).flights
    requires forall g | g in s.flights :: ReadOk(s.approvals, s.flights[g])
    ensures ReadOk(Step(s, a).approvals, Step(s, a).flights[f])
  {
    ApprovalsStay(s, a);
    var t := Step(s, a);
    if ActorOf(a) == Some(f) {
      OwnReads(s, a, f);
    } else {
      OthersStay(s, a, f);
    }
    if ReadOk(s.approvals, t.flights[f]) {
      ReadStays(s.approvals, t.approvals, t.flights[f]);
    }
  }

  lemma {:induction false} OwnReads(s: State, a: Action, f: FlightId)
    requires ActorOf(a) == Some(f) && f in Step(s, a).flights
    requires f in s.flights ==> ReadOk(s.approvals, s.flights[f])
    ensures ReadOk(s.approvals, Step(s, a).flights[f])
            || (a.Decide? && ReadOk(Step(s, a).approvals, Step(s, a).flights[f]))
  {
    if Responds(a) {
      ResponderReads(s, a, f);
    } else {
      CallerReads(s, a, f);
    }
  }

  lemma {:induction false} ResponderReads(s: State, a: Action, f: FlightId)
    requires ActorOf(a) == Some(f) && f in Step(s, a).flights && Responds(a)
    requires f in s.flights ==> ReadOk(s.approvals, s.flights[f])
    ensures ReadOk(s.approvals, Step(s, a).flights[f])
            || (a.Decide? && ReadOk(Step(s, a).approvals, Step(s, a).flights[f]))
  {
  }

  lemma {:induction false} CallerReads(s: State, a: Action, f: FlightId)
    requires ActorOf(a) == Some(f) && f in Step(s, a).flights && !Responds(a)
    requires f in s.flights ==> ReadOk(s.approvals, s.flights[f])
    ensures ReadOk(s.approvals, Step(s, a).flights[f])
  {
  }

  lemma {:induction false} EffectRead(s: State, a: Action, i: nat)
    requires ReadsFinal(s)
    requires i < |Step(s, a).effects|
    ensures RanOk(s.approvals, Step(s, a).effects[i])
  {
  }

  lemma {:induction false} StepKeepsReads(s: State, a: Action)
    requires ReadsFinal(s)
    ensures ReadsFinal(Step(s, a))
  {
    var t := Step(s, a);
    DurableGrows(s, a);
    forall f | f in t.flights
      ensures ReadOk(t.approvals, t.flights[f])
    {
      FlightReads(s, a, f);
    }
    forall i | 0 <= i < |t.effects|
      ensures RanOk(t.approvals, t.effects[i])
    {
      EffectRead(s, a, i);
    }
  }

  lemma {:induction false} StepKeepsInv(s: State, a: Action)
    requires Inv(s)
    ensures Inv(Step(s, a))
  {
    StepKeepsOnePermit(s, a);
    StepKeepsTraced(s, a);
    StepKeepsReads(s, a);
  }

  // ---------------------------------------------------------------------------
  // Safety of every run.

  ghost predicate Reachable(s: State) { exists actions :: Run(INITIAL, actions) == s }

  lemma {:induction false} RunKeepsInv(s: State, actions: seq<Action>)
    requires Inv(s)
    ensures Inv(Run(s, actions))
    decreases |actions|
  {
    if actions != [] {
      StepKeepsInv(s, actions[0]);
      RunKeepsInv(Step(s, actions[0]), actions[1..]);
    }
  }

  lemma {:induction false} ReachableInv(s: State)
    requires Reachable(s)
    ensures Inv(s)
  {
    var actions :| Run(INITIAL, actions) == s;
    RunKeepsInv(INITIAL, actions);
  }

  /** Stored items and final statuses never change, and effects are never undone. */
  lemma {:induction false} RunDurable(s: State, actions: seq<Action>)
    ensures forall i | i in s.items :: i in Run(s, actions).items && Run(s, actions).items[i] == s.items[i]
    ensures forall p | p in s.approvals ::
              && p in Run(s, actions).approvals
              && Run(s, actions).approvals[p].(status := s.approvals[p].status) == s.approvals[p]
              && (s.approvals[p].status != Pending ==> Run(s, actions).approvals[p] == s.approvals[p])
    ensures s.effects <= Run(s, actions).effects
    decreases |actions|
  {
    if actions != [] {
      DurableGrows(s, actions[0]);
      RunDurable(Step(s, actions[0]), actions[1..]);
    }
  }

  /** Whatever is duplicated, approved, expired or crashed: a call's effect runs at most once. */
  lemma {:induction false} EffectsRunAtMostOnce(s: State, i: nat, j: nat)
    requires Reachable(s)
    requires i < j < |s.effects|
    ensures s.effects[i].key != s.effects[j].key
  {
    ReachableInv(s);
    var k := s.effects[j].key;
    assert Holds(s, Done(j), k);
    if s.effects[i].key == k {
      assert Holds(s, Done(i), k);
    }
  }

  /** A call that was routed to an approval runs only through that approval, once it is granted. */
  lemma {:induction false} RoutedCallsNeedTheirApproval(s: State, i: nat, p: ApprovalId)
    requires Reachable(s)
    requires i < |s.effects| && p in s.approvals && s.approvals[p].origin == s.effects[i].key
    ensures s.effects[i].via == Some(p)
    ensures s.effects[i].decision.Some? && IsAllow(s.approvals[p].status, s.effects[i].decision.value)
  {
    ReachableInv(s);
    assert Holds(s, Done(i), s.effects[i].key);
    assert Via(s, Done(i)) == Some(p);
    assert RanOk(s.approvals, s.effects[i]);
  }

  /** Once its approval is denied or expired, no continuation runs the call. */
  lemma {:induction false} RefusedCallsNeverRun(s: State, more: seq<Action>, p: ApprovalId, i: nat)
    requires Reachable(s)
    requires p in s.approvals && s.approvals[p].status in {Denied, Expired}
    requires i < |Run(s, more).effects|
    ensures Run(s, more).effects[i].key != s.approvals[p].origin
  {
    ReachableInv(s);
    RunKeepsInv(s, more);
    RunDurable(s, more);
    var t := Run(s, more);
    assert Holds(t, Done(i), t.effects[i].key);
    assert RanOk(t.approvals, t.effects[i]);
  }

  /**
   A duplicate of a call whose result is durable replays that result, whatever happened since, exactly
   unless it is vetoed: the veto is decided before the transcript is read, and answers with its own text.
   */
  lemma {:induction false} DuplicatesReplayTheDurableResult(s: State, more: seq<Action>, task: TaskId, call: CallId,
                                                            denial: Option<string>)
    requires task in Run(s, more).sessions
    requires var id := (Run(s, more).sessions[task], ResultItem(call)); id in s.items && s.items[id].ToolResult?
    ensures var session := Run(s, more).sessions[task];
            var start := CallStart(Run(s, more), task, call, denial);
            && (start == Submitting(session, call, s.items[(session, ResultItem(call))].content) <==> denial.None?)
            && (denial.Some? ==> start == Delivering(session, call, denial.value))
  {
    RunDurable(s, more);
  }

  // ---------------------------------------------------------------------------
  // What is handed to the provider, and what is durable.

  /** Stored results stand under their ids and fit; what is handed over, or about to be, fits and has an item. */
  ghost predicate Stored(s: State) {
    && (forall id | id in s.items && s.items[id].ToolResult? ::
          id.1 == ResultItem(s.items[id].call) && Fits(s.items[id].call, s.items[id].content))
    && (forall f | f in s.flights && s.flights[f].Submitting? ::
          (s.flights[f].target, ResultItem(s.flights[f].call)) in s.items
            && Fits(s.flights[f].call, s.flights[f].content))
    && (forall i | 0 <= i < |s.submitted| ::
          (s.submitted[i].0.session, ResultItem(s.submitted[i].0.call)) in s.items
          && Fits(s.submitted[i].0.call, s.submitted[i].1))
  }

  lemma {:induction false} SameResultItem(call: CallId, other: CallId)
    requires ResultItem(call) == ResultItem(other)
    ensures call == other
  {
    assert ResultItem(call)[5..] == call && ResultItem(other)[5..] == other;
  }

  lemma {:induction false} ReplayFits(s: State, task: TaskId, call: CallId, denial: Option<string>)
    requires Stored(s) && task in s.sessions && CallStart(s, task, call, denial).Submitting?
    ensures Fits(call, CallStart(s, task, call, denial).content)
  {
    SameResultItem(call, s.items[(s.sessions[task], ResultItem(call))].call);
  }

  lemma {:induction false} OwnSubmitting(s: State, a: Action, f: FlightId)
    requires Stored(s) && ActorOf(a) == Some(f) && f in Step(s, a).flights && Step(s, a).flights[f].Submitting?
    ensures (Step(s, a).flights[f].target, ResultItem(Step(s, a).flights[f].call)) in Step(s, a).items
    ensures Fits(Step(s, a).flights[f].call, Step(s, a).flights[f].content)
  {
    if a.BeginCall? {
      if Step(s, a) != s {
        ReplayFits(s, a.task, a.call, a.denial);
      }
    } else {
      AppendedFits(s, a, f);
    }
  }

  lemma {:induction false} AppendedFits(s: State, a: Action, f: FlightId)
    requires ActorOf(a) == Some(f) && !a.BeginCall? && f in Step(s, a).flights && Step(s, a).flights[f].Submitting?
    ensures Step(s, a) == s
            || ((Step(s, a).flights[f].target, ResultItem(Step(s, a).flights[f].call)) in Step(s, a).items
                && Fits(Step(s, a).flights[f].call, Step(s, a).flights[f].content))
  {
  }

  lemma {:induction false} SubmittingFits(s: State, a: Action, f: FlightId)
    requires Stored(s) && f in Step(s, a).flights && Step(s, a).flights[f].Submitting?
    ensures (Step(s, a).flights[f].target, ResultItem(Step(s, a).flights[f].call)) in Step(s, a).items
    ensures Fits(Step(s, a).flights[f].call, Step(s, a).flights[f].content)
  {
    if ActorOf(a) == Some(f) {
      OwnSubmitting(s, a, f);
    } else {
      OthersStay(s, a, f);
      ItemsGrow(s, a);
    }
  }

  lemma {:induction false} ResultComesFrom(s: State, a: Action, id: (SessionId, string))
    requires id in Step(s, a).items && Step(s, a).items[id].ToolResult?
    ensures (id in s.items && s.items[id] == Step(s, a).items[id])
            || (id.1 == ResultItem(Step(s, a).items[id].call)
                && Fits(Step(s, a).items[id].call, Step(s, a).items[id].content))
  {
  }

  lemma {:induction false} SubmittedComesFrom(s: State, a: Action)
    ensures Step(s, a).submitted == s.submitted
            || (a.Submit? && a.flight in s.flights && s.flights[a.flight].Submitting?
                && Step(s, a).submitted
                   == s.submitted + [(Key(s.flights[a.flight].target, s.flights[a.flight].call),
                       s.flights[a.flight].content)])
  {
  }

  lemma {:induction false} StepKeepsStored(s: State, a: Action)
    requires Stored(s)
    ensures Stored(Step(s, a))
  {
    var t := Step(s, a);
    ItemsGrow(s, a);
    forall id | id in t.items && t.items[id].ToolResult?
      ensures id.1 == ResultItem(t.items[id].call) && Fits(t.items[id].call, t.items[id].content)
    {
      ResultComesFrom(s, a, id);
    }
    forall f | f in t.flights && t.flights[f].Submitting?
      ensures (t.flights[f].target, ResultItem(t.flights[f].call)) in t.items
              && Fits(t.flights[f].call, t.flights[f].content)
    {
      SubmittingFits(s, a, f);
    }
    SubmittedComesFrom(s, a);
  }

  lemma {:induction false} RunKeepsStored(s: State, actions: seq<Action>)
    requires Stored(s)
    ensures Stored(Run(s, actions))
    decreases |actions|
  {
    if actions != [] {
      StepKeepsStored(s, actions[0]);
      RunKeepsStored(Step(s, actions[0]), actions[1..]);
    }
  }

  /** Whatever is handed to the provider has an item under its result id, and would itself fit the store. */
  lemma {:induction false} SubmittedResultsHaveItems(s: State, i: nat)
    requires Reachable(s) && i < |s.submitted|
    ensures (s.submitted[i].0.session, ResultItem(s.submitted[i].0.call)) in s.items
    ensures Fits(s.submitted[i].0.call, s.submitted[i].1)
  {
    var actions :| Run(INITIAL, actions) == s;
    RunKeepsStored(INITIAL, actions);
  }

  /**
   A delivery keeps the first item ever stored under the result id; what it hands over is the durable
   content exactly if the id was free or already held that content. A result that does not fit, wrapped
   and escaped, is neither stored nor handed over.
   */
  lemma {:induction false} SubmittedIsDurableIff(s: State, f: FlightId)
    requires f in s.flights && s.flights[f].Delivering?
    ensures var Delivering(target, call, output) := s.flights[f];
            var id, content := (target, ResultItem(call)), Capped(output);
            var t := Step(Step(s, AppendResult(f)), Submit(f));
            if Fits(call, content) then
              && t.submitted == s.submitted + [(Key(target, call), content)]
              && id in t.items
              && (id in s.items ==> t.items[id] == s.items[id])
              && (t.items[id] == ToolResult(call, content)
                  <==> id !in s.items || s.items[id] == ToolResult(call, content))
            else
              t == Land(s, f)
  {
    DeliveryIs(s, f);
    assert Step(s, AppendResult(f)) == OnAppendResult(s, f);
  }

  lemma {:induction false} DeliveryIs(s: State, f: FlightId)
    requires f in s.flights && s.flights[f].Delivering?
    ensures var Delivering(target, call, output) := s.flights[f];
            var content := Capped(output);
            OnSubmit(OnAppendResult(s, f), f)
            == if Fits(call, content) then
                 Land(s, f).(items := Append(s.items, target, ResultItem(call), ToolResult(call, content)),
                             submitted := s.submitted + [(Key(target, call), content)])
               else Land(s, f)
  {
  }

  /** The overhead of the envelope alone can put a result within the cap beyond it. */
  lemma {:induction false} OverheadCounts(call: CallId, content: string)
    ensures Bytes(call) + Bytes(content) + ENVELOPE_BYTES > MAX_COMMAND_BODY_BYTES ==> !Fits(call, content)
    ensures 6 * (|call| + |content|) + ENVELOPE_BYTES <= MAX_COMMAND_BODY_BYTES ==> Fits(call, content)
  {
    EnvelopeBounds(call, content);
  }

  /** A short result that fits is handed over as it is, and a long one is reported as too long. */
  lemma {:induction false} ResultsAreHandedOver(s: State, f: FlightId)
    requires f in s.flights && s.flights[f].Delivering?
    ensures var Delivering(target, call, output) := s.flights[f];
            var t := Step(Step(s, AppendResult(f)), Submit(f));
            && (Bytes(output) <= MAX_COMMAND_BODY_BYTES && Fits(call, output) ==>
                  t.submitted == s.submitted + [(Key(target, call), output)])
            && (Bytes(output) > MAX_COMMAND_BODY_BYTES
                && 6 * (|call| + |OVERSIZED|) + ENVELOPE_BYTES <= MAX_COMMAND_BODY_BYTES ==>
                  t.submitted == s.submitted + [(Key(target, call), OVERSIZED)])
  {
    SubmittedIsDurableIff(s, f);
    OverheadCounts(s.flights[f].call, OVERSIZED);
  }

  /** The first content handed over for a call. The session loop keeps it and ignores the later ones. */
  function FirstFor(submitted: seq<(Key, string)>, k: Key): Option<string> {
    if submitted == [] then None
    else
      var (key, content) := submitted[|submitted| - 1];
      var earlier := FirstFor(submitted[..|submitted| - 1], k);
      if earlier.Some? || key != k then earlier else Some(content)
  }

  lemma {:induction false} FirstForPush(submitted: seq<(Key, string)>, key: Key, content: string, k: Key)
    ensures FirstFor(submitted + [(key, content)], k)
            == if FirstFor(submitted, k).Some? || key != k then FirstFor(submitted, k) else Some(content)
  {
    var longer := submitted + [(key, content)];
    assert longer[..|longer| - 1] == submitted;
  }

  lemma {:induction false} FirstForMember(submitted: seq<(Key, string)>, k: Key) returns (i: nat)
    requires FirstFor(submitted, k).Some?
    ensures i < |submitted| && submitted[i].0 == k
    decreases |submitted|
  {
    if FirstFor(submitted[..|submitted| - 1], k).Some? {
      i := FirstForMember(submitted[..|submitted| - 1], k);
    } else {
      i := |submitted| - 1;
    }
  }

  lemma {:induction false} FirstStays(s: State, more: seq<Action>, k: Key)
    requires FirstFor(s.submitted, k).Some?
    ensures FirstFor(Run(s, more).submitted, k) == FirstFor(s.submitted, k)
    decreases |more|
  {
    if more != [] {
      var a := more[0];
      SubmittedComesFrom(s, a);
      if Step(s, a).submitted != s.submitted {
        var x := s.flights[a.flight];
        FirstForPush(s.submitted, Key(x.target, x.call), x.content, k);
      }
      FirstStays(Step(s, a), more[1..], k);
    }
  }

  /**
   What the first submission of a call hands over stays the first for good, and so does the stored item:
   the two agree for good exactly if they agree when it is handed over.
   */
  lemma {:induction false} FirstSubmissionStays(s: State, f: FlightId, later: seq<Action>)
    requires f in s.flights && s.flights[f].Submitting?
    requires (s.flights[f].target, ResultItem(s.flights[f].call)) in s.items
    requires FirstFor(s.submitted, Key(s.flights[f].target, s.flights[f].call)).None?
    ensures var Submitting(target, call, content) := s.flights[f];
            var id := (target, ResultItem(call));
            var t := Run(Step(s, Submit(f)), later);
            && FirstFor(t.submitted, Key(target, call)) == Some(content)
            && id in t.items && t.items[id] == s.items[id]
  {
    var Submitting(target, call, content) := s.flights[f];
    var t := Step(s, Submit(f));
    FirstForPush(s.submitted, Key(target, call), content, Key(target, call));
    FirstStays(t, later, Key(target, call));
    RunDurable(t, later);
  }

  /**
   The first submission of a call is its durable result for good exactly if, when its handler appended
   it, the result id was free or already held that content: whatever happens between the append and the
   submission, and whatever comes later.
   */
  lemma {:induction false} FirstSubmissionIsDurableIff(s: State, f: FlightId, between: seq<Action>, later: seq<Action>)
    requires f in s.flights && s.flights[f].Delivering? && Fits(s.flights[f].call, Capped(s.flights[f].output))
    requires var Delivering(target, call, output) := s.flights[f];
             var t := Run(Step(s, AppendResult(f)), between);
             && f in t.flights && t.flights[f] == Submitting(target, call, Capped(output))
             && FirstFor(t.submitted, Key(target, call)).None?
    ensures var Delivering(target, call, output) := s.flights[f];
            var id, content := (target, ResultItem(call)), Capped(output);
            var t := Run(Step(Run(Step(s, AppendResult(f)), between), Submit(f)), later);
            && FirstFor(t.submitted, Key(target, call)) == Some(content)
            && id in t.items
            && (t.items[id] == ToolResult(call, content)
                <==> id !in s.items || s.items[id] == ToolResult(call, content))
  {
    var appended := Step(s, AppendResult(f));
    RunDurable(appended, between);
    FirstSubmissionStays(Run(appended, between), f, later);
  }

  // ---------------------------------------------------------------------------
  // Exactly which calls can still run.

  predicate Owes(f: Flight, p: ApprovalId) { (f.Decided? || f.Responding?) && f.approval == p }

  /** A decision of the approval has been applied and its responder has not looked for the call yet. */
  ghost predicate Owed(s: State, p: ApprovalId) { exists f :: f in s.flights && Owes(s.flights[f], p) }

  /** The approval can still let its call run: it can be allowed in time, or it was and the response is owed. */
  ghost predicate Grantable(s: State, p: ApprovalId) {
    && p in s.approvals
    && ((s.approvals[p].status == Pending && s.clock < s.approvals[p].expiresAt)
        || (s.approvals[p].status == Approved && Owed(s, p)))
  }

  /** A permit that some schedule can still turn into an effect. */
  ghost predicate Alive(s: State, h: Holder) {
    match h
    case Done(_) => false
    case Waiting(p) => Grantable(s, p)
    case InFlight(f) =>
      && f in s.flights
      && match s.flights[f]
         case Marked(_, _) => true
         case Direct(_, _) => true
         case Routing(_, _, p) => Grantable(s, p)
         case Taken(_, _, _, status, decision) => IsAllow(status, decision)
         case Allowed(_, _, _, _) => true
         case _ => false
  }

  predicate HasResult(s: State, k: Key) {
    var id := (k.session, ResultItem(k.call));
    id in s.items && s.items[id].ToolResult?
  }

  /** The call was never started, is about to be marked, or holds a permit that is alive. */
  ghost predicate Ready(s: State, k: Key) {
    || (!Blank(k.call) && !HasMarker(s, k) && !HasResult(s, k))
    || (exists f :: f in s.flights && s.flights[f].Unmarked? && s.flights[f].key == k)
    || (exists h :: Holds(s, h, k) && Alive(s, h))
  }

  ghost predicate RunsLater(s: State, k: Key) {
    exists actions :: exists i :: |s.effects| <= i < |Run(s, actions).effects| && Run(s, actions).effects[i].key == k
  }

  /** The approval behind a permit, if any, is stored. */
  ghost predicate ViaStored(s: State, h: Holder, k: Key) {
    Holds(s, h, k) && (Via(s, h).Some? ==> Via(s, h).value in s.approvals)
  }

  lemma {:induction false} OwnOwes(s: State, a: Action, f: FlightId, p: ApprovalId)
    requires ActorOf(a) == Some(f) && f in Step(s, a).flights && Owes(Step(s, a).flights[f], p)
    ensures (f in s.flights && Owes(s.flights[f], p))
            || (a.Decide? && a.approval == p && p in s.approvals && s.approvals[p].status == Pending)
  {
  }

  /** A response is owed by a decision that was owed before, or has just been applied. */
  lemma {:induction false} OwedComesFrom(s: State, a: Action, p: ApprovalId)
    requires Owed(Step(s, a), p)
    ensures Owed(s, p) || (p in s.approvals && s.approvals[p].status == Pending)
  {
    var f :| f in Step(s, a).flights && Owes(Step(s, a).flights[f], p);
    if ActorOf(a) == Some(f) {
      OwnOwes(s, a, f, p);
    } else {
      OthersStay(s, a, f);
    }
  }

  lemma {:induction false} ApprovedInTime(s: State, a: Action, p: ApprovalId)
    requires p in s.approvals && s.approvals[p].status == Pending && p in Step(s, a).approvals
    requires Step(s, a).approvals[p].status == Approved
    ensures s.clock < s.approvals[p].expiresAt
  {
  }

  lemma {:induction false} ClockGoesOn(s: State, a: Action)
    ensures s.clock <= Step(s, a).clock
  {
  }

  lemma {:induction false} GrantableComesFrom(s: State, a: Action, p: ApprovalId)
    requires p in s.approvals && Grantable(Step(s, a), p)
    ensures Grantable(s, p)
  {
    ApprovalsStay(s, a);
    ClockGoesOn(s, a);
    if Step(s, a).approvals[p].status == Approved {
      if s.approvals[p].status == Pending {
        ApprovedInTime(s, a, p);
      } else {
        OwedComesFrom(s, a, p);
      }
    }
  }

  lemma {:induction false} WaitingCameFrom(s: State, a: Action, p: ApprovalId)
    ensures Before(s, a, Waiting(p)) == Waiting(p)
            || (a.Park? && Before(s, a, Waiting(p)) == InFlight(a.flight)
                && a.flight in s.flights && s.flights[a.flight].Routing? && s.flights[a.flight].approval == p)
  {
  }

  lemma {:induction false} AliveWaiting(s: State, a: Action, p: ApprovalId, k: Key)
    requires Alive(Step(s, a), Waiting(p))
    requires ViaStored(s, Before(s, a, Waiting(p)), k)
    ensures Alive(s, Before(s, a, Waiting(p)))
  {
    WaitingCameFrom(s, a, p);
    GrantableComesFrom(s, a, p);
  }

  lemma {:induction false} AliveTaken(s: State, f: FlightId, k: Key)
    requires f in s.flights ==> ReadOk(s.approvals, s.flights[f])
    requires Holds(Step(s, TakeParked(f)), InFlight(f), k) && Alive(Step(s, TakeParked(f)), InFlight(f))
    ensures Alive(s, Before(s, TakeParked(f), InFlight(f)))
  {
    if s.flights[f].Responding? {
      assert Owes(s.flights[f], s.flights[f].approval);
    } else {
      assert Step(s, TakeParked(f)) == s;
    }
  }

  lemma {:induction false} AliveInFlight(s: State, a: Action, f: FlightId, k: Key)
    requires a != TakeParked(f) && Before(s, a, InFlight(f)) == InFlight(f)
    requires Holds(Step(s, a), InFlight(f), k) && Alive(Step(s, a), InFlight(f))
    requires ViaStored(s, InFlight(f), k)
    ensures Alive(s, InFlight(f))
  {
    if ActorOf(a) == Some(f) {
      OwnAlive(s, a, f, k);
    } else {
      OthersStay(s, a, f);
      if s.flights[f].Routing? {
        GrantableComesFrom(s, a, s.flights[f].approval);
      }
    }
  }

  lemma {:induction false} OwnAlive(s: State, a: Action, f: FlightId, k: Key)
    requires ActorOf(a) == Some(f) && a != TakeParked(f) && Before(s, a, InFlight(f)) == InFlight(f)
    requires Holds(Step(s, a), InFlight(f), k) && Alive(Step(s, a), InFlight(f))
    requires ViaStored(s, InFlight(f), k)
    ensures Alive(s, InFlight(f))
  {
    if s.flights[f].Routing? {
      assert Step(s, a) == s;
    }
  }

  lemma {:induction false} AliveComesFrom(s: State, a: Action, h: Holder, k: Key)
    requires Inv(s)
    requires Holds(Step(s, a), h, k) && Alive(Step(s, a), h)
    requires Holds(s, Before(s, a, h), k)
    ensures Alive(s, Before(s, a, h))
  {
    if h.Waiting? {
      AliveWaiting(s, a, h.approval, k);
    } else if h.InFlight? && a == TakeParked(h.flight) {
      AliveTaken(s, h.flight, k);
    } else if h.InFlight? {
      AliveInFlight(s, a, h.flight, k);
    }
  }

  lemma {:induction false} NewEffectsHeldAPermit(s: State, a: Action, i: nat)
    requires |s.effects| <= i < |Step(s, a).effects|
    ensures Holds(s, Before(s, a, Done(i)), Step(s, a).effects[i].key) && Alive(s, Before(s, a, Done(i)))
  {
  }

  lemma {:induction false} StepKeepsSpent(s: State, a: Action, k: Key)
    requires Inv(s) && !Ready(s, k)
    ensures !Ready(Step(s, a), k)
    ensures forall i | |s.effects| <= i < |Step(s, a).effects| :: Step(s, a).effects[i].key != k
  {
    var t := Step(s, a);
    DurableGrows(s, a);
    forall f | f in t.flights && t.flights[f].Unmarked?
      ensures t.flights[f].key != k
    {
      UnmarkedComesFrom(s, a, f);
    }
    forall h | Holds(t, h, k) && Alive(t, h)
      ensures false
    {
      PermitMoves(s, a, h, k);
      if Holds(s, Before(s, a, h), k) {
        AliveComesFrom(s, a, h, k);
      }
    }
    forall i | |s.effects| <= i < |t.effects|
      ensures t.effects[i].key != k
    {
      NewEffectsHeldAPermit(s, a, i);
    }
  }

  lemma {:induction false} SpentForever(s: State, actions: seq<Action>, k: Key)
    requires Inv(s) && !Ready(s, k)
    ensures forall i | |s.effects| <= i < |Run(s, actions).effects| :: Run(s, actions).effects[i].key != k
    decreases |actions|
  {
    if actions != [] {
      StepKeepsInv(s, actions[0]);
      StepKeepsSpent(s, actions[0], k);
      DurableGrows(s, actions[0]);
      RunDurable(Step(s, actions[0]), actions[1..]);
      SpentForever(Step(s, actions[0]), actions[1..], k);
    }
  }

  /** An action that runs nothing may come first. */
  lemma {:induction false} RunsAfter(s: State, a: Action, k: Key)
    requires Step(s, a).effects == s.effects && RunsLater(Step(s, a), k)
    ensures RunsLater(s, k)
  {
    var t := Step(s, a);
    var rest :| exists i :: |t.effects| <= i < |Run(t, rest).effects| && Run(t, rest).effects[i].key == k;
    var actions := [a] + rest;
    assert actions[1..] == rest;
    assert Run(s, actions) == Run(t, rest);
  }

  lemma {:induction false} RunsNow(s: State, a: Action, k: Key)
    requires |Step(s, a).effects| == |s.effects| + 1 && Step(s, a).effects[|s.effects|].key == k
    ensures RunsLater(s, k)
  {
    assert [a][1..] == [];
    assert Run(Step(s, a), []) == Step(s, a);
    assert Run(s, [a]) == Step(s, a);
    assert |s.effects| <= |s.effects| < |Run(s, [a]).effects|;
  }

  lemma {:induction false} MarkedRuns(s: State, f: FlightId)
    requires f in s.flights && s.flights[f].Marked?
    ensures RunsLater(s, s.flights[f].key)
  {
    var t := Step(s, RunDirect(f));
    RunsNow(t, ExecuteDirect(f, ""), s.flights[f].key);
    RunsAfter(s, RunDirect(f), s.flights[f].key);
  }

  lemma {:induction false} UnmarkedRuns(s: State, f: FlightId)
    requires f in s.flights && s.flights[f].Unmarked?
    ensures RunsLater(s, s.flights[f].key)
  {
    MarkedRuns(Step(s, AppendMarker(f)), f);
    RunsAfter(s, AppendMarker(f), s.flights[f].key);
  }

  lemma {:induction false} IdleRuns(s: State, k: Key)
    requires !Blank(k.call) && !HasMarker(s, k) && !HasResult(s, k)
    requires s.flights == map[] && 0 in s.sessions && s.sessions[0] == k.session
    ensures RunsLater(s, k)
  {
    var a := BeginCall(0, 0, k.call, None);
    assert SerialFor(s, k.session);
    assert CallStart(s, 0, k.call, None) == Unmarked(k, 0);
    assert Step(s, a) == Move(s, 0, Unmarked(k, 0));
    UnmarkedRuns(Step(s, a), 0);
    RunsAfter(s, a, k);
  }

  lemma {:induction false} UnstartedRuns(s: State, k: Key)
    requires !Blank(k.call) && !HasMarker(s, k) && !HasResult(s, k)
    ensures RunsLater(s, k)
  {
    var crashed := Step(s, Crash);
    IdleRuns(Step(crashed, OpenSession(0, k.session)), k);
    RunsAfter(crashed, OpenSession(0, k.session), k);
    RunsAfter(s, Crash, k);
  }

  lemma {:induction false} TakenRuns(s: State, f: FlightId)
    requires f in s.flights && s.flights[f].Taken? && IsAllow(s.flights[f].status, s.flights[f].decision)
    ensures RunsLater(s, s.flights[f].key)
  {
    var k := s.flights[f].key;
    var live := Step(s, OpenSession(s.flights[f].task, k.session));
    RunsNow(Step(live, FindSession(f)), ExecuteApproved(f, ""), k);
    RunsAfter(live, FindSession(f), k);
    RunsAfter(s, OpenSession(s.flights[f].task, k.session), k);
  }

  lemma {:induction false} RespondingRuns(s: State, f: FlightId)
    requires f in s.flights && s.flights[f].Responding? && s.flights[f].approval in s.parked
    requires IsAllow(s.flights[f].status, s.flights[f].decision)
    ensures RunsLater(s, s.parked[s.flights[f].approval].key)
  {
    var k := s.parked[s.flights[f].approval].key;
    TakenRuns(Step(s, TakeParked(f)), f);
    RunsAfter(s, TakeParked(f), k);
  }

  lemma {:induction false} DecidedRuns(s: State, f: FlightId)
    requires f in s.flights && s.flights[f].Decided?
    requires s.flights[f].approval in s.parked && s.flights[f].approval in s.approvals
    requires IsAllow(s.approvals[s.flights[f].approval].status, s.flights[f].decision)
    ensures RunsLater(s, s.parked[s.flights[f].approval].key)
  {
    var k := s.parked[s.flights[f].approval].key;
    RespondingRuns(Step(s, BeginResponse(f)), f);
    RunsAfter(s, BeginResponse(f), k);
  }

  lemma {:induction false} PendingRuns(s: State, p: ApprovalId)
    requires p in s.parked && p in s.approvals
    requires s.approvals[p].status == Pending && s.clock < s.approvals[p].expiresAt
    ensures RunsLater(s, s.parked[p].key)
  {
    var k := s.parked[p].key;
    var idle := Step(s, Abandon(0));
    var decided := Step(idle, Decide(0, p, AllowOnce));
    assert decided.flights[0] == Decided(p, AllowOnce) && decided.approvals[p].status == Approved;
    DecidedRuns(decided, 0);
    RunsAfter(idle, Decide(0, p, AllowOnce), k);
    RunsAfter(s, Abandon(0), k);
  }

  lemma {:induction false} WaitingRuns(s: State, p: ApprovalId)
    requires ReadsFinal(s) && p in s.parked && Grantable(s, p)
    ensures RunsLater(s, s.parked[p].key)
  {
    if s.approvals[p].status == Pending {
      PendingRuns(s, p);
    } else {
      var f :| f in s.flights && Owes(s.flights[f], p);
      assert ReadOk(s.approvals, s.flights[f]);
      if s.flights[f].Decided? {
        DecidedRuns(s, f);
      } else {
        RespondingRuns(s, f);
      }
    }
  }

  lemma {:induction false} RoutingRuns(s: State, f: FlightId)
    requires ReadsFinal(s) && f in s.flights && s.flights[f].Routing? && Grantable(s, s.flights[f].approval)
    ensures RunsLater(s, s.flights[f].key)
  {
    var p, k := s.flights[f].approval, s.flights[f].key;
    var t := Step(s, Park(f));
    StepKeepsReads(s, Park(f));
    if s.approvals[p].status == Approved {
      var g :| g in s.flights && Owes(s.flights[g], p);
      assert g in t.flights && Owes(t.flights[g], p);
    }
    WaitingRuns(t, p);
    RunsAfter(s, Park(f), k);
  }

  lemma {:induction false} PermitRuns(s: State, h: Holder, k: Key)
    requires ReadsFinal(s) && Holds(s, h, k) && Alive(s, h)
    ensures RunsLater(s, k)
  {
    match h
    case Waiting(p) =>
      WaitingRuns(s, p);
    case InFlight(f) =>
      match s.flights[f] {
        case Marked(_, _) =>
          MarkedRuns(s, f);
        case Direct(_, _) =>
          RunsNow(s, ExecuteDirect(f, ""), k);
        case Routing(_, _, _) =>
          RoutingRuns(s, f);
        case Taken(_, _, _, _, _) =>
          TakenRuns(s, f);
        case Allowed(_, _, _, _) =>
          RunsNow(s, ExecuteApproved(f, ""), k);
      }
  }

  /** A call can still run exactly when it is ready: the two sides of the protocol's guarantee. */
  lemma {:induction false} RunsLaterIffReady(s: State, k: Key)
    requires Reachable(s)
    ensures RunsLater(s, k) <==> Ready(s, k)
  {
    ReachableInv(s);
    if RunsLater(s, k) {
      var actions :| exists i :: |s.effects| <= i < |Run(s, actions).effects| && Run(s, actions).effects[i].key == k;
      if !Ready(s, k) {
        SpentForever(s, actions, k);
      }
    }
    if Ready(s, k) {
      if !Blank(k.call) && !HasMarker(s, k) && !HasResult(s, k) {
        UnstartedRuns(s, k);
      } else if f :| f in s.flights && s.flights[f].Unmarked? && s.flights[f].key == k {
        UnmarkedRuns(s, f);
      } else {
        var h :| Holds(s, h, k) && Alive(s, h);
        PermitRuns(s, h, k);
      }
    }
  }

  ghost predicate HasRun(s: State, k: Key) { exists i :: 0 <= i < |s.effects| && s.effects[i].key == k }

  /** The effect has not run and runs in no continuation. */
  ghost predicate NeverRuns(s: State, k: Key) { forall actions :: !HasRun(Run(s, actions), k) }

  lemma {:induction false} NeverRunsMeans(s: State, k: Key)
    ensures NeverRuns(s, k) <==> !HasRun(s, k) && !RunsLater(s, k)
  {
    if NeverRuns(s, k) {
      assert Run(s, []) == s;
    } else {
      var actions :| HasRun(Run(s, actions), k);
      RunDurable(s, actions);
      var i :| 0 <= i < |Run(s, actions).effects| && Run(s, actions).effects[i].key == k;
      assert i < |s.effects| ==> s.effects[i].key == k;
    }
  }

  /**
   A marker without a result is answered "interrupted". That the effect has not run and never will is
   true exactly when no handler is about to mark the call, and its permit, if there still is one, is
   neither spent on the effect nor alive.
   */
  lemma {:induction false} InterruptedMeansNoEffectIff(s: State, task: TaskId, call: CallId)
    requires Reachable(s) && task in s.sessions
    requires CallStart(s, task, call, None) == Delivering(s.sessions[task], call, INTERRUPTED)
    ensures var k := Key(s.sessions[task], call);
            NeverRuns(s, k) <==>
              && (forall f | f in s.flights && s.flights[f].Unmarked? :: s.flights[f].key != k)
              && (forall h | Holds(s, h, k) :: !h.Done? && !Alive(s, h))
  {
    var k := Key(s.sessions[task], call);
    RunsLaterIffReady(s, k);
    NeverRunsMeans(s, k);
    if HasRun(s, k) {
      var i :| 0 <= i < |s.effects| && s.effects[i].key == k;
      assert Holds(s, Done(i), k);
    }
  }

  /** Of later effects alone: none will follow exactly when no handler is about to mark and no permit is alive. */
  lemma {:induction false} InterruptedMeansNoLaterEffectIff(s: State, task: TaskId, call: CallId)
    requires Reachable(s) && task in s.sessions
    requires CallStart(s, task, call, None) == Delivering(s.sessions[task], call, INTERRUPTED)
    ensures var k := Key(s.sessions[task], call);
            !RunsLater(s, k) <==>
              && (forall f | f in s.flights && s.flights[f].Unmarked? :: s.flights[f].key != k)
              && (forall h | Holds(s, h, k) :: !Alive(s, h))
  {
    RunsLaterIffReady(s, Key(s.sessions[task], call));
  }

  /**
   A parked call can still run exactly if its approval can be allowed in time, or has been allowed and
   the response to that decision is still owed.
   */
  lemma {:induction false} WaitingCallRunsIff(s: State, p: ApprovalId)
    requires Reachable(s) && p in s.parked
    ensures p in s.approvals
    ensures RunsLater(s, s.parked[p].key) <==>
              if s.approvals[p].status == Pending then s.clock < s.approvals[p].expiresAt
              else s.approvals[p].status == Approved && Owed(s, p)
  {
    var k := s.parked[p].key;
    ReachableInv(s);
    assert Holds(s, Waiting(p), k) && Via(s, Waiting(p)) == Some(p);
    RunsLaterIffReady(s, k);
    assert Ready(s, k) <==> Alive(s, Waiting(p));
  }

  // ---------------------------------------------------------------------------
  // Schedules: what some sequence of actions makes of a state.

  /** Each state is the one before it after its action. */
  ghost predicate Leads(states: seq<State>, actions: seq<Action>) {
    && |states| == |actions| + 1
    && (forall i {:trigger actions[i]} | 0 <= i < |actions| :: states[i + 1] == Step(states[i], actions[i]))
  }

  /** Some schedule of actions takes the machine from `s` to `t`. */
  ghost predicate Can(s: State, t: State) {
    exists states, actions :: Leads(states, actions) && states[0] == s && states[|actions|] == t
  }

  lemma {:induction false} CanStay(s: State)
    ensures Can(s, s)
  {
    var none: seq<Action> := [];
    assert Leads([s], none);
  }

  lemma {:induction false} CanStep(s: State, a: Action)
    ensures Can(s, Step(s, a))
  {
    var states, actions := [s, Step(s, a)], [a];
    assert Leads(states, actions);
  }

  lemma {:induction false} LeadsConcat(xs: seq<State>, a: seq<Action>, ys: seq<State>, b: seq<Action>)
    requires Leads(xs, a) && Leads(ys, b) && xs[|a|] == ys[0]
    ensures Leads(xs + ys[1..], a + b) && (xs + ys[1..])[0] == xs[0] && (xs + ys[1..])[|a + b|] == ys[|b|]
  {
    var states, actions := xs + ys[1..], a + b;
    forall i {:trigger actions[i]} | 0 <= i < |actions|
      ensures states[i + 1] == Step(states[i], actions[i])
    {
      if i < |a| {
        assert actions[i] == a[i];
      } else {
        assert actions[i] == b[i - |a|] && states[i + 1] == ys[i - |a| + 1];
        assert states[i] == ys[i - |a|];
      }
    }
  }

  lemma {:induction false} CanTrans(s: State, t: State, u: State)
    requires Can(s, t) && Can(t, u)
    ensures Can(s, u)
  {
    var xs, a :| Leads(xs, a) && xs[0] == s && xs[|a|] == t;
    var ys, b :| Leads(ys, b) && ys[0] == t && ys[|b|] == u;
    LeadsConcat(xs, a, ys, b);
  }

  lemma {:induction false} RunThen(s: State, actions: seq<Action>, a: Action)
    ensures Run(s, actions + [a]) == Step(Run(s, actions), a)
    decreases |actions|
  {
    if actions == [] {
      assert [a][1..] == [];
    } else {
      assert (actions + [a])[1..] == actions[1..] + [a];
      RunThen(Step(s, actions[0]), actions[1..], a);
    }
  }

  lemma {:induction false} LeadsIsRun(states: seq<State>, actions: seq<Action>, n: nat)
    requires Leads(states, actions) && n <= |actions|
    ensures Run(states[0], actions[..n]) == states[n]
    decreases n
  {
    if n > 0 {
      LeadsIsRun(states, actions, n - 1);
      RunThen(states[0], actions[..n - 1], actions[n - 1]);
      assert actions[..n] == actions[..n - 1] + [actions[n - 1]];
    }
  }

  lemma {:induction false} RunLeads(s: State, actions: seq<Action>)
    ensures Can(s, Run(s, actions))
    decreases |actions|
  {
    if actions == [] {
      CanStay(s);
    } else {
      CanStep(s, actions[0]);
      RunLeads(Step(s, actions[0]), actions[1..]);
      CanTrans(s, Step(s, actions[0]), Run(s, actions));
    }
  }

  /** A schedule is a run: whatever is proved of all runs is true of what schedules make of reachable states. */
  lemma {:induction false} CanIsRun(s: State, t: State)
    ensures Can(s, t) <==> exists actions :: Run(s, actions) == t
  {
    if Can(s, t) {
      var states, actions :| Leads(states, actions) && states[0] == s && states[|actions|] == t;
      LeadsIsRun(states, actions, |actions|);
      assert actions[..|actions|] == actions;
    }
    if actions :| Run(s, actions) == t {
      RunLeads(s, actions);
    }
  }

  lemma {:induction false} RunThenCan(r: State, actions: seq<Action>, t: State) returns (longer: seq<Action>)
    requires Can(Run(r, actions), t)
    ensures Run(r, longer) == t
  {
    RunLeads(r, actions);
    CanTrans(r, Run(r, actions), t);
    CanIsRun(r, t);
    longer :| Run(r, longer) == t;
  }

  lemma {:induction false} CanReach(s: State, t: State)
    requires Reachable(s) && Can(s, t)
    ensures Reachable(t)
  {
    var actions :| Run(INITIAL, actions) == s;
    var longer := RunThenCan(INITIAL, actions, t);
  }

  /** One piece of a handler. */
  lemma {:induction false} CanDo(s: State, a: Action)
    ensures Can(s, Step(s, a)) && (Reachable(s) ==> Reachable(Step(s, a)))
  {
    CanStep(s, a);
    if Reachable(s) {
      CanReach(s, Step(s, a));
    }
  }

  lemma {:induction false} CanBeginCall(s: State, f: FlightId, task: TaskId, call: CallId, denial: Option<string>)
    ensures Can(s, OnBeginCall(s, f, task, call, denial))
            && (Reachable(s) ==> Reachable(OnBeginCall(s, f, task, call, denial)))
  {
    CanDo(s, BeginCall(f, task, call, denial));
  }

  lemma {:induction false} CanAppendMarker(s: State, f: FlightId)
    ensures Can(s, OnAppendMarker(s, f)) && (Reachable(s) ==> Reachable(OnAppendMarker(s, f)))
  {
    CanDo(s, AppendMarker(f));
  }

  lemma {:induction false} CanRunDirect(s: State, f: FlightId)
    ensures Can(s, OnRunDirect(s, f)) && (Reachable(s) ==> Reachable(OnRunDirect(s, f)))
  {
    CanDo(s, RunDirect(f));
  }

  lemma {:induction false} CanRefuse(s: State, f: FlightId, reason: string)
    ensures Can(s, OnRefuse(s, f, reason)) && (Reachable(s) ==> Reachable(OnRefuse(s, f, reason)))
  {
    CanDo(s, Refuse(f, reason));
  }

  lemma {:induction false} CanRequestApproval(s: State, f: FlightId, approval: ApprovalId, ttl: nat)
    ensures Can(s, OnRequestApproval(s, f, approval, ttl))
            && (Reachable(s) ==> Reachable(OnRequestApproval(s, f, approval, ttl)))
  {
    CanDo(s, RequestApproval(f, approval, ttl));
  }

  lemma {:induction false} CanPark(s: State, f: FlightId)
    ensures Can(s, OnPark(s, f)) && (Reachable(s) ==> Reachable(OnPark(s, f)))
  {
    CanDo(s, Park(f));
  }

  lemma {:induction false} CanExecuteDirect(s: State, f: FlightId, output: string)
    ensures Can(s, OnExecuteDirect(s, f, output)) && (Reachable(s) ==> Reachable(OnExecuteDirect(s, f, output)))
  {
    CanDo(s, ExecuteDirect(f, output));
  }

  lemma {:induction false} CanDecide(s: State, f: FlightId, approval: ApprovalId, decision: Decision)
    ensures Can(s, OnDecide(s, f, approval, decision))
            && (Reachable(s) ==> Reachable(OnDecide(s, f, approval, decision)))
  {
    CanDo(s, Decide(f, approval, decision));
  }

  lemma {:induction false} CanBeginResponse(s: State, f: FlightId)
    ensures Can(s, OnBeginResponse(s, f)) && (Reachable(s) ==> Reachable(OnBeginResponse(s, f)))
  {
    CanDo(s, BeginResponse(f));
  }

  lemma {:induction false} CanTakeParked(s: State, f: FlightId)
    ensures Can(s, OnTakeParked(s, f)) && (Reachable(s) ==> Reachable(OnTakeParked(s, f)))
  {
    CanDo(s, TakeParked(f));
  }

  lemma {:induction false} CanFindSession(s: State, f: FlightId)
    ensures Can(s, OnFindSession(s, f)) && (Reachable(s) ==> Reachable(OnFindSession(s, f)))
  {
    CanDo(s, FindSession(f));
  }

  lemma {:induction false} CanExecuteApproved(s: State, f: FlightId, output: string)
    ensures Can(s, OnExecuteApproved(s, f, output)) && (Reachable(s) ==> Reachable(OnExecuteApproved(s, f, output)))
  {
    CanDo(s, ExecuteApproved(f, output));
  }

  lemma {:induction false} CanAppendResult(s: State, f: FlightId)
    ensures Can(s, OnAppendResult(s, f)) && (Reachable(s) ==> Reachable(OnAppendResult(s, f)))
  {
    CanDo(s, AppendResult(f));
  }

  lemma {:induction false} CanSubmit(s: State, f: FlightId)
    ensures Can(s, OnSubmit(s, f)) && (Reachable(s) ==> Reachable(OnSubmit(s, f)))
  {
    CanDo(s, Submit(f));
  }

  lemma {:induction false} CanAbandon(s: State, f: FlightId)
    ensures Can(s, Land(s, f)) && (Reachable(s) ==> Reachable(Land(s, f)))
  {
    CanDo(s, Abandon(f));
  }

  lemma {:induction false} CanExpire(s: State, approval: ApprovalId)
    ensures Can(s, OnExpire(s, approval))
  {
    CanDo(s, Expire(approval));
  }

  lemma {:induction false} CanUnpark(s: State, approval: ApprovalId)
    ensures Can(s, s.(parked := s.parked - {approval}))
  {
    CanDo(s, Unpark(approval));
  }

  lemma {:induction false} CanDropSession(s: State, task: TaskId)
    ensures Can(s, s.(sessions := s.sessions - {task}))
  {
    CanDo(s, DropSession(task));
  }

  /**
   A decision of a pending approval in time grants it or denies it as it says, and one that comes too late
   expires it; a call that was denied or came too late never runs, whatever happens next.
   */
  lemma {:induction false} DecisionsDecide(s: State, f: FlightId, p: ApprovalId, decision: Decision, more: seq<Action>)
    requires Reachable(s) && f !in s.flights && p in s.approvals && s.approvals[p].status == Pending
    ensures var t := Step(s, Decide(f, p, decision));
            var inTime := s.clock < s.approvals[p].expiresAt;
            && p in t.approvals
            && t.approvals[p].status == (match decision
                                         case AllowOnce => if inTime then Approved else Expired
                                         case AllowForTask => if inTime then Approved else Expired
                                         case DenyOnce => if inTime then Denied else Expired)
            && (!inTime || decision == DenyOnce ==>
                  forall i | 0 <= i < |Run(t, more).effects| :: Run(t, more).effects[i].key != s.approvals[p].origin)
  {
    DecideIs(s, f, p, decision);
    var t := Step(s, Decide(f, p, decision));
    CanDo(s, Decide(f, p, decision));
    if t.approvals[p].status in {Denied, Expired} {
      forall i | 0 <= i < |Run(t, more).effects|
        ensures Run(t, more).effects[i].key != s.approvals[p].origin
      {
        RefusedCallsNeverRun(t, more, p, i);
      }
    }
  }

  lemma {:induction false} DecideIs(s: State, f: FlightId, p: ApprovalId, decision: Decision)
    requires f !in s.flights && p in s.approvals && s.approvals[p].status == Pending
    ensures var t := Step(s, Decide(f, p, decision));
            p in t.approvals && t.approvals[p] == s.approvals[p].(
                                  status := if s.clock < s.approvals[p].expiresAt then StatusFor(decision) else Expired)
  {
  }

  /** What has expired was due. */
  ghost predicate ExpiredWereDue(s: State) {
    forall p | p in s.approvals && s.approvals[p].status == Expired :: s.approvals[p].expiresAt <= s.clock
  }

  lemma {:induction false} ExpiredStep(s: State, a: Action, p: ApprovalId)
    requires p in Step(s, a).approvals && Step(s, a).approvals[p].status == Expired
    ensures p in s.approvals && (s.approvals[p].status == Expired || s.approvals[p].expiresAt <= s.clock)
    ensures Step(s, a).approvals[p].expiresAt == s.approvals[p].expiresAt
  {
  }

  lemma {:induction false} RunKeepsDue(s: State, actions: seq<Action>)
    requires ExpiredWereDue(s)
    ensures ExpiredWereDue(Run(s, actions))
    decreases |actions|
  {
    if actions != [] {
      var t := Step(s, actions[0]);
      ClockGoesOn(s, actions[0]);
      forall p | p in t.approvals && t.approvals[p].status == Expired ensures t.approvals[p].expiresAt <= t.clock {
        ExpiredStep(s, actions[0], p);
      }
      RunKeepsDue(t, actions[1..]);
    }
  }

  /** In every reachable state an expired approval is past its deadline: none expires early. */
  lemma {:induction false} NothingExpiresEarly(s: State, p: ApprovalId)
    requires Reachable(s) && p in s.approvals && s.approvals[p].status == Expired
    ensures s.approvals[p].expiresAt <= s.clock
  {
    var actions :| Run(INITIAL, actions) == s;
    RunKeepsDue(INITIAL, actions);
  }

  // ---------------------------------------------------------------------------
  // Runs that show where the handlers' promises fail.

  /** An idle daemon asked to run a fresh call, up to the point where the call waits for its approval. */
  lemma {:induction false} MarkFreshCall(s: State, k: Key) returns (t: State)
    requires Reachable(s) && s.flights == map[] && 0 in s.sessions && s.sessions[0] == k.session
    requires !Blank(k.call) && !HasMarker(s, k) && !HasResult(s, k)
    ensures Reachable(t) && t.flights == map[0 := Marked(k, 0)]
    ensures t.(flights := s.flights, items := s.items) == s && HasMarker(t, k) && !HasResult(t, k)
    ensures (k.session, ResultItem(k.call)) in t.items ==> (k.session, ResultItem(k.call)) in s.items
  {
    var begun := OnBeginCall(s, 0, 0, k.call, None);
    assert SerialFor(s, k.session);
    assert begun.flights == map[0 := Unmarked(k, 0)];
    CanBeginCall(s, 0, 0, k.call, None);
    t := OnAppendMarker(begun, 0);
    CanAppendMarker(begun, 0);
    assert |RequestItem(k.call)| != |ResultItem(k.call)|;
  }

  /** The marked call, up to the point where it waits for its approval. */
  lemma {:induction false} ParkFreshCall(s: State, k: Key, p: ApprovalId, ttl: nat) returns (t: State)
    requires Reachable(s) && s.flights == map[] && 0 in s.sessions && s.sessions[0] == k.session
    requires !Blank(k.call) && !HasMarker(s, k) && !HasResult(s, k) && p !in s.approvals
    ensures Reachable(t) && t.sessions == s.sessions && t.submitted == s.submitted && t.flights == map[]
    ensures HasMarker(t, k) && !HasResult(t, k)
    ensures (k.session, ResultItem(k.call)) in t.items ==> (k.session, ResultItem(k.call)) in s.items
    ensures p in t.parked && t.parked[p] == Parked(0, k)
    ensures p in t.approvals && t.approvals[p] == Approval(Pending, k, 0, t.clock + ttl)
  {
    var marked := MarkFreshCall(s, k);
    var asked := OnRequestApproval(marked, 0, p, ttl);
    CanRequestApproval(marked, 0, p, ttl);
    t := OnPark(asked, 0);
    CanPark(asked, 0);
  }

  /**
   The handler's own reading of a bare marker ("stopped between the marker and the effect") is too
   strong: a duplicate of any fresh call, arriving while the call waits for its approval, is answered
   "interrupted" although the call can still run.
   */
  lemma {:induction false} InterruptedCallsMayRun(s: State, k: Key, p: ApprovalId, ttl: nat) returns (t: State)
    requires Reachable(s) && s.flights == map[] && 0 in s.sessions && s.sessions[0] == k.session
    requires !Blank(k.call) && !HasMarker(s, k) && !HasResult(s, k) && p !in s.approvals && ttl > 0
    ensures Reachable(t) && t.sessions == s.sessions
    ensures CallStart(t, 0, k.call, None) == Delivering(k.session, k.call, INTERRUPTED)
    ensures RunsLater(t, k)
  {
    t := ParkFreshCall(s, k, p, ttl);
    PendingRuns(t, p);
  }

  /** A response that comes before the call is parked finds nothing to answer, and nobody answers again. */
  lemma {:induction false} AnswerTooEarly(s: State, k: Key, p: ApprovalId) returns (t: State)
    requires Reachable(s) && s.flights == map[0 := Routing(k, 0, p)] && p !in s.parked
    requires p in s.approvals && s.approvals[p].status == Pending && s.clock < s.approvals[p].expiresAt
    ensures Reachable(t) && t.flights == map[0 := Routing(k, 0, p)] && t.sessions == s.sessions && t.items == s.items
    ensures p in t.approvals && t.approvals[p].status == Approved
  {
    var read := DecideAndRead(s, 1, p);
    t := OnTakeParked(read, 1);
    CanTakeParked(read, 1);
  }

  lemma {:induction false} DecideAndRead(s: State, f: FlightId, p: ApprovalId) returns (t: State)
    requires Reachable(s) && f !in s.flights
    requires p in s.approvals && s.approvals[p].status == Pending && s.clock < s.approvals[p].expiresAt
    ensures Reachable(t) && t.flights == s.flights[f := Responding(p, Approved, AllowOnce)]
    ensures p in t.approvals && t.approvals[p].status == Approved
    ensures t.(flights := s.flights, approvals := s.approvals) == s
  {
    var decided := OnDecide(s, f, p, AllowOnce);
    CanDecide(s, f, p, AllowOnce);
    t := OnBeginResponse(decided, f);
    CanBeginResponse(decided, f);
  }

  /**
   An approval can be lost. The call of any fresh request may be parked only after the response to its
   approval looked for it: it then waits under an Approved approval, no handler is left, and no
   continuation runs it.
   */
  lemma {:induction false} ApprovalsMayBeLost(s: State, k: Key, p: ApprovalId, ttl: nat) returns (t: State)
    requires Reachable(s) && s.flights == map[] && 0 in s.sessions && s.sessions[0] == k.session
    requires !Blank(k.call) && !HasMarker(s, k) && !HasResult(s, k) && p !in s.approvals && ttl > 0
    ensures Reachable(t) && t.flights == map[] && t.sessions == s.sessions
    ensures p in t.approvals && t.approvals[p].status == Approved && p in t.parked && t.parked[p] == Parked(0, k)
    ensures NeverRuns(t, k)
  {
    var marked := MarkFreshCall(s, k);
    if p in marked.parked {
      ParkedIsStored(marked, p);
    }
    var asked := OnRequestApproval(marked, 0, p, ttl);
    CanRequestApproval(marked, 0, p, ttl);
    var answered := AnswerTooEarly(asked, k, p);
    t := OnPark(answered, 0);
    CanPark(answered, 0);
    ParkedHasNotRun(t, p);
    WaitingCallRunsIff(t, p);
    NeverRunsMeans(t, k);
  }

  lemma {:induction false} ParkedIsStored(s: State, p: ApprovalId)
    requires Reachable(s) && p in s.parked
    ensures p in s.approvals
  {
    ReachableInv(s);
    assert Holds(s, Waiting(p), s.parked[p].key) && Via(s, Waiting(p)) == Some(p);
  }

  lemma {:induction false} ParkedHasNotRun(s: State, p: ApprovalId)
    requires Reachable(s) && p in s.parked
    ensures !HasRun(s, s.parked[p].key)
  {
    ReachableInv(s);
    if i :| 0 <= i < |s.effects| && s.effects[i].key == s.parked[p].key {
      assert Holds(s, Done(i), s.parked[p].key) && Holds(s, Waiting(p), s.parked[p].key);
    }
  }

  /**
   And it fails in the other direction of time: if the result of any fresh call cannot be stored, a
   duplicate is answered "interrupted" although the effect has run. No later effect follows.
   */
  lemma {:induction false} InterruptedCallsMayHaveRun(s: State, k: Key, output: string) returns (t: State)
    requires Reachable(s) && s.flights == map[] && 0 in s.sessions && s.sessions[0] == k.session
    requires !Blank(k.call) && !HasMarker(s, k) && !HasResult(s, k)
    ensures Reachable(t) && t.sessions == s.sessions
    ensures CallStart(t, 0, k.call, None) == Delivering(k.session, k.call, INTERRUPTED)
    ensures HasRun(t, k) && !RunsLater(t, k)
  {
    t := RunAndLoseResult(s, k, output);
    var i := |t.effects| - 1;
    ReachableInv(t);
    assert Holds(t, Done(i), k);
    InterruptedMeansNoLaterEffectIff(t, 0, k.call);
  }

  lemma {:induction false} RunAndLoseResult(s: State, k: Key, output: string) returns (t: State)
    requires Reachable(s) && s.flights == map[] && 0 in s.sessions && s.sessions[0] == k.session
    requires !Blank(k.call) && !HasMarker(s, k) && !HasResult(s, k)
    ensures Reachable(t) && t.sessions == s.sessions && t.flights == map[] && HasMarker(t, k) && !HasResult(t, k)
    ensures t.effects != [] && t.effects[|t.effects| - 1].key == k
  {
    var marked := MarkFreshCall(s, k);
    t := RunMarkedAndLoseResult(marked, k, output);
  }

  lemma {:induction false} RunMarkedAndLoseResult(s: State, k: Key, output: string) returns (t: State)
    requires Reachable(s) && s.flights == map[0 := Marked(k, 0)]
    ensures Reachable(t) && t.sessions == s.sessions && t.flights == map[] && t.items == s.items
    ensures t.effects == s.effects + [Effect(k, None, None)]
  {
    var done := RunMarked(s, k, output);
    t := Land(done, 0);
    CanAbandon(done, 0);
  }

  lemma {:induction false} RunMarked(s: State, k: Key, output: string) returns (t: State)
    requires Reachable(s) && s.flights == map[0 := Marked(k, 0)]
    ensures Reachable(t)
    ensures t == s.(flights := map[0 := Delivering(k.session, k.call, output)],
                    effects := s.effects + [Effect(k, None, None)])
  {
    var direct := OnRunDirect(s, 0);
    CanRunDirect(s, 0);
    t := OnExecuteDirect(direct, 0, output);
    CanExecuteDirect(direct, 0, output);
  }

  /**
   A result within the cap that does not fit the store once it is wrapped and escaped is lost although
   every call succeeds: its effect has run, nothing is stored and nothing is handed over.
   */
  lemma {:induction false} NearCapResultsAreLost(s: State, k: Key, output: string) returns (t: State)
    requires Reachable(s) && s.flights == map[] && 0 in s.sessions && s.sessions[0] == k.session
    requires !Blank(k.call) && !HasMarker(s, k) && !HasResult(s, k)
    requires Bytes(output) <= MAX_COMMAND_BODY_BYTES < Bytes(k.call) + Bytes(output) + ENVELOPE_BYTES
    ensures Reachable(t) && t.flights == map[] && HasRun(t, k) && !RunsLater(t, k)
    ensures !HasResult(t, k) && t.submitted == s.submitted
  {
    var marked := MarkFreshCall(s, k);
    var done := RunMarked(marked, k, output);
    OverheadCounts(k.call, output);
    t := OnAppendResult(done, 0);
    CanAppendResult(done, 0);
    assert t == Land(done, 0);
    assert t.effects[|t.effects| - 1].key == k;
    ReachableInv(t);
    assert Holds(t, Done(|t.effects| - 1), k);
    InterruptedMeansNoLaterEffectIff(t, 0, k.call);
  }

  lemma {:induction false} TakeWaitingCall(s: State, k: Key, p: ApprovalId) returns (t: State)
    requires Reachable(s) && s.flights == map[]
    requires p in s.parked && s.parked[p] == Parked(0, k)
    requires p in s.approvals && s.approvals[p].status == Pending && s.clock < s.approvals[p].expiresAt
    ensures Reachable(t) && t.items == s.items && t.sessions == s.sessions && t.submitted == s.submitted
    ensures t.flights == map[0 := Taken(k, 0, p, Approved, AllowOnce)]
  {
    var read := DecideAndRead(s, 0, p);
    t := OnTakeParked(read, 0);
    CanTakeParked(read, 0);
  }

  lemma {:induction false} RunTakenCall(s: State, k: Key, p: ApprovalId, output: string) returns (t: State)
    requires Reachable(s) && 0 in s.sessions && s.sessions[0] == k.session
    requires s.flights == map[0 := Taken(k, 0, p, Approved, AllowOnce)]
    ensures Reachable(t) && t.items == s.items && t.sessions == s.sessions && t.submitted == s.submitted
    ensures t.flights == map[0 := Delivering(k.session, k.call, output)] && HasRun(t, k)
  {
    var found := OnFindSession(s, 0);
    CanFindSession(s, 0);
    t := OnExecuteApproved(found, 0, output);
    CanExecuteApproved(found, 0, output);
    assert t.effects[|t.effects| - 1].key == k;
  }

  lemma {:induction false} AppendOne(s: State, f: FlightId, k: Key, content: string) returns (t: State)
    requires Reachable(s) && f in s.flights && s.flights[f].Delivering? && Capped(s.flights[f].output) == content
    requires s.flights[f].target == k.session && s.flights[f].call == k.call && Fits(k.call, content)
    ensures Reachable(t)
    ensures t == s.(flights := s.flights[f := Submitting(k.session, k.call, content)],
                    items := Append(s.items, k.session, ResultItem(k.call), ToolResult(k.call, content)))
  {
    CanAppendResult(s, f);
    t := OnAppendResult(s, f);
  }

  /** Two handlers of one call append what they have to say: the store keeps the first. */
  lemma {:induction false} TwoAppends(s: State, k: Key, output: string, content: string, note: string)
    returns (t: State)
    requires Reachable(s) && (k.session, ResultItem(k.call)) !in s.items
    requires s.flights == map[0 := Delivering(k.session, k.call, output), 1 := Delivering(k.session, k.call, note)]
    requires Capped(output) == content && Fits(k.call, content) && Capped(note) == note && Fits(k.call, note)
    ensures Reachable(t) && t.submitted == s.submitted && t.effects == s.effects
    ensures t.flights == map[0 := Submitting(k.session, k.call, content), 1 := Submitting(k.session, k.call, note)]
    ensures (k.session, ResultItem(k.call)) in t.items
            && t.items[(k.session, ResultItem(k.call))] == ToolResult(k.call, content)
  {
    var first := AppendOne(s, 0, k, content);
    t := AppendOne(first, 1, k, note);
    SecondAppend(s.items, k, content, note);
  }

  lemma {:induction false} SecondAppend(items: map<(SessionId, string), ItemValue>, k: Key, output: string,
                                        note: string)
    requires (k.session, ResultItem(k.call)) !in items
    ensures var id := ResultItem(k.call);
            var once := Append(items, k.session, id, ToolResult(k.call, output));
            && Append(once, k.session, id, ToolResult(k.call, note)) == once
            && once == items[(k.session, id) := ToolResult(k.call, output)]
  {
  }

  lemma {:induction false} InterruptedFits()
    ensures Capped(INTERRUPTED) == INTERRUPTED
  {
    BytesAtMost(INTERRUPTED);
  }

  lemma {:induction false} BeginDuplicate(s: State, k: Key, output: string) returns (t: State)
    requires Reachable(s) && 0 in s.sessions && s.sessions[0] == k.session && !Blank(k.call)
    requires HasMarker(s, k) && (k.session, ResultItem(k.call)) !in s.items
    requires s.flights == map[0 := Delivering(k.session, k.call, output)]
    ensures Reachable(t)
    ensures t == s.(flights := map[0 := Delivering(k.session, k.call, output),
                                   1 := Delivering(k.session, k.call, INTERRUPTED)])
  {
    assert SerialFor(s, k.session);
    t := OnBeginCall(s, 1, 0, k.call, None);
    CanBeginCall(s, 1, 0, k.call, None);
  }

  /**
   The store and the conversation can be left with different results of one call: any fresh call that is
   approved runs, a duplicate arrives before its output is stored, and the duplicate's "interrupted",
   which the store ignores, is handed over first. From then on the output stays the durable result and
   "interrupted" the first submission, in every continuation.
   */
  lemma {:induction false} FirstSubmissionMayDiffer(s: State, k: Key, p: ApprovalId, ttl: nat, output: string)
    returns (t: State)
    requires Reachable(s) && s.flights == map[] && 0 in s.sessions && s.sessions[0] == k.session
    requires !Blank(k.call) && !HasMarker(s, k) && (k.session, ResultItem(k.call)) !in s.items
    requires p !in s.approvals && ttl > 0
    requires Fits(k.call, Capped(output)) && Fits(k.call, INTERRUPTED)
    ensures Reachable(t) && t.flights == map[] && HasRun(t, k)
    ensures forall more :: var u := Run(t, more);
              && FirstFor(u.submitted, k) == Some(INTERRUPTED)
              && (k.session, ResultItem(k.call)) in u.items
              && u.items[(k.session, ResultItem(k.call))] == ToolResult(k.call, Capped(output))
  {
    var parked := ParkFreshCall(s, k, p, ttl);
    var taken := TakeWaitingCall(parked, k, p);
    var run := RunTakenCall(taken, k, p, output);
    var begun := BeginDuplicate(run, k, output);
    InterruptedFits();
    var appended := TwoAppends(begun, k, output, Capped(output), INTERRUPTED);
    NothingSubmitted(run, k);
    t := SubmitBoth(appended, k, Capped(output), INTERRUPTED);
    forall more
      ensures FirstFor(Run(t, more).submitted, k) == Some(INTERRUPTED)
      ensures (k.session, ResultItem(k.call)) in Run(t, more).items
      ensures Run(t, more).items[(k.session, ResultItem(k.call))] == ToolResult(k.call, Capped(output))
    {
      FirstStays(t, more, k);
      RunDurable(t, more);
    }
  }

  lemma {:induction false} NothingSubmitted(s: State, k: Key)
    requires Reachable(s) && (k.session, ResultItem(k.call)) !in s.items
    ensures FirstFor(s.submitted, k).None?
  {
    if FirstFor(s.submitted, k).Some? {
      var i := FirstForMember(s.submitted, k);
      SubmittedResultsHaveItems(s, i);
    }
  }

  lemma {:induction false} SubmitBoth(s: State, k: Key, content: string, note: string) returns (t: State)
    requires Reachable(s) && FirstFor(s.submitted, k).None?
    requires s.flights == map[0 := Submitting(k.session, k.call, content), 1 := Submitting(k.session, k.call, note)]
    ensures Reachable(t) && t.flights == map[] && t.items == s.items && t.effects == s.effects
    ensures FirstFor(t.submitted, k) == Some(note)
  {
    var first := OnSubmit(s, 1);
    CanSubmit(s, 1);
    assert first.flights == map[0 := Submitting(k.session, k.call, content)];
    t := OnSubmit(first, 0);
    CanSubmit(first, 0);
    FirstForPush(s.submitted, k, note, k);
    FirstForPush(first.submitted, k, content, k);
  }
}
