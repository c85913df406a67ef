/**
 Token, cost and turn accounting per scope, its projection from the durable usage rows, and the
 hard limits checked against it.
 */
module Budget {
  import opened Wrappers
  import opened Telemetry
  import opened Saturating

  type ScopeId = string

  datatype Totals = Totals(measuredInput: nat, measuredOutput: nat, estimatedInput: nat, estimatedOutput: nat,
                           cost: nat)
  {
    /** `UsageTotals::add` */
    function Add(u: Usage): Totals {
      Totals(SatAdd(measuredInput, u.measuredInput.GetOr(0)), SatAdd(measuredOutput, u.measuredOutput.GetOr(0)),
             SatAdd(estimatedInput, u.estimatedInput.GetOr(0)), SatAdd(estimatedOutput, u.estimatedOutput.GetOr(0)),
             SatAdd(cost, u.costMicros.GetOr(0)))
    }

    function MeasuredTokens(): nat { SatAdd(measuredInput, measuredOutput) }
  }

  /** The limits of one scope; the time limit is checked against a clock that is an input here. */
  datatype Limits = Limits(turns: Option<nat>, measuredTokens: Option<nat>, cost: Option<nat>, seconds: Option<nat>)

  datatype Scope = TaskScope | MissionScope | AgentScope

  datatype Row = Row(scope: Scope, scopeId: ScopeId, usage: Usage)
  datatype Task = Task(id: ScopeId, mission: ScopeId, agent: Option<ScopeId>, limits: Limits)

  datatype Snapshot = Snapshot(usage: seq<Row>, tasks: seq<Task>,
                               missions: map<ScopeId, Limits>, agents: map<ScopeId, Limits>)

  datatype Ledger = Ledger(totals: map<ScopeId, Totals>, turns: map<ScopeId, nat>)
  {
    function Of(id: ScopeId): Totals { if id in totals then totals[id] else Totals(0, 0, 0, 0, 0) }
    function Turns(id: ScopeId): nat { if id in turns then turns[id] else 0 }

    /** `BudgetLedger::record` */
    function Record(id: ScopeId, u: Usage): Ledger {
      Ledger(totals[id := Of(id).Add(u)], turns[id := Min(Turns(id) + 1, U32_MAX)])
    }

    /** `BudgetLedger::allows_measured` */
    predicate Allows(id: ScopeId, l: Limits) {
      && (l.turns.Some? ==> Turns(id) <= l.turns.value)
      && (l.measuredTokens.Some? ==> Of(id).MeasuredTokens() <= l.measuredTokens.value)
      && (l.cost.Some? ==> Of(id).cost <= l.cost.value)
    }
  }

  /** A usage figure charged to a scope. */
  datatype Charge = Charge(id: ScopeId, usage: Usage)

  function RecordAll(l: Ledger, charges: seq<Charge>): Ledger {
    if charges == [] then l
    else
      var last := charges[|charges| - 1];
      RecordAll(l, charges[..|charges| - 1]).Record(last.id, last.usage)
  }

  function FindTask(tasks: seq<Task>, id: ScopeId): Option<Task> {
    if tasks == [] then None else if tasks[0].id == id then Some(tasks[0]) else FindTask(tasks[1..], id)
  }

  /** A row is charged to its own scope; a task's row also to the task's mission and agent. */
  function RowCharges(row: Row, tasks: seq<Task>): seq<Charge> {
    var own := [Charge(row.scopeId, row.usage)];
    if row.scope != TaskScope || FindTask(tasks, row.scopeId).None? then own
    else
      var task := FindTask(tasks, row.scopeId).value;
      own + [Charge(task.mission, row.usage)]
      + if task.agent.Some? then [Charge(task.agent.value, row.usage)] else []
  }

  function Charges(rows: seq<Row>, tasks: seq<Task>): seq<Charge> {
    if rows == [] then [] else Charges(rows[..|rows| - 1], tasks) + RowCharges(rows[|rows| - 1], tasks)
  }

  function NewLedger(): Ledger { Ledger(map[], map[]) }

  /** The projection of the durable rows. */
  function Rebuild(s: Snapshot): Ledger { RecordAll(NewLedger(), Charges(s.usage, s.tasks)) }

  // ---------------------------------------------------------------------------
  // What the ledger says of a scope.

  datatype Figure = MeasuredInput | MeasuredOutput | EstimatedInput | EstimatedOutput | Cost

  function Reported(u: Usage, f: Figure): nat {
    match f
    case MeasuredInput => u.measuredInput.GetOr(0)
    case MeasuredOutput => u.measuredOutput.GetOr(0)
    case EstimatedInput => u.estimatedInput.GetOr(0)
    case EstimatedOutput => u.estimatedOutput.GetOr(0)
    case Cost => u.costMicros.GetOr(0)
  }

  function Held(t: Totals, f: Figure): nat {
    match f
    case MeasuredInput => t.measuredInput
    case MeasuredOutput => t.measuredOutput
    case EstimatedInput => t.estimatedInput
    case EstimatedOutput => t.estimatedOutput
    case Cost => t.cost
  }

  /** The true sum of a figure over the charges to a scope, and their number. */
  function Spent(charges: seq<Charge>, id: ScopeId, f: Figure): nat {
    if charges == [] then 0
    else
      var last := charges[|charges| - 1];
      Spent(charges[..|charges| - 1], id, f) + if last.id == id then Reported(last.usage, f) else 0
  }

  function Frames(charges: seq<Charge>, id: ScopeId): nat {
    if charges == [] then 0
    else Frames(charges[..|charges| - 1], id) + if charges[|charges| - 1].id == id then 1 else 0
  }

  /** Every figure of every scope is the sum of its charges, saturated at the width of its counter. */
  lemma {:induction false} LedgerIsTheSaturatedSum(charges: seq<Charge>, id: ScopeId, f: Figure)
    ensures var l := RecordAll(NewLedger(), charges);
            && Held(l.Of(id), f) == Min(Spent(charges, id, f), U64_MAX)
            && l.Turns(id) == Min(Frames(charges, id), U32_MAX)
    decreases |charges|
  {
    if charges != [] {
      LedgerIsTheSaturatedSum(charges[..|charges| - 1], id, f);
    }
  }

  lemma {:induction false} RecordAllConcat(l: Ledger, xs: seq<Charge>, ys: seq<Charge>)
    ensures RecordAll(l, xs + ys) == RecordAll(RecordAll(l, xs), ys)
    decreases |ys|
  {
    if ys == [] {
      assert xs + ys == xs;
    } else {
      assert (xs + ys)[..|xs + ys| - 1] == xs + ys[..|ys| - 1];
      RecordAllConcat(l, xs, ys[..|ys| - 1]);
    }
  }

  lemma {:induction false} FramesConcat(xs: seq<Charge>, ys: seq<Charge>, id: ScopeId)
    ensures Frames(xs + ys, id) == Frames(xs, id) + Frames(ys, id)
    decreases |ys|
  {
    if ys == [] {
      assert xs + ys == xs;
    } else {
      assert (xs + ys)[..|xs + ys| - 1] == xs + ys[..|ys| - 1];
      FramesConcat(xs, ys[..|ys| - 1], id);
    }
  }

  // ---------------------------------------------------------------------------
  // One telemetry frame.

  /** What a live frame charges: the task, the mission and the agent it is reported for. */
  function LiveCharges(task: ScopeId, mission: ScopeId, agent: ScopeId, u: Usage): seq<Charge> {
    [Charge(task, u), Charge(mission, u), Charge(agent, u)]
  }

  /** The live ledger after a frame that has not been committed yet. */
  function Live(s: Snapshot, row: Row, mission: ScopeId, agent: ScopeId): Ledger {
    RecordAll(Rebuild(s), LiveCharges(row.scopeId, mission, agent, row.usage))
  }

  function WithRow(s: Snapshot, row: Row): Snapshot { s.(usage := s.usage + [row]) }

  lemma {:induction false} RebuildWithRow(s: Snapshot, row: Row)
    ensures Rebuild(WithRow(s, row)) == RecordAll(Rebuild(s), RowCharges(row, s.tasks))
  {
    assert (s.usage + [row])[..|s.usage|] == s.usage;
    RecordAllConcat(NewLedger(), Charges(s.usage, s.tasks), RowCharges(row, s.tasks));
  }

  /** The stored task is the one the frame was reported for. */
  predicate FrameMatchesTask(s: Snapshot, row: Row, mission: ScopeId, agent: ScopeId) {
    && row.scope == TaskScope
    && FindTask(s.tasks, row.scopeId).Some?
    && FindTask(s.tasks, row.scopeId).value.mission == mission
    && FindTask(s.tasks, row.scopeId).value.agent == Some(agent)
  }

  /** A matching frame, once committed, leaves the live ledger equal to a rebuild from the store. */
  lemma {:induction false} LedgerFollowsTheStore(s: Snapshot, row: Row, mission: ScopeId, agent: ScopeId)
    requires FrameMatchesTask(s, row, mission, agent)
    ensures Live(s, row, mission, agent) == Rebuild(WithRow(s, row))
  {
    RebuildWithRow(s, row);
    assert RowCharges(row, s.tasks) == LiveCharges(row.scopeId, mission, agent, row.usage);
  }

  /** How often each scope is charged. */
  function Charged(charges: seq<Charge>): multiset<ScopeId> {
    if charges == [] then multiset{} else Charged(charges[..|charges| - 1]) + multiset{charges[|charges| - 1].id}
  }

  lemma {:induction false} ChargedCountsFrames(charges: seq<Charge>, id: ScopeId)
    ensures Charged(charges)[id] == Frames(charges, id)
    decreases |charges|
  {
    if charges != [] {
      ChargedCountsFrames(charges[..|charges| - 1], id);
    }
  }

  lemma {:induction false} TurnsAgreeIff(s: Snapshot, row: Row, mission: ScopeId, agent: ScopeId, id: ScopeId)
    requires Frames(Charges(s.usage, s.tasks), id) + 3 <= U32_MAX
    ensures Live(s, row, mission, agent).Turns(id) == Rebuild(WithRow(s, row)).Turns(id)
            <==> Charged(LiveCharges(row.scopeId, mission, agent, row.usage))[id]
                 == Charged(RowCharges(row, s.tasks))[id]
  {
    var base := Charges(s.usage, s.tasks);
    var live, stored := LiveCharges(row.scopeId, mission, agent, row.usage), RowCharges(row, s.tasks);
    RecordAllConcat(NewLedger(), base, live);
    RecordAllConcat(NewLedger(), base, stored);
    RebuildWithRow(s, row);
    TurnsAfter(base, live, id);
    TurnsAfter(base, stored, id);
  }

  function AddTimes(t: Totals, u: Usage, n: nat): Totals {
    if n == 0 then t else AddTimes(t, u, n - 1).Add(u)
  }

  function BumpTimes(turns: nat, n: nat): nat {
    if n == 0 then turns else Min(BumpTimes(turns, n - 1) + 1, U32_MAX)
  }

  /** `m` is `l` after `n` charges of the usage figure to the scope. */
  predicate ChargedTimes(l: Ledger, m: Ledger, u: Usage, id: ScopeId, n: nat) {
    && m.Of(id) == AddTimes(l.Of(id), u, n) && m.Turns(id) == BumpTimes(l.Turns(id), n)
    && (id in m.totals <==> id in l.totals || n > 0) && (id in m.turns <==> id in l.turns || n > 0)
  }

  lemma {:induction false} OneMoreCharge(l: Ledger, m: Ledger, u: Usage, id: ScopeId, n: nat, charged: ScopeId)
    requires ChargedTimes(l, m, u, id, n)
    ensures ChargedTimes(l, m.Record(charged, u), u, id, if charged == id then n + 1 else n)
  {
    if charged == id {
      assert AddTimes(l.Of(id), u, n + 1) == AddTimes(l.Of(id), u, n).Add(u);
      assert BumpTimes(l.Turns(id), n + 1) == Min(BumpTimes(l.Turns(id), n) + 1, U32_MAX);
    }
  }

  /** Charges of one usage figure: what they make of a scope depends on how often it is charged. */
  lemma {:induction false} ChargesOfOneFrame(l: Ledger, charges: seq<Charge>, u: Usage, id: ScopeId)
    requires forall i | 0 <= i < |charges| :: charges[i].usage == u
    ensures ChargedTimes(l, RecordAll(l, charges), u, id, Charged(charges)[id])
    decreases |charges|
  {
    if charges != [] {
      var front := charges[..|charges| - 1];
      ChargesOfOneFrame(l, front, u, id);
      OneMoreCharge(l, RecordAll(l, front), u, id, Charged(front)[id], charges[|charges| - 1].id);
    }
  }

  predicate SameAt(a: Ledger, b: Ledger, id: ScopeId) {
    && a.Of(id) == b.Of(id) && a.Turns(id) == b.Turns(id)
    && (id in a.totals <==> id in b.totals) && (id in a.turns <==> id in b.turns)
  }

  lemma {:induction false} SameLedger(a: Ledger, b: Ledger)
    requires forall id :: SameAt(a, b, id)
    ensures a == b
  {
    forall id ensures id in a.totals <==> id in b.totals { assert SameAt(a, b, id); }
    forall id ensures id in a.turns <==> id in b.turns { assert SameAt(a, b, id); }
    forall id | id in a.totals ensures a.totals[id] == b.totals[id] { assert SameAt(a, b, id); }
    forall id | id in a.turns ensures a.turns[id] == b.turns[id] { assert SameAt(a, b, id); }
    assert a.totals == b.totals && a.turns == b.turns;
  }

  /** Charges of one usage figure to the same scopes, in any order, leave the same ledger. */
  lemma {:induction false} SameScopesSameRecord(l: Ledger, xs: seq<Charge>, ys: seq<Charge>, u: Usage)
    requires (forall i | 0 <= i < |xs| :: xs[i].usage == u) && (forall i | 0 <= i < |ys| :: ys[i].usage == u)
    requires Charged(xs) == Charged(ys)
    ensures RecordAll(l, xs) == RecordAll(l, ys)
  {
    var a, b := RecordAll(l, xs), RecordAll(l, ys);
    forall id ensures SameAt(a, b, id) {
      ChargesOfOneFrame(l, xs, u, id);
      ChargesOfOneFrame(l, ys, u, id);
    }
    SameLedger(a, b);
  }

  lemma {:induction false} OneUsage(row: Row, tasks: seq<Task>, mission: ScopeId, agent: ScopeId)
    ensures forall i | 0 <= i < |RowCharges(row, tasks)| :: RowCharges(row, tasks)[i].usage == row.usage
    ensures var live := LiveCharges(row.scopeId, mission, agent, row.usage);
            forall i | 0 <= i < |live| :: live[i].usage == row.usage
  {
  }

  /** A frame that is charged to the scopes the store charges it to leaves the live ledger equal to a rebuild. */
  lemma {:induction false} SameScopesSameLedger(s: Snapshot, row: Row, mission: ScopeId, agent: ScopeId)
    requires Charged(LiveCharges(row.scopeId, mission, agent, row.usage)) == Charged(RowCharges(row, s.tasks))
    ensures Live(s, row, mission, agent) == Rebuild(WithRow(s, row))
  {
    RebuildWithRow(s, row);
    OneUsage(row, s.tasks, mission, agent);
    SameScopesSameRecord(Rebuild(s), LiveCharges(row.scopeId, mission, agent, row.usage), RowCharges(row, s.tasks),
                         row.usage);
  }

  /**
   While no turn counter is about to saturate, live ledger and rebuild are equal exactly when the frame
   is charged to the scopes the store charges it to.
   */
  lemma {:induction false} LedgerFollowsTheStoreIff(s: Snapshot, row: Row, mission: ScopeId, agent: ScopeId)
    requires forall id :: Frames(Charges(s.usage, s.tasks), id) + 3 <= U32_MAX
    ensures Live(s, row, mission, agent) == Rebuild(WithRow(s, row))
            <==> Charged(LiveCharges(row.scopeId, mission, agent, row.usage)) == Charged(RowCharges(row, s.tasks))
  {
    var live, stored := Charged(LiveCharges(row.scopeId, mission, agent, row.usage)), Charged(RowCharges(row, s.tasks));
    if live == stored {
      SameScopesSameLedger(s, row, mission, agent);
    } else {
      SameCounts(live, stored);
      var id :| live[id] != stored[id];
      TurnsAgreeIff(s, row, mission, agent, id);
    }
  }

  lemma {:induction false} SameCounts(a: multiset<ScopeId>, b: multiset<ScopeId>)
    ensures a == b <==> forall id :: a[id] == b[id]
  {
  }

  lemma {:induction false} TurnsAfter(xs: seq<Charge>, ys: seq<Charge>, id: ScopeId)
    requires |ys| <= 3 && Frames(xs, id) + 3 <= U32_MAX
    ensures RecordAll(NewLedger(), xs + ys).Turns(id) == Frames(xs, id) + Charged(ys)[id]
  {
    LedgerIsTheSaturatedSum(xs + ys, id, Cost);
    FramesConcat(xs, ys, id);
    ChargedCountsFrames(ys, id);
    FramesBounded(ys, id);
  }

  lemma {:induction false} FramesBounded(charges: seq<Charge>, id: ScopeId)
    ensures Frames(charges, id) <= |charges|
    decreases |charges|
  {
    if charges != [] {
      FramesBounded(charges[..|charges| - 1], id);
    }
  }

  // ---------------------------------------------------------------------------
  // Hard stops.

  /** Two histories with the same frames whose measured and cost figures agree. */
  predicate SameMeasured(xs: seq<Charge>, ys: seq<Charge>) {
    && |xs| == |ys|
    && forall i | 0 <= i < |xs| ::
         && xs[i].id == ys[i].id
         && xs[i].usage.measuredInput == ys[i].usage.measuredInput
         && xs[i].usage.measuredOutput == ys[i].usage.measuredOutput
         && xs[i].usage.costMicros == ys[i].usage.costMicros
  }

  lemma {:induction false} SameMeasuredSameSpent(xs: seq<Charge>, ys: seq<Charge>, id: ScopeId, f: Figure)
    requires SameMeasured(xs, ys) && f in {MeasuredInput, MeasuredOutput, Cost}
    ensures Spent(xs, id, f) == Spent(ys, id, f) && Frames(xs, id) == Frames(ys, id)
    decreases |xs|
  {
    if xs != [] {
      SameMeasuredSameSpent(xs[..|xs| - 1], ys[..|ys| - 1], id, f);
    }
  }

  /** Estimates, cached and reasoning figures never decide about a hard stop. */
  lemma {:induction false} EstimatesNeverStop(xs: seq<Charge>, ys: seq<Charge>, id: ScopeId, l: Limits)
    requires SameMeasured(xs, ys)
    ensures RecordAll(NewLedger(), xs).Allows(id, l) <==> RecordAll(NewLedger(), ys).Allows(id, l)
  {
    SameMeasuredSameSpent(xs, ys, id, MeasuredInput);
    SameMeasuredSameSpent(xs, ys, id, MeasuredOutput);
    SameMeasuredSameSpent(xs, ys, id, Cost);
    forall f | f in {MeasuredInput, MeasuredOutput, Cost}
      ensures Held(RecordAll(NewLedger(), xs).Of(id), f) == Held(RecordAll(NewLedger(), ys).Of(id), f)
    {
      LedgerIsTheSaturatedSum(xs, id, f);
      LedgerIsTheSaturatedSum(ys, id, f);
      SameMeasuredSameSpent(xs, ys, id, f);
    }
    LedgerIsTheSaturatedSum(xs, id, Cost);
    LedgerIsTheSaturatedSum(ys, id, Cost);
    assert RecordAll(NewLedger(), xs).Of(id).MeasuredTokens() == RecordAll(NewLedger(), ys).Of(id).MeasuredTokens() by {
      assert Held(RecordAll(NewLedger(), xs).Of(id), MeasuredInput)
        == Held(RecordAll(NewLedger(), ys).Of(id), MeasuredInput);
      assert Held(RecordAll(NewLedger(), xs).Of(id), MeasuredOutput)
        == Held(RecordAll(NewLedger(), ys).Of(id), MeasuredOutput);
    }
    assert Held(RecordAll(NewLedger(), xs).Of(id), Cost) == Held(RecordAll(NewLedger(), ys).Of(id), Cost);
  }

  /** Every counter that a limit looks at is within its width. */
  predicate Bounded(l: Ledger) {
    && (forall id | id in l.totals :: l.totals[id].measuredInput <= U64_MAX && l.totals[id].measuredOutput <= U64_MAX
                                      && l.totals[id].cost <= U64_MAX)
    && (forall id | id in l.turns :: l.turns[id] <= U32_MAX)
  }

  /** A scope over its turn, token or cost limit stays over it, whatever is recorded next. */
  lemma {:induction false} OverStaysOver(l: Ledger, charges: seq<Charge>, id: ScopeId, limits: Limits)
    requires Bounded(l) && !l.Allows(id, limits)
    ensures Bounded(RecordAll(l, charges)) && !RecordAll(l, charges).Allows(id, limits)
    decreases |charges|
  {
    if charges != [] {
      OverStaysOver(l, charges[..|charges| - 1], id, limits);
    }
  }

  // ---------------------------------------------------------------------------
  // The same of durable rows.

  /** Rows that differ at most in estimated, cached and reasoning figures. */
  predicate SameMeasuredRow(a: Row, b: Row) {
    && a.scope == b.scope && a.scopeId == b.scopeId
    && a.usage.measuredInput == b.usage.measuredInput && a.usage.measuredOutput == b.usage.measuredOutput
    && a.usage.costMicros == b.usage.costMicros
  }

  predicate SameMeasuredRows(xs: seq<Row>, ys: seq<Row>) {
    |xs| == |ys| && forall i | 0 <= i < |xs| :: SameMeasuredRow(xs[i], ys[i])
  }

  lemma {:induction false} SameMeasuredConcat(a: seq<Charge>, b: seq<Charge>, c: seq<Charge>, d: seq<Charge>)
    requires SameMeasured(a, b) && SameMeasured(c, d)
    ensures SameMeasured(a + c, b + d)
  {
  }

  lemma {:induction false} SameRowsSameCharges(xs: seq<Row>, ys: seq<Row>, tasks: seq<Task>)
    requires SameMeasuredRows(xs, ys)
    ensures SameMeasured(Charges(xs, tasks), Charges(ys, tasks))
    decreases |xs|
  {
    if xs != [] {
      SameRowsSameCharges(xs[..|xs| - 1], ys[..|ys| - 1], tasks);
      assert SameMeasuredRow(xs[|xs| - 1], ys[|ys| - 1]);
      SameMeasuredConcat(Charges(xs[..|xs| - 1], tasks), Charges(ys[..|ys| - 1], tasks),
                         RowCharges(xs[|xs| - 1], tasks), RowCharges(ys[|ys| - 1], tasks));
    }
  }

  /** Stores whose rows differ only in estimates rebuild ledgers with the same verdict on every scope. */
  lemma {:induction false} EstimatedRowsNeverStop(s: Snapshot, t: Snapshot, id: ScopeId, l: Limits)
    requires s.tasks == t.tasks && SameMeasuredRows(s.usage, t.usage)
    ensures Rebuild(s).Allows(id, l) <==> Rebuild(t).Allows(id, l)
  {
    SameRowsSameCharges(s.usage, t.usage, s.tasks);
    EstimatesNeverStop(Charges(s.usage, s.tasks), Charges(t.usage, t.tasks), id, l);
  }

  lemma {:induction false} BoundedStays(l: Ledger, charges: seq<Charge>)
    requires Bounded(l)
    ensures Bounded(RecordAll(l, charges))
    decreases |charges|
  {
    if charges != [] {
      BoundedStays(l, charges[..|charges| - 1]);
    }
  }

  lemma {:induction false} ChargesJoined(a: seq<Charge>, b: seq<Charge>, c: seq<Charge>)
    ensures (a + b) + c == a + (b + c)
  {
  }

  lemma {:induction false} ChargesConcat(rows: seq<Row>, more: seq<Row>, tasks: seq<Task>)
    ensures Charges(rows + more, tasks) == Charges(rows, tasks) + Charges(more, tasks)
    decreases |more|
  {
    if more == [] {
      assert rows + more == rows;
    } else {
      assert (rows + more)[..|rows + more| - 1] == rows + more[..|more| - 1];
      ChargesConcat(rows, more[..|more| - 1], tasks);
      ChargesJoined(Charges(rows, tasks), Charges(more[..|more| - 1], tasks), RowCharges(more[|more| - 1], tasks));
    }
  }

  /** A scope that the durable rows put over a limit is over it after any further rows. */
  lemma {:induction false} OverStaysOverInTheStore(s: Snapshot, more: seq<Row>, id: ScopeId, limits: Limits)
    requires !Rebuild(s).Allows(id, limits)
    ensures !Rebuild(s.(usage := s.usage + more)).Allows(id, limits)
  {
    ChargesConcat(s.usage, more, s.tasks);
    RecordAllConcat(NewLedger(), Charges(s.usage, s.tasks), Charges(more, s.tasks));
    BoundedStays(NewLedger(), Charges(s.usage, s.tasks));
    OverStaysOver(Rebuild(s), Charges(more, s.tasks), id, limits);
  }

  /** One scope as it is checked: its id, its limits, and how long its clock has run. */
  datatype Check = Check(scope: Scope, id: ScopeId, limits: Limits, elapsed: nat)

  predicate Exceeded(l: Ledger, c: Check) {
    (c.limits.seconds.Some? && c.elapsed >= c.limits.seconds.value) || !l.Allows(c.id, c.limits)
  }

  /** The first scope in the list that is over a limit. */
  function Verdict(l: Ledger, checks: seq<Check>): (r: Option<Scope>)
    ensures r.None? <==> forall i | 0 <= i < |checks| :: !Exceeded(l, checks[i])
    ensures r.Some? ==> exists i | 0 <= i < |checks| ::
                          && Exceeded(l, checks[i]) && checks[i].scope == r.value
                          && forall j | 0 <= j < i :: !Exceeded(l, checks[j])
  {
    if checks == [] then None
    else if Exceeded(l, checks[0]) then Some(checks[0].scope)
    else
      var r := Verdict(l, checks[1..]);
      assert forall i | 0 < i < |checks| :: checks[i] == checks[1..][i - 1];
      r
  }

  /** The verdict on a frame is the same whatever its estimates, and those of all earlier frames, say. */
  lemma {:induction false} EstimatesNeverChangeTheVerdict(xs: seq<Charge>, ys: seq<Charge>, checks: seq<Check>)
    requires SameMeasured(xs, ys)
    ensures Verdict(RecordAll(NewLedger(), xs), checks) == Verdict(RecordAll(NewLedger(), ys), checks)
    decreases |checks|
  {
    if checks != [] {
      EstimatesNeverStop(xs, ys, checks[0].id, checks[0].limits);
      EstimatesNeverChangeTheVerdict(xs, ys, checks[1..]);
    }
  }

  /** The verdict on a live frame does not depend on its estimates, nor on those of the durable rows. */
  lemma {:induction false} EstimatedFramesNeverChangeTheVerdict(s: Snapshot, t: Snapshot, row: Row, row': Row,
                                                                mission: ScopeId, agent: ScopeId, checks: seq<Check>)
    requires s.tasks == t.tasks && SameMeasuredRows(s.usage, t.usage) && SameMeasuredRow(row, row')
    ensures Verdict(Live(s, row, mission, agent), checks) == Verdict(Live(t, row', mission, agent), checks)
  {
    var a, b := Charges(s.usage, s.tasks), Charges(t.usage, t.tasks);
    var c := LiveCharges(row.scopeId, mission, agent, row.usage);
    var d := LiveCharges(row'.scopeId, mission, agent, row'.usage);
    SameRowsSameCharges(s.usage, t.usage, s.tasks);
    SameMeasuredConcat(a, b, c, d);
    RecordAllConcat(NewLedger(), a, c);
    RecordAllConcat(NewLedger(), b, d);
    EstimatesNeverChangeTheVerdict(a + c, b + d, checks);
  }

  // ---------------------------------------------------------------------------
  // The verdict over the true sums.

  lemma {:induction false} SpentConcat(xs: seq<Charge>, ys: seq<Charge>, id: ScopeId, f: Figure)
    ensures Spent(xs + ys, id, f) == Spent(xs, id, f) + Spent(ys, id, f)
    decreases |ys|
  {
    if ys == [] {
      assert xs + ys == xs;
    } else {
      assert (xs + ys)[..|xs + ys| - 1] == xs + ys[..|ys| - 1];
      SpentConcat(xs, ys[..|ys| - 1], id, f);
    }
  }

  /** How often a scope pays for a row: as the scope it is reported for, and as its task's mission or agent. */
  function Share(row: Row, tasks: seq<Task>, id: ScopeId): nat {
    var owner := FindTask(tasks, row.scopeId);
    (if row.scopeId == id then 1 else 0)
    + (if row.scope == TaskScope && owner.Some? && owner.value.mission == id then 1 else 0)
    + (if row.scope == TaskScope && owner.Some? && owner.value.agent == Some(id) then 1 else 0)
  }

  /** What the rows say a scope has spent, and how many frames it has had. */
  function RowsSpent(rows: seq<Row>, tasks: seq<Task>, id: ScopeId, f: Figure): nat {
    if rows == [] then 0
    else
      var last := rows[|rows| - 1];
      RowsSpent(rows[..|rows| - 1], tasks, id, f) + Share(last, tasks, id) * Reported(last.usage, f)
  }

  function RowsFrames(rows: seq<Row>, tasks: seq<Task>, id: ScopeId): nat {
    if rows == [] then 0
    else RowsFrames(rows[..|rows| - 1], tasks, id) + Share(rows[|rows| - 1], tasks, id)
  }

  /** How often a scope pays for a live frame. */
  function LiveShare(row: Row, mission: ScopeId, agent: ScopeId, id: ScopeId): nat {
    (if row.scopeId == id then 1 else 0) + (if mission == id then 1 else 0) + (if agent == id then 1 else 0)
  }

  lemma {:induction false} FramesOfOne(c: Charge, id: ScopeId)
    ensures Frames([c], id) == if c.id == id then 1 else 0
  {
    assert [c][..0] == [];
    assert Frames([c], id) == Frames([], id) + if c.id == id then 1 else 0;
  }

  lemma {:induction false} SumsConcat(xs: seq<Charge>, ys: seq<Charge>, id: ScopeId, f: Figure)
    ensures Spent(xs + ys, id, f) == Spent(xs, id, f) + Spent(ys, id, f)
    ensures Frames(xs + ys, id) == Frames(xs, id) + Frames(ys, id)
  {
    SpentConcat(xs, ys, id, f);
    FramesConcat(xs, ys, id);
  }

  /** Up to three charges of one usage. */
  lemma {:induction false} SumsOfThree(a: ScopeId, b: ScopeId, c: ScopeId, u: Usage, id: ScopeId, f: Figure)
    ensures var one := [Charge(a, u)];
            var two := one + [Charge(b, u)];
            var three := two + [Charge(c, u)];
            var na, nb, nc := if a == id then 1 else 0, if b == id then 1 else 0, if c == id then 1 else 0;
            && Frames(one, id) == na && Spent(one, id, f) == na * Reported(u, f)
            && Frames(two, id) == na + nb && Spent(two, id, f) == (na + nb) * Reported(u, f)
            && Frames(three, id) == na + nb + nc && Spent(three, id, f) == (na + nb + nc) * Reported(u, f)
  {
    var x, y, z := Charge(a, u), Charge(b, u), Charge(c, u);
    SpentOfOne(x, id, f);
    SpentOfOne(y, id, f);
    SpentOfOne(z, id, f);
    FramesOfOne(x, id);
    FramesOfOne(y, id);
    FramesOfOne(z, id);
    SumsConcat([x], [y], id, f);
    SumsConcat([x] + [y], [z], id, f);
  }

  lemma {:induction false} RowCost(row: Row, tasks: seq<Task>, id: ScopeId, f: Figure)
    ensures Frames(RowCharges(row, tasks), id) == Share(row, tasks, id)
    ensures Spent(RowCharges(row, tasks), id, f) == Share(row, tasks, id) * Reported(row.usage, f)
  {
    var owner := FindTask(tasks, row.scopeId);
    if row.scope != TaskScope || owner.None? {
      SumsOfThree(row.scopeId, row.scopeId, row.scopeId, row.usage, id, f);
    } else {
      var third := owner.value.agent.GetOr(row.scopeId);
      SumsOfThree(row.scopeId, owner.value.mission, third, row.usage, id, f);
      assert RowCharges(row, tasks)
          == [Charge(row.scopeId, row.usage)] + [Charge(owner.value.mission, row.usage)]
             + if owner.value.agent.Some? then [Charge(third, row.usage)] else [];
    }
  }

  /** The charges of the rows are what the rows say. */
  lemma {:induction false} ChargesFollowRows(rows: seq<Row>, tasks: seq<Task>, id: ScopeId, f: Figure)
    ensures Frames(Charges(rows, tasks), id) == RowsFrames(rows, tasks, id)
    ensures Spent(Charges(rows, tasks), id, f) == RowsSpent(rows, tasks, id, f)
    decreases |rows|
  {
    if rows != [] {
      var before, last := rows[..|rows| - 1], rows[|rows| - 1];
      ChargesFollowRows(before, tasks, id, f);
      RowCost(last, tasks, id, f);
      SumsConcat(Charges(before, tasks), RowCharges(last, tasks), id, f);
    }
  }

  /** A figure of a scope behind a live frame: the rows so far and its share of the frame, up to the counter's width. */
  function LiveFigure(s: Snapshot, row: Row, mission: ScopeId, agent: ScopeId, id: ScopeId, f: Figure): nat {
    RowsSpent(s.usage, s.tasks, id, f) + LiveShare(row, mission, agent, id) * Reported(row.usage, f)
  }

  function LiveTurns(s: Snapshot, row: Row, mission: ScopeId, agent: ScopeId, id: ScopeId): nat {
    RowsFrames(s.usage, s.tasks, id) + LiveShare(row, mission, agent, id)
  }

  lemma {:induction false} LiveLedgerFollowsRows(s: Snapshot, row: Row, mission: ScopeId, agent: ScopeId, id: ScopeId,
                                                 f: Figure)
    ensures var l := Live(s, row, mission, agent);
            && Held(l.Of(id), f) == Min(LiveFigure(s, row, mission, agent, id, f), U64_MAX)
            && l.Turns(id) == Min(LiveTurns(s, row, mission, agent, id), U32_MAX)
  {
    var base, live := Charges(s.usage, s.tasks), LiveCharges(row.scopeId, mission, agent, row.usage);
    RecordAllConcat(NewLedger(), base, live);
    LedgerIsTheSaturatedSum(base + live, id, f);
    SumsConcat(base, live, id, f);
    ChargesFollowRows(s.usage, s.tasks, id, f);
    SumsOfThree(row.scopeId, mission, agent, row.usage, id, f);
    assert live == [Charge(row.scopeId, row.usage)] + [Charge(mission, row.usage)] + [Charge(agent, row.usage)];
  }

  /**
   A scope is over a limit behind a live frame: its time has run out, or it has had more frames, more
   measured tokens in and out together, or more cost than it may have.
   */
  predicate OverLimit(s: Snapshot, row: Row, mission: ScopeId, agent: ScopeId, id: ScopeId, limits: Limits,
                      elapsed: nat)
  {
    var tokens := LiveFigure(s, row, mission, agent, id, MeasuredInput)
                  + LiveFigure(s, row, mission, agent, id, MeasuredOutput);
    || (limits.seconds.Some? && elapsed >= limits.seconds.value)
    || (limits.turns.Some? && Min(LiveTurns(s, row, mission, agent, id), U32_MAX) > limits.turns.value)
    || (limits.measuredTokens.Some? && Min(tokens, U64_MAX) > limits.measuredTokens.value)
    || (limits.cost.Some? && Min(LiveFigure(s, row, mission, agent, id, Cost), U64_MAX) > limits.cost.value)
  }

  lemma {:induction false} ClippedSum(a: nat, b: nat)
    ensures SatAdd(Min(a, U64_MAX), Min(b, U64_MAX)) == Min(a + b, U64_MAX)
  {
  }

  /** What is checked of one scope is exactly whether the true sums put it over a limit. */
  lemma {:induction false} ExceededIff(s: Snapshot, row: Row, mission: ScopeId, agent: ScopeId, c: Check)
    ensures Exceeded(Live(s, row, mission, agent), c)
            <==> OverLimit(s, row, mission, agent, c.id, c.limits, c.elapsed)
  {
    LiveLedgerFollowsRows(s, row, mission, agent, c.id, MeasuredInput);
    LiveLedgerFollowsRows(s, row, mission, agent, c.id, MeasuredOutput);
    LiveLedgerFollowsRows(s, row, mission, agent, c.id, Cost);
    ClippedSum(LiveFigure(s, row, mission, agent, c.id, MeasuredInput),
               LiveFigure(s, row, mission, agent, c.id, MeasuredOutput));
  }

  // ---------------------------------------------------------------------------
  // A mission holds what its tasks hold.

  /** Task ids are distinct, and no id names scopes of two kinds. */
  predicate IdsApart(tasks: seq<Task>) {
    && (forall i, j | 0 <= i < j < |tasks| :: tasks[i].id != tasks[j].id)
    && (forall i, j | 0 <= i < |tasks| && 0 <= j < |tasks| ::
          && tasks[i].id != tasks[j].mission
          && tasks[j].agent != Some(tasks[i].id)
          && tasks[j].agent != Some(tasks[i].mission))
  }

  /** The sum over the listed tasks of a mission. */
  function SpentByTasks(charges: seq<Charge>, list: seq<Task>, mission: ScopeId, f: Figure): nat
    decreases |list|
  {
    if list == [] then 0
    else
      var last := list[|list| - 1];
      SpentByTasks(charges, list[..|list| - 1], mission, f)
      + if last.mission == mission then Spent(charges, last.id, f) else 0
  }

  /** The first task with the id, and none exactly if no task has it. */
  lemma {:induction false} FindTaskFinds(tasks: seq<Task>, id: ScopeId)
    ensures FindTask(tasks, id).None? <==> forall i | 0 <= i < |tasks| :: tasks[i].id != id
    ensures FindTask(tasks, id).Some? ==>
              exists i :: 0 <= i < |tasks| && tasks[i] == FindTask(tasks, id).value && tasks[i].id == id
                          && forall j | 0 <= j < i :: tasks[j].id != id
    decreases |tasks|
  {
    if tasks != [] {
      var rest := tasks[1..];
      FindTaskFinds(rest, id);
      assert forall i | 0 <= i < |rest| :: rest[i] == tasks[i + 1];
      if tasks[0].id != id && FindTask(rest, id).Some? {
        var i :| 0 <= i < |rest| && rest[i] == FindTask(rest, id).value && rest[i].id == id
                 && forall j | 0 <= j < i :: rest[j].id != id;
        assert tasks[i + 1] == FindTask(tasks, id).value;
        assert forall j | 0 <= j < i + 1 :: j == 0 || tasks[j] == rest[j - 1];
      }
    }
  }

  /** What one task row adds to a task, and to a mission that has tasks. */
  lemma {:induction false} RowAdds(row: Row, tasks: seq<Task>, t: Task, f: Figure)
    requires IdsApart(tasks) && t in tasks && row.scope == TaskScope && FindTask(tasks, row.scopeId).Some?
    ensures Spent(RowCharges(row, tasks), t.id, f) == if row.scopeId == t.id then Reported(row.usage, f) else 0
    ensures Spent(RowCharges(row, tasks), t.mission, f)
            == if FindTask(tasks, row.scopeId).value.mission == t.mission then Reported(row.usage, f) else 0
  {
    FindTaskFinds(tasks, row.scopeId);
    var owner := FindTask(tasks, row.scopeId).value;
    var charges := RowCharges(row, tasks);
    var two := [Charge(row.scopeId, row.usage)] + [Charge(owner.mission, row.usage)];
    SpentOfOne(Charge(row.scopeId, row.usage), t.id, f);
    SpentOfOne(Charge(owner.mission, row.usage), t.id, f);
    SpentOfOne(Charge(row.scopeId, row.usage), t.mission, f);
    SpentOfOne(Charge(owner.mission, row.usage), t.mission, f);
    SpentConcat([Charge(row.scopeId, row.usage)], [Charge(owner.mission, row.usage)], t.id, f);
    SpentConcat([Charge(row.scopeId, row.usage)], [Charge(owner.mission, row.usage)], t.mission, f);
    if owner.agent.Some? {
      var third := [Charge(owner.agent.value, row.usage)];
      SpentOfOne(third[0], t.id, f);
      SpentOfOne(third[0], t.mission, f);
      SpentConcat(two, third, t.id, f);
      SpentConcat(two, third, t.mission, f);
    } else {
      assert charges == two;
    }
  }

  lemma {:induction false} SpentOfOne(c: Charge, id: ScopeId, f: Figure)
    ensures Spent([c], id, f) == if c.id == id then Reported(c.usage, f) else 0
  {
    assert [c][..0] == [];
    assert Spent([c], id, f) == Spent([], id, f) + if c.id == id then Reported(c.usage, f) else 0;
  }

  lemma {:induction false} RowAddsToTasks(charges: seq<Charge>, row: Row, tasks: seq<Task>, n: nat, mission: ScopeId,
                                          f: Figure)
    requires IdsApart(tasks) && row.scope == TaskScope && FindTask(tasks, row.scopeId).Some? && n <= |tasks|
    ensures var owner := FindTask(tasks, row.scopeId).value;
            SpentByTasks(charges + RowCharges(row, tasks), tasks[..n], mission, f)
            == SpentByTasks(charges, tasks[..n], mission, f)
               + if owner in tasks[..n] && owner.mission == mission then Reported(row.usage, f) else 0
    decreases n
  {
    if n > 0 {
      var last := tasks[n - 1];
      FindTaskFinds(tasks, row.scopeId);
      assert tasks[..n][..n - 1] == tasks[..n - 1];
      assert tasks[..n] == tasks[..n - 1] + [last];
      RowAddsToTasks(charges, row, tasks, n - 1, mission, f);
      SpentConcat(charges, RowCharges(row, tasks), last.id, f);
      RowAdds(row, tasks, last, f);
      assert last !in tasks[..n - 1];
    }
  }

  /** If usage is reported for tasks, what a mission spent is what its tasks spent together. */
  lemma {:induction false} MissionIsTheSumOfItsTasks(rows: seq<Row>, tasks: seq<Task>, t: Task, f: Figure)
    requires IdsApart(tasks) && t in tasks
    requires forall r | r in rows :: r.scope == TaskScope && FindTask(tasks, r.scopeId).Some?
    ensures Spent(Charges(rows, tasks), t.mission, f) == SpentByTasks(Charges(rows, tasks), tasks, t.mission, f)
    decreases |rows|
  {
    assert tasks[..|tasks|] == tasks;
    if rows == [] {
      NothingSpent(tasks, t.mission, f);
    } else {
      var before, row := rows[..|rows| - 1], rows[|rows| - 1];
      assert row in rows;
      MissionIsTheSumOfItsTasks(before, tasks, t, f);
      RowAddsToTasks(Charges(before, tasks), row, tasks, |tasks|, t.mission, f);
      SpentConcat(Charges(before, tasks), RowCharges(row, tasks), t.mission, f);
      RowAdds(row, tasks, t, f);
      FindTaskFinds(tasks, row.scopeId);
    }
  }

  lemma {:induction false} NothingSpent(list: seq<Task>, mission: ScopeId, f: Figure)
    ensures SpentByTasks([], list, mission, f) == 0
    decreases |list|
  {
    if list != [] {
      NothingSpent(list[..|list| - 1], mission, f);
    }
  }

  // ---------------------------------------------------------------------------
  // The ledger as the orchestrator keeps it.

  datatype FrameResult = NotFound | Recorded(exceeded: Option<Scope>)

  class BudgetLedger {
    var totals: map<ScopeId, Totals>
    var turns: map<ScopeId, nat>

    ghost function View(): Ledger
      reads this
    {
      Ledger(totals, turns)
    }

    constructor ()
      ensures View() == NewLedger()
    {
      totals, turns := map[], map[];
    }

    method Record(id: ScopeId, u: Usage)
      modifies this
      ensures View() == old(View()).Record(id, u)
    {
      var t := if id in totals then totals[id] else Totals(0, 0, 0, 0, 0);
      totals := totals[id := t.Add(u)];
      var count := if id in turns then turns[id] else 0;
      turns := turns[id := if count < U32_MAX then count + 1 else U32_MAX];
    }

    method RecordRow(row: Row, tasks: seq<Task>)
      modifies this
      ensures View() == RecordAll(old(View()), RowCharges(row, tasks))
    {
      ghost var start := View();
      var own := [Charge(row.scopeId, row.usage)];
      assert own[..0] == [];
      Record(row.scopeId, row.usage);
      assert View() == RecordAll(start, own);
      if row.scope != TaskScope {
        return;
      }
      var task := FindTask(tasks, row.scopeId);
      if task.None? {
        return;
      }
      ghost var two := own + [Charge(task.value.mission, row.usage)];
      assert two[..1] == own;
      Record(task.value.mission, row.usage);
      assert View() == RecordAll(start, two);
      if task.value.agent.Some? {
        ghost var three := two + [Charge(task.value.agent.value, row.usage)];
        assert three[..2] == two;
        Record(task.value.agent.value, row.usage);
      }
    }

    method RebuildFromSnapshot(s: Snapshot)
      modifies this
      ensures View() == Rebuild(s)
    {
      totals, turns := map[], map[];
      for n := 0 to |s.usage|
        invariant View() == RecordAll(NewLedger(), Charges(s.usage[..n], s.tasks))
      {
        assert s.usage[..n + 1][..n] == s.usage[..n];
        RecordAllConcat(NewLedger(), Charges(s.usage[..n], s.tasks), RowCharges(s.usage[n], s.tasks));
        RecordRow(s.usage[n], s.tasks);
      }
      assert s.usage[..|s.usage|] == s.usage;
    }

    /** `record_runtime_usage` up to its commit: charge the frame and name the first scope over a limit. */
    method RecordRuntimeUsage(s: Snapshot, row: Row, mission: ScopeId, agent: ScopeId,
                              taskElapsed: nat, missionElapsed: nat, agentElapsed: nat)
      returns (r: FrameResult)
      modifies this
      ensures r.NotFound? <==> FindTask(s.tasks, row.scopeId).None? || mission !in s.missions || agent !in s.agents
      ensures View() == if r.NotFound? then old(View()) else Live(s, row, mission, agent)
      ensures r.Recorded? ==>
                var limits := FindTask(s.tasks, row.scopeId).value.limits;
                r.exceeded
                == if OverLimit(s, row, mission, agent, row.scopeId, limits, taskElapsed) then Some(TaskScope)
                   else if OverLimit(s, row, mission, agent, mission, s.missions[mission], missionElapsed)
                   then Some(MissionScope)
                   else if OverLimit(s, row, mission, agent, agent, s.agents[agent], agentElapsed) then Some(AgentScope)
                   else None
    {
      var task := FindTask(s.tasks, row.scopeId);
      if task.None? || mission !in s.missions || agent !in s.agents {
        return NotFound;
      }
      RebuildFromSnapshot(s);
      Record(row.scopeId, row.usage);
      Record(mission, row.usage);
      Record(agent, row.usage);
      ghost var live := LiveCharges(row.scopeId, mission, agent, row.usage);
      assert live[..2][..1] == [live[0]] && live[..2][..1][..0] == [] && live[..2] == [live[0], live[1]];
      assert RecordAll(Rebuild(s), [live[0]]) == Rebuild(s).Record(row.scopeId, row.usage);
      assert RecordAll(Rebuild(s), live[..2]) == RecordAll(Rebuild(s), [live[0]]).Record(mission, row.usage);
      var checks := [Check(TaskScope, row.scopeId, task.value.limits, taskElapsed),
                     Check(MissionScope, mission, s.missions[mission], missionElapsed),
                     Check(AgentScope, agent, s.agents[agent], agentElapsed)];
      ExceededIff(s, row, mission, agent, checks[0]);
      ExceededIff(s, row, mission, agent, checks[1]);
      ExceededIff(s, row, mission, agent, checks[2]);
      var n := 0;
      while n < |checks|
        invariant 0 <= n <= |checks|
        invariant Verdict(View(), checks) == Verdict(View(), checks[n..])
      {
        assert checks[n..][1..] == checks[n + 1..];
        if Exceeded(Ledger(totals, turns), checks[n]) {
          return Recorded(Some(checks[n].scope));
        }
        n := n + 1;
      }
      r := Recorded(None);
    }
  }
}
