/**
 Revision-checked commits to the one durable snapshot. A writer reads the snapshot, edits its copy and
 writes the whole copy back under the revision it read; when another writer was faster it starts over,
 a few times at most.
 */
module UsageCommit {
  import opened Budget

  type CommandId = nat
  type WriterId = nat

  /** What a commit adds to the snapshot: a usage row, or something that leaves the usage alone. */
  datatype Change = AddUsage(row: Row) | Elsewhere

  datatype Entry = Entry(command: CommandId, change: Change)

  /** A writer between its steps. `left` is the number of attempts it still has. */
  datatype Phase = Ready | Holding(revision: nat, usage: seq<Row>) | Acknowledged | Refused
  datatype Writer = Writer(command: CommandId, change: Change, left: nat, phase: Phase)

  const USAGE_ATTEMPTS: nat := 3
  const PAUSE_ATTEMPTS: nat := 4

  datatype State = State(
    revision: nat,
    usage: seq<Row>,
    // the idempotency table
    commands: set<CommandId>,
    writers: map<WriterId, Writer>,
    // history: the commits that were applied
    applied: seq<Entry>)

  datatype Action =
    | Begin(w: WriterId, command: CommandId, change: Change)
    | Read(w: WriterId)
    | Commit(w: WriterId)
    | Fail(w: WriterId)

  function Attempts(c: Change): nat { if c.AddUsage? then USAGE_ATTEMPTS else PAUSE_ATTEMPTS }

  /** What the writer's copy of the usage becomes. */
  function Edited(usage: seq<Row>, c: Change): seq<Row> { if c.AddUsage? then usage + [c.row] else usage }

  /** The command id was never used. */
  ghost predicate Unused(s: State, c: CommandId) {
    c !in s.commands && forall w | w in s.writers :: s.writers[w].command != c
  }

  function SetPhase(s: State, w: WriterId, p: Phase): State
    requires w in s.writers
  {
    s.(writers := s.writers[w := s.writers[w].(phase := p)])
  }

  ghost function Step(s: State, a: Action): State {
    match a
    case Begin(w, command, change) =>
      if w in s.writers || !Unused(s, command) then s
      else s.(writers := s.writers[w := Writer(command, change, Attempts(change), Ready)])
    case Read(w) =>
      if w !in s.writers || !s.writers[w].phase.Ready? then s
      else SetPhase(s, w, Holding(s.revision, s.usage))
    case Commit(w) =>
      if w !in s.writers || !s.writers[w].phase.Holding? then s
      else
        var Writer(command, change, left, held) := s.writers[w];
        if command in s.commands then SetPhase(s, w, Acknowledged)
        else if held.revision != s.revision then
          s.(writers := s.writers[w := Writer(command, change, if left > 0 then left - 1 else 0,
                                              if left > 1 then Ready else Refused)])
        else
          SetPhase(s, w, Acknowledged).(revision := s.revision + 1, usage := Edited(held.usage, change),
                                        commands := s.commands + {command},
                                        applied := s.applied + [Entry(command, change)])
    case Fail(w) =>
      if w !in s.writers || s.writers[w].phase.Acknowledged? then s else SetPhase(s, w, Refused)
  }

  ghost function Run(s: State, actions: seq<Action>): State {
    if actions == [] then s else Step(Run(s, actions[..|actions| - 1]), actions[|actions| - 1])
  }

  // ---------------------------------------------------------------------------
  // Nothing is lost, nothing is applied twice.

  /** The rows that the applied commits added, in order. */
  function RowsOf(entries: seq<Entry>): seq<Row> {
    if entries == [] then []
    else Edited(RowsOf(entries[..|entries| - 1]), entries[|entries| - 1].change)
  }

  function TimesApplied(entries: seq<Entry>, c: CommandId): nat {
    if entries == [] then 0
    else TimesApplied(entries[..|entries| - 1], c) + if entries[|entries| - 1].command == c then 1 else 0
  }

  /** `start` is the usage before the first of the applied commits. */
  ghost predicate Inv(start: seq<Row>, s: State) {
    // the snapshot is what the acknowledged commits made it
    && s.usage == start + RowsOf(s.applied)
    // a copy read at the current revision is the current snapshot
    && (forall w | w in s.writers && s.writers[w].phase.Holding? ::
          && s.writers[w].phase.revision <= s.revision
          && (s.writers[w].phase.revision == s.revision ==> s.writers[w].phase.usage == s.usage))
    // a command was applied once if its writer was told so, and otherwise not at all
    && (forall w | w in s.writers ::
          && TimesApplied(s.applied, s.writers[w].command) == (if s.writers[w].phase.Acknowledged? then 1 else 0)
          && (s.writers[w].command in s.commands <==> s.writers[w].phase.Acknowledged?))
    && (forall w, x | w in s.writers && x in s.writers && s.writers[w].command == s.writers[x].command :: w == x)
    && (forall c | TimesApplied(s.applied, c) > 0 :: c in s.commands)
  }

  lemma {:induction false} AppliedPush(entries: seq<Entry>, e: Entry, c: CommandId)
    ensures TimesApplied(entries + [e], c) == TimesApplied(entries, c) + if e.command == c then 1 else 0
    ensures RowsOf(entries + [e]) == Edited(RowsOf(entries), e.change)
  {
    assert (entries + [e])[..|entries|] == entries;
  }

  lemma {:induction false} StepKeepsInv(start: seq<Row>, s: State, a: Action)
    requires Inv(start, s)
    ensures Inv(start, Step(s, a))
  {
    match a
    case Begin(w, command, change) =>
      if TimesApplied(s.applied, command) > 0 {
        assert command in s.commands;
      }
    case Read(w) =>
    case Fail(w) =>
    case Commit(w) =>
      if w in s.writers && s.writers[w].phase.Holding? && s.writers[w].phase.revision == s.revision {
        CommitKeepsInv(start, s, w);
      }
  }

  lemma {:induction false} CommitKeepsInv(start: seq<Row>, s: State, w: WriterId)
    requires Inv(start, s) && w in s.writers && s.writers[w].phase.Holding? && s.writers[w].phase.revision == s.revision
    ensures Inv(start, Step(s, Commit(w)))
  {
    var writer := s.writers[w];
    var e := Entry(writer.command, writer.change);
    var t := Step(s, Commit(w));
    assert t.applied == s.applied + [e];
    AppliedPush(s.applied, e, writer.command);
    assert t.usage == start + RowsOf(t.applied);
    forall x | x in t.writers
      ensures TimesApplied(t.applied, t.writers[x].command) == (if t.writers[x].phase.Acknowledged? then 1 else 0)
      ensures t.writers[x].command in t.commands <==> t.writers[x].phase.Acknowledged?
    {
      AppliedPush(s.applied, e, t.writers[x].command);
    }
    forall c | TimesApplied(t.applied, c) > 0
      ensures c in t.commands
    {
      AppliedPush(s.applied, e, c);
    }
  }

  /** A store nobody is writing to. */
  function Idle(revision: nat, usage: seq<Row>, commands: set<CommandId>): State {
    State(revision, usage, commands, map[], [])
  }

  lemma {:induction false} RunKeepsInv(revision: nat, usage: seq<Row>, commands: set<CommandId>, actions: seq<Action>)
    ensures Inv(usage, Run(Idle(revision, usage, commands), actions))
    decreases |actions|
  {
    if actions != [] {
      RunKeepsInv(revision, usage, commands, actions[..|actions| - 1]);
      StepKeepsInv(usage, Run(Idle(revision, usage, commands), actions[..|actions| - 1]), actions[|actions| - 1]);
    }
  }

  /** In every interleaving, a writer's change is in the log exactly once if it was acknowledged, else never. */
  lemma {:induction false} AppliedExactlyIfAcknowledged(revision: nat, usage: seq<Row>, commands: set<CommandId>,
                                                        actions: seq<Action>, w: WriterId)
    requires w in Run(Idle(revision, usage, commands), actions).writers
    ensures var s := Run(Idle(revision, usage, commands), actions);
            TimesApplied(s.applied, s.writers[w].command) == if s.writers[w].phase.Acknowledged? then 1 else 0
  {
    RunKeepsInv(revision, usage, commands, actions);
  }

  /** In every interleaving, the snapshot's usage is exactly what the applied commits added, in order. */
  lemma {:induction false} SnapshotHoldsEveryAppliedRow(revision: nat, usage: seq<Row>, commands: set<CommandId>,
                                                        actions: seq<Action>)
    ensures var s := Run(Idle(revision, usage, commands), actions);
            s.usage == usage + RowsOf(s.applied)
  {
    RunKeepsInv(revision, usage, commands, actions);
  }

  lemma {:induction false} StepAppends(start: seq<Row>, s: State, a: Action)
    requires Inv(start, s)
    ensures s.usage <= Step(s, a).usage && s.applied <= Step(s, a).applied
  {
  }

  /** No later writer, however it races, undoes an acknowledged row. */
  lemma {:induction false} AcknowledgedRowsStay(revision: nat, usage: seq<Row>, commands: set<CommandId>,
                                                actions: seq<Action>, more: seq<Action>)
    ensures Run(Idle(revision, usage, commands), actions).usage
            <= Run(Idle(revision, usage, commands), actions + more).usage
    decreases |more|
  {
    var idle := Idle(revision, usage, commands);
    if more == [] {
      assert actions + more == actions;
    } else {
      var sofar := actions + more[..|more| - 1];
      assert (actions + more)[..|actions + more| - 1] == sofar;
      AcknowledgedRowsStay(revision, usage, commands, actions, more[..|more| - 1]);
      RunKeepsInv(revision, usage, commands, sofar);
      StepAppends(usage, Run(idle, sofar), more[|more| - 1]);
    }
  }

  // ---------------------------------------------------------------------------
  // Who gets in.

  /** A writer that reads and commits without another commit in between gets in. */
  lemma {:induction false} UndisturbedWritersGetIn(start: seq<Row>, s: State, w: WriterId)
    requires Inv(start, s) && w in s.writers && s.writers[w].phase.Ready?
    ensures var t := Step(Step(s, Read(w)), Commit(w));
            && t.writers[w].phase == Acknowledged && t.revision == s.revision + 1
            && t.usage == (match s.writers[w].change
                           case AddUsage(row) => s.usage + [row]
                           case Elsewhere => s.usage)
            && t.commands == s.commands + {s.writers[w].command}
  {
  }

  /** The writer commits what it read before another writer got in. */
  predicate Collides(s: State, a: Action, w: WriterId) {
    a == Commit(w) && w in s.writers && s.writers[w].phase.Holding? && s.writers[w].phase.revision != s.revision
  }

  ghost function Collisions(s: State, actions: seq<Action>, w: WriterId): nat {
    if actions == [] then 0
    else
      var before, a := actions[..|actions| - 1], actions[|actions| - 1];
      Collisions(s, before, w) + if Collides(Run(s, before), a, w) then 1 else 0
  }

  /** How often a writer may collide before it gives up. */
  function Patience(c: Change): nat { if c.AddUsage? then 3 else 4 }

  /** What is left of a writer's attempts follows from its collisions. */
  ghost predicate Counted(s: State, w: WriterId, collisions: nat) {
    if w !in s.writers then collisions == 0
    else
      var x := s.writers[w];
      if x.phase.Refused? then collisions == Patience(x.change)
      else if x.phase.Acknowledged? then collisions < Patience(x.change)
      else x.left + collisions == Patience(x.change) && x.left > 0
  }

  lemma {:induction false} StepCounts(start: seq<Row>, s: State, a: Action, w: WriterId, collisions: nat)
    requires Inv(start, s) && Counted(s, w, collisions) && a != Fail(w)
    ensures Counted(Step(s, a), w, collisions + if Collides(s, a, w) then 1 else 0)
  {
  }

  /**
   A writer that no error stops is refused exactly after it collided as often as it may: three times for a
   usage row, four times otherwise.
   */
  lemma {:induction false} RefusedIffOutOfAttempts(revision: nat, usage: seq<Row>, commands: set<CommandId>,
                                                   actions: seq<Action>, w: WriterId)
    requires Fail(w) !in actions
    ensures var idle := Idle(revision, usage, commands);
            var s := Run(idle, actions);
            && Counted(s, w, Collisions(idle, actions, w))
            && (w in s.writers ==>
                  (s.writers[w].phase.Refused? <==> Collisions(idle, actions, w) == Patience(s.writers[w].change)))
    decreases |actions|
  {
    if actions != [] {
      var before := actions[..|actions| - 1];
      RefusedIffOutOfAttempts(revision, usage, commands, before, w);
      RunKeepsInv(revision, usage, commands, before);
      StepCounts(usage, Run(Idle(revision, usage, commands), before), actions[|actions| - 1], w,
                 Collisions(Idle(revision, usage, commands), before, w));
    }
  }

  // ---------------------------------------------------------------------------
  // The retry loop.

  datatype CommitResult = Committed | StaleRevision

  class Store {
    var revision: nat
    var usage: seq<Row>
    var commands: set<CommandId>

    constructor (usage: seq<Row>)
      ensures revision == 0 && this.usage == usage && commands == {}
    {
      revision, this.usage, commands := 0, usage, {};
    }

    /** `commit_command`: replay a known command, refuse a stale revision, else replace the snapshot. */
    method CommitCommand(command: CommandId, expected: nat, copy: seq<Row>) returns (r: CommitResult)
      modifies this
      ensures r == if command in old(commands) || expected == old(revision) then Committed else StaleRevision
      ensures if command !in old(commands) && r.Committed?
              then revision == old(revision) + 1 && usage == copy && commands == old(commands) + {command}
              else revision == old(revision) && usage == old(usage) && commands == old(commands)
    {
      if command in commands {
        return Committed;
      }
      if expected != revision {
        return StaleRevision;
      }
      revision, usage, commands := revision + 1, copy, commands + {command};
      r := Committed;
    }

    /** What other writers get in: each row is committed on a fresh read. */
    method OtherWriters(rows: seq<Row>, ids: seq<CommandId>)
      requires |ids| == |rows| && (forall i | 0 <= i < |ids| :: ids[i] !in commands)
      requires forall i, j | 0 <= i < j < |ids| :: ids[i] != ids[j]
      modifies this
      ensures revision == old(revision) + |rows| && usage == old(usage) + rows
      ensures commands == old(commands) + set i | i in ids
    {
      for n := 0 to |rows|
        invariant revision == old(revision) + n && usage == old(usage) + rows[..n]
        invariant commands == old(commands) + set i | i in ids[..n]
      {
        assert ids[n] !in ids[..n];
        assert ids[..n + 1] == ids[..n] + [ids[n]] && rows[..n + 1] == rows[..n] + [rows[n]];
        var r := CommitCommand(ids[n], revision, usage + [rows[n]]);
      }
      assert rows[..|rows|] == rows && ids[..|ids|] == ids;
    }

    /**
     `commit_usage_event`. `others[k]` is what other writers commit between the k-th read and the k-th
     commit. The row gets in at the first attempt that nobody disturbs; the others' rows always do.
     */
    method CommitUsageEvent(command: CommandId, row: Row, others: seq<seq<(CommandId, Row)>>)
      returns (ok: bool, tries: nat)
      requires |others| == USAGE_ATTEMPTS
      requires command !in commands
      requires forall k, i | 0 <= k < |others| && 0 <= i < |others[k]| ::
                 others[k][i].0 !in commands && others[k][i].0 != command
      requires forall k, l, i, j | 0 <= k < |others| && 0 <= l < |others| && 0 <= i < |others[k]|
               && 0 <= j < |others[l]| ::
                 others[k][i].0 == others[l][j].0 ==> k == l && i == j
      modifies this
      ensures 1 <= tries <= USAGE_ATTEMPTS
      ensures ok ==> others[tries - 1] == []
      ensures forall k | 0 <= k < (if ok then tries - 1 else tries) :: others[k] != []
      ensures !ok ==> tries == USAGE_ATTEMPTS
      ensures usage == old(usage) + Landed(others[..tries]) + (if ok then [row] else [])
      ensures command in commands <==> ok
    {
      tries := 0;
      while tries < USAGE_ATTEMPTS
        invariant 0 <= tries <= USAGE_ATTEMPTS
        invariant usage == old(usage) + Landed(others[..tries])
        invariant command !in commands
        invariant forall k | 0 <= k < tries :: others[k] != []
        invariant forall k, i | tries <= k < |others| && 0 <= i < |others[k]| :: others[k][i].0 !in commands
      {
        var heldRevision, copy := revision, usage + [row];
        var racing := others[tries];
        var rows := seq(|racing|, i requires 0 <= i < |racing| => racing[i].1);
        var ids := seq(|racing|, i requires 0 <= i < |racing| => racing[i].0);
        assert rows == Rows(racing);
        OtherWriters(rows, ids);
        assert others[..tries + 1][..tries] == others[..tries];
        tries := tries + 1;
        var r := CommitCommand(command, heldRevision, copy);
        if r.Committed? {
          return true, tries;
        }
      }
      ok := false;
    }
  }

  function Rows(xs: seq<(CommandId, Row)>): seq<Row> {
    seq(|xs|, i requires 0 <= i < |xs| => xs[i].1)
  }

  function Landed(others: seq<seq<(CommandId, Row)>>): seq<Row> {
    if others == [] then [] else Landed(others[..|others| - 1]) + Rows(others[|others| - 1])
  }
}
