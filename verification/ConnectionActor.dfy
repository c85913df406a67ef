/**
 The reconnecting connection actor of a native client: one event cursor, one bounded queue towards
 the GUI, and repair by snapshot when the server no longer retains the requested events.

 The server numbers its events and keeps those from `oldest` on; a retention job may drop the older
 ones, or all. A stream opened after cursor `c` delivers events c + 1, c + 2, ..., which may have been
 read before they were dropped, and may end or fail at any moment. It asks for a resync only by the
 store's rule: the next event is no longer kept. A snapshot carries the number of the last event it
 includes. The GUI takes items from the queue at any pace, or goes away.
 */
module ConnectionActor {
  import opened Wrappers

  const QUEUE_CAPACITY: nat := 256
  const MIN_BACKOFF: nat := 250
  const MAX_BACKOFF: nat := 30000

  datatype Item =
    | Connected(cursor: nat)
    | Event(number: nat)
    | Snapshot(number: nat)
    | ResyncRequired
    | TransportError
    | Disconnected

  /** Where the actor waits: to connect, on its stream, for a snapshot, or not at all any more. */
  datatype Phase = Connecting | Streaming(next: nat) | Resyncing | Finished

  datatype State = State(
    phase: Phase,
    cursor: nat,
    backoff: nat,
    stopFlag: bool,
    // the queue, what the GUI took from it, and whether the GUI is gone
    queue: seq<Item>,
    received: seq<Item>,
    closed: bool,
    // the server: its last event, and the first it keeps (`head + 1` if it keeps none)
    head: nat,
    oldest: nat,
    // history: an item found the queue full
    lost: bool)

  /** A command of the client: the actor stops, or forwards it to the server. */
  datatype ClientCommand = StopCommand | Forward

  /** A pause before the next attempt: it elapses, or a command cuts it short. */
  datatype Pause = Elapsed | CutBy(command: ClientCommand)

  /**
   Whether the GUI takes an item just between a send that finds the queue full and the attempt to send
   the resync marker instead: at the emission of a step, and at the final notice.
   */
  datatype Takes = Takes(atEmission: bool, atNotice: bool)

  /** One thing that happens. */
  datatype Input =
    | Publish
    | Retain(first: nat)
    | Take
    | CloseReceiver
    | SetStopFlag
    | ConnectOk(takes: Takes)
    | ConnectFailed(takes: Takes, pause: Pause)
    | StreamEvent(takes: Takes)
    | StreamEnded(takes: Takes, pause: Pause)
    | StreamFailed(takes: Takes, pause: Pause)
    | StreamResync(takes: Takes)
    | SnapshotOk(takes: Takes)
    | SnapshotFailed(takes: Takes, pause: Pause)
    | Command(command: ClientCommand, takes: Takes)

  /** Everything that ever entered the queue, in order. */
  function Log(s: State): seq<Item> { s.received + s.queue }

  function TakeOne(s: State): State {
    if s.closed || s.queue == [] then s
    else s.(received := s.received + [s.queue[0]], queue := s.queue[1..])
  }

  /** `try_emit_connection_event`, and whether the actor goes on. */
  function Emit(s: State, item: Item, taken: bool): (State, bool) {
    if s.closed then (s, false)
    else if |s.queue| < QUEUE_CAPACITY then (s.(queue := s.queue + [item]), true)
    else
      var t := if taken then TakeOne(s) else s;
      (t.(lost := true, queue := if |t.queue| < QUEUE_CAPACITY then t.queue + [ResyncRequired] else t.queue), false)
  }

  /** Leave the loop: raise the flag and try to say so. */
  function Finish(s: State, takes: Takes): State {
    Emit(s.(phase := Finished, stopFlag := true), Disconnected, takes.atNotice).0
  }

  /** Back at the head of the loop, where the stop flag is read. */
  function Loop(s: State, takes: Takes): State { if s.stopFlag then Finish(s, takes) else s }

  function Doubled(backoff: nat): nat { if backoff * 2 < MAX_BACKOFF then backoff * 2 else MAX_BACKOFF }

  /** `handle_actor_command` */
  predicate Survives(s: State, c: ClientCommand) { c.Forward? && !s.closed }

  function AfterPause(s: State, takes: Takes, pause: Pause): State {
    match pause
    case Elapsed => Loop(s.(backoff := Doubled(s.backoff)), takes)
    case CutBy(c) => if Survives(s, c) then Loop(s, takes) else Finish(s, takes)
  }

  /** Emit, then pause before the next attempt. */
  function EmitAndPause(s: State, item: Item, takes: Takes, pause: Pause): State {
    var (t, ok) := Emit(s, item, takes.atEmission);
    if ok then AfterPause(t, takes, pause) else Finish(t, takes)
  }

  function Start(after: nat, head: nat, oldest: nat): State {
    State(Connecting, after, MIN_BACKOFF, false, [], [], false, head, oldest, false)
  }

  /** The retention job drops the events before `first`, as far as there are any. */
  function Retained(s: State, first: nat): nat {
    if first <= s.oldest then s.oldest else if first <= s.head + 1 then first else s.head + 1
  }

  /** `resync_required` of `events_after`: the event behind the cursor is no longer kept. */
  predicate ResyncRequiredBy(firstKept: Option<nat>, latest: nat, after: nat) {
    match firstKept
    case Some(first) => after + 1 < first
    case None => latest > after
  }

  predicate ResyncDue(s: State) {
    ResyncRequiredBy(if s.oldest <= s.head then Some(s.oldest) else None, s.head, s.cursor)
  }

  /** One step; what cannot happen in the current phase leaves the state alone. */
  function Step(s: State, i: Input): State {
    match i
    case Publish => s.(head := s.head + 1)
    case Retain(first) => s.(oldest := Retained(s, first))
    case Take => TakeOne(s)
    case CloseReceiver => s.(closed := true)
    case SetStopFlag => s.(stopFlag := true)
    case ConnectOk(takes) =>
      if !s.phase.Connecting? then s
      else
        var connected := s.(phase := Streaming(s.cursor + 1), backoff := MIN_BACKOFF);
        var (t, ok) := Emit(connected, Connected(s.cursor), takes.atEmission);
        if ok then t else Finish(t, takes)
    case ConnectFailed(takes, pause) =>
      if !s.phase.Connecting? then s else EmitAndPause(s, TransportError, takes, pause)
    case StreamEvent(takes) =>
      if !s.phase.Streaming? || s.phase.next > s.head then s
      else
        var number := s.phase.next;
        var (t, ok) := Emit(s.(cursor := number, phase := Streaming(number + 1)), Event(number), takes.atEmission);
        if ok then Loop(t, takes) else Finish(t, takes)
    case StreamEnded(takes, pause) =>
      if !s.phase.Streaming? then s else EmitAndPause(s.(phase := Connecting), Disconnected, takes, pause)
    case StreamFailed(takes, pause) =>
      if !s.phase.Streaming? then s else EmitAndPause(s.(phase := Connecting), TransportError, takes, pause)
    case StreamResync(takes) =>
      if !s.phase.Streaming? || !ResyncDue(s) then s
      else
        var (t, ok) := Emit(s.(phase := Resyncing), ResyncRequired, takes.atEmission);
        if ok then t else Finish(t, takes)
    case SnapshotOk(takes) =>
      if !s.phase.Resyncing? then s
      else
        var (t, ok) := Emit(s.(phase := Connecting, cursor := s.head), Snapshot(s.head), takes.atEmission);
        if ok then Loop(t.(backoff := MIN_BACKOFF), takes) else Finish(t, takes)
    case SnapshotFailed(takes, pause) =>
      if !s.phase.Resyncing? then s else EmitAndPause(s.(phase := Connecting), TransportError, takes, pause)
    case Command(c, takes) =>
      if !s.phase.Streaming? then s else if Survives(s, c) then Loop(s, takes) else Finish(s, takes)
  }

  function Run(s: State, inputs: seq<Input>): State {
    if inputs == [] then s else Step(Run(s, inputs[..|inputs| - 1]), inputs[|inputs| - 1])
  }

  // ---------------------------------------------------------------------------
  // What a client can rely on.

  /** The number of the last event or snapshot in the log, or where the client started. */
  function Position(after: nat, log: seq<Item>): nat {
    if log == [] then after
    else match log[|log| - 1]
      case Event(n) => n
      case Snapshot(n) => n
      case _ => Position(after, log[..|log| - 1])
  }

  /** Each event is one past the position it finds, and no snapshot goes back. */
  predicate Gapless(after: nat, log: seq<Item>) {
    forall i | 0 <= i < |log| ::
      && (log[i].Event? ==> log[i].number == Position(after, log[..i]) + 1)
      && (log[i].Snapshot? ==> log[i].number >= Position(after, log[..i]))
  }

  predicate Inv(after: nat, s: State) {
    && Gapless(after, Log(s))
    && |s.queue| <= QUEUE_CAPACITY
    && MIN_BACKOFF <= s.backoff <= MAX_BACKOFF
    && s.oldest <= s.head + 1
    && (s.phase.Finished? || (!s.lost && Position(after, Log(s)) == s.cursor))
    && (s.phase.Streaming? ==> s.phase.next == s.cursor + 1)
    && (s.phase.Resyncing? ==> s.cursor < s.head)
  }

  lemma {:induction false} GaplessPush(after: nat, log: seq<Item>, item: Item)
    requires Gapless(after, log)
    requires item.Event? ==> item.number == Position(after, log) + 1
    requires item.Snapshot? ==> item.number >= Position(after, log)
    ensures Gapless(after, log + [item])
    ensures Position(after, log + [item])
            == if item.Event? || item.Snapshot? then item.number else Position(after, log)
  {
    var longer := log + [item];
    assert longer[..|log|] == log;
    forall i | 0 <= i < |log|
      ensures longer[i] == log[i] && longer[..i] == log[..i]
    {
    }
  }

  lemma {:induction false} TakeKeepsLog(s: State)
    ensures Log(TakeOne(s)) == Log(s)
  {
    if !s.closed && s.queue != [] {
      assert s.queue == [s.queue[0]] + s.queue[1..];
    }
  }

  /** What one emission does to the log. */
  lemma {:induction false} EmitLog(s: State, item: Item, taken: bool)
    ensures var (t, ok) := Emit(s, item, taken);
            && (ok ==> Log(t) == Log(s) + [item] && t.lost == s.lost)
            && (!ok ==> Log(t) == Log(s) || Log(t) == Log(s) + [ResyncRequired])
            && t.(queue := s.queue, received := s.received, lost := s.lost) == s
            && (|s.queue| <= QUEUE_CAPACITY ==> |t.queue| <= QUEUE_CAPACITY)
  {
    TakeKeepsLog(s);
  }

  lemma {:induction false} FinishLog(after: nat, s: State, takes: Takes)
    requires Gapless(after, Log(s)) && |s.queue| <= QUEUE_CAPACITY && MIN_BACKOFF <= s.backoff <= MAX_BACKOFF
    requires s.oldest <= s.head + 1
    ensures Inv(after, Finish(s, takes))
    ensures var log := Log(Finish(s, takes));
            log == Log(s) || log == Log(s) + [Disconnected] || log == Log(s) + [ResyncRequired]
  {
    EmitLog(s.(phase := Finished, stopFlag := true), Disconnected, takes.atNotice);
    GaplessPush(after, Log(s), Disconnected);
    GaplessPush(after, Log(s), ResyncRequired);
  }

  lemma {:induction false} LoopKeeps(after: nat, s: State, takes: Takes)
    requires Inv(after, s)
    ensures Inv(after, Loop(s, takes))
  {
    FinishLog(after, s, takes);
  }

  lemma {:induction false} PauseKeeps(after: nat, s: State, takes: Takes, pause: Pause)
    requires Inv(after, s)
    ensures Inv(after, AfterPause(s, takes, pause))
  {
    FinishLog(after, s, takes);
    LoopKeeps(after, s, takes);
    LoopKeeps(after, s.(backoff := Doubled(s.backoff)), takes);
  }

  /** An emission that fits the position keeps the invariant, whether it succeeds or ends the actor. */
  lemma {:induction false} EmitKeeps(after: nat, s: State, item: Item, takes: Takes)
    requires Gapless(after, Log(s)) && |s.queue| <= QUEUE_CAPACITY && MIN_BACKOFF <= s.backoff <= MAX_BACKOFF
    requires !s.phase.Finished? && !s.lost && s.oldest <= s.head + 1 && (s.phase.Resyncing? ==> s.cursor < s.head)
    requires s.phase.Streaming? ==> s.phase.next == s.cursor + 1
    requires match item
             case Event(n) => n == Position(after, Log(s)) + 1 && s.cursor == n
             case Snapshot(n) => n >= Position(after, Log(s)) && s.cursor == n
             case _ => s.cursor == Position(after, Log(s))
    ensures var (t, ok) := Emit(s, item, takes.atEmission);
            if ok then Inv(after, t) else Inv(after, Finish(t, takes))
  {
    var (t, ok) := Emit(s, item, takes.atEmission);
    EmitLog(s, item, takes.atEmission);
    GaplessPush(after, Log(s), item);
    GaplessPush(after, Log(s), ResyncRequired);
    if !ok {
      FinishLog(after, t, takes);
    }
  }

  lemma {:induction false} EmitAndPauseKeeps(after: nat, s: State, item: Item, takes: Takes, pause: Pause)
    requires Inv(after, s) && s.phase.Connecting? && (item.TransportError? || item.Disconnected?)
    ensures Inv(after, EmitAndPause(s, item, takes, pause))
  {
    EmitKeeps(after, s, item, takes);
    var (t, ok) := Emit(s, item, takes.atEmission);
    if ok {
      PauseKeeps(after, t, takes, pause);
    }
  }

  lemma {:induction false} ConnectKeeps(after: nat, s: State, takes: Takes)
    requires Inv(after, s)
    ensures Inv(after, Step(s, ConnectOk(takes)))
  {
    if s.phase.Connecting? {
      var connected := s.(phase := Streaming(s.cursor + 1), backoff := MIN_BACKOFF);
      assert Log(connected) == Log(s);
      EmitKeeps(after, connected, Connected(s.cursor), takes);
      var (t, ok) := Emit(connected, Connected(s.cursor), takes.atEmission);
      assert Step(s, ConnectOk(takes)) == if ok then t else Finish(t, takes);
    }
  }

  /** An emission that moves the cursor and then returns to the head of the loop. */
  lemma {:induction false} MoveKeeps(after: nat, s: State, item: Item, takes: Takes)
    requires Gapless(after, Log(s)) && |s.queue| <= QUEUE_CAPACITY && MIN_BACKOFF <= s.backoff <= MAX_BACKOFF
    requires !s.lost && s.oldest <= s.head + 1 && (s.phase == Connecting || s.phase == Streaming(s.cursor + 1))
    requires item == Event(s.cursor) || item == Snapshot(s.cursor)
    requires if item.Event? then s.cursor == Position(after, Log(s)) + 1 else s.cursor >= Position(after, Log(s))
    ensures var (t, ok) := Emit(s, item, takes.atEmission);
            && (ok ==> Inv(after, Loop(t, takes)) && Inv(after, Loop(t.(backoff := MIN_BACKOFF), takes)))
            && (!ok ==> Inv(after, Finish(t, takes)))
  {
    EmitKeeps(after, s, item, takes);
    var (t, ok) := Emit(s, item, takes.atEmission);
    if ok {
      LoopKeeps(after, t, takes);
      LoopKeeps(after, t.(backoff := MIN_BACKOFF), takes);
    }
  }

  lemma {:induction false} EventKeeps(after: nat, s: State, takes: Takes)
    requires Inv(after, s)
    ensures Inv(after, Step(s, StreamEvent(takes)))
  {
    if s.phase.Streaming? && s.phase.next <= s.head {
      var n := s.phase.next;
      MoveKeeps(after, s.(cursor := n, phase := Streaming(n + 1)), Event(n), takes);
    }
  }

  lemma {:induction false} ResyncKeeps(after: nat, s: State, takes: Takes)
    requires Inv(after, s)
    ensures Inv(after, Step(s, StreamResync(takes)))
  {
    if s.phase.Streaming? && ResyncDue(s) { EmitKeeps(after, s.(phase := Resyncing), ResyncRequired, takes); }
  }

  lemma {:induction false} SnapshotKeeps(after: nat, s: State, takes: Takes)
    requires Inv(after, s)
    ensures Inv(after, Step(s, SnapshotOk(takes)))
  {
    if s.phase.Resyncing? {
      MoveKeeps(after, s.(phase := Connecting, cursor := s.head), Snapshot(s.head), takes);
    }
  }

  /** A snapshot repairs the cursor: what is behind it is kept, or does not exist yet. */
  lemma {:induction false} SnapshotRepairs(after: nat, s: State, takes: Takes)
    requires Inv(after, s) && s.phase.Resyncing?
    ensures var t := Step(s, SnapshotOk(takes));
            s.cursor < t.cursor == s.head && !ResyncDue(t)
  {
    var moved := s.(phase := Connecting, cursor := s.head);
    EmitLog(moved, Snapshot(s.head), takes.atEmission);
    var (t, ok) := Emit(moved, Snapshot(s.head), takes.atEmission);
    EmitLog(t.(phase := Finished, stopFlag := true), Disconnected, takes.atNotice);
    EmitLog(t.(phase := Finished, stopFlag := true, backoff := MIN_BACKOFF), Disconnected, takes.atNotice);
  }

  /** A connection that fails, or a stream that ends, is followed by a pause. */
  lemma {:induction false} FailureKeeps(after: nat, s: State, i: Input)
    requires Inv(after, s) && (i.ConnectFailed? || i.StreamEnded? || i.StreamFailed? || i.SnapshotFailed?)
    ensures Inv(after, Step(s, i))
  {
    var back := s.(phase := Connecting);
    if i.ConnectFailed? && s.phase.Connecting? {
      EmitAndPauseKeeps(after, s, TransportError, i.takes, i.pause);
    } else if i.StreamEnded? && s.phase.Streaming? {
      EmitAndPauseKeeps(after, back, Disconnected, i.takes, i.pause);
    } else if (i.StreamFailed? && s.phase.Streaming?) || (i.SnapshotFailed? && s.phase.Resyncing?) {
      EmitAndPauseKeeps(after, back, TransportError, i.takes, i.pause);
    }
  }

  lemma {:induction false} CommandKeeps(after: nat, s: State, c: ClientCommand, takes: Takes)
    requires Inv(after, s)
    ensures Inv(after, Step(s, Command(c, takes)))
  {
    FinishLog(after, s, takes);
    LoopKeeps(after, s, takes);
  }

  /** What happens around the actor. */
  lemma {:induction false} SurroundingsKeep(after: nat, s: State, i: Input)
    requires Inv(after, s) && (i.Publish? || i.Retain? || i.Take? || i.CloseReceiver? || i.SetStopFlag?)
    ensures Inv(after, Step(s, i))
  {
    TakeKeepsLog(s);
  }

  lemma {:induction false} StepKeepsInv(after: nat, s: State, i: Input)
    requires Inv(after, s)
    ensures Inv(after, Step(s, i))
  {
    match i
    case ConnectOk(takes) => ConnectKeeps(after, s, takes);
    case StreamEvent(takes) => EventKeeps(after, s, takes);
    case StreamResync(takes) => ResyncKeeps(after, s, takes);
    case SnapshotOk(takes) => SnapshotKeeps(after, s, takes);
    case Command(c, takes) => CommandKeeps(after, s, c, takes);
    case ConnectFailed(_, _) => FailureKeeps(after, s, i);
    case StreamEnded(_, _) => FailureKeeps(after, s, i);
    case StreamFailed(_, _) => FailureKeeps(after, s, i);
    case SnapshotFailed(_, _) => FailureKeeps(after, s, i);
    case _ => SurroundingsKeep(after, s, i);
  }

  lemma {:induction false} RunKeepsInv(after: nat, head: nat, oldest: nat, inputs: seq<Input>)
    requires oldest <= head + 1
    ensures Inv(after, Run(Start(after, head, oldest), inputs))
    decreases |inputs|
  {
    if inputs != [] {
      RunKeepsInv(after, head, oldest, inputs[..|inputs| - 1]);
      StepKeepsInv(after, Run(Start(after, head, oldest), inputs[..|inputs| - 1]), inputs[|inputs| - 1]);
    }
  }

  lemma {:induction false} PrefixStaysGapless(after: nat, log: seq<Item>, n: nat)
    requires Gapless(after, log) && n <= |log|
    ensures Gapless(after, log[..n])
  {
    forall i | 0 <= i < n
      ensures log[..n][i] == log[i] && log[..n][..i] == log[..i]
    {
    }
  }

  /**
   Across all reconnects and resyncs, wherever the client starts and whatever the server drops, each
   event the GUI has taken is one past what it took before, and no snapshot takes it back.
   */
  lemma {:induction false} ReceivedIsGapless(after: nat, head: nat, oldest: nat, inputs: seq<Input>)
    requires oldest <= head + 1
    ensures Gapless(after, Run(Start(after, head, oldest), inputs).received)
  {
    RunKeepsInv(after, head, oldest, inputs);
    var s := Run(Start(after, head, oldest), inputs);
    PrefixStaysGapless(after, Log(s), |s.received|);
    assert Log(s)[..|s.received|] == s.received;
  }

  lemma {:induction false} PositionOnlyGrows(after: nat, log: seq<Item>, n: nat)
    requires Gapless(after, log) && n <= |log|
    ensures after <= Position(after, log[..n]) <= Position(after, log)
    decreases |log|
  {
    if n == |log| {
      assert log[..n] == log;
    }
    if log != [] {
      var before := log[..|log| - 1];
      PrefixStaysGapless(after, log, |log| - 1);
      PositionOnlyGrows(after, before, if n < |log| then n else |before|);
      if n < |log| {
        assert before[..n] == log[..n];
      }
    }
  }

  /** No event twice, and none out of order. */
  lemma {:induction false} EventsStrictlyIncrease(after: nat, log: seq<Item>, i: nat, j: nat)
    requires Gapless(after, log) && i < j < |log| && log[i].Event? && log[j].Event?
    ensures log[i].number < log[j].number
  {
    PrefixStaysGapless(after, log, j);
    PositionOnlyGrows(after, log[..j], i + 1);
    assert log[..j][..i + 1] == log[..i + 1] && log[..i + 1][|log[..i + 1]| - 1] == log[i];
  }

  /** Every event number up to the position was delivered, or is part of a delivered snapshot. */
  lemma {:induction false} NothingIsSkipped(after: nat, log: seq<Item>, n: nat)
    requires Gapless(after, log) && after < n <= Position(after, log)
    ensures exists i :: 0 <= i < |log| && (log[i] == Event(n) || (log[i].Snapshot? && n <= log[i].number))
    decreases |log|
  {
    var last := log[|log| - 1];
    var before := log[..|log| - 1];
    if last == Event(n) || (last.Snapshot? && n <= last.number) {
    } else {
      PrefixStaysGapless(after, log, |log| - 1);
      NothingIsSkipped(after, before, n);
      var i :| 0 <= i < |before| && (before[i] == Event(n) || (before[i].Snapshot? && n <= before[i].number));
      assert log[i] == before[i];
    }
  }

  predicate OnlyNotices(items: seq<Item>) {
    forall i | 0 <= i < |items| :: items[i].ResyncRequired? || items[i].Disconnected?
  }

  /** Behind the items of `s`, the log of `t` holds notices only. */
  predicate OnlyNoticesSince(s: State, t: State) {
    Log(s) <= Log(t) && OnlyNotices(Log(t)[|Log(s)|..])
  }

  lemma {:induction false} FinishAddsNotices(s: State, takes: Takes)
    ensures Finish(s, takes).phase.Finished? && OnlyNoticesSince(s, Finish(s, takes))
  {
    EmitLog(s.(phase := Finished, stopFlag := true), Disconnected, takes.atNotice);
  }

  /** A failed emission and the finish behind it add notices only. */
  lemma {:induction false} FailedEmitAddsNotices(s: State, item: Item, takes: Takes)
    requires !Emit(s, item, takes.atEmission).1
    ensures var t := Finish(Emit(s, item, takes.atEmission).0, takes);
            t.phase.Finished? && OnlyNoticesSince(s, t)
  {
    var e := Emit(s, item, takes.atEmission).0;
    EmitLog(s, item, takes.atEmission);
    FinishAddsNotices(e, takes);
  }

  lemma {:induction false} LoopAddsNotices(s: State, takes: Takes, pause: Pause)
    ensures var t := Loop(s, takes); OnlyNoticesSince(s, t) && (t.lost != s.lost ==> t.phase.Finished?)
    ensures var t := AfterPause(s, takes, pause); OnlyNoticesSince(s, t) && (t.lost != s.lost ==> t.phase.Finished?)
  {
    FinishAddsNotices(s, takes);
    FinishAddsNotices(s.(backoff := Doubled(s.backoff)), takes);
  }

  /** The state in which the actor tries the emission of a step, and what it emits. */
  function Attempt(s: State, i: Input): Option<(State, Item)> {
    match i
    case ConnectOk(_) => Some((s.(phase := Streaming(s.cursor + 1), backoff := MIN_BACKOFF), Connected(s.cursor)))
    case ConnectFailed(_, _) => Some((s, TransportError))
    case StreamEvent(_) =>
      if s.phase.Streaming?
      then Some((s.(cursor := s.phase.next, phase := Streaming(s.phase.next + 1)), Event(s.phase.next))) else None
    case StreamEnded(_, _) => Some((s.(phase := Connecting), Disconnected))
    case StreamFailed(_, _) => Some((s.(phase := Connecting), TransportError))
    case StreamResync(_) => Some((s.(phase := Resyncing), ResyncRequired))
    case SnapshotOk(_) => Some((s.(phase := Connecting, cursor := s.head), Snapshot(s.head)))
    case SnapshotFailed(_, _) => Some((s.(phase := Connecting), TransportError))
    case _ => None
  }

  /** The item a step tries to emit, whether or not it arrives. */
  function Tried(s: State, i: Input): seq<Item> {
    if Attempt(s, i).Some? then [Attempt(s, i).value.1] else []
  }

  /** How a step goes on behind an emission that succeeded. */
  function Onward(e: State, i: Input): State {
    match i
    case StreamEvent(takes) => Loop(e, takes)
    case SnapshotOk(takes) => Loop(e.(backoff := MIN_BACKOFF), takes)
    case ConnectFailed(takes, pause) => AfterPause(e, takes, pause)
    case StreamEnded(takes, pause) => AfterPause(e, takes, pause)
    case StreamFailed(takes, pause) => AfterPause(e, takes, pause)
    case SnapshotFailed(takes, pause) => AfterPause(e, takes, pause)
    case _ => e
  }

  lemma {:induction false} StepIsAnEmission(s: State, i: Input)
    requires Step(s, i) != s && Attempt(s, i).Some?
    ensures var (t, item) := Attempt(s, i).value;
            var (e, ok) := Emit(t, item, i.takes.atEmission);
            Step(s, i) == if ok then Onward(e, i) else Finish(e, i.takes)
  {
  }

  lemma {:induction false} OnwardAddsNotices(e: State, i: Input)
    ensures OnlyNoticesSince(e, Onward(e, i)) && (Onward(e, i).lost != e.lost ==> Onward(e, i).phase.Finished?)
  {
    if i.StreamEvent? {
      LoopAddsNotices(e, i.takes, Elapsed);
    } else if i.SnapshotOk? {
      LoopAddsNotices(e.(backoff := MIN_BACKOFF), i.takes, Elapsed);
    } else if i.ConnectFailed? || i.StreamEnded? || i.StreamFailed? || i.SnapshotFailed? {
      LoopAddsNotices(e, i.takes, i.pause);
    }
  }

  /** Behind the items of `s`, and what the step emits if it arrives, come notices only. */
  predicate EndsWithNotices(s: State, tried: seq<Item>, t: State) {
    || OnlyNoticesSince(s, t)
    || (Log(s) + tried <= Log(t) && OnlyNotices(Log(t)[|Log(s)| + |tried|..]))
  }

  lemma {:induction false} NoticesBehind(s: State, item: Item, e: State, t: State)
    requires Log(e) == Log(s) + [item] && OnlyNoticesSince(e, t)
    ensures EndsWithNotices(s, [item], t)
  {
  }

  /** The step that loses an item finishes the actor; the lost item is what it emits or its final notice. */
  lemma {:induction false} LosingStepFinishes(s: State, i: Input)
    requires !s.lost && Step(s, i).lost
    ensures Step(s, i).phase.Finished? && EndsWithNotices(s, Tried(s, i), Step(s, i))
  {
    if Attempt(s, i).Some? {
      var (t, item) := Attempt(s, i).value;
      StepIsAnEmission(s, i);
      EmitLog(t, item, i.takes.atEmission);
      var (e, ok) := Emit(t, item, i.takes.atEmission);
      if ok {
        OnwardAddsNotices(e, i);
        NoticesBehind(s, item, e, Onward(e, i));
      } else {
        FailedEmitAddsNotices(t, item, i.takes);
      }
    } else {
      LosingCommand(s, i);
    }
  }

  lemma {:induction false} LosingCommand(s: State, i: Input)
    requires !s.lost && Step(s, i).lost && Attempt(s, i).None?
    ensures Step(s, i).phase.Finished? && OnlyNoticesSince(s, Step(s, i))
  {
    if i.Command? {
      FinishAddsNotices(s, i.takes);
    }
  }

  lemma {:induction false} FinishedIsSilent(s: State, inputs: seq<Input>)
    requires s.phase.Finished?
    ensures Run(s, inputs).phase.Finished? && Log(Run(s, inputs)) == Log(s)
    decreases |inputs|
  {
    if inputs != [] {
      var t := Run(s, inputs[..|inputs| - 1]);
      FinishedIsSilent(s, inputs[..|inputs| - 1]);
      TakeKeepsLog(t);
    }
  }

  /** After an item is lost to a full queue, no continuation delivers another event or snapshot. */
  lemma {:induction false} LossIsTheEnd(s: State, i: Input, more: seq<Input>)
    requires !s.lost && Step(s, i).lost
    ensures var t := Run(Step(s, i), more);
            t.phase.Finished? && EndsWithNotices(s, Tried(s, i), t)
  {
    LosingStepFinishes(s, i);
    FinishedIsSilent(Step(s, i), more);
  }

  /** If what a step emits is itself lost, neither the step nor any continuation delivers an event or snapshot. */
  lemma {:induction false} LostItemIsTheLast(s: State, i: Input, more: seq<Input>)
    requires !s.lost && Step(s, i).lost && Attempt(s, i).Some?
    requires var (t, item) := Attempt(s, i).value; !Emit(t, item, i.takes.atEmission).1
    ensures OnlyNoticesSince(s, Run(Step(s, i), more))
  {
    var (t, item) := Attempt(s, i).value;
    FailedEmitAddsNotices(t, item, i.takes);
    LosingStepFinishes(s, i);
    FinishedIsSilent(Step(s, i), more);
  }

  // ---------------------------------------------------------------------------
  // The actor.

  class Actor {
    var cursor: nat
    var backoff: nat
    var phase: Phase
    var stopFlag: bool
    var queue: seq<Item>
    var received: seq<Item>
    var closed: bool
    var head: nat
    var oldest: nat
    ghost var lost: bool

    ghost function View(): State
      reads this
    {
      State(phase, cursor, backoff, stopFlag, queue, received, closed, head, oldest, lost)
    }

    constructor (after: nat, head: nat, oldest: nat)
      ensures View() == Start(after, head, oldest)
    {
      cursor, backoff, phase, stopFlag := after, MIN_BACKOFF, Connecting, false;
      queue, received, closed := [], [], false;
      this.head, this.oldest, lost := head, oldest, false;
    }

    method TakeFromQueue()
      modifies this`queue, this`received
      ensures View() == TakeOne(old(View()))
    {
      if !closed && queue != [] {
        received := received + [queue[0]];
        queue := queue[1..];
      }
    }

    method TryEmit(item: Item, taken: bool) returns (ok: bool)
      modifies this`queue, this`received, this`lost
      ensures (View(), ok) == Emit(old(View()), item, taken)
    {
      if closed {
        return false;
      }
      if |queue| < QUEUE_CAPACITY {
        queue := queue + [item];
        return true;
      }
      lost := true;
      if taken {
        TakeFromQueue();
      }
      if |queue| < QUEUE_CAPACITY {
        queue := queue + [ResyncRequired];
      }
      ok := false;
    }

    /** The code behind the loop. */
    method Stop(takes: Takes)
      modifies this`phase, this`stopFlag, this`queue, this`received, this`lost
      ensures View() == Finish(old(View()), takes)
    {
      stopFlag := true;
      phase := Finished;
      var _ := TryEmit(Disconnected, takes.atNotice);
    }

    method LoopHead(takes: Takes)
      modifies this`phase, this`stopFlag, this`queue, this`received, this`lost
      ensures View() == Loop(old(View()), takes)
    {
      if stopFlag {
        Stop(takes);
      }
    }

    method HandleCommand(c: ClientCommand, takes: Takes)
      modifies this`phase, this`stopFlag, this`queue, this`received, this`lost
      ensures View() == if Survives(old(View()), c) then Loop(old(View()), takes) else Finish(old(View()), takes)
    {
      if c.StopCommand? || closed {
        Stop(takes);
      } else {
        LoopHead(takes);
      }
    }

    method EmitThenPause(item: Item, takes: Takes, pause: Pause)
      modifies this
      ensures View() == EmitAndPause(old(View()), item, takes, pause)
    {
      var ok := TryEmit(item, takes.atEmission);
      if !ok {
        Stop(takes);
        return;
      }
      match pause
      case Elapsed =>
        backoff := if backoff * 2 < MAX_BACKOFF then backoff * 2 else MAX_BACKOFF;
        LoopHead(takes);
      case CutBy(c) =>
        HandleCommand(c, takes);
    }

    /** A message of the active stream. */
    method OnStream(i: Input)
      requires phase.Streaming? && (i.StreamEvent? || i.StreamEnded? || i.StreamFailed? || i.StreamResync?)
      modifies this
      ensures View() == Step(old(View()), i)
    {
      match i
      case StreamEvent(takes) =>
        OnEvent(takes);
      case StreamEnded(takes, pause) =>
        phase := Connecting;
        EmitThenPause(Disconnected, takes, pause);
      case StreamFailed(takes, pause) =>
        phase := Connecting;
        EmitThenPause(TransportError, takes, pause);
      case StreamResync(takes) =>
        OnResync(takes);
    }

    method OnResync(takes: Takes)
      requires phase.Streaming?
      modifies this
      ensures View() == Step(old(View()), StreamResync(takes))
    {
      if (oldest <= head && cursor + 1 < oldest) || (oldest > head && head > cursor) {
        phase := Resyncing;
        var ok := TryEmit(ResyncRequired, takes.atEmission);
        if !ok { Stop(takes); }
      }
    }

    method OnEvent(takes: Takes)
      requires phase.Streaming?
      modifies this
      ensures View() == Step(old(View()), StreamEvent(takes))
    {
      if phase.next <= head {
        cursor := phase.next;
        phase := Streaming(cursor + 1);
        var ok := TryEmit(Event(cursor), takes.atEmission);
        if ok { LoopHead(takes); } else { Stop(takes); }
      }
    }

    /** The answer to the snapshot request of a resync. */
    method OnSnapshot(i: Input)
      requires phase.Resyncing? && (i.SnapshotOk? || i.SnapshotFailed?)
      modifies this
      ensures View() == Step(old(View()), i)
    {
      phase := Connecting;
      match i
      case SnapshotOk(takes) =>
        cursor := head;
        var ok := TryEmit(Snapshot(head), takes.atEmission);
        if ok {
          backoff := MIN_BACKOFF;
          LoopHead(takes);
        } else {
          Stop(takes);
        }
      case SnapshotFailed(takes, pause) =>
        EmitThenPause(TransportError, takes, pause);
    }

    method OnConnect(i: Input)
      requires phase.Connecting? && (i.ConnectOk? || i.ConnectFailed?)
      modifies this
      ensures View() == Step(old(View()), i)
    {
      match i
      case ConnectOk(takes) =>
        phase := Streaming(cursor + 1);
        backoff := MIN_BACKOFF;
        var ok := TryEmit(Connected(cursor), takes.atEmission);
        if !ok { Stop(takes); }
      case ConnectFailed(takes, pause) =>
        EmitThenPause(TransportError, takes, pause);
    }

    /** The actor in its surroundings: whatever happens next is served where the actor waits. */
    method Serve(inputs: seq<Input>)
      modifies this
      ensures View() == Run(old(View()), inputs)
    {
      for n := 0 to |inputs|
        invariant View() == Run(old(View()), inputs[..n])
      {
        assert inputs[..n + 1][..n] == inputs[..n];
        var i := inputs[n];
        if (i.ConnectOk? || i.ConnectFailed?) && phase.Connecting? {
          OnConnect(i);
        } else if (i.StreamEvent? || i.StreamEnded? || i.StreamFailed? || i.StreamResync?) && phase.Streaming? {
          OnStream(i);
        } else if (i.SnapshotOk? || i.SnapshotFailed?) && phase.Resyncing? {
          OnSnapshot(i);
        } else if i.Command? && phase.Streaming? {
          HandleCommand(i.command, i.takes);
        } else if i.Publish? {
          head := head + 1;
        } else if i.Retain? {
          oldest := if i.first <= oldest then oldest else if i.first <= head + 1 then i.first else head + 1;
        } else if i.Take? {
          TakeFromQueue();
        } else if i.CloseReceiver? {
          closed := true;
        } else if i.SetStopFlag? {
          stopFlag := true;
        }
      }
      assert inputs[..|inputs|] == inputs;
    }
  }
}
