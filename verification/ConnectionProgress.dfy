/**
 What the connection actor gets done: it goes on until it is told to stop or the GUI falls behind, backs
 off and reconnects after failures, and delivers what the server has.
 */
module ConnectionProgress {
  import opened Wrappers
  import opened ConnectionActor

  /** The actor runs, nobody asked it to stop, and the GUI is there. */
  predicate Live(s: State) { !s.phase.Finished? && !s.stopFlag && !s.closed }

  predicate IsFailure(i: Input) { i.ConnectFailed? || i.StreamEnded? || i.StreamFailed? || i.SnapshotFailed? }

  /** The actor is told to stop, or the GUI goes away. */
  predicate TellsToStop(i: Input) {
    || i.SetStopFlag? || i.CloseReceiver? || (i.Command? && i.command.StopCommand?)
    || (IsFailure(i) && i.pause == CutBy(StopCommand))
  }

  /** What the actor serves where it waits. */
  predicate Serves(s: State, i: Input) {
    match i
    case ConnectOk(_) => s.phase.Connecting?
    case ConnectFailed(_, _) => s.phase.Connecting?
    case StreamEvent(_) => s.phase.Streaming? && s.phase.next <= s.head
    case StreamEnded(_, _) => s.phase.Streaming?
    case StreamFailed(_, _) => s.phase.Streaming?
    case StreamResync(_) => s.phase.Streaming? && ResyncDue(s)
    case SnapshotOk(_) => s.phase.Resyncing?
    case SnapshotFailed(_, _) => s.phase.Resyncing?
    case Command(_, _) => s.phase.Streaming?
    case _ => false
  }

  lemma {:induction false} RunPush(s: State, inputs: seq<Input>, i: Input)
    ensures Run(s, inputs + [i]) == Step(Run(s, inputs), i)
  {
    assert (inputs + [i])[..|inputs|] == inputs;
  }

  /** A lost item is never forgotten. */
  lemma {:induction false} LostStays(s: State, i: Input)
    requires s.lost
    ensures Step(s, i).lost
  {
    if Attempt(s, i).Some? && Step(s, i) != s {
      StepIsAnEmission(s, i);
    }
  }

  // ---------------------------------------------------------------------------
  // The actor stops only if it is told to, or falls behind.

  lemma {:induction false} EmitIsLive(s: State, item: Item, taken: bool)
    requires Live(s) && !Emit(s, item, taken).0.lost
    ensures Emit(s, item, taken).1 && Live(Emit(s, item, taken).0)
    ensures Emit(s, item, taken).0 == s.(queue := s.queue + [item])
  {
  }

  lemma {:induction false} FinishKeepsLost(s: State, takes: Takes)
    requires s.lost
    ensures Finish(s, takes).lost
  {
  }

  lemma {:induction false} EmissionSurvives(s: State, i: Input, t: State, item: Item)
    requires Live(s) && !TellsToStop(i) && Serves(s, i) && Attempt(s, i) == Some((t, item)) && !Step(s, i).lost
    requires Step(s, i) == (var (e, ok) := Emit(t, item, i.takes.atEmission);
                            if ok then Onward(e, i) else Finish(e, i.takes))
    ensures Emit(t, item, i.takes.atEmission) == (t.(queue := t.queue + [item]), true)
    ensures Live(Step(s, i)) && Step(s, i) == Onward(t.(queue := t.queue + [item]), i)
  {
    var (e, ok) := Emit(t, item, i.takes.atEmission);
    if e.lost {
      FinishKeepsLost(e, i.takes);
    }
    EmitIsLive(t, item, i.takes.atEmission);
  }

  lemma {:induction false} StepSurvives(s: State, i: Input)
    requires Live(s) && !TellsToStop(i) && !Step(s, i).lost
    ensures Live(Step(s, i))
  {
    if Serves(s, i) && Attempt(s, i).Some? {
      var (t, item) := Attempt(s, i).value;
      EmissionStep(s, i);
      EmissionSurvives(s, i, t, item);
    }
  }

  /** An emission step, also where it changes nothing. */
  lemma {:induction false} EmissionStep(s: State, i: Input)
    requires Serves(s, i) && Attempt(s, i).Some?
    ensures var (t, item) := Attempt(s, i).value;
            var (e, ok) := Emit(t, item, i.takes.atEmission);
            Step(s, i) == if ok then Onward(e, i) else Finish(e, i.takes)
  {
  }

  lemma {:induction false} RunSurvives(s: State, inputs: seq<Input>)
    requires Live(s) && (forall i | i in inputs :: !TellsToStop(i)) && !Run(s, inputs).lost
    ensures Live(Run(s, inputs))
    decreases |inputs|
  {
    if inputs != [] {
      var before, i := inputs[..|inputs| - 1], inputs[|inputs| - 1];
      if Run(s, before).lost {
        LostStays(Run(s, before), i);
      }
      RunSurvives(s, before);
      StepSurvives(Run(s, before), i);
    }
  }

  /** Whatever the network does, the actor runs on until it is told to stop, loses its GUI, or loses an item. */
  lemma {:induction false} StopsOnlyIfToldOrBehind(after: nat, head: nat, oldest: nat, inputs: seq<Input>)
    requires Run(Start(after, head, oldest), inputs).phase.Finished?
    ensures Run(Start(after, head, oldest), inputs).lost || exists i :: i in inputs && TellsToStop(i)
  {
    if !(exists i :: i in inputs && TellsToStop(i)) && !Run(Start(after, head, oldest), inputs).lost {
      RunSurvives(Start(after, head, oldest), inputs);
    }
  }

  /** An item is lost only to a queue of 256 items, one of which the losing step may have brought itself. */
  lemma {:induction false} LostOnlyIfFull(s: State, i: Input)
    requires !s.lost && Step(s, i).lost
    ensures |s.queue| >= 255 && !s.closed
  {
    if Serves(s, i) && Attempt(s, i).Some? {
      var (t, item) := Attempt(s, i).value;
      EmissionStep(s, i);
      EmissionLoses(t, item, i);
    }
  }

  lemma {:induction false} EmissionLoses(t: State, item: Item, i: Input)
    requires !t.lost && Attempt(t, i).Some?
    requires var (e, ok) := Emit(t, item, i.takes.atEmission); if ok then Onward(e, i).lost else Finish(e, i.takes).lost
    ensures |t.queue| >= 255 && !t.closed
  {
  }

  /**
   And then it does stop: with the flag up, the GUI gone, or a stop command at hand, the next thing it serves
   is its last, except that a connection or a resync request may still succeed with the flag up.
   */
  lemma {:induction false} ToldActorsStop(s: State, i: Input)
    requires Serves(s, i) && (s.stopFlag || s.closed || TellsToStop(i))
    ensures Step(s, i).phase.Finished? || ((i.ConnectOk? || i.StreamResync?) && s.stopFlag && !s.closed)
  {
    if Attempt(s, i).Some? {
      EmissionStep(s, i);
    }
  }

  // ---------------------------------------------------------------------------
  // Failures: back off, then connect again at the same cursor.

  /** What a failure tells the GUI. */
  function Notice(i: Input): Item
    requires IsFailure(i)
  {
    if i.StreamEnded? then Disconnected else TransportError
  }

  /** After any failure the actor connects again, at the same cursor; a pause that elapses doubles the next one. */
  lemma {:induction false} FailuresReconnect(s: State, i: Input)
    requires Live(s) && Serves(s, i) && IsFailure(i) && !TellsToStop(i) && !Step(s, i).lost
    ensures var longer := if s.backoff * 2 < 30000 then s.backoff * 2 else 30000;
            Step(s, i) == s.(phase := Connecting, queue := s.queue + [Notice(i)],
                             backoff := if i.pause.Elapsed? then longer else s.backoff)
  {
    var (t, item) := Attempt(s, i).value;
    EmissionStep(s, i);
    EmissionSurvives(s, i, t, item);
  }

  function Pow2(k: nat): nat { if k == 0 then 1 else 2 * Pow2(k - 1) }

  /** The server and the GUI go on; nothing of it concerns the actor. */
  predicate IsQuiet(i: Input) { i.Publish? || i.Retain? || i.Take? }

  predicate IsRefusal(i: Input) { i.ConnectFailed? && i.pause.Elapsed? }

  function Count(inputs: seq<Input>, counts: Input -> bool): nat {
    if inputs == [] then 0
    else Count(inputs[..|inputs| - 1], counts) + if counts(inputs[|inputs| - 1]) then 1 else 0
  }

  function Repeated(item: Item, k: nat): seq<Item> { seq(k, i => item) }

  function Bounded(backoff: nat): nat { if backoff <= 30000 then backoff else 30000 }

  lemma {:induction false} RefusalMoves(s: State, i: Input)
    requires Live(s) && s.phase.Connecting? && (IsRefusal(i) || IsQuiet(i)) && !Step(s, i).lost
    ensures var t := Step(s, i);
            && Live(t) && t.phase.Connecting? && t.cursor == s.cursor
            && t.backoff == (if IsRefusal(i) then Bounded(s.backoff * 2) else s.backoff)
            && Log(t) == Log(s) + if IsRefusal(i) then [TransportError] else []
  {
    if IsRefusal(i) {
      FailuresReconnect(s, i);
    } else {
      TakeKeepsLog(s);
    }
  }

  lemma {:induction false} DoubledBound(b: nat, p: nat)
    ensures Bounded(Bounded(b * p) * 2) == Bounded(b * (2 * p))
  {
    assert b * (2 * p) == b * p * 2;
  }

  /**
   After k refused connections with their pauses, whatever the server and the GUI do meanwhile, the actor
   is about to connect at the same cursor, the GUI has been told k times, and the next pause is 2^k times
   the first, at most 30 seconds.
   */
  lemma {:induction false} BackoffDoubles(s: State, inputs: seq<Input>)
    requires Live(s) && s.phase.Connecting? && s.backoff <= 30000
    requires (forall i | i in inputs :: IsRefusal(i) || IsQuiet(i)) && !Run(s, inputs).lost
    ensures var t, k := Run(s, inputs), Count(inputs, IsRefusal);
            && Live(t) && t.phase.Connecting? && t.cursor == s.cursor
            && t.backoff == Bounded(s.backoff * Pow2(k))
            && Log(t) == Log(s) + Repeated(TransportError, k)
    decreases |inputs|
  {
    if inputs != [] {
      var before, i := inputs[..|inputs| - 1], inputs[|inputs| - 1];
      var k := Count(before, IsRefusal);
      if Run(s, before).lost {
        LostStays(Run(s, before), i);
      }
      assert i in inputs;
      BackoffDoubles(s, before);
      RefusalMoves(Run(s, before), i);
      DoubledBound(s.backoff, Pow2(k));
      assert Log(s) + Repeated(TransportError, k) + [TransportError] == Log(s) + Repeated(TransportError, k + 1);
    }
  }

  // ---------------------------------------------------------------------------
  // Streaming: event after event, up to what the server has.

  function Events(from: nat, to: nat): seq<Item>
    requires from <= to
  {
    seq(to - from, i requires 0 <= i < to - from => Event(from + 1 + i))
  }

  lemma {:induction false} OneMoreEvent(log: seq<Item>, from: nat, to: nat)
    requires from <= to
    ensures log + Events(from, to) + [Event(to + 1)] == log + Events(from, to + 1)
  {
  }

  predicate IsStreamEvent(i: Input) { i.StreamEvent? }

  lemma {:induction false} EventMoves(s: State, i: Input)
    requires Live(s) && s.phase == Streaming(s.cursor + 1) && (IsStreamEvent(i) || IsQuiet(i)) && !Step(s, i).lost
    ensures var t := Step(s, i);
            && Live(t) && t.phase == Streaming(t.cursor + 1) && t.head >= s.head
            && t.cursor == (if IsStreamEvent(i) && s.cursor < s.head then s.cursor + 1 else s.cursor)
            && Log(t) == Log(s) + if t.cursor > s.cursor then [Event(s.cursor + 1)] else []
  {
    if IsStreamEvent(i) && s.cursor < s.head {
      var (t, item) := Attempt(s, i).value;
      EmissionStep(s, i);
      EmissionSurvives(s, i, t, item);
    } else {
      TakeKeepsLog(s);
    }
  }

  /** A stream delivers consecutive events, nothing else, and as many as it brings until the server has no more. */
  lemma {:induction false} StreamDelivers(s: State, inputs: seq<Input>)
    requires Live(s) && s.phase == Streaming(s.cursor + 1)
    requires (forall i | i in inputs :: IsStreamEvent(i) || IsQuiet(i)) && !Run(s, inputs).lost
    ensures var t, k := Run(s, inputs), Count(inputs, IsStreamEvent);
            && Live(t) && t.phase == Streaming(t.cursor + 1) && t.head >= s.head
            && s.cursor <= t.cursor <= s.cursor + k
            && (t.cursor >= s.head || t.cursor == s.cursor + k)
            && Log(t) == Log(s) + Events(s.cursor, t.cursor)
    decreases |inputs|
  {
    if inputs == [] {
      assert Log(s) + Events(s.cursor, s.cursor) == Log(s);
    } else {
      var before, i := inputs[..|inputs| - 1], inputs[|inputs| - 1];
      var u := Run(s, before);
      if u.lost {
        LostStays(u, i);
      }
      assert i in inputs;
      StreamDelivers(s, before);
      EventMoves(u, i);
      var t := Step(u, i);
      if t.cursor > u.cursor {
        OneMoreEvent(Log(s), s.cursor, u.cursor);
      }
    }
  }

  /** A connection resets the backoff and continues behind the cursor. */
  lemma {:induction false} ConnectionResumes(s: State, takes: Takes)
    requires Live(s) && s.phase.Connecting? && !Step(s, ConnectOk(takes)).lost
    ensures Step(s, ConnectOk(takes))
         == s.(phase := Streaming(s.cursor + 1), backoff := 250, queue := s.queue + [Connected(s.cursor)])
  {
    var i := ConnectOk(takes);
    var (t, item) := Attempt(s, i).value;
    EmissionStep(s, i);
    EmissionSurvives(s, i, t, item);
  }

  /**
   A GUI that is far behind is told to ask for a snapshot, if it makes room: an emission that finds the queue
   full is replaced by a resync marker if an item is taken just then, and so is the final notice.
   */
  lemma {:induction false} OverflowTells(s: State, i: Input)
    requires Serves(s, i) && Attempt(s, i).Some? && !s.closed && |s.queue| == 256
    ensures var t := Step(s, i);
            && t.phase.Finished? && t.stopFlag
            && Log(t) == Log(s) + (if i.takes.atEmission then [ResyncRequired] else [])
                                + (if i.takes.atNotice then [ResyncRequired] else [])
  {
    var (t, item) := Attempt(s, i).value;
    EmissionStep(s, i);
    var (e, ok) := Emit(t, item, i.takes.atEmission);
    FullEmitLog(t, item, i.takes.atEmission);
    FullEmitLog(e.(phase := Finished, stopFlag := true), Disconnected, i.takes.atNotice);
  }

  lemma {:induction false} FullEmitLog(s: State, item: Item, taken: bool)
    requires !s.closed && |s.queue| == 256
    ensures var (t, ok) := Emit(s, item, taken);
            && !ok && !t.closed && |t.queue| == 256 && t.phase == s.phase && t.stopFlag == s.stopFlag
            && Log(t) == Log(s) + (if taken then [ResyncRequired] else [])
  {
    TakeKeepsLog(s);
  }

  /** With room for two more items, the last thing an actor says is that it is disconnected. */
  lemma {:induction false} LastWordIfRoom(s: State, i: Input)
    requires !s.phase.Finished? && !s.closed && |s.queue| <= 254 && Step(s, i).phase.Finished?
    ensures !Step(s, i).closed && SaysGoodbye(Step(s, i))
  {
    if Serves(s, i) {
      FinishSays(s, i.takes);
      if Attempt(s, i).Some? {
        var (t, item) := Attempt(s, i).value;
        EmissionStep(s, i);
        OnwardSays(Emit(t, item, i.takes.atEmission).0, i);
      }
    }
  }

  predicate SaysGoodbye(s: State) { Log(s) != [] && Log(s)[|Log(s)| - 1] == Disconnected }

  lemma {:induction false} FinishSays(s: State, takes: Takes)
    requires !s.closed && |s.queue| <= 255
    ensures !Finish(s, takes).closed && SaysGoodbye(Finish(s, takes))
  {
  }

  lemma {:induction false} OnwardSays(s: State, i: Input)
    requires !s.phase.Finished? && !s.closed && |s.queue| <= 255 && Onward(s, i).phase.Finished?
    ensures !Onward(s, i).closed && SaysGoodbye(Onward(s, i))
  {
    FinishSays(s, i.takes);
  }

  /** A resync asks for a snapshot, and the snapshot moves the cursor to the server's last event. */
  lemma {:induction false} ResyncFetches(s: State, takes: Takes)
    requires Live(s) && s.phase.Streaming? && ResyncDue(s) && !Step(s, StreamResync(takes)).lost
    ensures Step(s, StreamResync(takes)) == s.(phase := Resyncing, queue := s.queue + [ResyncRequired])
  {
    var i := StreamResync(takes);
    var (t, item) := Attempt(s, i).value;
    EmissionStep(s, i);
    EmissionSurvives(s, i, t, item);
  }

  lemma {:induction false} SnapshotMoves(s: State, takes: Takes)
    requires Live(s) && s.phase.Resyncing? && !Step(s, SnapshotOk(takes)).lost
    ensures Step(s, SnapshotOk(takes))
         == s.(phase := Connecting, cursor := s.head, backoff := 250, queue := s.queue + [Snapshot(s.head)])
  {
    var i := SnapshotOk(takes);
    var (t, item) := Attempt(s, i).value;
    EmissionStep(s, i);
    EmissionSurvives(s, i, t, item);
  }

  // ---------------------------------------------------------------------------
  // What can still be delivered.

  /** Behind the log of `s`, the event is delivered, or a snapshot that includes it. */
  ghost predicate Covers(s: State, t: State, n: nat) {
    exists i :: |Log(s)| <= i < |Log(t)| && (Log(t)[i] == Event(n) || (Log(t)[i].Snapshot? && n <= Log(t)[i].number))
  }

  lemma {:induction false} RunConcat(s: State, xs: seq<Input>, ys: seq<Input>)
    ensures Run(s, xs + ys) == Run(Run(s, xs), ys)
    decreases |ys|
  {
    if ys == [] {
      assert xs + ys == xs;
    } else {
      RunConcat(s, xs, ys[..|ys| - 1]);
      assert (xs + ys)[..|xs + ys| - 1] == xs + ys[..|ys| - 1];
    }
  }

  /** The GUI takes all there is. */
  lemma {:induction false} Drain(s: State) returns (inputs: seq<Input>)
    requires !s.closed
    ensures Run(s, inputs) == s.(received := s.received + s.queue, queue := [])
    decreases |s.queue|
  {
    inputs := [];
    if s.queue == [] {
      assert s.received + s.queue == s.received;
    } else {
      var first: seq<Input> := [Take];
      assert first[..0] == [];
      var t := TakeOne(s);
      assert Run(s, first) == t;
      var rest := Drain(t);
      RunConcat(s, first, rest);
      assert t.received + t.queue == s.received + s.queue;
      inputs := first + rest;
    }
  }

  lemma {:induction false} SnapshotCovers(s: State, takes: Takes, n: nat)
    requires s.phase.Resyncing? && !s.closed && |s.queue| < QUEUE_CAPACITY && n <= s.head
    ensures Covers(s, Step(s, SnapshotOk(takes)), n)
  {
    var moved := s.(phase := Connecting, cursor := s.head);
    var e := Emit(moved, Snapshot(s.head), takes.atEmission).0;
    OnwardAddsNotices(e, SnapshotOk(takes));
    var t := Step(s, SnapshotOk(takes));
    assert Log(e) == Log(s) + [Snapshot(s.head)];
    assert Log(e) <= Log(t);
    assert Log(t)[|Log(s)|] == Snapshot(s.head);
  }

  /** From a stream, the retention job and a resync lead to a snapshot. */
  lemma {:induction false} StreamCovers(s: State, n: nat) returns (inputs: seq<Input>)
    requires s.phase.Streaming? && !s.closed && |s.queue| <= 1 && s.oldest <= s.head + 1 && s.cursor < n <= s.head
    ensures Covers(s, Run(s, inputs), n)
  {
    var takes := Takes(false, false);
    var dropped := Step(s, Retain(s.head + 1));
    var resyncing := Step(dropped, StreamResync(takes));
    SnapshotCovers(resyncing, takes, n);
    inputs := [];
    RunPush(s, inputs, Retain(s.head + 1));
    inputs := inputs + [Retain(s.head + 1)];
    RunPush(s, inputs, StreamResync(takes));
    inputs := inputs + [StreamResync(takes)];
    RunPush(s, inputs, SnapshotOk(takes));
    inputs := inputs + [SnapshotOk(takes)];
    CoversSince(s, resyncing, Run(s, inputs), n);
  }

  lemma {:induction false} CoversSince(s: State, u: State, t: State, n: nat)
    requires |Log(s)| <= |Log(u)| && Covers(u, t, n)
    ensures Covers(s, t, n)
  {
    var i :| |Log(u)| <= i < |Log(t)| && (Log(t)[i] == Event(n) || (Log(t)[i].Snapshot? && n <= Log(t)[i].number));
  }

  lemma {:induction false} EmptyCovers(s: State, n: nat) returns (inputs: seq<Input>)
    requires !s.phase.Finished? && !s.closed && s.queue == [] && s.oldest <= s.head + 1 && s.cursor < n <= s.head
    ensures Covers(s, Run(s, inputs), n)
  {
    var takes := Takes(false, false);
    match s.phase
    case Streaming(_) =>
      inputs := StreamCovers(s, n);
    case Resyncing =>
      SnapshotCovers(s, takes, n);
      RunPush(s, [], SnapshotOk(takes));
      inputs := [SnapshotOk(takes)];
      assert [] + inputs == inputs;
    case Connecting =>
      var t := Step(s, ConnectOk(takes));
      var rest := StreamCovers(t, n);
      RunPush(s, [], ConnectOk(takes));
      var first := [ConnectOk(takes)];
      assert [] + first == first;
      RunConcat(s, first, rest);
      inputs := first + rest;
      CoversSince(s, t, Run(s, inputs), n);
  }

  /** A closed GUI is sent nothing more. */
  lemma {:induction false} ClosedIsSilent(s: State, inputs: seq<Input>)
    requires s.closed
    ensures Run(s, inputs).closed && Log(Run(s, inputs)) == Log(s)
    decreases |inputs|
  {
    if inputs != [] {
      var t := Run(s, inputs[..|inputs| - 1]);
      ClosedIsSilent(s, inputs[..|inputs| - 1]);
      ClosedStep(t, inputs[|inputs| - 1]);
    }
  }

  lemma {:induction false} ClosedStep(s: State, i: Input)
    requires s.closed
    ensures Step(s, i).closed && Log(Step(s, i)) == Log(s)
  {
    TakeKeepsLog(s);
    if Serves(s, i) && Attempt(s, i).Some? {
      EmissionStep(s, i);
    }
  }

  /**
   In every reachable state, any event of the server beyond the cursor can still be delivered, itself or in a
   snapshot, exactly while the actor is not finished and the GUI is there.
   */
  lemma {:induction false} DeliverableIff(after: nat, s: State, n: nat)
    requires Inv(after, s) && s.cursor < n <= s.head
    ensures (exists inputs :: Covers(s, Run(s, inputs), n)) <==> !s.phase.Finished? && !s.closed
  {
    if s.closed {
      forall inputs ensures !Covers(s, Run(s, inputs), n) {
        ClosedIsSilent(s, inputs);
      }
    } else if s.phase.Finished? {
      forall inputs ensures !Covers(s, Run(s, inputs), n) {
        FinishedIsSilent(s, inputs);
      }
    } else {
      var first := Drain(s);
      var t := Run(s, first);
      assert Log(t) == Log(s);
      var rest := EmptyCovers(t, n);
      RunConcat(s, first, rest);
      CoversSince(s, t, Run(s, first + rest), n);
    }
  }
}
