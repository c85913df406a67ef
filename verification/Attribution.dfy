/** Attribution of session tokens to the mode that was active when they were spent. */
module Attribution {
  import opened Wrappers
  import opened Saturating

  datatype Turn = Turn(ts: Option<int>, output: nat, input: nat, cacheCreation: nat, cacheRead: nat, sidechain: bool)
  datatype Row = Row(ts: int, mode: Option<string>, prev: Option<string>)
  datatype Basis = Log | FlagMtime | WholeSession

  datatype Bucket = Bucket(output: nat, input: nat, cacheCreation: nat, cacheRead: nat)

  function Nothing(): Bucket { Bucket(0, 0, 0, 0) }

  /** `TokenBucket::add` */
  function AddTurn(b: Bucket, t: Turn): Bucket {
    Bucket(SatAdd(b.output, t.output), SatAdd(b.input, t.input),
           SatAdd(b.cacheCreation, t.cacheCreation), SatAdd(b.cacheRead, t.cacheRead))
  }

  datatype Result = Result(byMode: map<string, Bucket>, unknown: Bucket, sidechain: Bucket, basis: Basis)

  /** Where the tokens of one turn go. */
  datatype Destination = Sidechain | Unknown | Mode(name: string)

  // ---------------------------------------------------------------------------
  // Where a turn goes, straight from the log.

  /** Among the rows at or before `ts`, the one with the latest time, the last written one among equals. */
  function LatestRow(log: seq<Row>, ts: int): Option<Row> {
    if log == [] then None
    else
      var earlier, row := LatestRow(log[..|log| - 1], ts), log[|log| - 1];
      if row.ts <= ts && (earlier.None? || earlier.value.ts <= row.ts) then Some(row) else earlier
  }

  /** The row with the earliest time, the first written one among equals. */
  function EarliestRow(log: seq<Row>): Row
    requires log != []
  {
    if |log| == 1 then log[0]
    else
      var earliest, row := EarliestRow(log[..|log| - 1]), log[|log| - 1];
      if row.ts < earliest.ts then row else earliest
  }

  /** Without a log, the flag's modification time counts if it lies behind the first timed turn. */
  ghost predicate UsesFlag(turns: seq<Turn>, log: seq<Row>, mtime: Option<int>) {
    log == [] && mtime.Some? && exists t :: t in turns && !t.sidechain && t.ts.Some? && t.ts.value < mtime.value
  }

  /** What decides about single turns: the basis, and the evidence under it. */
  datatype Evidence = Evidence(basis: Basis, log: seq<Row>, current: Option<string>, mtime: int)
  {
    predicate Valid() { basis == Log ==> log != [] }
  }

  ghost function EvidenceFor(turns: seq<Turn>, log: seq<Row>, current: Option<string>,
                             mtime: Option<int>): (e: Evidence)
    ensures e.Valid()
  {
    Evidence(if log != [] then Log else if UsesFlag(turns, log, mtime) then FlagMtime else WholeSession,
             log, current, mtime.GetOr(0))
  }

  function NameOf(mode: Option<string>): string { mode.GetOr("none") }

  function DestinationOf(e: Evidence, t: Turn): Destination
    requires e.Valid()
  {
    if t.sidechain then Sidechain
    else match e.basis
      case WholeSession => Mode(NameOf(e.current))
      case FlagMtime => if t.ts.Some? && e.mtime <= t.ts.value then Mode(NameOf(e.current)) else Unknown
      case Log =>
        if t.ts.None? then Unknown
        else
          var row := LatestRow(e.log, t.ts.value);
          Mode(NameOf(if row.Some? then row.value.mode else EarliestRow(e.log).prev))
  }

  /** The routing of turns under some evidence. */
  function Route(e: Evidence): Turn -> Destination
    requires e.Valid()
  {
    (t: Turn) => DestinationOf(e, t)
  }

  // ---------------------------------------------------------------------------
  // What each destination holds, for any routing of turns to destinations.

  datatype Figure = Output | InputTokens | CacheCreation | CacheRead

  function FigureOf(t: Turn, figure: Figure): nat {
    match figure
    case Output => t.output
    case InputTokens => t.input
    case CacheCreation => t.cacheCreation
    case CacheRead => t.cacheRead
  }

  /** The true sum of a figure over the turns that go to `d`. */
  function Tally(route: Turn -> Destination, turns: seq<Turn>, d: Destination, figure: Figure): nat {
    if turns == [] then 0
    else Tally(route, turns[..|turns| - 1], d, figure) + Share(route, turns[|turns| - 1], d, figure)
  }

  /** What one turn adds to a destination. */
  function Share(route: Turn -> Destination, t: Turn, d: Destination, figure: Figure): nat {
    if route(t) == d then FigureOf(t, figure) else 0
  }

  /** The bucket of a destination: each figure summed up and clipped. */
  function Filled(route: Turn -> Destination, turns: seq<Turn>, d: Destination): Bucket {
    Bucket(Min(Tally(route, turns, d, Output), U64_MAX),
           Min(Tally(route, turns, d, InputTokens), U64_MAX),
           Min(Tally(route, turns, d, CacheCreation), U64_MAX),
           Min(Tally(route, turns, d, CacheRead), U64_MAX))
  }

  function Modes(route: Turn -> Destination, turns: seq<Turn>): set<string> {
    set t | t in turns && route(t).Mode? :: route(t).name
  }

  /** Every bucket is the clipped sum of exactly the turns that go there; `extra` modes have one in any case. */
  ghost function Buckets(route: Turn -> Destination, turns: seq<Turn>, extra: set<string>): map<string, Bucket> {
    map m | m in Modes(route, turns) + extra :: Filled(route, turns, Mode(m))
  }

  ghost function Attributed(route: Turn -> Destination, turns: seq<Turn>, extra: set<string>, basis: Basis): Result {
    Result(Buckets(route, turns, extra), Filled(route, turns, Unknown), Filled(route, turns, Sidechain), basis)
  }

  /** The whole session's mode is reported even if the session has no turn. */
  function Extra(e: Evidence): set<string> { if e.basis == WholeSession then {NameOf(e.current)} else {} }

  /** The attribution under the evidence there is. */
  ghost function Attribute(turns: seq<Turn>, log: seq<Row>, current: Option<string>, mtime: Option<int>): Result {
    var e := EvidenceFor(turns, log, current, mtime);
    Attributed(Route(e), turns, Extra(e), e.basis)
  }

  /** Adding a turn to the bucket it goes to fills the bucket. */
  lemma {:induction false} FilledStep(route: Turn -> Destination, turns: seq<Turn>, t: Turn, d: Destination)
    ensures Filled(route, turns + [t], d) == if route(t) == d then AddTurn(Filled(route, turns, d), t)
            else Filled(route, turns, d)
  {
    assert (turns + [t])[..|turns|] == turns;
  }

  // ---------------------------------------------------------------------------
  // The rows in words.

  /** Row `i` is at or before `ts`, and no such row has a later time, or the same time and a later index. */
  predicate IsLatest(log: seq<Row>, ts: int, i: nat) {
    && i < |log| && log[i].ts <= ts
    && forall j | 0 <= j < |log| && log[j].ts <= ts :: log[j].ts < log[i].ts || (log[j].ts == log[i].ts && j <= i)
  }

  lemma {:induction false} LatestRowIsLatest(log: seq<Row>, ts: int) returns (i: nat)
    ensures LatestRow(log, ts).Some? ==> IsLatest(log, ts, i) && LatestRow(log, ts) == Some(log[i])
    ensures LatestRow(log, ts).None? <==> forall j | 0 <= j < |log| :: log[j].ts > ts
    decreases |log|
  {
    i := 0;
    if log != [] {
      i := LatestRowIsLatest(log[..|log| - 1], ts);
      var row, earlier := log[|log| - 1], LatestRow(log[..|log| - 1], ts);
      if row.ts <= ts && (earlier.None? || earlier.value.ts <= row.ts) {
        i := |log| - 1;
      }
    }
  }

  lemma {:induction false} EarliestRowIsEarliest(log: seq<Row>) returns (i: nat)
    requires log != []
    ensures i < |log| && EarliestRow(log) == log[i]
    ensures forall j | 0 <= j < |log| :: log[i].ts < log[j].ts || (log[i].ts == log[j].ts && i <= j)
    decreases |log|
  {
    i := 0;
    if |log| > 1 {
      i := EarliestRowIsEarliest(log[..|log| - 1]);
      if log[|log| - 1].ts < log[i].ts {
        i := |log| - 1;
      }
    }
  }

  /**
   Where the tokens of a turn go, in words. Under a log: to the mode of the last row written at the latest
   time that is not after the turn, and before all rows to the mode that the earliest row replaced; without a
   time, nowhere known. Under a flag: to the current mode from its modification on, and before nowhere known.
   Otherwise to the current mode. Side chains are kept apart.
   */
  lemma {:induction false} TurnsGoWhere(turns: seq<Turn>, log: seq<Row>, current: Option<string>, mtime: Option<int>,
                                        t: Turn)
    ensures var e := EvidenceFor(turns, log, current, mtime);
            var to := DestinationOf(e, t);
            && (t.sidechain <==> to == Sidechain)
            && (e.basis == Log <==> log != [])
            && (!t.sidechain && log != [] ==>
                  if t.ts.None? then to == Unknown
                  else if exists k :: 0 <= k < |log| && log[k].ts <= t.ts.value then
                    exists i: nat :: IsLatest(log, t.ts.value, i) && to == Mode(log[i].mode.GetOr("none"))
                  else
                    exists i :: 0 <= i < |log| && to == Mode(log[i].prev.GetOr("none"))
                                && forall j | 0 <= j < |log| ::
                                     log[i].ts < log[j].ts || (log[i].ts == log[j].ts && i <= j))
    ensures var e := EvidenceFor(turns, log, current, mtime);
            var to := DestinationOf(e, t);
            !t.sidechain && log == [] ==>
              if mtime.Some? && exists u :: u in turns && !u.sidechain && u.ts.Some? && u.ts.value < mtime.value then
                e.basis == FlagMtime
                && to == if t.ts.Some? && t.ts.value >= mtime.value then Mode(current.GetOr("none")) else Unknown
              else e.basis == WholeSession && to == Mode(current.GetOr("none"))
  {
    if log != [] && t.ts.Some? {
      var e := EvidenceFor(turns, log, current, mtime);
      var i := LatestRowIsLatest(log, t.ts.value);
      var j := EarliestRowIsEarliest(log);
      if LatestRow(log, t.ts.value).None? && !t.sidechain {
        assert DestinationOf(e, t) == Mode(log[j].prev.GetOr("none"));
      }
    }
  }

  // ---------------------------------------------------------------------------
  // Order does not matter.

  predicate DistinctTimes(log: seq<Row>) {
    forall i, j | 0 <= i < j < |log| :: log[i].ts != log[j].ts
  }

  /** With distinct times, the rows may come in any order. */
  lemma {:induction false} LatestRowOfPermutedLog(a: seq<Row>, b: seq<Row>, ts: int)
    requires (forall r | r in a :: r in b) && (forall r | r in b :: r in a) && DistinctTimes(b)
    ensures LatestRow(a, ts) == LatestRow(b, ts)
  {
    var i := LatestRowIsLatest(a, ts);
    var j := LatestRowIsLatest(b, ts);
    if LatestRow(a, ts).Some? {
      assert a[i] in b;
      assert LatestRow(b, ts).Some?;
    }
    if LatestRow(b, ts).Some? {
      assert b[j] in a;
      assert LatestRow(a, ts).Some?;
      assert a[i].ts == b[j].ts;
    }
  }

  lemma {:induction false} EarliestRowOfPermutedLog(a: seq<Row>, b: seq<Row>)
    requires (forall r | r in a :: r in b) && (forall r | r in b :: r in a) && DistinctTimes(b)
    requires a != []
    ensures b != [] && EarliestRow(a) == EarliestRow(b)
  {
    assert a[0] in b;
    var k := EarliestRowIsEarliest(a);
    var l := EarliestRowIsEarliest(b);
    assert a[k] in b && b[l] in a;
  }

  lemma {:induction false} SameRows(a: seq<Row>, b: seq<Row>)
    requires multiset(a) == multiset(b)
    ensures forall r | r in a :: r in b
  {
    forall r | r in a
      ensures r in b
    {
      assert r in multiset(b);
    }
  }

  lemma {:induction false} TallyWithout(route: Turn -> Destination, turns: seq<Turn>, k: nat, d: Destination,
                                        figure: Figure)
    requires k < |turns|
    ensures Tally(route, turns, d, figure)
            == Tally(route, turns[..k] + turns[k + 1..], d, figure) + Share(route, turns[k], d, figure)
    decreases |turns|
  {
    var last := |turns| - 1;
    var without := turns[..k] + turns[k + 1..];
    if k == last {
      assert without == turns[..last];
    } else {
      var shorter := turns[..last][..k] + turns[..last][k + 1..];
      TallyWithout(route, turns[..last], k, d, figure);
      assert without == shorter + [turns[last]];
      TallyPush(route, shorter, turns[last], d, figure);
    }
  }

  lemma {:induction false} TallyPush(route: Turn -> Destination, turns: seq<Turn>, t: Turn, d: Destination,
                                     figure: Figure)
    ensures Tally(route, turns + [t], d, figure) == Tally(route, turns, d, figure) + Share(route, t, d, figure)
  {
    assert (turns + [t])[..|turns|] == turns;
  }

  lemma {:induction false} TurnOrderDoesNotMatterToTally(route: Turn -> Destination, a: seq<Turn>, b: seq<Turn>,
                                                         d: Destination, figure: Figure)
    requires multiset(a) == multiset(b)
    ensures Tally(route, a, d, figure) == Tally(route, b, d, figure)
    decreases |a|
  {
    if a == [] {
      assert |multiset(b)| == 0;
    } else {
      var k := Counterpart(a, b);
      TallyWithout(route, b, k, d, figure);
      TurnOrderDoesNotMatterToTally(route, a[..|a| - 1], b[..k] + b[k + 1..], d, figure);
    }
  }

  /** The last turn of `a` occurs in its permutation `b`, and the other turns are permutations too. */
  lemma {:induction false} Counterpart(a: seq<Turn>, b: seq<Turn>) returns (k: nat)
    requires a != [] && multiset(a) == multiset(b)
    ensures k < |b| && b[k] == a[|a| - 1] && multiset(b[..k] + b[k + 1..]) == multiset(a[..|a| - 1])
  {
    var before, last := a[..|a| - 1], a[|a| - 1];
    assert a == before + [last];
    assert last in multiset(b);
    k :| 0 <= k < |b| && b[k] == last;
    assert b == b[..k] + ([b[k]] + b[k + 1..]);
    assert multiset(b) == multiset(b[..k]) + (multiset{last} + multiset(b[k + 1..]));
    assert multiset(before) == multiset(a) - multiset{last};
    assert multiset(b[..k] + b[k + 1..]) == multiset(b) - multiset{last};
  }

  lemma {:induction false} SameRouteSameTally(r: Turn -> Destination, r': Turn -> Destination, turns: seq<Turn>,
                                              d: Destination, figure: Figure)
    requires forall t | t in turns :: r(t) == r'(t)
    ensures Tally(r, turns, d, figure) == Tally(r', turns, d, figure)
    decreases |turns|
  {
    if turns != [] {
      SameRouteSameTally(r, r', turns[..|turns| - 1], d, figure);
    }
  }

  /** Permuting the log keeps the evidence about every turn. */
  lemma {:induction false} PermutedEvidence(turns: seq<Turn>, turns': seq<Turn>, log: seq<Row>, log': seq<Row>,
                         current: Option<string>, mtime: Option<int>, t: Turn)
    requires multiset(turns) == multiset(turns') && multiset(log) == multiset(log')
    requires DistinctTimes(log')
    ensures var e, f := EvidenceFor(turns, log, current, mtime), EvidenceFor(turns', log', current, mtime);
            e.basis == f.basis && DestinationOf(e, t) == DestinationOf(f, t)
  {
    SameTurns(turns, turns');
    SameTurns(turns', turns);
    SameRows(log, log');
    SameRows(log', log);
    assert |multiset(log)| == |log| && |multiset(log')| == |log'|;
    if log != [] {
      EarliestRowOfPermutedLog(log, log');
      LatestRowOfPermutedLog(log, log', t.ts.GetOr(0));
    }
  }

  /** Permuting the turns, and permuting a log whose times are distinct, changes nothing. */
  lemma {:induction false} OrderDoesNotMatter(turns: seq<Turn>, turns': seq<Turn>, log: seq<Row>, log': seq<Row>,
                           current: Option<string>, mtime: Option<int>)
    requires multiset(turns) == multiset(turns') && multiset(log) == multiset(log')
    requires DistinctTimes(log')
    ensures Attribute(turns, log, current, mtime) == Attribute(turns', log', current, mtime)
  {
    var e, f := EvidenceFor(turns, log, current, mtime), EvidenceFor(turns', log', current, mtime);
    PermutedEvidence(turns, turns', log, log', current, mtime, Turn(None, 0, 0, 0, 0, false));
    forall t: Turn ensures Route(e)(t) == Route(f)(t) {
      PermutedEvidence(turns, turns', log, log', current, mtime, t);
    }
    PermutedTurns(Route(e), Route(f), turns, turns', Extra(e), e.basis);
  }

  lemma {:induction false} PermutedTurns(r: Turn -> Destination, r': Turn -> Destination, turns: seq<Turn>,
                                         turns': seq<Turn>,
                                         extra: set<string>, basis: Basis)
    requires multiset(turns) == multiset(turns') && forall t: Turn :: r(t) == r'(t)
    ensures Attributed(r, turns, extra, basis) == Attributed(r', turns', extra, basis)
  {
    forall d ensures Filled(r, turns, d) == Filled(r', turns', d) {
      forall figure ensures Tally(r, turns, d, figure) == Tally(r', turns', d, figure) {
        SameRouteSameTally(r, r', turns, d, figure);
        TurnOrderDoesNotMatterToTally(r', turns, turns', d, figure);
      }
    }
    SameTurns(turns, turns');
    SameTurns(turns', turns);
    assert Modes(r, turns) == Modes(r', turns');
  }

  lemma {:induction false} SameTurns(a: seq<Turn>, b: seq<Turn>)
    requires multiset(a) == multiset(b)
    ensures forall t | t in a :: t in b
  {
    forall t | t in a
      ensures t in b
    {
      assert t in multiset(b);
    }
  }

  // ---------------------------------------------------------------------------
  // Conservation.

  function Total(turns: seq<Turn>, figure: Figure): nat {
    if turns == [] then 0 else Total(turns[..|turns| - 1], figure) + FigureOf(turns[|turns| - 1], figure)
  }

  /** The sum of the tallies of a list of modes. */
  function TallyModes(route: Turn -> Destination, turns: seq<Turn>, modes: seq<string>, figure: Figure): nat
    decreases |modes|
  {
    if modes == [] then 0
    else TallyModes(route, turns, modes[..|modes| - 1], figure) + Tally(route, turns, Mode(modes[|modes| - 1]), figure)
  }

  predicate Distinct(modes: seq<string>) { forall i, j | 0 <= i < j < |modes| :: modes[i] != modes[j] }

  /** One more turn adds its tokens to the listed modes exactly when it goes to one of them. */
  lemma {:induction false} OneMoreTurn(route: Turn -> Destination, turns: seq<Turn>, modes: seq<string>, figure: Figure)
    requires turns != [] && Distinct(modes)
    ensures var t := turns[|turns| - 1];
            TallyModes(route, turns, modes, figure)
            == TallyModes(route, turns[..|turns| - 1], modes, figure)
               + if route(t).Mode? && route(t).name in modes then FigureOf(t, figure) else 0
    decreases |modes|
  {
    if modes != [] {
      var before, last := modes[..|modes| - 1], modes[|modes| - 1];
      OneMoreTurn(route, turns, before, figure);
      assert modes == before + [last];
      assert last !in before;
    }
  }

  /** Every token is in exactly one bucket: the true sums of all buckets are the tokens of all turns. */
  lemma {:induction false} TokensAreConserved(route: Turn -> Destination, turns: seq<Turn>, modes: seq<string>,
                                              figure: Figure)
    requires Distinct(modes) && forall t | t in turns && route(t).Mode? :: route(t).name in modes
    ensures Tally(route, turns, Sidechain, figure) + Tally(route, turns, Unknown, figure)
            + TallyModes(route, turns, modes, figure) == Total(turns, figure)
    decreases |turns|
  {
    if turns == [] {
      NoTurnsNoTokens(route, modes, figure);
    } else {
      TokensAreConserved(route, turns[..|turns| - 1], modes, figure);
      OneMoreTurn(route, turns, modes, figure);
    }
  }

  lemma {:induction false} NoTurnsNoTokens(route: Turn -> Destination, modes: seq<string>, figure: Figure)
    ensures TallyModes(route, [], modes, figure) == 0
    decreases |modes|
  {
    if modes != [] {
      NoTurnsNoTokens(route, modes[..|modes| - 1], figure);
    }
  }

  lemma {:induction false} TallyIsBounded(route: Turn -> Destination, turns: seq<Turn>, d: Destination, figure: Figure)
    ensures Tally(route, turns, d, figure) <= Total(turns, figure)
    decreases |turns|
  {
    if turns != [] {
      TallyIsBounded(route, turns[..|turns| - 1], d, figure);
    }
  }

  function FigureIn(b: Bucket, figure: Figure): nat {
    match figure
    case Output => b.output
    case InputTokens => b.input
    case CacheCreation => b.cacheCreation
    case CacheRead => b.cacheRead
  }

  /** The sum of a figure over the listed buckets. */
  function BucketSum(byMode: map<string, Bucket>, modes: seq<string>, figure: Figure): nat
    requires forall m | m in modes :: m in byMode
    decreases |modes|
  {
    if modes == [] then 0
    else BucketSum(byMode, modes[..|modes| - 1], figure) + FigureIn(byMode[modes[|modes| - 1]], figure)
  }

  /** Below saturation, a bucket holds the true sum. */
  lemma {:induction false} FilledHoldsTally(route: Turn -> Destination, turns: seq<Turn>, d: Destination,
                                            figure: Figure)
    requires Total(turns, figure) <= U64_MAX
    ensures FigureIn(Filled(route, turns, d), figure) == Tally(route, turns, d, figure)
  {
    TallyIsBounded(route, turns, d, figure);
  }

  lemma {:induction false} BucketSumIsTally(route: Turn -> Destination, turns: seq<Turn>, extra: set<string>,
                                            modes: seq<string>, figure: Figure)
    requires Total(turns, figure) <= U64_MAX && forall m | m in modes :: m in Buckets(route, turns, extra)
    ensures BucketSum(Buckets(route, turns, extra), modes, figure) == TallyModes(route, turns, modes, figure)
    decreases |modes|
  {
    if modes != [] {
      BucketSumIsTally(route, turns, extra, modes[..|modes| - 1], figure);
      var m := modes[|modes| - 1];
      assert m in modes;
      FilledHoldsTally(route, turns, Mode(m), figure);
    }
  }

  /** Below saturation, the buckets of the attribution add up to the tokens of all turns. */
  lemma {:induction false} AttributionConservesTokens(turns: seq<Turn>, log: seq<Row>, current: Option<string>,
                                                      mtime: Option<int>,
                                                      modes: seq<string>, figure: Figure)
    requires Total(turns, figure) <= U64_MAX && Distinct(modes)
    requires forall m :: m in modes <==> m in Attribute(turns, log, current, mtime).byMode
    ensures var r := Attribute(turns, log, current, mtime);
            FigureIn(r.sidechain, figure) + FigureIn(r.unknown, figure) + BucketSum(r.byMode, modes, figure)
            == Total(turns, figure)
  {
    var e := EvidenceFor(turns, log, current, mtime);
    BucketsConserve(Route(e), turns, Extra(e), modes, figure);
  }

  lemma {:induction false} BucketsConserve(route: Turn -> Destination, turns: seq<Turn>, extra: set<string>,
                                           modes: seq<string>, figure: Figure)
    requires Total(turns, figure) <= U64_MAX && Distinct(modes)
    requires forall m :: m in modes <==> m in Buckets(route, turns, extra)
    ensures FigureIn(Filled(route, turns, Sidechain), figure) + FigureIn(Filled(route, turns, Unknown), figure)
            + BucketSum(Buckets(route, turns, extra), modes, figure) == Total(turns, figure)
  {
    FilledHoldsTally(route, turns, Sidechain, figure);
    FilledHoldsTally(route, turns, Unknown, figure);
    BucketSumIsTally(route, turns, extra, modes, figure);
    forall t | t in turns && route(t).Mode? ensures route(t).name in modes {
      assert route(t).name in Modes(route, turns);
      assert route(t).name in Buckets(route, turns, extra);
    }
    TokensAreConserved(route, turns, modes, figure);
  }

  // ---------------------------------------------------------------------------
  // The sorted log.

  predicate Sorted(log: seq<Row>) { forall i, j | 0 <= i < j < |log| :: log[i].ts <= log[j].ts }

  /** Put a row behind all rows that are not later. */
  function InsertRow(log: seq<Row>, row: Row): seq<Row> {
    if log == [] || log[|log| - 1].ts <= row.ts then log + [row]
    else InsertRow(log[..|log| - 1], row) + [log[|log| - 1]]
  }

  /** The stable sort by time. */
  function SortRows(log: seq<Row>): seq<Row> {
    if log == [] then [] else InsertRow(SortRows(log[..|log| - 1]), log[|log| - 1])
  }

  lemma {:induction false} InsertPermutes(log: seq<Row>, row: Row)
    ensures multiset(InsertRow(log, row)) == multiset(log) + multiset{row}
    decreases |log|
  {
    if log != [] && log[|log| - 1].ts > row.ts {
      assert log == log[..|log| - 1] + [log[|log| - 1]];
      InsertPermutes(log[..|log| - 1], row);
    }
  }

  lemma {:induction false} InsertSorts(log: seq<Row>, row: Row)
    requires Sorted(log)
    ensures Sorted(InsertRow(log, row))
    decreases |log|
  {
    if log != [] && log[|log| - 1].ts > row.ts {
      var before, last := log[..|log| - 1], log[|log| - 1];
      InsertSorts(before, row);
      InsertPermutes(before, row);
      forall k | 0 <= k < |InsertRow(before, row)|
        ensures InsertRow(before, row)[k].ts <= last.ts
      {
        assert InsertRow(before, row)[k] in multiset(before) + multiset{row};
      }
    }
  }

  lemma {:induction false} SortSorts(log: seq<Row>)
    ensures Sorted(SortRows(log)) && multiset(SortRows(log)) == multiset(log) && |SortRows(log)| == |log|
    decreases |log|
  {
    if log != [] {
      SortSorts(log[..|log| - 1]);
      InsertSorts(SortRows(log[..|log| - 1]), log[|log| - 1]);
      InsertPermutes(SortRows(log[..|log| - 1]), log[|log| - 1]);
      assert log == log[..|log| - 1] + [log[|log| - 1]];
    }
    assert |multiset(SortRows(log))| == |multiset(log)|;
  }

  /** In a sorted log the latest row at or before `ts` is the last of those rows. */
  lemma {:induction false} LatestOfSorted(log: seq<Row>, ts: int, n: nat)
    requires Sorted(log) && n <= |log|
    requires forall j | 0 <= j < n :: log[j].ts <= ts
    requires n < |log| ==> log[n].ts > ts
    ensures LatestRow(log, ts) == if n == 0 then None else Some(log[n - 1])
    decreases |log|
  {
    if n < |log| {
      LatestOfSorted(log[..|log| - 1], ts, n);
    } else if n > 0 {
      LatestOfSorted(log[..|log| - 1], ts, n - 1);
    }
  }

  lemma {:induction false} LatestAfterInsert(log: seq<Row>, row: Row, ts: int)
    requires Sorted(log)
    ensures LatestRow(InsertRow(log, row), ts) == LatestRow(log + [row], ts)
    decreases |log|
  {
    assert (log + [row])[..|log|] == log;
    if log != [] && log[|log| - 1].ts > row.ts {
      var before, last := log[..|log| - 1], log[|log| - 1];
      assert (before + [row])[..|before|] == before;
      var longer := InsertRow(before, row) + [last];
      assert longer[..|longer| - 1] == InsertRow(before, row);
      LatestAfterInsert(before, row, ts);
      var i := LatestRowIsLatest(before, ts);
    }
  }

  /** Stable sorting keeps, for every moment, the row that is in force, and the row that came first. */
  lemma {:induction false} SortKeepsRows(log: seq<Row>, ts: int)
    ensures LatestRow(SortRows(log), ts) == LatestRow(log, ts)
    ensures log != [] ==> SortRows(log) != [] && SortRows(log)[0] == EarliestRow(log)
    decreases |log|
  {
    if log != [] {
      var before, row := log[..|log| - 1], log[|log| - 1];
      var sorted := SortRows(before);
      SortSorts(before);
      SortKeepsRows(before, ts);
      LatestAfterInsert(sorted, row, ts);
      assert (sorted + [row])[..|sorted|] == sorted;
      FirstAfterInsert(sorted, row);
    }
  }

  lemma {:induction false} FirstAfterInsert(log: seq<Row>, row: Row)
    requires Sorted(log)
    ensures InsertRow(log, row) != []
    ensures InsertRow(log, row)[0] == if log == [] || row.ts < log[0].ts then row else log[0]
    decreases |log|
  {
    if log != [] && log[|log| - 1].ts > row.ts {
      FirstAfterInsert(log[..|log| - 1], row);
    }
  }

  // ---------------------------------------------------------------------------
  // The loops.

  method Sort(log: seq<Row>) returns (sorted: seq<Row>)
    ensures sorted == SortRows(log)
  {
    sorted := [];
    for n := 0 to |log|
      invariant sorted == SortRows(log[..n])
    {
      assert log[..n + 1][..n] == log[..n];
      sorted := InsertRow(sorted, log[n]);
    }
    assert log[..|log|] == log;
  }

  /** The last event at or before `ts`, scanning in order up to the first later one. */
  method ScanEvents(events: seq<Row>, ts: int) returns (active: Option<Row>)
    requires Sorted(events)
    ensures active == LatestRow(events, ts)
  {
    active := None;
    var n := 0;
    while n < |events| && events[n].ts <= ts
      invariant 0 <= n <= |events|
      invariant active == if n == 0 then None else Some(events[n - 1])
      invariant forall j | 0 <= j < n :: events[j].ts <= ts
    {
      active := Some(events[n]);
      n := n + 1;
    }
    LatestOfSorted(events, ts, n);
  }

  /** Split off the sidechain turns. */
  method SplitTurns(turns: seq<Turn>, ghost route: Turn -> Destination) returns (main: seq<Turn>, sidechain: Bucket)
    requires forall t: Turn :: t.sidechain <==> route(t) == Sidechain
    ensures sidechain == Filled(route, turns, Sidechain)
    ensures forall d | d != Sidechain :: Filled(route, main, d) == Filled(route, turns, d)
    ensures forall t :: t in main <==> t in turns && !t.sidechain
  {
    main, sidechain := [], Nothing();
    for n := 0 to |turns|
      invariant sidechain == Filled(route, turns[..n], Sidechain)
      invariant forall d | d != Sidechain :: Filled(route, main, d) == Filled(route, turns[..n], d)
      invariant forall t :: t in main <==> t in turns[..n] && !t.sidechain
    {
      var t := turns[n];
      assert turns[..n + 1] == turns[..n] + [t];
      FilledStep(route, turns[..n], t, Sidechain);
      var kept := if t.sidechain then main else main + [t];
      forall d | d != Sidechain
        ensures Filled(route, kept, d) == Filled(route, turns[..n + 1], d)
      {
        FilledStep(route, turns[..n], t, d);
        FilledStep(route, main, t, d);
      }
      if t.sidechain {
        sidechain := AddTurn(sidechain, t);
      }
      main := kept;
    }
    assert turns[..|turns|] == turns;
  }

  method FirstTimestamp(turns: seq<Turn>) returns (first: Option<int>)
    ensures forall t | t in turns && t.ts.Some? :: first.Some? && first.value <= t.ts.value
    ensures first.Some? ==> exists t :: t in turns && t.ts == first
  {
    first := None;
    for n := 0 to |turns|
      invariant forall t | t in turns[..n] && t.ts.Some? :: first.Some? && first.value <= t.ts.value
      invariant first.Some? ==> exists t :: t in turns[..n] && t.ts == first
    {
      assert turns[..n + 1] == turns[..n] + [turns[n]];
      if turns[n].ts.Some? && (first.None? || turns[n].ts.value < first.value) {
        first := turns[n].ts;
        assert turns[n] in turns[..n + 1];
      }
    }
    assert turns[..|turns|] == turns;
  }

  lemma {:induction false} ModesStep(route: Turn -> Destination, turns: seq<Turn>, t: Turn)
    ensures Modes(route, turns + [t]) == Modes(route, turns) + if route(t).Mode? then {route(t).name} else {}
  {
    assert forall x :: x in turns + [t] <==> x in turns || x == t;
  }

  lemma {:induction false} BucketsStep(route: Turn -> Destination, turns: seq<Turn>, t: Turn)
    ensures Buckets(route, turns + [t], {})
            == if route(t).Mode?
               then Buckets(route, turns, {})[route(t).name := AddTurn(Filled(route, turns, route(t)), t)]
               else Buckets(route, turns, {})
  {
    forall m
      ensures Filled(route, turns + [t], Mode(m))
              == if route(t) == Mode(m) then AddTurn(Filled(route, turns, Mode(m)), t)
                else Filled(route, turns, Mode(m))
    {
      FilledStep(route, turns, t, Mode(m));
    }
    ModesStep(route, turns, t);
    assert Buckets(route, turns + [t], {}).Keys
        == Buckets(route, turns, {}).Keys + if route(t).Mode? then {route(t).name} else {};
  }

  lemma {:induction false} NoBucketYet(route: Turn -> Destination, turns: seq<Turn>, m: string)
    requires m !in Buckets(route, turns, {})
    ensures Filled(route, turns, Mode(m)) == Nothing()
  {
    EmptyDestination(route, turns, Mode(m));
  }

  lemma {:induction false} EmptyDestination(route: Turn -> Destination, turns: seq<Turn>, d: Destination)
    requires forall t | t in turns :: route(t) != d
    ensures Filled(route, turns, d) == Nothing()
    decreases |turns|
  {
    if turns != [] {
      EmptyDestination(route, turns[..|turns| - 1], d);
    }
  }

  /** Put every main turn into the bucket of the event in force, of the prefix, or of nobody. */
  method PlaceTurns(main: seq<Turn>, events: seq<Row>, prefix: Option<Option<string>>, ghost route: Turn -> Destination)
    returns (byMode: map<string, Bucket>, unknown: Bucket)
    requires Sorted(events)
    requires forall t | t in main :: route(t) ==
               if t.ts.None? then Unknown
               else if LatestRow(events, t.ts.value).Some? then Mode(NameOf(LatestRow(events, t.ts.value).value.mode))
               else if prefix.Some? then Mode(NameOf(prefix.value)) else Unknown
    ensures byMode == Buckets(route, main, {}) && unknown == Filled(route, main, Unknown)
  {
    byMode, unknown := map[], Nothing();
    for n := 0 to |main|
      invariant byMode == Buckets(route, main[..n], {})
      invariant unknown == Filled(route, main[..n], Unknown)
    {
      var t := main[n];
      assert main[..n + 1] == main[..n] + [t];
      BucketsStep(route, main[..n], t);
      FilledStep(route, main[..n], t, Unknown);
      var name: Option<string> := None;
      if t.ts.Some? {
        var active := ScanEvents(events, t.ts.value);
        if active.Some? {
          name := Some(NameOf(active.value.mode));
        } else if prefix.Some? {
          name := Some(NameOf(prefix.value));
        }
      }
      if name.Some? {
        if name.value !in byMode {
          NoBucketYet(route, main[..n], name.value);
        }
        var bucket := if name.value in byMode then byMode[name.value] else Nothing();
        byMode := byMode[name.value := AddTurn(bucket, t)];
      } else {
        unknown := AddTurn(unknown, t);
      }
    }
    assert main[..|main|] == main;
  }

  method FillOne(main: seq<Turn>, ghost route: Turn -> Destination, ghost d: Destination) returns (b: Bucket)
    requires forall t | t in main :: route(t) == d
    ensures b == Filled(route, main, d)
  {
    b := Nothing();
    for n := 0 to |main|
      invariant b == Filled(route, main[..n], d)
    {
      assert main[..n + 1] == main[..n] + [main[n]];
      FilledStep(route, main[..n], main[n], d);
      b := AddTurn(b, main[n]);
    }
    assert main[..|main|] == main;
  }

  /** The buckets of the main turns and of the sidechain are the attribution. */
  lemma {:induction false} MainTurnsSuffice(route: Turn -> Destination, turns: seq<Turn>, main: seq<Turn>,
                                            extra: set<string>, basis: Basis)
    requires forall t: Turn :: t.sidechain <==> route(t) == Sidechain
    requires forall d | d != Sidechain :: Filled(route, main, d) == Filled(route, turns, d)
    requires forall t :: t in main <==> t in turns && !t.sidechain
    ensures Attributed(route, turns, extra, basis)
         == Result(Buckets(route, main, extra), Filled(route, main, Unknown), Filled(route, turns, Sidechain), basis)
  {
    assert Modes(route, main) == Modes(route, turns);
  }

  /** The flag's time counts if it lies behind the first timed main turn. */
  method DecideFlag(turns: seq<Turn>, main: seq<Turn>, log: seq<Row>, mtime: Option<int>) returns (useFlag: bool)
    requires forall t :: t in main <==> t in turns && !t.sidechain
    ensures useFlag <==> UsesFlag(turns, log, mtime)
  {
    var first := FirstTimestamp(main);
    useFlag := log == [] && mtime.Some? && first.Some? && mtime.value > first.value;
  }

  /** The whole session goes to the current mode, even if it has no turn. */
  method PlaceWhole(main: seq<Turn>, current: Option<string>, ghost e: Evidence) returns (byMode: map<string, Bucket>)
    requires e.Valid() && e.basis == WholeSession && e.current == current && forall t | t in main :: !t.sidechain
    ensures byMode == Buckets(Route(e), main, Extra(e)) && Filled(Route(e), main, Unknown) == Nothing()
  {
    EmptyDestination(Route(e), main, Unknown);
    assert Modes(Route(e), main) + Extra(e) == {NameOf(current)};
    var bucket := FillOne(main, Route(e), Mode(NameOf(current)));
    byMode := map[NameOf(current) := bucket];
  }

  method PlaceByFlag(main: seq<Turn>, mtime: int, current: Option<string>, ghost e: Evidence)
    returns (byMode: map<string, Bucket>, unknown: Bucket)
    requires e.Valid() && e.basis == FlagMtime && e.mtime == mtime && e.current == current
    requires forall t | t in main :: !t.sidechain
    ensures byMode == Buckets(Route(e), main, {}) && unknown == Filled(Route(e), main, Unknown)
  {
    var events := [Row(mtime, current, None)];
    forall ts
      ensures LatestRow(events, ts) == if mtime <= ts then Some(events[0]) else None
    {
      assert LatestRow(events[..0], ts) == None;
    }
    byMode, unknown := PlaceTurns(main, events, None, Route(e));
  }

  method PlaceByLog(main: seq<Turn>, log: seq<Row>, ghost e: Evidence)
    returns (byMode: map<string, Bucket>, unknown: Bucket)
    requires e.Valid() && e.basis == Log && e.log == log && forall t | t in main :: !t.sidechain
    ensures byMode == Buckets(Route(e), main, {}) && unknown == Filled(Route(e), main, Unknown)
  {
    var events := Sort(log);
    SortSorts(log);
    forall ts
      ensures LatestRow(events, ts) == LatestRow(log, ts) && events != [] && events[0] == EarliestRow(log)
    {
      SortKeepsRows(log, ts);
    }
    byMode, unknown := PlaceTurns(main, events, Some(events[0].prev), Route(e));
  }

  /** `attribute_by_mode` */
  method AttributeByMode(turns: seq<Turn>, log: seq<Row>, current: Option<string>, mtime: Option<int>)
    returns (r: Result)
    ensures r == Attribute(turns, log, current, mtime)
  {
    ghost var e := EvidenceFor(turns, log, current, mtime);
    var main, sidechain := SplitTurns(turns, Route(e));
    MainTurnsSuffice(Route(e), turns, main, Extra(e), e.basis);
    var useFlag := DecideFlag(turns, main, log, mtime);
    var byMode, unknown := map[], Nothing();
    var basis := Log;
    if log == [] && !useFlag {
      basis := WholeSession;
      byMode := PlaceWhole(main, current, e);
    } else if useFlag {
      basis := FlagMtime;
      byMode, unknown := PlaceByFlag(main, mtime.value, current, e);
    } else {
      byMode, unknown := PlaceByLog(main, log, e);
    }
    r := Result(byMode, unknown, sidechain, basis);
  }
}
