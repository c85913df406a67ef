/**
 Prepared plans: prepare stores a plan under a fresh id, apply takes it out once and checks that it is
 neither too old nor overtaken by a change of the state it was made for.
 */
module Plans {
  import opened Wrappers

  /** A plan id is a digest of these fields; digests are taken to be injective. */
  datatype PlanId = PlanId(identity: string, fingerprint: string, created: nat, nonce: nat)

  datatype Prepared<T> = Prepared(payload: T, fingerprint: string, created: nat)

  /** Five minutes; instants are in nanoseconds. */
  const PLAN_TTL: nat := 5 * 60 * 1_000_000_000

  type Entries<T> = map<PlanId, Prepared<T>>

  /** `now.saturating_duration_since(then)` */
  function Since(now: nat, earlier: nat): nat { if now < earlier then 0 else now - earlier }

  predicate Alive<T>(p: Prepared<T>, now: nat) { Since(now, p.created) <= PLAN_TTL }

  /** What `insert` keeps of the old entries. */
  function Evicted<T>(entries: Entries<T>, now: nat): Entries<T> {
    map id | id in entries && Alive(entries[id], now) :: entries[id]
  }

  datatype Operation<!T> =
    | Prepare(payload: T, identity: string, fingerprint: string, now: nat)
    | Apply(id: PlanId, refingerprint: T -> Option<string>, now: nat)

  datatype Outcome<T> = Stored(id: PlanId) | Stale | Handed(payload: T)

  /** Entries, nonce, and as history every plan ever stored and the ids ever taken out. */
  datatype Flow<T> = Flow(entries: Entries<T>, nonce: nat, issued: Entries<T>, taken: set<PlanId>)

  function New<T>(): Flow<T> { Flow(map[], 0, map[], {}) }

  /** One operation; `evict` says whether storing a plan drops the expired ones. */
  function Step<T>(s: Flow<T>, op: Operation<T>, evict: bool): (Flow<T>, Outcome<T>) {
    match op
    case Prepare(payload, identity, fingerprint, now) =>
      var id := PlanId(identity, fingerprint, now, s.nonce);
      var p := Prepared(payload, fingerprint, now);
      var kept := if evict then Evicted(s.entries, now) else s.entries;
      (s.(entries := kept[id := p], nonce := s.nonce + 1, issued := s.issued[id := p]), Stored(id))
    case Apply(id, refingerprint, now) =>
      if id !in s.entries then (s, Stale)
      else
        var p := s.entries[id];
        (s.(entries := s.entries - {id}, taken := s.taken + {id}),
         if !Alive(p, now) || refingerprint(p.payload) != Some(p.fingerprint) then Stale else Handed(p.payload))
  }

  /** The flow before the n-th operation. */
  function At<T>(ops: seq<Operation<T>>, n: nat, evict: bool): Flow<T>
    requires n <= |ops|
  {
    if n == 0 then New() else Step(At(ops, n - 1, evict), ops[n - 1], evict).0
  }

  /** What the n-th operation returns. */
  function OutcomeOf<T>(ops: seq<Operation<T>>, n: nat, evict: bool): Outcome<T>
    requires n < |ops|
  {
    Step(At(ops, n, evict), ops[n], evict).1
  }

  predicate Monotone<T>(ops: seq<Operation<T>>) {
    forall i, j | 0 <= i < j < |ops| :: ops[i].now <= ops[j].now
  }

  // ---------------------------------------------------------------------------
  // Every plan is handed out at most once, in time and unchanged.

  ghost predicate Inv<T(!new)>(s: Flow<T>) {
    && (forall id | id in s.entries :: id in s.issued && s.entries[id] == s.issued[id] && id !in s.taken)
    && (forall id | id in s.issued :: id.nonce < s.nonce && id.created == s.issued[id].created
                                      && id.fingerprint == s.issued[id].fingerprint)
    && (forall id | id in s.taken :: id in s.issued)
  }

  lemma {:induction false} StepKeepsInv<T(!new)>(s: Flow<T>, op: Operation<T>, evict: bool)
    requires Inv(s)
    ensures Inv(Step(s, op, evict).0)
    ensures forall id | id in s.issued ::
              id in Step(s, op, evict).0.issued && Step(s, op, evict).0.issued[id] == s.issued[id]
    ensures s.taken <= Step(s, op, evict).0.taken
  {
  }

  lemma {:induction false} RunKeepsInv<T(!new)>(ops: seq<Operation<T>>, n: nat, evict: bool)
    requires n <= |ops|
    ensures Inv(At(ops, n, evict))
  {
    if n > 0 {
      RunKeepsInv(ops, n - 1, evict);
      StepKeepsInv(At(ops, n - 1, evict), ops[n - 1], evict);
    }
  }

  /** What was taken out stays taken, and what was issued is never issued anew. */
  lemma {:induction false} HistoryGrows<T(!new)>(ops: seq<Operation<T>>, n: nat, m: nat, evict: bool)
    requires n <= m <= |ops|
    ensures At(ops, n, evict).taken <= At(ops, m, evict).taken
    ensures forall id | id in At(ops, n, evict).issued ::
              id in At(ops, m, evict).issued && At(ops, m, evict).issued[id] == At(ops, n, evict).issued[id]
    decreases m
  {
    if n < m {
      HistoryGrows(ops, n, m - 1, evict);
      RunKeepsInv(ops, m - 1, evict);
      StepKeepsInv(At(ops, m - 1, evict), ops[m - 1], evict);
    }
  }

  /** An apply hands out the payload stored under the id, in time and for the state it was made for. */
  lemma {:induction false} HandedPlansAreValid<T(!new)>(ops: seq<Operation<T>>, n: nat, evict: bool)
    requires n < |ops| && OutcomeOf(ops, n, evict).Handed?
    ensures ops[n].Apply?
    ensures var s := At(ops, n, evict);
            && ops[n].id in s.issued && ops[n].id !in s.taken
            && var p := s.issued[ops[n].id];
               && OutcomeOf(ops, n, evict) == Handed(p.payload)
               && ops[n].now <= p.created + 300_000_000_000
               && ops[n].refingerprint(p.payload) == Some(p.fingerprint)
    ensures ops[n].id in At(ops, n + 1, evict).taken
  {
    RunKeepsInv(ops, n, evict);
  }

  /** No plan id is handed out twice, in any run and under any clock. */
  lemma {:induction false} HandedAtMostOnce<T(!new)>(ops: seq<Operation<T>>, m: nat, n: nat, evict: bool)
    requires m < n < |ops| && OutcomeOf(ops, m, evict).Handed? && OutcomeOf(ops, n, evict).Handed?
    ensures ops[m].Apply? && ops[n].Apply? && ops[m].id != ops[n].id
  {
    HandedPlansAreValid(ops, m, evict);
    HandedPlansAreValid(ops, n, evict);
    HistoryGrows(ops, m + 1, n, evict);
  }

  /** Every id a run stores a plan under is new: what was taken out never comes back. */
  lemma {:induction false} IdsAreFresh<T(!new)>(ops: seq<Operation<T>>, n: nat, evict: bool)
    requires n < |ops| && ops[n].Prepare?
    ensures var o := OutcomeOf(ops, n, evict);
            o.Stored? && o.id !in At(ops, n, evict).issued && o.id !in At(ops, n, evict).taken
  {
    RunKeepsInv(ops, n, evict);
  }

  // ---------------------------------------------------------------------------
  // Every plan that is asked for in time and unchanged is handed out.

  /** Whatever was issued and is neither stored nor taken has expired. */
  ghost predicate KeptInTime<T(!new)>(s: Flow<T>, now: nat) {
    forall id | id in s.issued && id !in s.taken && id !in s.entries :: !Alive(s.issued[id], now)
  }

  lemma {:induction false} StepKeepsInTime<T(!new)>(s: Flow<T>, op: Operation<T>, evict: bool, now: nat)
    requires Inv(s) && KeptInTime(s, now) && now <= op.now
    ensures KeptInTime(Step(s, op, evict).0, op.now)
  {
  }

  lemma {:induction false} RunKeepsInTime<T(!new)>(ops: seq<Operation<T>>, n: nat, evict: bool)
    requires n <= |ops| && Monotone(ops)
    ensures KeptInTime(At(ops, n, evict), if n == 0 then 0 else ops[n - 1].now)
  {
    if n > 0 {
      RunKeepsInTime(ops, n - 1, evict);
      RunKeepsInv(ops, n - 1, evict);
      StepKeepsInTime(At(ops, n - 1, evict), ops[n - 1], evict, if n == 1 then 0 else ops[n - 2].now);
    }
  }

  lemma {:induction false} KeepsAll<T(!new)>(ops: seq<Operation<T>>, n: nat)
    requires n <= |ops|
    ensures forall id | id in At(ops, n, false).issued
            && id !in At(ops, n, false).taken :: id in At(ops, n, false).entries
  {
    if n > 0 {
      KeepsAll(ops, n - 1);
    }
  }

  /** A plan that can still be asked for: issued and not taken out. */
  predicate Open<T>(s: Flow<T>, id: PlanId) { id in s.issued && id !in s.taken }

  /** At most five minutes after it was made, for a state that has not changed. */
  predicate StillHolds<T>(p: Prepared<T>, refingerprint: T -> Option<string>, now: nat) {
    now <= p.created + 300_000_000_000 && refingerprint(p.payload) == Some(p.fingerprint)
  }

  /**
   An apply hands out a plan exactly if it was issued, has not been taken out, is at most five minutes old
   and the state it was made for has not changed; otherwise it reports the plan as stale.
   */
  lemma {:induction false} HandedIff<T(!new)>(ops: seq<Operation<T>>, n: nat, evict: bool)
    requires n < |ops| && ops[n].Apply? && (evict ==> Monotone(ops))
    ensures var s, id := At(ops, n, evict), ops[n].id;
            OutcomeOf(ops, n, evict)
            == if Open(s, id) && StillHolds(s.issued[id], ops[n].refingerprint, ops[n].now)
               then Handed(s.issued[id].payload) else Stale
  {
    var s, id := At(ops, n, evict), ops[n].id;
    RunKeepsInv(ops, n, evict);
    if evict {
      RunKeepsInTime(ops, n, evict);
    } else {
      KeepsAll(ops, n);
    }
  }

  /** A plan is taken out by an apply that names it. */
  lemma {:induction false} TakenByApply<T(!new)>(ops: seq<Operation<T>>, m: nat, n: nat, evict: bool, id: PlanId)
    requires m <= n <= |ops| && id !in At(ops, m, evict).taken && id in At(ops, n, evict).taken
    ensures exists k :: m <= k < n && ops[k].Apply? && ops[k].id == id
    decreases n
  {
    if id in At(ops, n - 1, evict).taken {
      TakenByApply(ops, m, n - 1, evict, id);
    }
  }

  /**
   From preparing to applying: the first apply that names a prepared plan hands out the very payload if it
   comes within five minutes and the state is unchanged, whatever else is prepared and applied in between.
   */
  lemma {:induction false} PreparedPlansCanBeApplied<T(!new)>(ops: seq<Operation<T>>, m: nat, n: nat, evict: bool)
    requires m < n < |ops| && ops[m].Prepare? && ops[n].Apply? && (evict ==> Monotone(ops))
    requires OutcomeOf(ops, m, evict) == Stored(ops[n].id)
    requires forall k | m < k < n && ops[k].Apply? :: ops[k].id != ops[n].id
    ensures OutcomeOf(ops, n, evict)
            == if ops[n].now <= ops[m].now + 300_000_000_000
                  && ops[n].refingerprint(ops[m].payload) == Some(ops[m].fingerprint)
               then Handed(ops[m].payload) else Stale
  {
    var id := ops[n].id;
    IdsAreFresh(ops, m, evict);
    HistoryGrows(ops, m + 1, n, evict);
    if id in At(ops, n, evict).taken {
      TakenByApply(ops, m + 1, n, evict, id);
    }
    HandedIff(ops, n, evict);
  }

  // ---------------------------------------------------------------------------
  // Eviction cannot be observed.

  /** The evicting store misses only entries that are expired from `now` on. */
  ghost predicate Similar<T(!new)>(s: Flow<T>, full: Flow<T>, now: nat) {
    && s.nonce == full.nonce
    && (forall id | id in s.entries :: id in full.entries && full.entries[id] == s.entries[id])
    && (forall id | id in full.entries && id !in s.entries :: !Alive(full.entries[id], now))
  }

  lemma {:induction false} StepStaysSimilar<T(!new)>(s: Flow<T>, full: Flow<T>, now: nat, op: Operation<T>)
    requires Similar(s, full, now) && now <= op.now
    ensures Similar(Step(s, op, true).0, Step(full, op, false).0, op.now)
    ensures Step(s, op, true).1 == Step(full, op, false).1
  {
  }

  lemma {:induction false} RunsStaySimilar<T(!new)>(ops: seq<Operation<T>>, n: nat)
    requires Monotone(ops) && n <= |ops|
    ensures Similar(At(ops, n, true), At(ops, n, false), if n == 0 then 0 else ops[n - 1].now)
  {
    if n > 0 {
      RunsStaySimilar(ops, n - 1);
      StepStaysSimilar(At(ops, n - 1, true), At(ops, n - 1, false), if n == 1 then 0 else ops[n - 2].now, ops[n - 1]);
    }
  }

  /** Under a clock that never goes back, dropping expired plans changes no outcome of any run. */
  lemma {:induction false} EvictionIsUnobservable<T(!new)>(ops: seq<Operation<T>>, n: nat)
    requires Monotone(ops) && n < |ops|
    ensures OutcomeOf(ops, n, true) == OutcomeOf(ops, n, false)
  {
    RunsStaySimilar(ops, n);
    StepStaysSimilar(At(ops, n, true), At(ops, n, false), if n == 0 then 0 else ops[n - 1].now, ops[n]);
  }

  /** The clock matters: if it goes back, an evicted plan is missed. */
  lemma {:induction false} EvictionShowsIfTheClockGoesBack<T(!new)>(payload: T)
    ensures exists ops: seq<Operation<T>> :: |ops| == 3 && OutcomeOf(ops, 2, true) != OutcomeOf(ops, 2, false)
  {
    var first := Prepare(payload, "", "", 0);
    var second := Prepare(payload, "", "", PLAN_TTL + 1);
    var id := PlanId("", "", 0, 0);
    var ops := [first, second, Apply(id, (_: T) => Some(""), 0)];
    var one, kept := At(ops, 1, true), At(ops, 1, false);
    assert At(ops, 0, true) == New<T>() && At(ops, 0, false) == New<T>() && ops[0] == first && ops[1] == second;
    assert one == Step(New<T>(), first, true).0;
    assert kept == Step(New<T>(), first, false).0;
    assert one.entries[id] == kept.entries[id] == Prepared(payload, "", 0);
    assert At(ops, 2, true) == Step(one, second, true).0 && At(ops, 2, false) == Step(kept, second, false).0;
    assert id !in At(ops, 2, true).entries;
    assert At(ops, 2, false).entries[id] == Prepared(payload, "", 0);
    assert OutcomeOf(ops, 2, true) == Stale && OutcomeOf(ops, 2, false) == Handed(payload);
  }

  // ---------------------------------------------------------------------------
  // The store and the flow.

  class PreparedStore<T> {
    var entries: Entries<T>

    constructor ()
      ensures entries == map[]
    {
      entries := map[];
    }

    method Insert(id: PlanId, payload: T, fingerprint: string, now: nat)
      modifies this
      ensures entries == Evicted(old(entries), now)[id := Prepared(payload, fingerprint, now)]
      ensures id in entries && entries[id] == Prepared(payload, fingerprint, now)
      ensures forall k | k != id ::
                && (k in entries <==> k in old(entries) && now <= old(entries)[k].created + 300_000_000_000)
                && (k in entries ==> entries[k] == old(entries)[k])
    {
      entries := map k | k in entries && Since(now, entries[k].created) <= PLAN_TTL :: entries[k];
      entries := entries[id := Prepared(payload, fingerprint, now)];
    }

    method Take(id: PlanId) returns (r: Option<Prepared<T>>)
      modifies this
      ensures r == if id in old(entries) then Some(old(entries)[id]) else None
      ensures entries == if id in old(entries) then old(entries) - {id} else old(entries)
    {
      if id !in entries {
        return None;
      }
      r := Some(entries[id]);
      entries := entries - {id};
    }
  }

  class PreparationFlow<T> {
    const store: PreparedStore<T>
    var nonce: nat
    ghost var issued: Entries<T>
    ghost var taken: set<PlanId>

    ghost function View(): Flow<T>
      reads this, store
    {
      Flow(store.entries, nonce, issued, taken)
    }

    constructor ()
      ensures View() == New() && fresh(store)
    {
      store := new PreparedStore<T>();
      nonce := 0;
      issued, taken := map[], {};
    }

    method Prepare(payload: T, identity: string, fingerprint: string, now: nat) returns (id: PlanId)
      modifies this, store
      ensures (View(), Stored(id)) == Step(old(View()), Operation.Prepare(payload, identity, fingerprint, now), true)
    {
      id := PlanId(identity, fingerprint, now, nonce);
      nonce := nonce + 1;
      store.Insert(id, payload, fingerprint, now);
      issued := issued[id := Prepared(payload, fingerprint, now)];
    }

    method TakeValid(id: PlanId, refingerprint: T -> Option<string>, now: nat) returns (o: Outcome<T>)
      modifies this, store
      ensures (View(), o) == Step(old(View()), Apply(id, refingerprint, now), true)
    {
      var prepared := store.Take(id);
      if prepared.None? {
        return Stale;
      }
      taken := taken + {id};
      var expired := Since(now, prepared.value.created) > PLAN_TTL;
      var current := refingerprint(prepared.value.payload);
      var changed := current.None? || current.value != prepared.value.fingerprint;
      o := if expired || changed then Stale else Handed(prepared.value.payload);
    }
  }
}
