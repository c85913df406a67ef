/**
 One turn against the OpenAI Responses endpoint: the events that close it, the calls it requests, and the
 retries around it. The order in which the map of accumulated calls is visited is a parameter.
 */
module ResponsesTurn {
  import opened Wrappers
  import opened Strings
  import opened Telemetry
  import opened Chat
  import opened SseFraming
  import opened ResponsesStream
  import opened ResponsesAssembly
  import ChatTurn
  import ResponsesSession

  // ---------------------------------------------------------------------------
  // Sorting by call id.

  /** The order of strings. */
  predicate AtMost(a: string, b: string) {
    a == "" || (b != "" && (a[0] < b[0] || (a[0] == b[0] && AtMost(a[1..], b[1..]))))
  }

  lemma {:induction false} AtMostTotal(a: string, b: string)
    ensures AtMost(a, b) || AtMost(b, a)
    decreases |a|
  {
    if a != "" && b != "" {
      AtMostTotal(a[1..], b[1..]);
    }
  }

  lemma {:induction false} AtMostTransitive(a: string, b: string, c: string)
    requires AtMost(a, b) && AtMost(b, c)
    ensures AtMost(a, c)
    decreases |a|
  {
    if a != "" && a[0] == b[0] && b[0] == c[0] {
      AtMostTransitive(a[1..], b[1..], c[1..]);
    }
  }

  lemma {:induction false} AtMostAntisymmetric(a: string, b: string)
    requires AtMost(a, b) && AtMost(b, a)
    ensures a == b
    decreases |a|
  {
    if a != "" {
      AtMostAntisymmetric(a[1..], b[1..]);
      assert a == [a[0]] + a[1..] && b == [b[0]] + b[1..];
    }
  }

  predicate FirstDiffersAt(a: string, b: string, k: int) {
    0 <= k < |a| && k < |b| && a[k] < b[k] && forall i | 0 <= i < k :: a[i] == b[i]
  }

  /** Texts are ordered by their first difference, and a text comes before its extensions. */
  lemma {:induction false} AtMostIff(a: string, b: string)
    ensures AtMost(a, b) <==> a <= b || exists k :: FirstDiffersAt(a, b, k)
    decreases |a|
  {
    if a != "" && b != "" {
      var c, d := a[1..], b[1..];
      assert a == [a[0]] + c && b == [b[0]] + d;
      if a[0] == b[0] {
        AtMostIff(c, d);
        if k :| FirstDiffersAt(c, d, k) {
          assert FirstDiffersAt(a, b, k + 1);
        }
        if k :| FirstDiffersAt(a, b, k) {
          assert a[k] == c[k - 1] && b[k] == d[k - 1];
          assert FirstDiffersAt(c, d, k - 1);
        }
      } else if a[0] < b[0] {
        assert FirstDiffersAt(a, b, 0);
      }
    }
  }

  predicate Sorted(cs: seq<ToolUse>) { forall i, j | 0 <= i < j < |cs| :: AtMost(cs[i].id, cs[j].id) }

  function Insert(c: ToolUse, cs: seq<ToolUse>): seq<ToolUse> {
    if cs == [] || AtMost(c.id, cs[0].id) then [c] + cs else [cs[0]] + Insert(c, cs[1..])
  }

  /** Stable: calls with the same id stay in order. */
  function SortById(cs: seq<ToolUse>): seq<ToolUse> {
    if cs == [] then [] else Insert(cs[0], SortById(cs[1..]))
  }

  lemma {:induction false} InsertKeeps(c: ToolUse, cs: seq<ToolUse>)
    ensures multiset(Insert(c, cs)) == multiset{c} + multiset(cs)
    decreases |cs|
  {
    if cs != [] && !AtMost(c.id, cs[0].id) {
      InsertKeeps(c, cs[1..]);
      assert cs == [cs[0]] + cs[1..];
    }
  }

  lemma {:induction false} InsertSorts(c: ToolUse, cs: seq<ToolUse>)
    requires Sorted(cs)
    ensures Sorted(Insert(c, cs))
    decreases |cs|
  {
    if cs == [] {
    } else if AtMost(c.id, cs[0].id) {
      forall j | 0 < j < |cs| + 1 ensures AtMost(c.id, ([c] + cs)[j].id) {
        if j > 1 {
          AtMostTransitive(c.id, cs[0].id, cs[j - 1].id);
        }
      }
    } else {
      var rest := Insert(c, cs[1..]);
      InsertSorts(c, cs[1..]);
      InsertKeeps(c, cs[1..]);
      AtMostTotal(c.id, cs[0].id);
      forall j | 0 <= j < |rest| ensures AtMost(cs[0].id, rest[j].id) {
        assert rest[j] in multiset(rest);
        assert rest[j] == c || rest[j] in cs[1..];
      }
    }
  }

  lemma {:induction false} SortIsASort(cs: seq<ToolUse>)
    ensures Sorted(SortById(cs)) && multiset(SortById(cs)) == multiset(cs) && |SortById(cs)| == |cs|
    decreases |cs|
  {
    if cs != [] {
      SortIsASort(cs[1..]);
      InsertSorts(cs[0], SortById(cs[1..]));
      InsertKeeps(cs[0], SortById(cs[1..]));
      assert cs == [cs[0]] + cs[1..];
      assert |multiset(SortById(cs))| == |SortById(cs)| && |multiset(cs)| == |cs|;
    }
  }

  /** The calls with one id, in order. */
  function With(cs: seq<ToolUse>, id: string): seq<ToolUse> {
    if cs == [] then [] else Only(cs[0], id) + With(cs[1..], id)
  }

  function Only(c: ToolUse, id: string): seq<ToolUse> { if c.id == id then [c] else [] }

  lemma {:induction false} WithFront(c: ToolUse, cs: seq<ToolUse>, id: string)
    ensures With([c] + cs, id) == Only(c, id) + With(cs, id)
  {
    assert ([c] + cs)[1..] == cs;
  }

  lemma {:induction false} InsertIsStable(c: ToolUse, cs: seq<ToolUse>, id: string)
    ensures With(Insert(c, cs), id) == Only(c, id) + With(cs, id)
    decreases |cs|
  {
    if cs == [] || AtMost(c.id, cs[0].id) {
      WithFront(c, cs, id);
    } else {
      var first, rest := cs[0], cs[1..];
      assert cs == [first] + rest;
      AtMostReflexive(c.id);
      InsertIsStable(c, rest, id);
      WithFront(first, Insert(c, rest), id);
      WithFront(first, rest, id);
      Swap(Only(c, id), Only(first, id), With(rest, id));
    }
  }

  lemma {:induction false} Swap<T>(a: seq<T>, b: seq<T>, c: seq<T>)
    requires a == [] || b == []
    ensures a + (b + c) == b + (a + c)
  {
  }

  lemma {:induction false} AtMostReflexive(a: string)
    ensures AtMost(a, a)
  {
    AtMostTotal(a, a);
  }

  lemma {:induction false} SortIsStable(cs: seq<ToolUse>, id: string)
    ensures With(SortById(cs), id) == With(cs, id)
    decreases |cs|
  {
    if cs != [] {
      SortIsStable(cs[1..], id);
      InsertIsStable(cs[0], SortById(cs[1..]), id);
    }
  }

  /** Calls with one id are the same call. */
  ghost predicate IdsDecide(cs: seq<ToolUse>) { forall a, b | a in cs && b in cs && a.id == b.id :: a == b }

  lemma {:induction false} Without<T>(s: seq<T>, i: nat)
    requires i < |s|
    ensures multiset(s) == multiset(s[..i] + s[i + 1..]) + multiset{s[i]}
  {
    assert s == s[..i] + [s[i]] + s[i + 1..];
  }

  /** What is left of two permuted sequences without an element they share is permuted. */
  lemma {:induction false} SameWithout<T>(a: seq<T>, i: nat, b: seq<T>, j: nat)
    requires multiset(a) == multiset(b) && i < |a| && j < |b| && a[i] == b[j]
    ensures multiset(a[..i] + a[i + 1..]) == multiset(b[..j] + b[j + 1..])
  {
    Without(a, i);
    Without(b, j);
    assert multiset(a[..i] + a[i + 1..]) == multiset(a) - multiset{a[i]};
    assert multiset(b[..j] + b[j + 1..]) == multiset(b) - multiset{b[j]};
  }

  lemma {:induction false} SameTails<T>(a: seq<T>, b: seq<T>)
    requires multiset(a) == multiset(b) && a != [] && b != [] && a[0] == b[0]
    ensures multiset(a[1..]) == multiset(b[1..])
  {
    SameWithout(a, 0, b, 0);
    assert a[..0] + a[1..] == a[1..] && b[..0] + b[1..] == b[1..];
  }

  lemma {:induction false} SameLength<T>(a: seq<T>, b: seq<T>)
    requires multiset(a) == multiset(b)
    ensures |a| == |b|
  {
    assert |multiset(a)| == |a| && |multiset(b)| == |b|;
  }

  lemma {:induction false} TailDecides(cs: seq<ToolUse>)
    requires cs != [] && IdsDecide(cs) && Sorted(cs)
    ensures IdsDecide(cs[1..]) && Sorted(cs[1..])
  {
    forall a | a in cs[1..] ensures a in cs {
    }
  }

  lemma {:induction false} FirstIsLeast(xs: seq<ToolUse>, c: ToolUse)
    requires Sorted(xs) && c in xs
    ensures AtMost(xs[0].id, c.id)
  {
    var i :| 0 <= i < |xs| && xs[i] == c;
    AtMostReflexive(c.id);
  }

  lemma {:induction false} SameFirst(xs: seq<ToolUse>, ys: seq<ToolUse>)
    requires Sorted(xs) && Sorted(ys) && multiset(xs) == multiset(ys) && IdsDecide(xs) && xs != [] && ys != []
    ensures xs[0] == ys[0]
  {
    assert xs[0] in multiset(ys) && ys[0] in multiset(xs);
    FirstIsLeast(xs, ys[0]);
    FirstIsLeast(ys, xs[0]);
    AtMostAntisymmetric(xs[0].id, ys[0].id);
  }

  lemma {:induction false} SortedIsUnique(xs: seq<ToolUse>, ys: seq<ToolUse>)
    requires Sorted(xs) && Sorted(ys) && multiset(xs) == multiset(ys) && IdsDecide(xs)
    ensures xs == ys
    decreases |xs|
  {
    SameLength(xs, ys);
    if xs != [] {
      SameFirst(xs, ys);
      SameTails(xs, ys);
      TailDecides(xs);
      SortedIsUnique(xs[1..], ys[1..]);
      assert xs == [xs[0]] + xs[1..] && ys == [ys[0]] + ys[1..];
    }
  }

  // ---------------------------------------------------------------------------
  // The calls of a turn.

  /** A call without an id of its own goes by the id of its item. */
  function UseOf(item: string, c: Call): ToolUse {
    ToolUse(if c.callId == "" then item else c.callId, c.name, c.arguments)
  }

  /** The items of a map, each once, in some order. */
  ghost predicate Enumerates(order: seq<string>, calls: map<string, Call>) {
    && (forall item :: item in order <==> item in calls)
    && (forall i, j | 0 <= i < j < |order| :: order[i] != order[j])
  }

  function Uses(calls: map<string, Call>, order: seq<string>): (cs: seq<ToolUse>)
    ensures |cs| == |order| && forall i | 0 <= i < |order| :: cs[i] == UseOf(order[i], CallAt(calls, order[i]))
  {
    seq(|order|, i requires 0 <= i < |order| => UseOf(order[i], CallAt(calls, order[i])))
  }

  lemma {:induction false} UsesSplit(calls: map<string, Call>, a: seq<string>, b: seq<string>)
    ensures Uses(calls, a + b) == Uses(calls, a) + Uses(calls, b)
  {
  }

  lemma {:induction false} UsesWithout(calls: map<string, Call>, a: seq<string>, i: nat)
    requires i < |a|
    ensures multiset(Uses(calls, a))
         == multiset(Uses(calls, a[..i] + a[i + 1..])) + multiset{UseOf(a[i], CallAt(calls, a[i]))}
  {
    var cs := Uses(calls, a);
    Without(cs, i);
    UsesSplit(calls, a[..i], a[i + 1..]);
    assert cs[..i] == Uses(calls, a[..i]) && cs[i + 1..] == Uses(calls, a[i + 1..]);
  }

  lemma {:induction false} UsesOfPermuted(calls: map<string, Call>, a: seq<string>, b: seq<string>)
    requires multiset(a) == multiset(b)
    ensures multiset(Uses(calls, a)) == multiset(Uses(calls, b))
    decreases |a|
  {
    SameLength(a, b);
    if a != [] {
      var i := Position(a, b);
      SameWithout(a, 0, b, i);
      UsesOfPermuted(calls, a[..0] + a[1..], b[..i] + b[i + 1..]);
      UsesStep(calls, a, b, i);
    }
  }

  lemma {:induction false} Position<T>(a: seq<T>, b: seq<T>) returns (i: nat)
    requires multiset(a) == multiset(b) && a != []
    ensures i < |b| && b[i] == a[0]
  {
    assert a[0] in multiset(b);
    i :| 0 <= i < |b| && b[i] == a[0];
  }

  lemma {:induction false} UsesStep(calls: map<string, Call>, a: seq<string>, b: seq<string>, i: nat)
    requires a != [] && i < |b| && b[i] == a[0]
    requires multiset(Uses(calls, a[..0] + a[1..])) == multiset(Uses(calls, b[..i] + b[i + 1..]))
    ensures multiset(Uses(calls, a)) == multiset(Uses(calls, b))
  {
    UsesWithout(calls, a, 0);
    UsesWithout(calls, b, i);
  }

  lemma {:induction false} OnceEach(a: seq<string>, x: string)
    requires forall i, j | 0 <= i < j < |a| :: a[i] != a[j]
    ensures multiset(a)[x] == if x in a then 1 else 0
    decreases |a|
  {
    if a != [] {
      var before, last := a[..|a| - 1], a[|a| - 1];
      assert a == before + [last];
      OnceEach(before, x);
    }
  }

  lemma {:induction false} EnumerationsArePermuted(calls: map<string, Call>, a: seq<string>, b: seq<string>)
    requires Enumerates(a, calls) && Enumerates(b, calls)
    ensures multiset(a) == multiset(b)
  {
    forall x ensures multiset(a)[x] == multiset(b)[x] {
      OnceEach(a, x);
      OnceEach(b, x);
    }
  }

  /** Items that go by the same id ask for the same. */
  ghost predicate ItemsAgree(calls: map<string, Call>) {
    forall a, b | a in calls && b in calls && UseOf(a, calls[a]).id == UseOf(b, calls[b]).id ::
      UseOf(a, calls[a]) == UseOf(b, calls[b])
  }

  lemma {:induction false} AgreementDecides(calls: map<string, Call>, a: seq<string>, b: seq<string>)
    requires ItemsAgree(calls) && Enumerates(a, calls) && Enumerates(b, calls)
    ensures SortById(Uses(calls, a)) == SortById(Uses(calls, b))
  {
    var xs, ys := Uses(calls, a), Uses(calls, b);
    EnumerationsArePermuted(calls, a, b);
    UsesOfPermuted(calls, a, b);
    SortIsASort(xs);
    SortIsASort(ys);
    forall c, d | c in SortById(xs) && d in SortById(xs) && c.id == d.id ensures c == d {
      assert c in multiset(SortById(xs)) && d in multiset(SortById(xs));
      assert c in xs && d in xs;
    }
    SortedIsUnique(SortById(xs), SortById(ys));
  }

  lemma {:induction false} EnumerationOf(s: set<string>) returns (order: seq<string>)
    ensures forall x :: x in order <==> x in s
    ensures forall i, j | 0 <= i < j < |order| :: order[i] != order[j]
    decreases |s|
  {
    if s == {} {
      order := [];
    } else {
      var x :| x in s;
      var rest := EnumerationOf(s - {x});
      order := [x] + rest;
    }
  }

  /** Two items that go by one id but ask for different things come out in the order they are visited. */
  lemma {:induction false} DisagreementShows(calls: map<string, Call>, a: string, b: string)
    returns (first: seq<string>, second: seq<string>)
    requires a in calls && b in calls && UseOf(a, calls[a]).id == UseOf(b, calls[b]).id
    requires UseOf(a, calls[a]) != UseOf(b, calls[b])
    ensures Enumerates(first, calls) && Enumerates(second, calls)
    ensures SortById(Uses(calls, first)) != SortById(Uses(calls, second))
  {
    var rest := EnumerationOf(calls.Keys - {a, b});
    first, second := [a, b] + rest, [b, a] + rest;
    var x, y := UseOf(a, calls[a]), UseOf(b, calls[b]);
    EnumerateTwo(calls, a, b, rest);
    EnumerateTwo(calls, b, a, rest);
    UsesOfTwo(calls, a, b, rest);
    UsesOfTwo(calls, b, a, rest);
    SortIsStable(Uses(calls, first), x.id);
    SortIsStable(Uses(calls, second), x.id);
    WithTwo(x, y, Uses(calls, rest));
    WithTwo(y, x, Uses(calls, rest));
    var shared := With(Uses(calls, rest), x.id);
    assert ([x, y] + shared)[0] == x && ([y, x] + shared)[0] == y;
  }

  lemma {:induction false} EnumerateTwo(calls: map<string, Call>, a: string, b: string, rest: seq<string>)
    requires a in calls && b in calls && a != b
    requires forall x :: x in rest <==> x in calls && x != a && x != b
    requires forall i, j | 0 <= i < j < |rest| :: rest[i] != rest[j]
    ensures Enumerates([a, b] + rest, calls)
  {
    var order := [a, b] + rest;
    forall i, j | 0 <= i < j < |order| ensures order[i] != order[j] {
      if i >= 2 {
        assert order[i] == rest[i - 2] && order[j] == rest[j - 2];
      } else if j >= 2 {
        assert order[j] == rest[j - 2] && order[j] in rest;
      }
    }
  }

  lemma {:induction false} UsesOfTwo(calls: map<string, Call>, a: string, b: string, rest: seq<string>)
    requires a in calls && b in calls
    ensures Uses(calls, [a, b] + rest) == [UseOf(a, calls[a]), UseOf(b, calls[b])] + Uses(calls, rest)
  {
    UsesSplit(calls, [a, b], rest);
    assert Uses(calls, [a, b]) == [UseOf(a, calls[a]), UseOf(b, calls[b])];
  }

  lemma {:induction false} WithTwo(x: ToolUse, y: ToolUse, rest: seq<ToolUse>)
    requires x.id == y.id
    ensures With([x, y] + rest, x.id) == [x, y] + With(rest, x.id)
  {
    assert ([x, y] + rest)[1..] == [y] + rest && ([y] + rest)[1..] == rest;
  }

  /**
   The calls a turn requests do not depend on the order in which the map is visited exactly if items
   that go by the same id ask for the same.
   */
  lemma {:induction false} VisitingOrderDoesNotMatterIff(calls: map<string, Call>)
    ensures (forall a, b | Enumerates(a, calls) && Enumerates(b, calls) ::
               SortById(Uses(calls, a)) == SortById(Uses(calls, b)))
            <==> ItemsAgree(calls)
  {
    if ItemsAgree(calls) {
      forall a, b | Enumerates(a, calls) && Enumerates(b, calls)
        ensures SortById(Uses(calls, a)) == SortById(Uses(calls, b))
      {
        AgreementDecides(calls, a, b);
      }
    } else {
      var a, b :| a in calls && b in calls && UseOf(a, calls[a]).id == UseOf(b, calls[b]).id
                  && UseOf(a, calls[a]) != UseOf(b, calls[b]);
      var first, second := DisagreementShows(calls, a, b);
    }
  }

  // ---------------------------------------------------------------------------
  // complete_response_once

  /** The order in which a map of calls is visited. */
  type Visit = map<string, Call> -> seq<string>

  ghost predicate Visits(visit: Visit) { forall calls :: Enumerates(visit(calls), calls) }

  datatype Outcome = Turned(responseId: string, calls: seq<ToolUse>) | Failed(retryable: bool)

  datatype Once = Once(events: seq<ChatTurn.Event>, outcome: Outcome)

  predicate Usable(c: Call, isJson: string -> bool) { isJson(c.arguments) && !Blank(c.name) }

  /** The events that close a turn: the session, and then as in a chat turn. */
  function Closing(id: string, text: string, calls: seq<ToolUse>, usage: Option<Usage>): seq<ChatTurn.Event> {
    [ChatTurn.Ready(id)] + ChatTurn.Closing(text, calls, usage)
  }

  function Conclude(s: Parse, visit: Visit, isJson: string -> bool): Once {
    if s.responseId.None? || !s.completed || exists item | item in s.calls :: !Usable(s.calls[item], isJson) then
      Once(s.events, Failed(false))
    else
      var calls := SortById(Uses(s.calls, visit(s.calls)));
      Once(s.events + Closing(s.responseId.value, s.text, calls, s.usage), Turned(s.responseId.value, calls))
  }

  function CompleteOnce(attempt: ChatTurn.Attempt, c: Codec<Frame>, visit: Visit, isJson: string -> bool): Once {
    match attempt
    case SendFailed(timeout) => Once([], Failed(timeout))
    case HttpError(status) => Once([], Failed(status == 429 || 500 <= status < 600))
    case Streamed(chunks, ending) =>
      match ReadStream(START, chunks, ending, c, ParseEvent)
      case Reject(s, _) => Once(s.events, Failed(false))
      case Accept(s) => Conclude(s, visit, isJson)
  }

  /** `complete_response_with_retry` from its n-th attempt on. */
  function CompleteFrom(attempts: seq<ChatTurn.Attempt>, n: nat, c: Codec<Frame>, visit: Visit,
                        isJson: string -> bool): Once
    requires n < |attempts|
    decreases |attempts| - n
  {
    var once := CompleteOnce(attempts[n], c, visit, isJson);
    if once.outcome == Failed(true) && n + 1 < |attempts| then CompleteFrom(attempts, n + 1, c, visit, isJson)
    else once
  }

  /** An attempt that is retried has emitted nothing: a broken stream is never retried. */
  lemma {:induction false} RetriedAttemptsAreSilent(attempt: ChatTurn.Attempt, c: Codec<Frame>, visit: Visit,
                                                    isJson: string -> bool)
    requires CompleteOnce(attempt, c, visit, isJson).outcome == Failed(true)
    ensures CompleteOnce(attempt, c, visit, isJson).events == [] && !attempt.Streamed?
  {
  }

  /**
   What the events of a turn say together. On success: the session is announced, then one message whose
   content is the text streamed and whose calls are the calls requested, then its calls, at most one
   usage report, and last, exactly if there is no call, the completion. On failure: text at most.
   */
  ghost predicate Faithful(o: Once) {
    var d := ChatTurn.Observe(o.events);
    match o.outcome
    case Failed(_) => d == ChatTurn.Digest(d.text, [], [], 0, [])
    case Turned(id, calls) =>
      && d.announced == [(d.text, calls)] && d.requested == calls
      && d.completions == (if calls == [] then 1 else 0) && |d.reports| <= 1
      && (calls == [] ==> o.events != [] && o.events[|o.events| - 1] == ChatTurn.TurnCompleted)
      && Sorted(calls)
      && ClosesWith(o.events, Closing(id, d.text, calls, if d.reports == [] then None else Some(d.reports[0])))
  }

  predicate ClosesWith(events: seq<ChatTurn.Event>, closing: seq<ChatTurn.Event>) {
    |closing| <= |events| && events[|events| - |closing|..] == closing
  }

  lemma {:induction false} ObserveClosing(id: string, text: string, calls: seq<ToolUse>, usage: Option<Usage>)
    ensures ChatTurn.Observe(Closing(id, text, calls, usage))
         == ChatTurn.Digest("", [(text, calls)], calls, if calls == [] then 1 else 0, ChatTurn.Listed(usage))
  {
    var ready := [ChatTurn.Ready(id)];
    ChatTurn.ObserveOne(ChatTurn.Ready(id));
    ChatTurn.ObserveClosing(text, calls, usage);
    ChatTurn.ObserveConcat(ready, ChatTurn.Closing(text, calls, usage));
  }

  lemma {:induction false} ClosingEnds(text: string, calls: seq<ToolUse>, usage: Option<Usage>)
    requires calls == []
    ensures var closing := ChatTurn.Closing(text, calls, usage);
            closing != [] && closing[|closing| - 1] == ChatTurn.TurnCompleted
  {
  }

  lemma {:induction false} JoinText(text: string, d: ChatTurn.Digest)
    requires d.text == ""
    ensures ChatTurn.Join(ChatTurn.Digest(text, [], [], 0, []), d) == d.(text := text)
  {
  }

  lemma {:induction false} ClosesBehind(events: seq<ChatTurn.Event>, closing: seq<ChatTurn.Event>)
    requires closing != []
    ensures ClosesWith(events + closing, closing)
    ensures (events + closing)[|events + closing| - 1] == closing[|closing| - 1]
  {
    var all := events + closing;
    assert all[|all| - |closing|..] == closing;
  }

  lemma {:induction false} FaithfulBy(all: seq<ChatTurn.Event>, id: string, text: string, calls: seq<ToolUse>,
                                      usage: Option<Usage>, closing: seq<ChatTurn.Event>, d: ChatTurn.Digest)
    requires closing == Closing(id, text, calls, usage) && ClosesWith(all, closing) && ChatTurn.Observe(all) == d
    requires d == ChatTurn.Digest(text, [(text, calls)], calls, if calls == [] then 1 else 0, ChatTurn.Listed(usage))
    requires Sorted(calls) && (calls == [] ==> all != [] && all[|all| - 1] == ChatTurn.TurnCompleted)
    ensures Faithful(Once(all, Turned(id, calls)))
  {
    assert usage == if d.reports == [] then None else Some(d.reports[0]);
  }

  lemma {:induction false} ClosedIsFaithful(events: seq<ChatTurn.Event>, id: string, text: string, calls: seq<ToolUse>,
                                            usage: Option<Usage>, closing: seq<ChatTurn.Event>,
                                            all: seq<ChatTurn.Event>)
    requires ChatTurn.Observe(events) == ChatTurn.Digest(text, [], [], 0, []) && Sorted(calls)
    requires closing == Closing(id, text, calls, usage) && all == events + closing
    ensures Faithful(Once(all, Turned(id, calls)))
    ensures ChatTurn.Observe(all).text == text && ChatTurn.Observe(all).reports == ChatTurn.Listed(usage)
  {
    ObserveClosing(id, text, calls, usage);
    ChatTurn.ObserveConcat(events, closing);
    JoinText(text, ChatTurn.Observe(closing));
    ClosesBehind(events, closing);
    if calls == [] {
      ClosingEnds(text, calls, usage);
    }
    FaithfulBy(all, id, text, calls, usage, closing, ChatTurn.Observe(all));
  }

  lemma {:induction false} ConcludeIsFaithful(s: Parse, visit: Visit, isJson: string -> bool)
    requires Tidy(s)
    ensures Faithful(Conclude(s, visit, isJson))
    ensures Conclude(s, visit, isJson).outcome.Turned? ==>
              var d := ChatTurn.Observe(Conclude(s, visit, isJson).events);
              d.text == s.text && d.reports == ChatTurn.Listed(s.usage)
  {
    var cs := Uses(s.calls, visit(s.calls));
    SortIsASort(cs);
    if s.responseId.Some? {
      var closing := Closing(s.responseId.value, s.text, SortById(cs), s.usage);
      ClosedIsFaithful(s.events, s.responseId.value, s.text, SortById(cs), s.usage, closing, s.events + closing);
    }
  }

  lemma {:induction false} OnceIsFaithful(attempt: ChatTurn.Attempt, c: Codec<Frame>, visit: Visit,
                                          isJson: string -> bool)
    ensures Faithful(CompleteOnce(attempt, c, visit, isJson))
  {
    if attempt.Streamed? {
      ReadingIsTidy(c, attempt.chunks, attempt.ending);
      ConcludeIsFaithful(ReadStream(START, attempt.chunks, attempt.ending, c, ParseEvent).state, visit, isJson);
    }
  }

  /** Over all attempts of a turn together, the events tell the story of the one reply. */
  lemma {:induction false} TurnIsFaithful(attempts: seq<ChatTurn.Attempt>, n: nat, c: Codec<Frame>, visit: Visit,
                                          isJson: string -> bool)
    requires n < |attempts|
    ensures Faithful(CompleteFrom(attempts, n, c, visit, isJson))
    decreases |attempts| - n
  {
    OnceIsFaithful(attempts[n], c, visit, isJson);
    if CompleteOnce(attempts[n], c, visit, isJson).outcome == Failed(true) && n + 1 < |attempts| {
      TurnIsFaithful(attempts, n + 1, c, visit, isJson);
    }
  }

  /**
   A successful attempt tells the whole stream. The text is the fallback, if the stream began with one, and
   all that was streamed; response id and usage are the last ones given; there is one call for each item
   that an event touched, and it is made of that item's patches.
   */
  lemma {:induction false} ResponsesTellTheStream(chunks: seq<seq<byte>>, ending: Ending, c: Codec<Frame>, visit: Visit,
                                                  isJson: string -> bool, item: string)
    requires Visits(visit)
    requires CompleteOnce(ChatTurn.Streamed(chunks, ending), c, visit, isJson).outcome.Turned?
    ensures var once := CompleteOnce(ChatTurn.Streamed(chunks, ending), c, visit, isJson);
            var es := StreamEvents(c, Flatten(chunks));
            var d, own := ChatTurn.Observe(once.events), Own(AllPatches(es), item);
            && ending == Ended
            && d.text == Fallback(es) + Deltas(es)
            && Some(once.outcome.responseId) == Latest(es, IdOf)
            && d.reports == ChatTurn.Listed(Latest(es, UsageOf))
            && (exists i :: 0 <= i < |es| && es[i].Completed?)
            && |once.outcome.calls| == |PatchedAll(map[], AllPatches(es)).Keys|
            && (own != [] ==>
                  var made := Made(own);
                  var id := if made.callId == "" then item else made.callId;
                  ToolUse(id, made.name, made.arguments) in once.outcome.calls && Usable(made, isJson))
  {
    var es := StreamEvents(c, Flatten(chunks));
    var s := ReadStream(START, chunks, ending, c, ParseEvent).state;
    StreamIsParsed(c, chunks, ending);
    ReadingIsTidy(c, chunks, ending);
    ConcludeIsFaithful(s, visit, isJson);
    TextIsFallbackAndDeltas(START, es);
    ParsedCounts(es);
    CallsOfStream(s, es, visit, isJson, item);
  }

  lemma {:induction false} CallsOfStream(s: Parse, es: seq<Frame>, visit: Visit, isJson: string -> bool, item: string)
    requires Visits(visit) && ParseAll(START, es) == (s, None) && Conclude(s, visit, isJson).outcome.Turned?
    ensures var calls, own := Conclude(s, visit, isJson).outcome.calls, Own(AllPatches(es), item);
            && |calls| == |PatchedAll(map[], AllPatches(es)).Keys|
            && (own != [] ==> UseOf(item, Made(own)) in calls && Usable(Made(own), isJson))
  {
    CallsArePatched(es);
    CallsAreTheirPatches(AllPatches(es), item);
    CallsOfItems(s.calls, visit(s.calls), item);
  }

  lemma {:induction false} CallsOfItems(calls: map<string, Call>, order: seq<string>, item: string)
    requires Enumerates(order, calls)
    ensures |SortById(Uses(calls, order))| == |calls.Keys|
    ensures item in calls ==> UseOf(item, calls[item]) in SortById(Uses(calls, order))
  {
    var cs := Uses(calls, order);
    SortIsASort(cs);
    EnumerationSize(order, calls.Keys);
    if item in calls {
      var i :| 0 <= i < |order| && order[i] == item;
      assert cs[i] in multiset(cs);
      assert cs[i] in multiset(SortById(cs));
    }
  }

  lemma {:induction false} EnumerationSize(order: seq<string>, s: set<string>)
    requires forall x :: x in order <==> x in s
    requires forall i, j | 0 <= i < j < |order| :: order[i] != order[j]
    ensures |order| == |s|
    decreases |order|
  {
    if order == [] {
      assert s == {};
    } else {
      var before, last := order[..|order| - 1], order[|order| - 1];
      assert order == before + [last];
      EnumerationSize(before, s - {last});
    }
  }

  /** The other way round: every call belongs to an item that an event touched. */
  lemma {:induction false} CallsComeFromItems(calls: map<string, Call>, order: seq<string>, use: ToolUse)
    returns (item: string)
    requires Enumerates(order, calls) && use in SortById(Uses(calls, order))
    ensures item in calls && use == UseOf(item, calls[item])
  {
    var cs := Uses(calls, order);
    SortIsASort(cs);
    assert use in multiset(SortById(cs));
    assert use in multiset(cs);
    var i :| 0 <= i < |cs| && cs[i] == use;
    item := order[i];
  }

  function IdsOf(calls: seq<ToolUse>): seq<string> { seq(|calls|, i requires 0 <= i < |calls| => calls[i].id) }

  /** The session loop waits for exactly the ids under which the items go. */
  lemma {:induction false} TurnSuitsTheSession(s: Parse, visit: Visit, isJson: string -> bool, id: string)
    requires Visits(visit)
    requires Conclude(s, visit, isJson).outcome.Turned?
    ensures var turn := Conclude(s, visit, isJson).outcome;
            id in ResponsesSession.CallIds(ResponsesSession.Completed(turn.responseId, IdsOf(turn.calls)))
            <==> exists item :: item in s.calls && UseOf(item, s.calls[item]).id == id
  {
    var calls := Conclude(s, visit, isJson).outcome.calls;
    if id in IdsOf(calls) {
      var use := UseWithId(calls, id);
      var item := CallsComeFromItems(s.calls, visit(s.calls), use);
    }
    if item :| item in s.calls && UseOf(item, s.calls[item]).id == id {
      CallsOfItems(s.calls, visit(s.calls), item);
      IdOfUse(calls, UseOf(item, s.calls[item]));
    }
  }

  lemma {:induction false} UseWithId(calls: seq<ToolUse>, id: string) returns (use: ToolUse)
    requires id in IdsOf(calls)
    ensures use in calls && use.id == id
  {
    var i :| 0 <= i < |calls| && IdsOf(calls)[i] == id;
    use := calls[i];
  }

  lemma {:induction false} IdOfUse(calls: seq<ToolUse>, use: ToolUse)
    requires use in calls
    ensures use.id in IdsOf(calls)
  {
    var i :| 0 <= i < |calls| && calls[i] == use;
    assert IdsOf(calls)[i] == use.id;
  }

  // ---------------------------------------------------------------------------
  // The loops.

  /** Collect the calls in the order the map is visited; the first that is not usable fails the turn. */
  method CollectCalls(calls: map<string, Call>, order: seq<string>, isJson: string -> bool)
    returns (cs: Option<seq<ToolUse>>)
    requires Enumerates(order, calls)
    ensures cs == if exists item | item in calls :: !Usable(calls[item], isJson) then None else Some(Uses(calls, order))
  {
    var collected: seq<ToolUse> := [];
    for i := 0 to |order|
      invariant collected == Uses(calls, order)[..i]
      invariant forall j | 0 <= j < i :: Usable(CallAt(calls, order[j]), isJson)
    {
      assert order[i] in calls;
      var call := calls[order[i]];
      if !isJson(call.arguments) || Blank(call.name) {
        assert !Usable(calls[order[i]], isJson);
        return None;
      }
      var id := if call.callId == "" then order[i] else call.callId;
      collected := collected + [ToolUse(id, call.name, call.arguments)];
    }
    forall item | item in calls ensures Usable(calls[item], isJson) {
      assert item in order;
      var j :| 0 <= j < |order| && order[j] == item;
    }
    assert Uses(calls, order)[..|order|] == Uses(calls, order);
    cs := Some(collected);
  }

  method CompleteResponseOnce(attempt: ChatTurn.Attempt, c: Codec<Frame>, visit: Visit, isJson: string -> bool)
    returns (once: Once)
    requires Visits(visit)
    ensures once == CompleteOnce(attempt, c, visit, isJson)
  {
    match attempt
    case SendFailed(timeout) => once := Once([], Failed(timeout));
    case HttpError(status) => once := Once([], Failed(status == 429 || 500 <= status < 600));
    case Streamed(chunks, ending) =>
      var v := ReadResponse(START, chunks, ending, c, ParseEvent);
      var s := v.state;
      once := Once(s.events, Failed(false));
      if v.Accept? && s.responseId.Some? && s.completed {
        var calls := CollectCalls(s.calls, visit(s.calls), isJson);
        if calls.Some? {
          var sorted := SortById(calls.value);
          once := Once(s.events + Closing(s.responseId.value, s.text, sorted, s.usage),
                       Turned(s.responseId.value, sorted));
        }
      }
  }

  /** `complete_response_with_retry`: at most three attempts, each retried only after a retryable failure. */
  method CompleteResponse(attempts: seq<ChatTurn.Attempt>, c: Codec<Frame>, visit: Visit, isJson: string -> bool)
    returns (turn: Once)
    requires |attempts| == ChatTurn.MAX_TURN_ATTEMPTS
    requires Visits(visit)
    ensures turn == CompleteFrom(attempts, 0, c, visit, isJson)
  {
    var events: seq<ChatTurn.Event> := [];
    for n := 0 to ChatTurn.MAX_TURN_ATTEMPTS
      invariant n < ChatTurn.MAX_TURN_ATTEMPTS && events == []
      invariant CompleteFrom(attempts, 0, c, visit, isJson) == CompleteFrom(attempts, n, c, visit, isJson)
    {
      var once := CompleteResponseOnce(attempts[n], c, visit, isJson);
      if once.outcome == Failed(true) {
        RetriedAttemptsAreSilent(attempts[n], c, visit, isJson);
      }
      events := events + once.events;
      if once.outcome.Turned? || !once.outcome.retryable || n + 1 == ChatTurn.MAX_TURN_ATTEMPTS {
        assert events == once.events;
        return Once(events, once.outcome);
      }
    }
    assert false;
  }
}
