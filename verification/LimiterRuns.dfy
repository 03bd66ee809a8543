/** Runs of the rate limiter: the bound on allowed requests in any time window, and when evicting
    idle visitors goes unnoticed. */
module LimiterRuns {
  import opened RateLimit
  import opened PowersOfTwo

  /** Everything that happens under the mutex, in clock order: a request, or a cleanup round that
      reads the clock for each visitor between its start and its end. */
  datatype Event =
    | Call(request: Request)
    | Sweep(startsAt: int, endsAt: int, clock: string -> int)
  {
    function Start(): int { if Call? then request.readAt else startsAt }

    function End(): int { if Call? then request.seenAt else endsAt }

    ghost predicate IsTimely() {
      && Start() <= End()
      && (Sweep? ==> forall key :: startsAt <= clock(key) <= endsAt)
    }

    predicate IsCallOf(key: string) { Call? && request.key == key }
  }

  function EndOf(now: int, events: seq<Event>): int {
    if events == [] then now else events[|events| - 1].End()
  }

  /** The clock is monotonic. */
  ghost predicate IsTimeline(now: int, events: seq<Event>) {
    events == [] ||
    (var front, last := events[..|events| - 1], events[|events| - 1];
     IsTimeline(now, front) && EndOf(now, front) <= last.Start() && last.IsTimely())
  }

  /** The limiter with cleanup (evict) or one that never deletes a visitor. */
  function After(limits: Limits, buckets: Buckets, event: Event, evict: bool): Buckets
    requires limits.Valid()
  {
    match event
    case Call(request) => Served(limits, buckets, request)
    case Sweep(_, _, clock) => if evict then Swept(buckets, clock) else buckets
  }

  function AfterAll(limits: Limits, buckets: Buckets, events: seq<Event>, evict: bool): Buckets
    requires limits.Valid()
  {
    if events == [] then buckets
    else After(limits, AfterAll(limits, buckets, events[..|events| - 1], evict), events[|events| - 1], evict)
  }

  function AnswerTo(limits: Limits, buckets: Buckets, event: Event): seq<bool>
    requires limits.Valid()
  {
    if event.Call? then [Allows(limits, buckets, event.request)] else []
  }

  /** The answers to all requests of a run. */
  function Answers(limits: Limits, buckets: Buckets, events: seq<Event>, evict: bool): seq<bool>
    requires limits.Valid()
  {
    if events == [] then []
    else
      var front := events[..|events| - 1];
      Answers(limits, buckets, front, evict)
        + AnswerTo(limits, AfterAll(limits, buckets, front, evict), events[|events| - 1])
  }

  /** How many requests of a key a run allows. */
  function AllowedFor(limits: Limits, buckets: Buckets, events: seq<Event>, key: string, evict: bool): nat
    requires limits.Valid()
  {
    if events == [] then 0
    else
      var front, last := events[..|events| - 1], events[|events| - 1];
      AllowedFor(limits, buckets, front, key, evict)
        + if last.IsCallOf(key) && Allows(limits, AfterAll(limits, buckets, front, evict), last.request) then 1 else 0
  }

  /** Tokens lie between 0 and burst, and nobody was seen after now. */
  ghost predicate InBounds(limits: Limits, buckets: Buckets, now: int) {
    forall key :: key in buckets ==> 0 <= buckets[key].tokens <= limits.burst && buckets[key].lastSeen <= now
  }

  lemma {:induction false} RefillGrows(limits: Limits, a: int, b: int)
    requires limits.Valid() && 0 <= a <= b
    ensures 0 <= limits.Refill(a) <= limits.Refill(b)
  {
    QuotientsGrow(a, b, limits.interval);
    assert (b / limits.interval - a / limits.interval) * limits.rate >= 0;
  }

  lemma {:induction false} QuotientsGrow(a: int, b: int, d: int)
    requires d > 0 && 0 <= a <= b
    ensures 0 <= a / d <= b / d
  {
    var (p, q) := (a / d, b / d);
    assert a == p * d + a % d && b == q * d + b % d;
    assert (p - q) * d == p * d - q * d;
    if q < p {
      ScaleAtLeast(p - q, d);
    }
  }

  lemma {:induction false} QuotientsAdd(a: int, b: int, d: int)
    requires d > 0 && 0 <= a && 0 <= b
    ensures a / d + b / d <= (a + b) / d
  {
    var p, _ := Divide(a, d);
    var q, _ := Divide(b, d);
    AddFactors(p, q, d);
    QuotientAtLeast(a + b, d, p + q);
  }

  /** Refilling in two steps never gives more than refilling once over the whole time. */
  lemma {:induction false} RefillsAdd(limits: Limits, a: int, b: int, c: int)
    requires limits.Valid() && 0 <= a && 0 <= b && a + b <= c
    ensures limits.Refill(a) + limits.Refill(b) <= limits.Refill(c)
  {
    var d := limits.interval;
    QuotientsAdd(a, b, d);
    RefillGrows(limits, a + b, c);
    RefillGrows(limits, a, a);
    RefillGrows(limits, b, b);
    assert ((a + b) / d - a / d - b / d) * limits.rate >= 0;
  }

  lemma {:induction false} StepInBounds(limits: Limits, buckets: Buckets, now: int, event: Event, evict: bool)
    requires limits.Valid() && limits.burst >= 1 && InBounds(limits, buckets, now) && now <= event.Start()
      && event.IsTimely()
    ensures InBounds(limits, After(limits, buckets, event, evict), event.End())
  {
  }

  /** In every run, with cleanup or without, tokens stay between 0 and burst. */
  lemma {:induction false} RunInBounds(limits: Limits, buckets: Buckets, now: int, events: seq<Event>, evict: bool)
    requires limits.Valid() && limits.burst >= 1 && InBounds(limits, buckets, now) && IsTimeline(now, events)
    ensures InBounds(limits, AfterAll(limits, buckets, events, evict), EndOf(now, events))
    decreases |events|
  {
    if events != [] {
      var front := events[..|events| - 1];
      RunInBounds(limits, buckets, now, front, evict);
      StepInBounds(limits, AfterAll(limits, buckets, front, evict), EndOf(now, front), events[|events| - 1], evict);
    }
  }

  /** One request: what it takes and what it leaves come from what the bucket had and the refill. */
  lemma {:induction false} CallBudget(limits: Limits, buckets: Buckets, now: int, request: Request)
    requires limits.Valid() && limits.burst >= 1 && InBounds(limits, buckets, now)
    requires now <= request.readAt <= request.seenAt
    ensures var spent := if Allows(limits, buckets, request) then 1 else 0;
      var after := Served(limits, buckets, request);
      && request.key in after && after[request.key].lastSeen == request.seenAt && 0 <= after[request.key].tokens
      && spent + after[request.key].tokens <= limits.burst
      && (request.key in buckets ==>
        spent + after[request.key].tokens
          <= buckets[request.key].tokens + limits.Refill(request.readAt - buckets[request.key].lastSeen))
  {
  }

  /** From a request of the key on: the allowed requests plus the tokens left are covered by the
      burst and the refill up to the last request. */
  lemma {:induction false} WindowBudget(limits: Limits, buckets: Buckets, now: int, events: seq<Event>, key: string)
    returns (lastRead: int)
    requires limits.Valid() && limits.burst >= 1 && InBounds(limits, buckets, now) && IsTimeline(now, events)
    requires events != [] && events[0].IsCallOf(key)
    ensures var after, start := AfterAll(limits, buckets, events, false), events[0].request.readAt;
      && key in after && start <= lastRead <= after[key].lastSeen <= EndOf(now, events)
      && 0 <= after[key].tokens
      && AllowedFor(limits, buckets, events, key, false) + after[key].tokens
        <= limits.burst + limits.Refill(lastRead - start)
    ensures events[|events| - 1].IsCallOf(key) ==> lastRead == events[|events| - 1].request.readAt
    decreases |events|
  {
    var front, last := events[..|events| - 1], events[|events| - 1];
    var mid := AfterAll(limits, buckets, front, false);
    RunInBounds(limits, buckets, now, front, false);
    if front == [] {
      lastRead := last.request.readAt;
      CallBudget(limits, buckets, now, last.request);
      RefillGrows(limits, 0, 0);
    } else {
      lastRead := WindowBudget(limits, buckets, now, front, key);
      if last.IsCallOf(key) {
        CallBudget(limits, mid, EndOf(now, front), last.request);
        var start := events[0].request.readAt;
        RefillsAdd(limits, lastRead - start, last.request.readAt - mid[key].lastSeen, last.request.readAt - start);
        lastRead := last.request.readAt;
      }
    }
  }

  /** The window bound: between two requests of a key at times s and t, wherever they stand in a
      run, at most burst + rate * floor((t - s) / interval) requests of the key are allowed. */
  lemma {:induction false} WindowBound(limits: Limits, before: seq<Event>, window: seq<Event>, key: string, now: int)
    requires limits.Valid() && limits.burst >= 1
    requires IsTimeline(now, before) && IsTimeline(EndOf(now, before), window)
    requires window != [] && window[0].IsCallOf(key) && window[|window| - 1].IsCallOf(key)
    ensures AllowedFor(limits, AfterAll(limits, map[], before, false), window, key, false)
      <= limits.burst + limits.Refill(window[|window| - 1].request.readAt - window[0].request.readAt)
  {
    RunInBounds(limits, map[], now, before, false);
    var _ := WindowBudget(limits, AfterAll(limits, map[], before, false), EndOf(now, before), window, key);
  }

  /** The bound needs a burst of at least one: a first request is allowed whatever the burst. */
  lemma {:induction false} WindowBoundNeedsBurst(limits: Limits, key: string, now: int)
    requires limits.Valid()
    ensures var window := [Call(Request(key, now, now))];
      && IsTimeline(now, window)
      && (AllowedFor(limits, map[], window, key, false) <= limits.burst + limits.Refill(0) <==> limits.burst >= 1)
  {
    var window := [Call(Request(key, now, now))];
    assert window[..0] == [] && window[0].IsTimely();
  }

  /** The evicting limiter has the same visitors as the other, but for some who have been idle
      for more than ten minutes. */
  ghost predicate SameButIdle(evicting: Buckets, full: Buckets, now: int) {
    && (forall key :: key in evicting ==> key in full && full[key] == evicting[key])
    && (forall key :: key in full && key !in evicting ==> full[key].lastSeen + TEN_MINUTES < now)
  }

  /** A bucket is full again by the time its visitor can be evicted. */
  predicate RefillsBeforeEviction(limits: Limits)
    requires limits.Valid()
  {
    limits.burst >= 1 && limits.Refill(TEN_MINUTES + 1) >= limits.burst
  }

  lemma {:induction false} StepKeepsSame(limits: Limits, evicting: Buckets, full: Buckets, now: int, event: Event)
    requires limits.Valid() && RefillsBeforeEviction(limits) && InBounds(limits, full, now)
    requires SameButIdle(evicting, full, now) && now <= event.Start() && event.IsTimely()
    ensures AnswerTo(limits, evicting, event) == AnswerTo(limits, full, event)
    ensures SameButIdle(After(limits, evicting, event, true), After(limits, full, event, false), event.End())
  {
    if event.Call? {
      var request := event.request;
      if request.key in full && request.key !in evicting {
        RefillGrows(limits, TEN_MINUTES + 1, request.readAt - full[request.key].lastSeen);
      }
    } else {
      assert forall key :: event.startsAt <= event.clock(key) <= event.endsAt;
    }
  }

  lemma {:induction false} RunKeepsSame(limits: Limits, evicting: Buckets, full: Buckets, now: int,
        events: seq<Event>, key: string)
    requires limits.Valid() && RefillsBeforeEviction(limits) && InBounds(limits, full, now)
    requires SameButIdle(evicting, full, now) && IsTimeline(now, events)
    ensures Answers(limits, evicting, events, true) == Answers(limits, full, events, false)
    ensures AllowedFor(limits, evicting, events, key, true) == AllowedFor(limits, full, events, key, false)
    ensures SameButIdle(AfterAll(limits, evicting, events, true), AfterAll(limits, full, events, false),
      EndOf(now, events))
    decreases |events|
  {
    if events != [] {
      var front, last := events[..|events| - 1], events[|events| - 1];
      RunKeepsSame(limits, evicting, full, now, front, key);
      RunInBounds(limits, full, now, front, false);
      var e, f := AfterAll(limits, evicting, front, true), AfterAll(limits, full, front, false);
      StepKeepsSame(limits, e, f, EndOf(now, front), last);
      if last.Call? {
        assert AnswerTo(limits, e, last)[0] == AnswerTo(limits, f, last)[0];
      }
    }
  }

  /** Between the first and the last request of a window no more is allowed than the bound says. */
  ghost predicate ObeysWindow(limits: Limits, before: seq<Event>, window: seq<Event>, key: string, now: int,
        evict: bool)
    requires limits.Valid()
  {
    IsTimeline(now, before) && IsTimeline(EndOf(now, before), window)
    && window != [] && window[0].IsCallOf(key) && window[|window| - 1].IsCallOf(key) ==>
      AllowedFor(limits, AfterAll(limits, map[], before, evict), window, key, evict)
        <= limits.burst + limits.Refill(window[|window| - 1].request.readAt - window[0].request.readAt)
  }

  /** With that condition the window bound also holds for the limiter with cleanup. */
  lemma {:induction false} WindowBoundWithCleanup(limits: Limits, before: seq<Event>, window: seq<Event>,
        key: string, now: int)
    requires limits.Valid() && RefillsBeforeEviction(limits)
    ensures ObeysWindow(limits, before, window, key, now, true)
  {
    if IsTimeline(now, before) && IsTimeline(EndOf(now, before), window)
      && window != [] && window[0].IsCallOf(key) && window[|window| - 1].IsCallOf(key)
    {
      RunInBounds(limits, map[], now, before, false);
      RunKeepsSame(limits, map[], map[], now, before, key);
      RunKeepsSame(limits, AfterAll(limits, map[], before, true), AfterAll(limits, map[], before, false),
        EndOf(now, before), window, key);
      WindowBound(limits, before, window, key, now);
    }
  }

  /** What a key can spend at a moment; a key that is not known has a full burst. */
  function Budget(limits: Limits, buckets: Buckets, key: string, at: int): int
    requires limits.Valid()
  {
    if key in buckets then Refilled(limits, buckets[key], at) else limits.burst
  }

  /** n requests of one key at one moment. */
  function Burst(at: int, n: nat): seq<Event> {
    seq(n, _ => Call(Request("a", at, at)))
  }

  lemma {:induction false} BurstStep(n: nat, at: int)
    requires n > 0
    ensures Burst(at, n)[..n - 1] == Burst(at, n - 1) && Burst(at, n)[n - 1] == Call(Request("a", at, at))
  {
  }

  lemma {:induction false} OneCallSpendsOne(limits: Limits, buckets: Buckets, at: int, evict: bool)
    requires limits.Valid() && limits.burst >= 1 && 0 <= Budget(limits, buckets, "a", at)
    ensures var call, budget := Call(Request("a", at, at)), Budget(limits, buckets, "a", at);
      var after := After(limits, buckets, call, evict);
      && AnswerTo(limits, buckets, call) == [budget > 0]
      && Budget(limits, after, "a", at) == (if budget > 0 then budget - 1 else 0)
      && "a" in after && after["a"].lastSeen == at && after["a"].tokens == Budget(limits, after, "a", at)
  {
  }

  /** What requests at one moment leave: the budget, less one for each while it lasts. */
  lemma {:induction false} BurstLeaves(limits: Limits, buckets: Buckets, at: int, n: nat, evict: bool)
    requires limits.Valid() && limits.burst >= 1 && 0 <= Budget(limits, buckets, "a", at)
    ensures var after := AfterAll(limits, buckets, Burst(at, n), evict);
      && Budget(limits, after, "a", at)
        == (if n <= Budget(limits, buckets, "a", at) then Budget(limits, buckets, "a", at) - n else 0)
      && (n > 0 ==> "a" in after && after["a"].lastSeen == at && after["a"].tokens == Budget(limits, after, "a", at))
    decreases n
  {
    if n > 0 {
      BurstLeaves(limits, buckets, at, n - 1, evict);
      BurstStep(n, at);
      OneCallSpendsOne(limits, AfterAll(limits, buckets, Burst(at, n - 1), evict), at, evict);
    }
  }

  /** The answers to n requests at one moment, the last one apart. */
  lemma {:induction false} BurstAnswers(limits: Limits, buckets: Buckets, at: int, n: nat, evict: bool)
    requires limits.Valid() && limits.burst >= 1 && 0 <= Budget(limits, buckets, "a", at) && n > 0
    ensures Answers(limits, buckets, Burst(at, n), evict)
      == Answers(limits, buckets, Burst(at, n - 1), evict) + [n - 1 < Budget(limits, buckets, "a", at)]
  {
    BurstLeaves(limits, buckets, at, n - 1, evict);
    BurstStep(n, at);
    OneCallSpendsOne(limits, AfterAll(limits, buckets, Burst(at, n - 1), evict), at, evict);
  }

  /** The first k answers are yes, the others no. */
  predicate AreYesUpTo(answers: seq<bool>, k: int) {
    forall i :: 0 <= i < |answers| ==> answers[i] == (i < k)
  }

  lemma {:induction false} OneMoreAnswer(answers: seq<bool>, k: int)
    requires AreYesUpTo(answers, k)
    ensures AreYesUpTo(answers + [|answers| < k], k)
  {
  }

  /** Of requests at one moment exactly the budget is allowed, with cleanup or without. */
  lemma {:induction false} BurstSpendsBudget(limits: Limits, buckets: Buckets, at: int, n: nat, evict: bool)
    requires limits.Valid() && limits.burst >= 1 && 0 <= Budget(limits, buckets, "a", at)
    ensures |Answers(limits, buckets, Burst(at, n), evict)| == n
    ensures AreYesUpTo(Answers(limits, buckets, Burst(at, n), evict), Budget(limits, buckets, "a", at))
    decreases n
  {
    if n > 0 {
      BurstSpendsBudget(limits, buckets, at, n - 1, evict);
      BurstAnswers(limits, buckets, at, n, evict);
      OneMoreAnswer(Answers(limits, buckets, Burst(at, n - 1), evict), Budget(limits, buckets, "a", at));
    }
  }

  lemma {:induction false} StatesConcat(limits: Limits, buckets: Buckets, a: seq<Event>, b: seq<Event>, evict: bool)
    requires limits.Valid()
    ensures AfterAll(limits, buckets, a + b, evict) == AfterAll(limits, AfterAll(limits, buckets, a, evict), b, evict)
    decreases |b|
  {
    if b == [] {
      assert a + b == a;
    } else {
      assert (a + b)[..|a + b| - 1] == a + b[..|b| - 1];
      StatesConcat(limits, buckets, a, b[..|b| - 1], evict);
    }
  }

  lemma {:induction false} AnswersConcat(limits: Limits, buckets: Buckets, a: seq<Event>, b: seq<Event>, evict: bool)
    requires limits.Valid()
    ensures Answers(limits, buckets, a + b, evict)
      == Answers(limits, buckets, a, evict) + Answers(limits, AfterAll(limits, buckets, a, evict), b, evict)
    decreases |b|
  {
    if b == [] {
      assert a + b == a;
    } else {
      assert (a + b)[..|a + b| - 1] == a + b[..|b| - 1];
      StatesConcat(limits, buckets, a, b[..|b| - 1], evict);
      AnswersConcat(limits, buckets, a, b[..|b| - 1], evict);
    }
  }

  lemma {:induction false} AllowedConcat(limits: Limits, buckets: Buckets, a: seq<Event>, b: seq<Event>, key: string,
        evict: bool)
    requires limits.Valid()
    ensures AllowedFor(limits, buckets, a + b, key, evict)
      == AllowedFor(limits, buckets, a, key, evict)
        + AllowedFor(limits, AfterAll(limits, buckets, a, evict), b, key, evict)
    decreases |b|
  {
    if b == [] {
      assert a + b == a;
    } else {
      assert (a + b)[..|a + b| - 1] == a + b[..|b| - 1];
      StatesConcat(limits, buckets, a, b[..|b| - 1], evict);
      AllowedConcat(limits, buckets, a, b[..|b| - 1], key, evict);
    }
  }

  /** Of requests at one moment the budget counts as allowed. */
  lemma {:induction false} BurstIsAllowed(limits: Limits, buckets: Buckets, at: int, n: nat, evict: bool)
    requires limits.Valid() && limits.burst >= 1 && 0 <= Budget(limits, buckets, "a", at)
    ensures AllowedFor(limits, buckets, Burst(at, n), "a", evict)
      == if n <= Budget(limits, buckets, "a", at) then n else Budget(limits, buckets, "a", at)
    decreases n
  {
    if n > 0 {
      BurstIsAllowed(limits, buckets, at, n - 1, evict);
      BurstLeaves(limits, buckets, at, n - 1, evict);
      BurstStep(n, at);
      OneCallSpendsOne(limits, AfterAll(limits, buckets, Burst(at, n - 1), evict), at, evict);
    }
  }

  lemma {:induction false} TimelinesConcat(now: int, a: seq<Event>, b: seq<Event>)
    requires IsTimeline(now, a) && IsTimeline(EndOf(now, a), b)
    ensures IsTimeline(now, a + b) && EndOf(now, a + b) == EndOf(EndOf(now, a), b)
    decreases |b|
  {
    if b == [] {
      assert a + b == a;
    } else {
      assert (a + b)[..|a + b| - 1] == a + b[..|b| - 1];
      TimelinesConcat(now, a, b[..|b| - 1]);
    }
  }

  lemma {:induction false} BurstIsTimeline(now: int, at: int, n: nat)
    requires now <= at
    ensures IsTimeline(now, Burst(at, n)) && now <= EndOf(now, Burst(at, n)) <= at
    decreases n
  {
    if n > 0 {
      BurstStep(n, at);
      BurstIsTimeline(now, at, n - 1);
      assert Burst(at, n)[n - 1].IsTimely();
    }
  }

  const EVICTION := TEN_MINUTES + 1

  function CleanupRound(): Event {
    Sweep(EVICTION, EVICTION, _ => EVICTION)
  }

  /** Spend everything at 0, be idle until the cleanup round just after ten minutes, come back. */
  function DrainAndReturn(n: nat): seq<Event> {
    Burst(0, n) + ([CleanupRound()] + Burst(EVICTION, n))
  }

  lemma {:induction false} DrainAndReturnIsTimeline(n: nat)
    ensures IsTimeline(0, DrainAndReturn(n))
  {
    BurstIsTimeline(0, 0, n);
    var sweep := [CleanupRound()];
    assert sweep[..0] == [] && sweep[0].IsTimely();
    assert IsTimeline(EndOf(0, Burst(0, n)), sweep);
    BurstIsTimeline(EVICTION, EVICTION, n);
    TimelinesConcat(EndOf(0, Burst(0, n)), sweep, Burst(EVICTION, n));
    TimelinesConcat(0, Burst(0, n), sweep + Burst(EVICTION, n));
  }

  /** The two parts of the answers of such a run. */
  lemma {:induction false} DrainAndReturnAnswers(limits: Limits, n: nat, evict: bool)
    requires limits.Valid()
    ensures var drained := AfterAll(limits, map[], Burst(0, n), evict);
      Answers(limits, map[], DrainAndReturn(n), evict)
        == Answers(limits, map[], Burst(0, n), evict)
          + Answers(limits, After(limits, drained, CleanupRound(), evict), Burst(EVICTION, n), evict)
  {
    AnswersConcat(limits, map[], Burst(0, n), [CleanupRound()] + Burst(EVICTION, n), evict);
    AnswersAfterSweep(limits, AfterAll(limits, map[], Burst(0, n), evict), Burst(EVICTION, n), evict);
  }

  lemma {:induction false} AnswersAfterSweep(limits: Limits, buckets: Buckets, rest: seq<Event>, evict: bool)
    requires limits.Valid()
    ensures Answers(limits, buckets, [CleanupRound()] + rest, evict)
      == Answers(limits, After(limits, buckets, CleanupRound(), evict), rest, evict)
  {
    var sweep := [CleanupRound()];
    assert sweep[..0] == [];
    assert AfterAll(limits, buckets, sweep, evict) == After(limits, buckets, CleanupRound(), evict);
    assert Answers(limits, buckets, sweep, evict) == [];
    AnswersConcat(limits, buckets, sweep, rest, evict);
  }

  /** A bucket that is not full again at its eviction lets the returning visitor notice. */
  lemma {:induction false} SlowRefillIsNoticed(limits: Limits) returns (events: seq<Event>)
    requires limits.Valid() && limits.burst >= 1 && limits.Refill(EVICTION) < limits.burst
    ensures IsTimeline(0, events) && Answers(limits, map[], events, true) != Answers(limits, map[], events, false)
  {
    var n := limits.burst;
    events := DrainAndReturn(n);
    DrainAndReturnIsTimeline(n);
    DrainAndReturnAnswers(limits, n, true);
    DrainAndReturnAnswers(limits, n, false);
    BurstSpendsBudget(limits, map[], 0, n, true);
    BurstSpendsBudget(limits, map[], 0, n, false);
    BurstLeaves(limits, map[], 0, n, true);
    BurstLeaves(limits, map[], 0, n, false);
    RefillGrows(limits, 0, EVICTION);
    var drained, kept := AfterAll(limits, map[], Burst(0, n), true), AfterAll(limits, map[], Burst(0, n), false);
    var evicted := After(limits, drained, CleanupRound(), true);
    assert "a" !in evicted && Budget(limits, evicted, "a", EVICTION) == n;
    assert Budget(limits, kept, "a", EVICTION) == limits.Refill(EVICTION);
    BurstSpendsBudget(limits, evicted, EVICTION, n, true);
    BurstSpendsBudget(limits, kept, EVICTION, n, false);
    var k := n + limits.Refill(EVICTION);
    assert Answers(limits, map[], events, true)[k];
    assert !Answers(limits, map[], events, false)[k];
  }

  /** Without a positive burst, only a first request is ever allowed, and eviction allows another. */
  lemma {:induction false} NoBurstIsNoticed(limits: Limits) returns (events: seq<Event>)
    requires limits.Valid() && limits.burst <= 0
    ensures IsTimeline(0, events) && Answers(limits, map[], events, true) != Answers(limits, map[], events, false)
  {
    events := DrainAndReturn(1);
    DrainAndReturnIsTimeline(1);
    DrainAndReturnAnswers(limits, 1, true);
    DrainAndReturnAnswers(limits, 1, false);
    var drained := Served(limits, map[], Request("a", 0, 0));
    BurstStep(1, 0);
    BurstStep(1, EVICTION);
    assert Burst(0, 0) == [] && Burst(EVICTION, 0) == [];
    assert "a" !in After(limits, drained, CleanupRound(), true);
    assert Answers(limits, map[], events, true)[1];
    assert !Answers(limits, map[], events, false)[1];
  }

  /** A bucket that is not full again at its eviction lets a visitor exceed the window bound. */
  lemma {:induction false} SlowRefillBreaksTheBound(limits: Limits)
    requires limits.Valid() && limits.burst >= 1 && limits.Refill(EVICTION) < limits.burst
    ensures !ObeysWindow(limits, [], DrainAndReturn(limits.burst), "a", 0, true)
  {
    var n := limits.burst;
    var window, rest := DrainAndReturn(n), [CleanupRound()] + Burst(EVICTION, n);
    DrainAndReturnIsTimeline(n);
    assert window[0] == Call(Request("a", 0, 0)) && window[|window| - 1] == Call(Request("a", EVICTION, EVICTION));
    var drained := AfterAll(limits, map[], Burst(0, n), true);
    var evicted := After(limits, drained, CleanupRound(), true);
    BurstIsAllowed(limits, map[], 0, n, true);
    BurstLeaves(limits, map[], 0, n, true);
    assert "a" !in evicted && Budget(limits, evicted, "a", EVICTION) == n;
    BurstIsAllowed(limits, evicted, EVICTION, n, true);
    AllowedConcat(limits, map[], Burst(0, n), rest, "a", true);
    AllowedConcat(limits, drained, [CleanupRound()], Burst(EVICTION, n), "a", true);
    assert [CleanupRound()][..0] == [];
    assert AfterAll(limits, drained, [CleanupRound()], true) == evicted;
    assert AllowedFor(limits, drained, [CleanupRound()], "a", true) == 0;
  }

  /** With cleanup, the window bound holds on every run exactly under the condition that makes
      cleanup invisible. */
  lemma {:induction false} WindowBoundSurvivesCleanup(limits: Limits)
    requires limits.Valid()
    ensures (forall before, window, key :: ObeysWindow(limits, before, window, key, 0, true))
      <==> RefillsBeforeEviction(limits)
  {
    if RefillsBeforeEviction(limits) {
      forall before, window, key ensures ObeysWindow(limits, before, window, key, 0, true) {
        WindowBoundWithCleanup(limits, before, window, key, 0);
      }
    } else if limits.burst >= 1 {
      SlowRefillBreaksTheBound(limits);
    } else {
      var window := [Call(Request("a", 0, 0))];
      assert window[..0] == [] && window[0].IsTimely();
      assert AllowedFor(limits, map[], window, "a", true) == 1;
      assert !ObeysWindow(limits, [], window, "a", 0, true);
    }
  }

  /** The limiter refuses no more than it must: a visitor is refused exactly when it has no token
      left and not one interval has brought a new one. */
  lemma {:induction false} RefusedOnlyWhenSpent(limits: Limits, buckets: Buckets, now: int, request: Request)
    requires limits.Valid() && limits.burst >= 1 && InBounds(limits, buckets, now) && now <= request.readAt
    ensures !Allows(limits, buckets, request) <==>
      && request.key in buckets && buckets[request.key].tokens == 0
      && (limits.rate == 0 || request.readAt - buckets[request.key].lastSeen < limits.interval)
  {
  }

  /** The limiter the router installs: 60 requests a minute, 60 at once. */
  lemma {:induction false} InstalledLimiterHidesEviction()
    ensures RefillsBeforeEviction(Limits(60, 60, 60_000_000_000))
  {
  }

  /** Cleanup is invisible to every caller, on every run, exactly when a bucket refills completely
      within the idle time after which its visitor can be evicted. */
  lemma {:induction false} EvictionIsInvisible(limits: Limits)
    requires limits.Valid()
    ensures (forall events :: IsTimeline(0, events) ==>
              Answers(limits, map[], events, true) == Answers(limits, map[], events, false))
      <==> RefillsBeforeEviction(limits)
  {
    if RefillsBeforeEviction(limits) {
      forall events | IsTimeline(0, events)
        ensures Answers(limits, map[], events, true) == Answers(limits, map[], events, false)
      {
        RunKeepsSame(limits, map[], map[], 0, events, "");
      }
    } else if limits.burst >= 1 {
      var _ := SlowRefillIsNoticed(limits);
    } else {
      var _ := NoBurstIsNoticed(limits);
    }
  }
}
