/** What the rate limiter grants: lower bounds on the allowed requests, and which visitors it keeps. */
module LimiterGrants {
  import opened RateLimit
  import opened LimiterRuns

  /** How many requests of a key a run makes. */
  function CallsOf(events: seq<Event>, key: string): nat {
    if events == [] then 0
    else CallsOf(events[..|events| - 1], key) + if events[|events| - 1].IsCallOf(key) then 1 else 0
  }

  function Min(x: int, y: int): int {
    if x < y then x else y
  }

  lemma {:induction false} NegatedProduct(a: int, b: int)
    ensures (-a) * b == -(a * b)
  {
  }

  /** Whole intervals are counted toward zero: a clock set back takes what it would have brought. */
  lemma {:induction false} RefillIsOdd(limits: Limits, elapsed: int)
    requires limits.Valid() && elapsed >= 0
    ensures limits.Refill(-elapsed) == -limits.Refill(elapsed)
  {
    var back := -elapsed;
    if elapsed == 0 {
      assert 0 / limits.interval == 0;
    } else {
      assert -back == elapsed;
      NegatedProduct(elapsed / limits.interval, limits.rate);
    }
  }

  /** The tokens a key has at least, from now on. */
  function Holdings(limits: Limits, buckets: Buckets, key: string): int {
    if key in buckets then buckets[key].tokens else limits.burst
  }

  /** Every request is charged exactly one token if it is allowed, and none otherwise: what it takes
      and what it leaves are together the tokens from before with the refill of every whole interval
      since, up to the burst. */
  lemma {:induction false} CallBalance(limits: Limits, buckets: Buckets, now: int, request: Request)
    requires limits.Valid() && limits.burst >= 1 && InBounds(limits, buckets, now) && now <= request.readAt
    ensures var spent := if Allows(limits, buckets, request) then 1 else 0;
      var after := Served(limits, buckets, request);
      && request.key in after && after[request.key].lastSeen == request.seenAt
      && spent + after[request.key].tokens ==
        (if request.key in buckets then
          Min(limits.burst,
            buckets[request.key].tokens + limits.Refill(request.readAt - buckets[request.key].lastSeen))
        else limits.burst)
      && (spent == 0 ==> after[request.key].tokens == 0)
      && (forall key :: key != request.key ==>
        (key in after <==> key in buckets) && (key in buckets ==> after[key] == buckets[key]))
  {
  }

  /** The budget of a key never falls below its holdings, and is the burst at most. */
  lemma {:induction false} BudgetCoversHoldings(limits: Limits, buckets: Buckets, now: int, key: string, at: int)
    requires limits.Valid() && limits.burst >= 1 && InBounds(limits, buckets, now) && now <= at
    ensures 0 <= Holdings(limits, buckets, key) <= Budget(limits, buckets, key, at) <= limits.burst
  {
    if key in buckets {
      RefillGrows(limits, at - buckets[key].lastSeen, at - buckets[key].lastSeen);
    }
  }

  /** Of a step's grant and holdings: an allowed request takes one, a refused one had nothing left,
      and no other event lowers the holdings. */
  lemma {:induction false} StepGrants(limits: Limits, buckets: Buckets, now: int, event: Event, key: string,
        evict: bool)
    requires limits.Valid() && limits.burst >= 1 && InBounds(limits, buckets, now) && now <= event.Start()
      && event.IsTimely()
    ensures var (before, after) := (Holdings(limits, buckets, key),
        Holdings(limits, After(limits, buckets, event, evict), key));
      && 0 <= after
      && (event.IsCallOf(key) ==>
        var budget := Budget(limits, buckets, key, event.request.readAt);
        && before <= budget && (Allows(limits, buckets, event.request) <==> budget > 0)
        && after == if budget > 0 then budget - 1 else 0)
      && (!event.IsCallOf(key) ==> after >= before)
  {
    if event.Call? {
      BudgetCoversHoldings(limits, buckets, now, key, event.request.readAt);
    }
  }

  /** From a request of the key on: all of its requests are allowed, or at least the budget it had at
      the first one. */
  lemma {:induction false} WindowHoldings(limits: Limits, buckets: Buckets, now: int, events: seq<Event>, key: string,
        evict: bool)
    requires limits.Valid() && limits.burst >= 1 && InBounds(limits, buckets, now) && IsTimeline(now, events)
    requires events != [] && events[0].IsCallOf(key)
    ensures var allowed, budget := AllowedFor(limits, buckets, events, key, evict),
        Budget(limits, buckets, key, events[0].request.readAt);
      && (allowed == CallsOf(events, key) || allowed >= budget)
      && allowed + Holdings(limits, AfterAll(limits, buckets, events, evict), key) >= budget
    decreases |events|
  {
    var front, last := events[..|events| - 1], events[|events| - 1];
    if front == [] {
      assert last == events[0] && AfterAll(limits, buckets, front, evict) == buckets;
      StepGrants(limits, buckets, now, last, key, evict);
    } else {
      assert front[0] == events[0];
      WindowHoldings(limits, buckets, now, front, key, evict);
      RunInBounds(limits, buckets, now, front, evict);
      StepGrants(limits, AfterAll(limits, buckets, front, evict), EndOf(now, front), last, key, evict);
    }
  }

  /** The lower counterpart of the window bound, with cleanup or without, wherever the window stands in
      a run: of a key's requests in the window the first ones are all allowed, as many as it has budget
      at its first request there. As the window may end anywhere, this holds of all its beginnings. */
  lemma {:induction false} WindowGrantsBudget(limits: Limits, before: seq<Event>, window: seq<Event>, key: string,
        now: int, evict: bool)
    requires limits.Valid() && limits.burst >= 1
    requires IsTimeline(now, before) && IsTimeline(EndOf(now, before), window)
    requires window != [] && window[0].IsCallOf(key)
    ensures var buckets := AfterAll(limits, map[], before, evict);
      AllowedFor(limits, buckets, window, key, evict)
        >= Min(CallsOf(window, key), Budget(limits, buckets, key, window[0].request.readAt))
  {
    RunInBounds(limits, map[], now, before, evict);
    WindowHoldings(limits, AfterAll(limits, map[], before, evict), EndOf(now, before), window, key, evict);
  }

  /** That budget: the whole burst for a key that is new, or new again after its eviction, and for any
      other the rate for every whole interval since its last request, up to the burst. */
  lemma {:induction false} IdleTimeEarnsBudget(limits: Limits, before: seq<Event>, key: string, now: int, at: int,
        evict: bool)
    requires limits.Valid() && limits.burst >= 1 && IsTimeline(now, before) && EndOf(now, before) <= at
    ensures var buckets := AfterAll(limits, map[], before, evict);
      && (key !in buckets ==> Budget(limits, buckets, key, at) == limits.burst)
      && (key in buckets ==>
        && buckets[key].lastSeen <= at
        && Budget(limits, buckets, key, at)
          >= Min(limits.burst, (at - buckets[key].lastSeen) / limits.interval * limits.rate))
  {
    RunInBounds(limits, map[], now, before, evict);
  }

  lemma {:induction false} NewKeysAreUnknown(limits: Limits, events: seq<Event>, key: string, evict: bool)
    requires limits.Valid() && CallsOf(events, key) == 0
    ensures key !in AfterAll(limits, map[], events, evict)
    decreases |events|
  {
    if events != [] {
      NewKeysAreUnknown(limits, events[..|events| - 1], key, evict);
    }
  }

  lemma {:induction false} AllowedAtMostCalls(limits: Limits, buckets: Buckets, events: seq<Event>, key: string,
        evict: bool)
    requires limits.Valid()
    ensures AllowedFor(limits, buckets, events, key, evict) <= CallsOf(events, key)
    decreases |events|
  {
    if events != [] {
      AllowedAtMostCalls(limits, buckets, events[..|events| - 1], key, evict);
    }
  }

  /** On every timeline the first burst requests of a new key are all allowed, whatever the clock
      readings, the other keys and the cleanup rounds between them. */
  lemma {:induction false} FirstBurstIsAllowed(limits: Limits, before: seq<Event>, window: seq<Event>, key: string,
        now: int, evict: bool)
    requires limits.Valid() && limits.burst >= 1
    requires IsTimeline(now, before) && IsTimeline(EndOf(now, before), window)
    requires CallsOf(before, key) == 0 && window != [] && window[0].IsCallOf(key)
    requires CallsOf(window, key) <= limits.burst
    ensures AllowedFor(limits, AfterAll(limits, map[], before, evict), window, key, evict) == CallsOf(window, key)
  {
    NewKeysAreUnknown(limits, before, key, evict);
    WindowGrantsBudget(limits, before, window, key, now, evict);
    AllowedAtMostCalls(limits, AfterAll(limits, map[], before, evict), window, key, evict);
  }

  /** Without a positive burst exactly the first request of a key is ever allowed. */
  lemma {:induction false} NoBurstAllowsOne(limits: Limits, events: seq<Event>, key: string)
    requires limits.Valid() && limits.burst <= 0
    ensures AllowedFor(limits, map[], events, key, false) == Min(1, CallsOf(events, key))
    ensures key in AfterAll(limits, map[], events, false) <==> CallsOf(events, key) > 0
    decreases |events|
  {
    if events != [] {
      NoBurstAllowsOne(limits, events[..|events| - 1], key);
    }
  }

  /** The last request of the key in a run, if there is one. */
  function LastSeen(events: seq<Event>, key: string): int
    requires CallsOf(events, key) > 0
  {
    var last := events[|events| - 1];
    if last.IsCallOf(key) then last.request.seenAt else LastSeen(events[..|events| - 1], key)
  }

  /** After any run from the start, a visitor that was ever seen is in the table, with the time of its
      last request -- or has been idle for more than ten minutes. */
  lemma {:induction false} VisitorsAreRecent(limits: Limits, now: int, events: seq<Event>, key: string)
    requires limits.Valid() && IsTimeline(now, events)
    ensures var buckets := AfterAll(limits, map[], events, true);
      && (key in buckets ==> CallsOf(events, key) > 0 && buckets[key].lastSeen == LastSeen(events, key))
      && (CallsOf(events, key) > 0 && key !in buckets ==> EndOf(now, events) - LastSeen(events, key) > TEN_MINUTES)
    decreases |events|
  {
    if events != [] {
      VisitorsAreRecent(limits, now, events[..|events| - 1], key);
    }
  }

  /** A cleanup round leaves exactly the visitors whose last request is at most ten minutes old. */
  lemma {:induction false} CleanupKeepsTheRecent(limits: Limits, now: int, events: seq<Event>, key: string)
    requires limits.Valid() && IsTimeline(now, events) && events != [] && events[|events| - 1].Sweep?
    ensures key in AfterAll(limits, map[], events, true) <==>
      && CallsOf(events, key) > 0
      && events[|events| - 1].clock(key) - LastSeen(events, key) <= TEN_MINUTES
  {
    var front, last := events[..|events| - 1], events[|events| - 1];
    VisitorsAreRecent(limits, now, front, key);
    assert last.startsAt <= last.clock(key) <= last.endsAt;
  }
}
