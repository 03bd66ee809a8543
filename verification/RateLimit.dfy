/** The token-bucket rate limiter. Times are nanoseconds of a monotonic clock. */
module RateLimit {
  const TEN_MINUTES := 600_000_000_000

  /** rate tokens per interval, at most burst. */
  datatype Limits = Limits(rate: nat, burst: int, interval: int)
  {
    /** Division by the interval needs it to be positive. */
    predicate Valid() { interval > 0 }

    /** Whole intervals elapsed, rounded toward zero, times the rate. */
    function Refill(elapsed: int): int
      requires Valid()
    {
      (if elapsed >= 0 then elapsed / interval else -((-elapsed) / interval)) * rate
    }
  }

  datatype Bucket = Bucket(tokens: int, lastSeen: int)

  type Buckets = map<string, Bucket>

  /** One request: the clock is read once for the elapsed time and once more for lastSeen. */
  datatype Request = Request(key: string, readAt: int, seenAt: int)

  /** A visitor's bucket after refilling, before the token is taken. */
  function Refilled(limits: Limits, bucket: Bucket, readAt: int): int
    requires limits.Valid()
  {
    var tokens := bucket.tokens + limits.Refill(readAt - bucket.lastSeen);
    if tokens > limits.burst then limits.burst else tokens
  }

  function Allows(limits: Limits, buckets: Buckets, request: Request): bool
    requires limits.Valid()
  {
    request.key !in buckets || Refilled(limits, buckets[request.key], request.readAt) > 0
  }

  function Served(limits: Limits, buckets: Buckets, request: Request): Buckets
    requires limits.Valid()
  {
    if request.key !in buckets then buckets[request.key := Bucket(limits.burst - 1, request.seenAt)]
    else
      var tokens := Refilled(limits, buckets[request.key], request.readAt);
      buckets[request.key := Bucket(if tokens <= 0 then tokens else tokens - 1, request.seenAt)]
  }

  /** A cleanup round that examines each visitor at its own clock reading. */
  function Swept(buckets: Buckets, clock: string -> int): Buckets {
    map key | key in buckets && clock(key) - buckets[key].lastSeen <= TEN_MINUTES :: buckets[key]
  }

  class Visitor {
    var tokens: int
    var lastSeen: int

    constructor (tokens: int, lastSeen: int)
      ensures this.tokens == tokens && this.lastSeen == lastSeen
    {
      this.tokens := tokens;
      this.lastSeen := lastSeen;
    }
  }

  class RateLimiter {
    var visitors: map<string, Visitor>
    const limits: Limits

    /** No two keys share a visitor. */
    ghost predicate Valid()
      reads this
    {
      && limits.Valid()
      && forall k, k' :: k in visitors && k' in visitors && k != k' ==> visitors[k] != visitors[k']
    }

    ghost function Contents(): Buckets
      reads this, visitors.Values
    {
      map key | key in visitors :: Bucket(visitors[key].tokens, visitors[key].lastSeen)
    }

    constructor (rate: nat, burst: int, interval: int)
      requires interval > 0
      ensures Valid() && Contents() == map[] && limits == Limits(rate, burst, interval)
    {
      visitors := map[];
      limits := Limits(rate, burst, interval);
    }

    /** allow, under the mutex. */
    method Allow(key: string, readAt: int, seenAt: int) returns (allowed: bool)
      requires Valid()
      modifies this, visitors.Values
      ensures Valid()
      ensures allowed == Allows(limits, old(Contents()), Request(key, readAt, seenAt))
      ensures Contents() == Served(limits, old(Contents()), Request(key, readAt, seenAt))
    {
      if key !in visitors {
        var visitor := new Visitor(limits.burst - 1, seenAt);
        visitors := visitors[key := visitor];
        return true;
      }
      var v := visitors[key];
      var elapsed := readAt - v.lastSeen;
      var refill := limits.Refill(elapsed);
      v.tokens := v.tokens + refill;
      if v.tokens > limits.burst {
        v.tokens := limits.burst;
      }
      v.lastSeen := seenAt;
      if v.tokens <= 0 {
        return false;
      }
      v.tokens := v.tokens - 1;
      return true;
    }

    /** One tick of cleanup, under the mutex: visitors idle for more than ten minutes go. The keys
        are examined in any order. */
    method Cleanup(clock: string -> int, order: seq<string>)
      requires Valid()
      requires forall key :: key in order <==> key in visitors
      modifies this`visitors
      ensures Valid()
      ensures Contents() == Swept(old(Contents()), clock)
    {
      for i := 0 to |order|
        invariant forall key :: key in visitors ==> key in old(visitors) && visitors[key] == old(visitors)[key]
        invariant forall key :: key in old(visitors) ==>
          (key in visitors <==> key !in order[..i] || clock(key) - old(visitors)[key].lastSeen <= TEN_MINUTES)
      {
        var key := order[i];
        if key in visitors && clock(key) - visitors[key].lastSeen > TEN_MINUTES {
          visitors := visitors - {key};
        }
      }
    }
  }
}
