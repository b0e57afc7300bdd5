/** The rate limiter of the policy query routes: one token bucket per key, refilled when read, in a
  * bounded map ordered by use.
  */
module TokenBucket {
  import opened LruStore

  datatype Limits = Limits(capacity: nat, refillPerInterval: nat, intervalMs: nat, maxTenants: nat)

  predicate Sensible(c: Limits) {
    c.intervalMs > 0 && c.maxTenants > 0
  }

  datatype Bucket = Bucket(tokens: int, lastRefill: int)

  // --- One bucket --------------------------------------------------------------------------

  /** Whole tokens earned since the last refill; the rest of the time is kept for the next read. */
  function Earned(c: Limits, elapsed: int): int
    requires c.intervalMs > 0
  {
    elapsed * c.refillPerInterval / c.intervalMs
  }

  function Refilled(c: Limits, b: Bucket, now: int): Bucket
    requires c.intervalMs > 0
  {
    var elapsed := now - b.lastRefill;
    if elapsed > 0 && Earned(c, elapsed) > 0 then
      var tokens := b.tokens + Earned(c, elapsed);
      Bucket(if tokens < c.capacity then tokens else c.capacity, now)
    else b
  }

  function Admits(c: Limits, b: Bucket, now: int): bool
    requires c.intervalMs > 0
  {
    Refilled(c, b, now).tokens > 0
  }

  function Spent(c: Limits, b: Bucket, now: int): Bucket
    requires c.intervalMs > 0
  {
    var r := Refilled(c, b, now);
    if r.tokens > 0 then r.(tokens := r.tokens - 1) else r
  }

  /** The bucket as the store's meter. */
  function MeterOf(c: Limits): Meter<Bucket>
    requires c.intervalMs > 0
  {
    Meter(c.maxTenants, now => Bucket(c.capacity, now), (b, now) => Spent(c, b, now), (b, now) => Admits(c, b, now))
  }

  predicate Nondecreasing(times: seq<int>) {
    forall i, j :: 0 <= i < j < |times| ==> times[i] <= times[j]
  }

  lemma EarnedIsFloor(c: Limits, elapsed: int)
    requires c.intervalMs > 0
    ensures Earned(c, elapsed) * c.intervalMs <= elapsed * c.refillPerInterval
    ensures elapsed * c.refillPerInterval < (Earned(c, elapsed) + 1) * c.intervalMs
  {
    var n, d := elapsed * c.refillPerInterval, c.intervalMs;
    assert n == (n / d) * d + n % d;
  }

  lemma Distribute(a: int, b: int, r: int)
    ensures (a + b) * r == a * r + b * r
  {
  }

  /** Tokens and un-refilled time together never grow by more than the time that passes, and an
    * admission costs one whole token: the potential that bounds every rate. */
  lemma SpendingPaysPotential(c: Limits, b: Bucket, now: int)
    requires c.intervalMs > 0 && b.lastRefill <= now
    ensures var s := Spent(c, b, now);
            && s.lastRefill <= now
            && s.tokens * c.intervalMs + (now - s.lastRefill) * c.refillPerInterval
               + (if Admits(c, b, now) then c.intervalMs else 0)
               <= b.tokens * c.intervalMs + (now - b.lastRefill) * c.refillPerInterval
  {
    var elapsed := now - b.lastRefill;
    var r := Refilled(c, b, now);
    EarnedIsFloor(c, elapsed);
    if elapsed > 0 && Earned(c, elapsed) > 0 {
      Distribute(b.tokens, Earned(c, elapsed), c.intervalMs);
      LessTimes(r.tokens, b.tokens + Earned(c, elapsed), c.intervalMs);
    }
    Distribute(r.tokens, -1, c.intervalMs);
  }

  lemma LessTimes(a: int, b: int, d: nat)
    requires a <= b
    ensures a * d <= b * d
  {
  }

  function Ceil(n: int, d: int): int
    requires d > 0
  {
    (n + d - 1) / d
  }

  lemma CeilBounds(a: int, cap: int, n: int, d: int)
    requires d > 0 && a * d <= cap * d + n + (d - 1)
    ensures a <= cap + Ceil(n, d)
  {
    var q := Ceil(n, d);
    assert n + d - 1 == q * d + (n + d - 1) % d;
    assert (a - cap) * d <= q * d + (d - 1) by { Distribute(a, -cap, d); }
    if a - cap > q {
      LessTimes(q + 1, a - cap, d);
      Distribute(q, 1, d);
    }
  }

  lemma TokensStayInRange(c: Limits, b: Bucket, now: int)
    requires c.intervalMs > 0 && 0 <= b.tokens <= c.capacity
    ensures 0 <= Spent(c, b, now).tokens <= c.capacity
    ensures b.lastRefill <= now ==> b.lastRefill <= Spent(c, b, now).lastRefill <= now
  {
    if now > b.lastRefill { EarnedIsFloor(c, now - b.lastRefill); }
  }

  lemma {:induction false} RunPaysPotential(c: Limits, b: Bucket, times: seq<int>)
    requires c.intervalMs > 0 && 0 <= b.tokens <= c.capacity
    requires times != [] && Nondecreasing(times) && b.lastRefill <= times[0]
    ensures Admitted(MeterOf(c), b, times) * c.intervalMs
         <= b.tokens * c.intervalMs + (times[|times| - 1] - b.lastRefill) * c.refillPerInterval
    decreases |times|
  {
    var t, last := times[0], times[|times| - 1];
    var s := Spent(c, b, t);
    SpendingPaysPotential(c, b, t);
    TokensStayInRange(c, b, t);
    LessTimes(0, s.tokens, c.intervalMs);
    LessTimes(0, t - s.lastRefill, c.refillPerInterval);
    if |times| == 1 {
      assert times[1..] == [];
    } else {
      RunPaysPotential(c, s, times[1..]);
      var first := if Admits(c, b, t) then 1 else 0;
      Distribute(first, Admitted(MeterOf(c), s, times[1..]), c.intervalMs);
      Distribute(t - s.lastRefill, last - t, c.refillPerInterval);
      Distribute(t - b.lastRefill, last - t, c.refillPerInterval);
    }
  }

  /** The capacity plus what the time from the first to the last take refills, rounded up. */
  function Bound(c: Limits, first: int, last: int): int
    requires c.intervalMs > 0
  {
    c.capacity + Ceil((last - first) * c.refillPerInterval, c.intervalMs)
  }

  /** Reading a bucket refills it first, so refilling it beforehand changes no decision. */
  lemma FirstReadRefills(c: Limits, b: Bucket, times: seq<int>)
    requires c.intervalMs > 0 && 0 <= b.tokens <= c.capacity
    requires times != [] && b.lastRefill <= times[0]
    ensures Admitted(MeterOf(c), b, times) == Admitted(MeterOf(c), Refilled(c, b, times[0]), times)
  {
    RefillLeavesLessThanOne(c, b, times[0]);
  }

  /** Any takes of one key between `t1` and `t2` on a nondecreasing clock admit at most the capacity
    * plus what the time between refills, rounded up. */
  lemma RateIsBounded(c: Limits, b: Bucket, times: seq<int>)
    requires c.intervalMs > 0 && 0 <= b.tokens <= c.capacity
    requires times != [] && Nondecreasing(times) && b.lastRefill <= times[0]
    ensures Admitted(MeterOf(c), b, times) <= Bound(c, times[0], times[|times| - 1])
  {
    var t, last := times[0], times[|times| - 1];
    var r := Refilled(c, b, t);
    FirstReadRefills(c, b, times);
    RefillLeavesLessThanOne(c, b, t);
    RunPaysPotential(c, r, times);
    PotentialBounds(c, Admitted(MeterOf(c), r, times), r, t, last);
  }

  lemma PotentialBounds(c: Limits, admitted: int, r: Bucket, t: int, last: int)
    requires c.intervalMs > 0 && r.tokens <= c.capacity
    requires (t - r.lastRefill) * c.refillPerInterval < c.intervalMs
    requires admitted * c.intervalMs <= r.tokens * c.intervalMs + (last - r.lastRefill) * c.refillPerInterval
    ensures admitted <= Bound(c, t, last)
  {
    var unused, window := (t - r.lastRefill) * c.refillPerInterval, (last - t) * c.refillPerInterval;
    assert (last - r.lastRefill) * c.refillPerInterval == unused + window by {
      Distribute(t - r.lastRefill, last - t, c.refillPerInterval);
    }
    LessTimes(r.tokens, c.capacity, c.intervalMs);
    CeilBounds(admitted, c.capacity, window, c.intervalMs);
  }

  /** Right after a read, less than one token's worth of time is still un-refilled. */
  lemma RefillLeavesLessThanOne(c: Limits, b: Bucket, now: int)
    requires c.intervalMs > 0 && 0 <= b.tokens <= c.capacity && b.lastRefill <= now
    ensures var r := Refilled(c, b, now);
            && Refilled(c, r, now) == r
            && 0 <= r.tokens <= c.capacity
            && r.lastRefill <= now
            && (now - r.lastRefill) * c.refillPerInterval < c.intervalMs
  {
    var r := Refilled(c, b, now);
    EarnedIsFloor(c, now - b.lastRefill);
    if r == b && Earned(c, now - b.lastRefill) <= 0 {
      LessTimes(Earned(c, now - b.lastRefill) + 1, 1, c.intervalMs);
    }
  }

  /** A take at least `intervalMs / refillPerInterval` after the last refill is admitted. */
  lemma WaitingIsRewarded(c: Limits, b: Bucket, now: int)
    requires c.intervalMs > 0 && c.capacity > 0 && 0 <= b.tokens
    requires b.lastRefill <= now && (now - b.lastRefill) * c.refillPerInterval >= c.intervalMs
    ensures Admits(c, b, now)
  {
    EarnedIsFloor(c, now - b.lastRefill);
    if Earned(c, now - b.lastRefill) <= 0 {
      LessTimes(Earned(c, now - b.lastRefill) + 1, 1, c.intervalMs);
    }
  }

  /** At this time less than one token is earned since the refill. */
  predicate EarnsNone(c: Limits, refill: int, t: int) {
    (t - refill) * c.refillPerInterval < c.intervalMs
  }

  /** Flooding never starves a key: refused takes in between do not move the refill clock. */
  lemma {:induction false} FloodingNeverStarves(c: Limits, b: Bucket, flood: seq<int>, now: int)
    requires c.intervalMs > 0 && c.capacity > 0 && 0 <= b.tokens <= c.capacity
    requires forall i :: 0 <= i < |flood| ==> EarnsNone(c, b.lastRefill, flood[i])
    requires b.lastRefill <= now && !EarnsNone(c, b.lastRefill, now)
    ensures Admits(c, After(MeterOf(c), b, flood), now)
    decreases |flood|
  {
    if flood == [] {
      WaitingIsRewarded(c, b, now);
    } else {
      var t := flood[0];
      EarnedIsFloor(c, t - b.lastRefill);
      if Earned(c, t - b.lastRefill) > 0 {
        LessTimes(1, Earned(c, t - b.lastRefill), c.intervalMs);
      }
      assert Spent(c, b, t).lastRefill == b.lastRefill;
      FloodingNeverStarves(c, Spent(c, b, t), flood[1..], now);
    }
  }

  // --- All keys -------------------------------------------------------------------------------

  lemma {:induction false} BucketsStayInRange(c: Limits, takes: seq<Draw>)
    requires Sensible(c)
    ensures forall k :: k in Run(MeterOf(c), takes).buckets ==>
              0 <= Run(MeterOf(c), takes).buckets[k].tokens <= c.capacity
  {
    if takes != [] {
      var last := |takes| - 1;
      BucketsStayInRange(c, takes[..last]);
      TakeStaysInRange(c, Run(MeterOf(c), takes[..last]), takes[last]);
    }
  }

  lemma TakeStaysInRange(c: Limits, s: Store<Bucket>, take: Draw)
    requires Sensible(c)
    requires forall k :: k in s.buckets ==> 0 <= s.buckets[k].tokens <= c.capacity
    ensures forall k :: k in TakeFrom(MeterOf(c), s, take).buckets ==>
              0 <= TakeFrom(MeterOf(c), s, take).buckets[k].tokens <= c.capacity
  {
    var touched := Touched(MeterOf(c), s, take);
    assert forall k :: k in touched.buckets ==> 0 <= touched.buckets[k].tokens <= c.capacity;
    TokensStayInRange(c, touched.buckets[take.key], take.now);
  }

  /** For a key that is not evicted, any takes after `first` on a nondecreasing clock admit at most the
    * capacity plus what the time between its first and its last of them refills, rounded up; the first of
    * them may be the one that makes its bucket. */
  lemma KeptKeyRateIsBounded(c: Limits, first: seq<Draw>, rest: seq<Draw>, key: string)
    requires Sensible(c) && Kept(MeterOf(c), first, rest, key)
    requires var times, s := TimesOf(rest, key), Run(MeterOf(c), first);
             times != [] && Nondecreasing(times) && (key in s.buckets ==> s.buckets[key].lastRefill <= times[0])
    ensures var times := TimesOf(rest, key);
            AdmittedAfter(MeterOf(c), first, rest, key) <= Bound(c, times[0], times[|times| - 1])
  {
    var times := TimesOf(rest, key);
    KeptKeyRunsAlone(MeterOf(c), first, rest, key);
    BucketsStayInRange(c, first);
    RateIsBounded(c, Beginning(MeterOf(c), first, times, key), times);
  }

  /** Nor does flooding starve a key of the shared map, whatever the other keys do, while it is not evicted:
    * one refill period after its last refill its take is admitted. */
  lemma KeptKeyIsNotStarved(c: Limits, first: seq<Draw>, rest: seq<Draw>, key: string, now: int)
    requires Sensible(c) && c.capacity > 0 && Kept(MeterOf(c), first, rest, key)
    requires key in Run(MeterOf(c), first).buckets || TimesOf(rest, key) != []
    requires var times := TimesOf(rest, key);
             var refill := Beginning(MeterOf(c), first, times, key).lastRefill;
             && (forall i :: 0 <= i < |times| ==> EarnsNone(c, refill, times[i]))
             && refill <= now && !EarnsNone(c, refill, now)
    ensures Decides(MeterOf(c), Run(MeterOf(c), first + rest), Draw(key, now))
  {
    var times := TimesOf(rest, key);
    KeptKeyRunsAlone(MeterOf(c), first, rest, key);
    BucketsStayInRange(c, first);
    var b := Beginning(MeterOf(c), first, times, key);
    FloodingNeverStarves(c, b, times, now);
    KeptKeyDecides(MeterOf(c), first, rest, Draw(key, now));
  }

  // --- The object -------------------------------------------------------------------------------

  class TokenBucketLimiter {
    const limits: Limits
    var order: seq<string>
    var buckets: map<string, Bucket>
    ghost var takes: seq<Draw>

    ghost predicate Valid()
      reads this
    {
      Sensible(limits) && Store(order, buckets) == Run(MeterOf(limits), takes)
    }

    constructor (limits: Limits)
      requires Sensible(limits)
      ensures Valid() && this.limits == limits && takes == []
    {
      this.limits := limits;
      order, buckets, takes := [], map[], [];
    }

    /** Decides as the store does, and is the store after one more take. */
    method Take(key: string, now: int) returns (admitted: bool)
      requires Valid()
      modifies this
      ensures Valid() && takes == old(takes) + [Draw(key, now)]
      ensures admitted == Decides(MeterOf(limits), Run(MeterOf(limits), old(takes)), Draw(key, now))
    {
      OrderIsRecency(MeterOf(limits), takes);
      takes := takes + [Draw(key, now)];
      assert takes[..|takes| - 1] == old(takes);
      Touch(key, now);
      admitted := Spend(key, now);
    }

    /** Refill the key's bucket and take a token from it, if there is one. */
    method Spend(key: string, now: int) returns (admitted: bool)
      requires Sensible(limits) && key in buckets
      modifies `buckets
      ensures buckets == old(buckets)[key := Spent(limits, old(buckets[key]), now)]
      ensures admitted == Admits(limits, old(buckets[key]), now)
    {
      var bucket := Refill(buckets[key], now);
      admitted := bucket.tokens > 0;
      if admitted { bucket := bucket.(tokens := bucket.tokens - 1); }
      buckets := buckets[key := bucket];
    }

    /** The key's bucket becomes the last one, made full at its first take. */
    method Touch(key: string, now: int)
      requires Sensible(limits)
      modifies `order, `buckets
      ensures Store(order, buckets) == Touched(MeterOf(limits), Store(old(order), old(buckets)), Draw(key, now))
      ensures key in buckets
    {
      if key in buckets {
        order := Without(order, key) + [key];
      } else {
        EvictIfNeeded();
        order := order + [key];
        buckets := buckets[key := Bucket(limits.capacity, now)];
      }
    }

    method Refill(b: Bucket, now: int) returns (bucket: Bucket)
      requires limits.intervalMs > 0
      ensures bucket == Refilled(limits, b, now)
    {
      bucket := b;
      var elapsed := now - b.lastRefill;
      if elapsed > 0 {
        var refilled := elapsed * limits.refillPerInterval / limits.intervalMs;
        if refilled > 0 {
          var tokens := b.tokens + refilled;
          bucket := Bucket(if tokens < limits.capacity then tokens else limits.capacity, now);
        }
      }
    }

    method EvictIfNeeded()
      requires Sensible(limits)
      modifies `order, `buckets
      ensures Store(order, buckets) == Evict(MeterOf(limits), Store(old(order), old(buckets)))
    {
      if |order| >= limits.maxTenants && order != [] {
        buckets := buckets - {order[0]};
        order := order[1..];
      }
    }
  }
}
