/**
 The fixed-window rate limiter of src/auth/rate-limit.ts: one bucket per key, opened by the first call after
 the previous window and counting every call of its window, refused ones too.
 */
module RateLimit {
  import opened Wrappers

  datatype Bucket = Bucket(count: int, resetAt: int)

  type Buckets = map<string, Bucket>

  datatype Call = Call(key: string, limit: int, windowMs: int, now: int)

  /** Whether a call is accepted. */
  predicate Accepts(buckets: Buckets, c: Call) {
    c.key !in buckets || buckets[c.key].resetAt <= c.now || buckets[c.key].count + 1 <= c.limit
  }

  /** The bucket of the caller's key after a call. */
  function NextBucket(buckets: Buckets, c: Call): Bucket {
    if c.key !in buckets || buckets[c.key].resetAt <= c.now then Bucket(1, c.now + c.windowMs)
    else buckets[c.key].(count := buckets[c.key].count + 1)
  }

  function AfterCall(buckets: Buckets, c: Call): Buckets {
    buckets[c.key := NextBucket(buckets, c)]
  }

  class Limiter {
    var buckets: Buckets

    constructor ()
      ensures buckets == map[]
    {
      buckets := map[];
    }

    /** The source's exception is the result false. */
    method RateLimitOrThrow(c: Call) returns (accepted: bool)
      modifies this
      ensures accepted == Accepts(old(buckets), c)
      ensures buckets == AfterCall(old(buckets), c)
    {
      if c.key !in buckets || buckets[c.key].resetAt <= c.now {
        buckets := buckets[c.key := Bucket(1, c.now + c.windowMs)];
        return true;
      }
      buckets := buckets[c.key := buckets[c.key].(count := buckets[c.key].count + 1)];
      return buckets[c.key].count <= c.limit;
    }
  }

  // ---------- one window ----------

  function AfterCalls(buckets: Buckets, calls: seq<Call>): Buckets
    decreases |calls|
  {
    if calls == [] then buckets else AfterCall(AfterCalls(buckets, calls[..|calls| - 1]), calls[|calls| - 1])
  }

  function CallsOf(calls: seq<Call>, key: string): nat {
    if calls == [] then 0
    else CallsOf(calls[..|calls| - 1], key) + if calls[|calls| - 1].key == key then 1 else 0
  }

  /** The call finds no window of its key open. */
  predicate Opens(buckets: Buckets, c: Call) {
    c.key !in buckets || buckets[c.key].resetAt <= c.now
  }

  lemma {:induction false} WindowStands(buckets: Buckets, c: Call, calls: seq<Call>)
    requires Opens(buckets, c)
    requires forall i :: 0 <= i < |calls| ==> calls[i].now < c.now + c.windowMs
    ensures var b := AfterCalls(AfterCall(buckets, c), calls);
            c.key in b && b[c.key] == Bucket(1 + CallsOf(calls, c.key), c.now + c.windowMs)
    decreases |calls|
  {
    if calls != [] {
      WindowStands(buckets, c, calls[..|calls| - 1]);
    }
  }

  /**
   A window is fixed by the call that opens it: whatever is called until it ends, by whom and with whatever result, a later
   call of the same key is accepted if and only if the window is over by then or the limit is not yet used up by the calls
   counted in it, refused ones included. So nobody who keeps calling is shut out for longer than the window.
   */
  lemma WindowIsFixed(buckets: Buckets, c: Call, calls: seq<Call>, later: Call)
    requires Opens(buckets, c) && later.key == c.key
    requires forall i :: 0 <= i < |calls| ==> calls[i].now < c.now + c.windowMs
    ensures Accepts(buckets, c)
    ensures Accepts(AfterCalls(AfterCall(buckets, c), calls), later)
            <==> c.now + c.windowMs <= later.now || CallsOf(calls, c.key) + 2 <= later.limit
  {
    WindowStands(buckets, c, calls);
  }

  // ---------- the bound ----------

  /** Calls in the order of their times, starting no earlier than `clock`. */
  ghost predicate InTime(clock: int, calls: seq<Call>)
    decreases |calls|
  {
    calls == [] || (clock <= calls[0].now && InTime(calls[0].now, calls[1..]))
  }

  /** All calls of this key come with this limit and window; other keys do as they like. */
  ghost predicate FixedFor(calls: seq<Call>, key: string, limit: int, windowMs: int) {
    forall i :: 0 <= i < |calls| && calls[i].key == key ==> calls[i].limit == limit && calls[i].windowMs == windowMs
  }

  /** How many calls of the key at a time in [lo, hi) are accepted. */
  function Accepted(buckets: Buckets, calls: seq<Call>, key: string, lo: int, hi: int): nat
    decreases |calls|
  {
    if calls == [] then 0 else
    var c := calls[0];
    (if c.key == key && lo <= c.now < hi && Accepts(buckets, c) then 1 else 0)
    + Accepted(AfterCall(buckets, c), calls[1..], key, lo, hi)
  }

  /** What a key can still be granted before `hi`, once the interval has begun. */
  function Allowance(buckets: Buckets, key: string, limit: int, hi: int): int {
    if key !in buckets then Max(1, limit)
    else Max(0, limit - buckets[key].count) + (if buckets[key].resetAt < hi then Max(1, limit) else 0)
  }

  lemma {:induction false} NothingAfter(buckets: Buckets, clock: int, calls: seq<Call>, key: string, lo: int, hi: int)
    requires InTime(clock, calls) && hi <= clock
    ensures Accepted(buckets, calls, key, lo, hi) == 0
    decreases |calls|
  {
    if calls != [] {
      NothingAfter(AfterCall(buckets, calls[0]), calls[0].now, calls[1..], key, lo, hi);
    }
  }

  /** One call inside the interval uses up its share of the allowance. */
  lemma CallSpends(buckets: Buckets, c: Call, lo: int)
    requires lo <= c.now < lo + c.windowMs && (c.key in buckets ==> buckets[c.key].count >= 1)
    ensures var hi := lo + c.windowMs;
            (if Accepts(buckets, c) then 1 else 0) + Allowance(AfterCall(buckets, c), c.key, c.limit, hi)
            <= Allowance(buckets, c.key, c.limit, hi)
  {
  }

  lemma {:induction false} AllowanceHolds(buckets: Buckets, clock: int, calls: seq<Call>, key: string, limit: int,
                                          windowMs: int, lo: int)
    requires InTime(clock, calls) && FixedFor(calls, key, limit, windowMs)
    requires key in buckets ==> buckets[key].count >= 1
    ensures lo <= clock ==> Accepted(buckets, calls, key, lo, lo + windowMs) <= Allowance(buckets, key, limit, lo + windowMs)
    ensures Accepted(buckets, calls, key, lo, lo + windowMs) <= Max(1, 2 * limit - 1)
    decreases |calls|
  {
    if calls != [] {
      var c, rest := calls[0], calls[1..];
      assert FixedFor(rest, key, limit, windowMs) by {
        assert forall i :: 0 <= i < |rest| ==> rest[i] == calls[i + 1];
      }
      AllowanceHolds(AfterCall(buckets, c), c.now, rest, key, limit, windowMs, lo);
      if c.now >= lo + windowMs {
        NothingAfter(AfterCall(buckets, c), c.now, rest, key, lo, lo + windowMs);
      } else if c.key == key && lo <= c.now {
        CallSpends(buckets, c, lo);
      }
    }
  }

  /**
   In any half-open interval as long as the window, a key is granted at most 2 * limit - 1 calls (one call
   when the limit is 1 or less), whatever other keys do.
   */
  lemma AtMostTwiceTheLimit(calls: seq<Call>, clock: int, key: string, limit: int, windowMs: int, lo: int)
    requires InTime(clock, calls) && FixedFor(calls, key, limit, windowMs)
    ensures Accepted(map[], calls, key, lo, lo + windowMs) <= Max(1, 2 * limit - 1)
    ensures limit >= 1 ==> Accepted(map[], calls, key, lo, lo + windowMs) <= 2 * limit
  {
    AllowanceHolds(map[], clock, calls, key, limit, windowMs, lo);
  }

  /** In a window of one millisecond there is no room for the end of one window and the start of the next. */
  lemma {:induction false} OneMillisecondAllowance(buckets: Buckets, clock: int, calls: seq<Call>, key: string, limit: int,
                                                   lo: int)
    requires InTime(clock, calls) && FixedFor(calls, key, limit, 1)
    requires key in buckets ==> buckets[key].count >= 1 && buckets[key].resetAt <= clock + 1
    ensures Accepted(buckets, calls, key, lo, lo + 1) <=
            if key in buckets && buckets[key].resetAt > lo then Max(0, limit - buckets[key].count) else Max(1, limit)
    decreases |calls|
  {
    if calls != [] {
      var c, rest := calls[0], calls[1..];
      assert FixedFor(rest, key, limit, 1) by {
        assert forall i :: 0 <= i < |rest| ==> rest[i] == calls[i + 1];
      }
      OneMillisecondAllowance(AfterCall(buckets, c), c.now, rest, key, limit, lo);
      if c.now > lo {
        NothingAfter(AfterCall(buckets, c), c.now, rest, key, lo, lo + 1);
      }
    }
  }

  /** So with a window of one millisecond a key is granted at most `limit` calls in it. */
  lemma OneMillisecondWindow(calls: seq<Call>, clock: int, key: string, limit: int, lo: int)
    requires InTime(clock, calls) && FixedFor(calls, key, limit, 1)
    ensures Accepted(map[], calls, key, lo, lo + 1) <= Max(1, limit)
  {
    OneMillisecondAllowance(map[], clock, calls, key, limit, lo);
  }

  // ---------- the bound is reached ----------

  function Burst(c: Call, n: nat): seq<Call> {
    if n == 0 then [] else [c] + Burst(c, n - 1)
  }

  function AfterBurst(buckets: Buckets, c: Call, n: nat): Buckets
    decreases n
  {
    if n == 0 then buckets else AfterBurst(AfterCall(buckets, c), c, n - 1)
  }

  /** A burst that fits the open window is granted whole. */
  lemma {:induction false} BurstGranted(buckets: Buckets, c: Call, n: nat, lo: int, hi: int, later: seq<Call>)
    requires c.key in buckets && buckets[c.key].resetAt > c.now && buckets[c.key].count + n <= c.limit
    requires lo <= c.now < hi
    ensures Accepted(buckets, Burst(c, n) + later, c.key, lo, hi) ==
            n + Accepted(AfterBurst(buckets, c, n), later, c.key, lo, hi)
    ensures var b := AfterBurst(buckets, c, n);
            c.key in b && b[c.key] == Bucket(buckets[c.key].count + n, buckets[c.key].resetAt)
  {
    if n == 0 {
      assert Burst(c, n) + later == later;
    } else {
      assert (Burst(c, n) + later)[0] == c && (Burst(c, n) + later)[1..] == Burst(c, n - 1) + later;
      BurstGranted(AfterCall(buckets, c), c, n - 1, lo, hi, later);
    }
  }

  lemma {:induction false} BurstInTime(c: Call, n: nat, later: seq<Call>)
    requires InTime(c.now, later)
    ensures InTime(c.now, Burst(c, n) + later)
  {
    if n == 0 {
      assert Burst(c, n) + later == later;
    } else {
      assert (Burst(c, n) + later)[0] == c && (Burst(c, n) + later)[1..] == Burst(c, n - 1) + later;
      BurstInTime(c, n - 1, later);
    }
  }

  /** A call that opens a window, and a burst that fills it, are granted whole. */
  lemma FreshWindow(buckets: Buckets, c: Call, lo: int, hi: int)
    requires c.limit >= 1 && c.windowMs >= 1 && lo <= c.now < hi
    requires c.key in buckets ==> buckets[c.key].resetAt <= c.now
    ensures Accepted(buckets, [c] + Burst(c, c.limit - 1), c.key, lo, hi) == c.limit
  {
    var calls := [c] + Burst(c, c.limit - 1);
    assert calls[1..] == Burst(c, c.limit - 1) + [];
    BurstGranted(AfterCall(buckets, c), c, c.limit - 1, lo, hi, []);
    assert Accepted(AfterBurst(AfterCall(buckets, c), c, c.limit - 1), [], c.key, lo, hi) == 0;
  }

  /** The window opens with one call at 0, spends the rest just before it closes, and the next one all at once. */
  function Squeeze(key: string, limit: int, windowMs: int): seq<Call>
    requires limit >= 1
  {
    var late, next := Call(key, limit, windowMs, windowMs - 1), Call(key, limit, windowMs, windowMs);
    [Call(key, limit, windowMs, 0)] + (Burst(late, limit - 1) + ([next] + Burst(next, limit - 1)))
  }

  lemma FirstOutside(calls: seq<Call>, key: string, lo: int, hi: int)
    requires calls != [] && calls[0].now < lo
    ensures Accepted(map[], calls, key, lo, hi) == Accepted(AfterCall(map[], calls[0]), calls[1..], key, lo, hi)
  {
  }

  lemma SqueezeInTime(key: string, limit: int, windowMs: int)
    requires limit >= 1 && windowMs >= 2
    ensures InTime(0, Squeeze(key, limit, windowMs))
  {
    var late, next := Call(key, limit, windowMs, windowMs - 1), Call(key, limit, windowMs, windowMs);
    var tail := [next] + Burst(next, limit - 1);
    assert tail[1..] == Burst(next, limit - 1) + [];
    BurstInTime(next, limit - 1, []);
    BurstInTime(late, limit - 1, tail);
    assert Squeeze(key, limit, windowMs)[1..] == Burst(late, limit - 1) + tail;
    hide Burst;
  }

  lemma SqueezeGranted(key: string, limit: int, windowMs: int)
    requires limit >= 1 && windowMs >= 2
    ensures Accepted(map[], Squeeze(key, limit, windowMs), key, 1, 1 + windowMs) == 2 * limit - 1
  {
    var first, late := Call(key, limit, windowMs, 0), Call(key, limit, windowMs, windowMs - 1);
    var next := Call(key, limit, windowMs, windowMs);
    var calls := Squeeze(key, limit, windowMs);
    assert calls[0] == first && calls[1..] == Burst(late, limit - 1) + ([next] + Burst(next, limit - 1));
    var open := AfterCall(map[], first);
    hide Accepted, Burst, AfterBurst, Squeeze;
    FirstOutside(calls, key, 1, 1 + windowMs);
    BurstGranted(open, late, limit - 1, 1, 1 + windowMs, [next] + Burst(next, limit - 1));
    FreshWindow(AfterBurst(open, late, limit - 1), next, 1, 1 + windowMs);
  }

  /** The bound is sharp: for every limit and every window of 2 ms or more some run is granted 2 * limit - 1 calls. */
  lemma TwiceTheLimitIsReached(key: string, limit: int, windowMs: int)
    requires limit >= 1 && windowMs >= 2
    ensures var calls := Squeeze(key, limit, windowMs);
            InTime(0, calls) && Accepted(map[], calls, key, 1, 1 + windowMs) == 2 * limit - 1
  {
    SqueezeInTime(key, limit, windowMs);
    SqueezeGranted(key, limit, windowMs);
  }
}
