/** The token bucket that limits how often a trigger fires.

    The clock counts nanoseconds and may stand still or run backwards; tokens are real numbers. */
module RateLimit {
  import opened Options

  const RATE := 60.0
  const SECOND := 1000000000

  datatype Bucket = Bucket(tokens: real, last: int)

  function Seconds(ns: int): real { ns as real / 1000000000.0 }

  /** The bucket after the time since its last refill has been added. */
  function Refilled(b: Option<Bucket>, now: int): Bucket {
    match b
    case None => Bucket(RATE, now)
    case Some(b) =>
      if now <= b.last then b
      else Bucket(if b.tokens + Seconds(now - b.last) > RATE then RATE else b.tokens + Seconds(now - b.last), now)
  }

  datatype Reply = Reply(ok: bool, retryAfter: int)

  function Take(b: Option<Bucket>, now: int): (Bucket, Reply) {
    var r := Refilled(b, now);
    if r.tokens >= 1.0 then (r.(tokens := r.tokens - 1.0), Reply(true, 0))
    else (r, Reply(false, ((1.0 - r.tokens) * 1000000000.0).Floor))
  }

  class Limiter {
    var buckets: map<string, Bucket>

    method Allow(name: string, now: int) returns (ok: bool, retryAfter: int)
      modifies this
      ensures var (b, reply) := Take(if name in old(buckets) then Some(old(buckets)[name]) else None, now);
              buckets == old(buckets)[name := b] && reply == Reply(ok, retryAfter)
    {
      if name !in buckets { buckets := buckets[name := Bucket(RATE, now)]; }
      var b := buckets[name];
      var elapsed := Seconds(now - b.last);
      if elapsed > 0.0 {
        var tokens := b.tokens + elapsed;
        if tokens > RATE { tokens := RATE; }
        b := Bucket(tokens, now);
      }
      if b.tokens >= 1.0 {
        buckets := buckets[name := b.(tokens := b.tokens - 1.0)];
        return true, 0;
      }
      buckets := buckets[name := b];
      return false, ((1.0 - b.tokens) * 1000000000.0).Floor;
    }
  }

  // ---- every bucket ----

  /** Between none and sixty tokens, a whole number of billionths. */
  ghost predicate Sound(b: Option<Bucket>) {
    b.Some? ==> 0.0 <= b.value.tokens <= RATE && Whole(b.value.tokens)
  }

  ghost predicate Whole(tokens: real) { tokens * 1000000000.0 == (tokens * 1000000000.0).Floor as real }

  lemma WholeSum(a: real, n: int)
    requires Whole(a)
    ensures Whole(a + n as real / 1000000000.0)
  {
    var k, x, y := (a * 1000000000.0).Floor, a * 1000000000.0, n as real / 1000000000.0;
    assert y * 1000000000.0 == n as real;
    assert (a + y) * 1000000000.0 == x + y * 1000000000.0 == (k + n) as real;
    assert ((k + n) as real).Floor == k + n;
  }

  lemma TakeIsSound(b: Option<Bucket>, now: int)
    requires Sound(b)
    ensures Sound(Some(Take(b, now).0))
  {
    assert Whole(RATE);
    if b.Some? { WholeSum(b.value.tokens, now - b.value.last); }
    WholeSum(Refilled(b, now).tokens, -SECOND);
  }

  // ---- how often a trigger is allowed ----

  /** The calls on one trigger, from a bucket that may not exist yet. */
  function After(b: Option<Bucket>, times: seq<int>): Option<Bucket> {
    if |times| == 0 then b else Some(Take(After(b, times[..|times| - 1]), times[|times| - 1]).0)
  }

  function Allowed(b: Option<Bucket>, times: seq<int>): nat {
    if |times| == 0 then 0
    else Allowed(b, times[..|times| - 1]) +
         if Take(After(b, times[..|times| - 1]), times[|times| - 1]).1.ok then 1 else 0
  }

  lemma {:induction false} AfterIsSound(b: Option<Bucket>, times: seq<int>)
    requires Sound(b)
    ensures Sound(After(b, times))
  {
    if |times| > 0 {
      AfterIsSound(b, times[..|times| - 1]);
      TakeIsSound(After(b, times[..|times| - 1]), times[|times| - 1]);
    }
  }

  /** The tokens left and the calls allowed are paid for by the first refill and the time since. */
  lemma {:induction false} TokensPay(b: Option<Bucket>, times: seq<int>)
    requires Sound(b) && |times| > 0
    ensures var r := After(b, times).value;
            r.tokens + Allowed(b, times) as real <= RATE + Seconds(r.last - Refilled(b, times[0]).last)
            && Refilled(b, times[0]).last <= r.last
  {
    var init, now := times[..|times| - 1], times[|times| - 1];
    AfterIsSound(b, init);
    if |init| == 0 {
      assert init == [];
      assert Take(b, now).0.last == Refilled(b, now).last;
    } else {
      assert init[0] == times[0];
      TokensPay(b, init);
      var p := After(b, init).value;
      assert now > p.last ==>
             Seconds(now - Refilled(b, times[0]).last) ==
             Seconds(now - p.last) + Seconds(p.last - Refilled(b, times[0]).last);
    }
  }

  predicate Nondecreasing(times: seq<int>) { forall i, j :: 0 <= i <= j < |times| ==> times[i] <= times[j] }

  /** The last refill is no later than the last call. */
  lemma {:induction false} LastIsPast(b: Option<Bucket>, times: seq<int>)
    requires |times| > 0 && Nondecreasing(times) && (b.Some? ==> b.value.last <= times[0])
    ensures After(b, times).value.last == times[|times| - 1]
  {
    var init := times[..|times| - 1];
    if |init| > 0 { LastIsPast(b, init); } else { assert init == []; }
  }

  lemma {:induction false} AfterJoins(b: Option<Bucket>, before: seq<int>, times: seq<int>)
    ensures After(b, before + times) == After(After(b, before), times)
    ensures Allowed(b, before + times) == Allowed(b, before) + Allowed(After(b, before), times)
    decreases |times|
  {
    hide Take;
    if |times| == 0 {
      assert before + times == before;
    } else {
      AfterJoins(b, before, times[..|times| - 1]);
      assert (before + times)[..|before + times| - 1] == before + times[..|times| - 1];
    }
  }

  /** With a clock that does not run backwards, the calls of any window of time are allowed at most 60 times
      and once more for every second of the window, whatever came before. */
  lemma WindowIsLimited(before: seq<int>, window: seq<int>, from: int, to: int)
    requires |window| > 0 && Nondecreasing(before + window) && from <= window[0] && window[|window| - 1] <= to
    ensures (Allowed(None, before + window) - Allowed(None, before)) as real <= RATE + Seconds(to - from)
  {
    var b := After(None, before);
    AfterJoins(None, before, window);
    AfterIsSound(None, before);
    AfterIsSound(b, window);
    SplitTimes(before, window);
    if |before| > 0 { LastIsPast(None, before); }
    TokensPay(b, window);
    LastIsPast(b, window);
    RefilledAt(b, window[0]);
    hide Take, After, Allowed, Refilled, Sound, Nondecreasing;
    SecondsGrow(window[|window| - 1] - window[0], to - from);
  }

  lemma RefilledAt(b: Option<Bucket>, now: int)
    requires b.Some? ==> b.value.last <= now
    ensures Refilled(b, now).last == now
  {
  }

  lemma SplitTimes(before: seq<int>, window: seq<int>)
    requires Nondecreasing(before + window) && |window| > 0
    ensures Nondecreasing(before) && Nondecreasing(window) && (|before| > 0 ==> before[|before| - 1] <= window[0])
  {
    var all := before + window;
    assert forall i :: 0 <= i < |window| ==> window[i] == all[|before| + i];
    assert forall i :: 0 <= i < |before| ==> before[i] == all[i];
  }

  lemma SecondsGrow(a: int, b: int)
    requires a <= b
    ensures Seconds(a) <= Seconds(b)
  {
  }

  // ---- what is allowed at least ----

  function Same(now: int, n: nat): seq<int> { seq(n, i => now) }

  /** Of any number of calls on a new trigger at one time exactly the first sixty are allowed. */
  lemma {:induction false} BurstIsExact(now: int, n: nat)
    ensures Allowed(None, Same(now, n)) == if n < 60 then n else 60
    ensures n > 0 ==> After(None, Same(now, n)) == Some(Bucket((if n < 60 then 60 - n else 0) as real, now))
  {
    if n > 0 {
      assert Same(now, n)[..n - 1] == Same(now, n - 1);
      BurstIsExact(now, n - 1);
    }
  }

  /** The call comes a second or more after the last refill. */
  predicate Spaced(b: Option<Bucket>, times: seq<int>) {
    && (b.Some? && |times| > 0 ==> b.value.last + SECOND <= times[0])
    && forall i :: 0 < i < |times| ==> times[i - 1] + SECOND <= times[i]
  }

  /** Calls a second apart are all allowed, whatever came before. */
  lemma {:induction false} SteadyIsAllowed(b: Option<Bucket>, times: seq<int>)
    requires Sound(b) && Spaced(b, times)
    ensures Allowed(b, times) == |times|
    ensures |times| > 0 ==> After(b, times).value.last == times[|times| - 1]
  {
    if |times| > 0 {
      var init, now := times[..|times| - 1], times[|times| - 1];
      SteadyIsAllowed(b, init);
      AfterIsSound(b, init);
      var p := After(b, init);
      if p.Some? {
        SecondsGrow(SECOND, now - p.value.last);
        assert Seconds(SECOND) == 1.0;
      }
    }
  }

  // ---- when to come back ----

  /** The wait named by a denied call is at most a second, and exactly the least after which the next call is
      allowed. */
  lemma RetryAfterIsLeast(b: Option<Bucket>, now: int, wait: nat)
    requires Sound(b) && !Take(b, now).1.ok && (b.Some? ==> b.value.last <= now)
    ensures 0 < Take(b, now).1.retryAfter <= SECOND
    ensures Take(Some(Take(b, now).0), now + wait).1.ok <==> wait >= Take(b, now).1.retryAfter
  {
    TakeIsSound(b, now);
    var r := Take(b, now).0;
    var billionths := (r.tokens * 1000000000.0).Floor;
    var retry := Take(b, now).1.retryAfter;
    assert r.last == now;
    assert (1.0 - r.tokens) * 1000000000.0 == (SECOND - billionths) as real;
    assert retry == SECOND - billionths;
    assert r.tokens == billionths as real / 1000000000.0;
    assert r.tokens + Seconds(wait) == (billionths + wait) as real / 1000000000.0;
  }
}
