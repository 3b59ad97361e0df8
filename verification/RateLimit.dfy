/** TokenBucketLimiter: lazily refilled buckets in a dictionary that forgets the least recent key. */
module RateLimit {
  import opened Logs

  datatype Config = Config(rate: real, burst: int, maxKeys: nat)

  datatype Bucket = Bucket(tokens: real, last: real)

  // ---- one bucket ---------------------------------------------------------

  function Min(a: real, b: real): real {
    if a <= b then a else b
  }

  /** The tokens a bucket holds at `now`: refilled at `rate`, never above `burst`. */
  function Level(cfg: Config, b: Bucket, now: real): real {
    Min(cfg.burst as real, b.tokens + Inflow(cfg, b.last, now))
  }

  function FreshBucket(cfg: Config, now: real): Bucket {
    Bucket(cfg.burst as real, now)
  }

  /** One check: the bucket afterwards, and 0 or the seconds to wait. */
  function CheckBucket(cfg: Config, b: Bucket, now: real): (Bucket, real)
    requires cfg.rate > 0.0
  {
    var tokens := Level(cfg, b, now);
    if tokens >= 1.0 then (Bucket(tokens - 1.0, now), 0.0) else (Bucket(tokens, now), (1.0 - tokens) / cfg.rate)
  }

  predicate Allows(cfg: Config, b: Bucket, now: real) {
    Level(cfg, b, now) >= 1.0
  }

  ghost predicate BucketInv(cfg: Config, b: Bucket) {
    b.tokens <= cfg.burst as real && (cfg.burst >= 0 ==> b.tokens >= 0.0)
  }

  /** The tokens that flow in between two instants. */
  function Inflow(cfg: Config, from: real, until: real): real {
    (until - from) * cfg.rate
  }

  lemma InflowAdds(cfg: Config, a: real, b: real, c: real)
    ensures Inflow(cfg, a, c) == Inflow(cfg, a, b) + Inflow(cfg, b, c)
  {}

  lemma InflowGrows(cfg: Config, a: real, b: real, c: real)
    requires cfg.rate > 0.0
    ensures b <= c <==> Inflow(cfg, a, b) <= Inflow(cfg, a, c)
    ensures Inflow(cfg, a, a) == 0.0
  {
    InflowAdds(cfg, a, b, c);
    Positive(c - b, cfg.rate);
  }

  lemma Positive(x: real, rate: real)
    requires rate > 0.0
    ensures x >= 0.0 <==> x * rate >= 0.0
  {}

  /** Tokens stay between zero and the burst, and the answer is 0 exactly when a token was there. */
  lemma CheckKeepsBucket(cfg: Config, b: Bucket, now: real)
    requires cfg.rate > 0.0 && BucketInv(cfg, b) && b.last <= now
    ensures BucketInv(cfg, CheckBucket(cfg, b, now).0) && CheckBucket(cfg, b, now).0.last == now
    ensures CheckBucket(cfg, b, now).1 == 0.0 <==> Allows(cfg, b, now)
    ensures CheckBucket(cfg, b, now).1 >= 0.0
  {
    InflowGrows(cfg, b.last, b.last, now);
    if !Allows(cfg, b, now) {
      WaitFills(cfg, b, now);
      Positive(CheckBucket(cfg, b, now).1, cfg.rate);
    }
  }

  /** The announced wait is what fills the bucket up to one token. */
  lemma WaitFills(cfg: Config, b: Bucket, now: real)
    requires cfg.rate > 0.0 && !Allows(cfg, b, now)
    ensures CheckBucket(cfg, b, now).1 * cfg.rate == 1.0 - Level(cfg, b, now)
  {}

  /** Refilling at an instant in between changes nothing: lazy refill is a continuous, capped one. */
  lemma RefillIsContinuous(cfg: Config, b: Bucket, between: real, now: real)
    requires cfg.rate > 0.0 && b.last <= between <= now
    ensures Level(cfg, Bucket(Level(cfg, b, between), between), now) == Level(cfg, b, now)
  {
    InflowGrows(cfg, between, between, now);
    InflowAdds(cfg, b.last, between, now);
  }

  // ---- the retry hint -----------------------------------------------------

  ghost predicate Ascending(times: seq<real>) {
    forall i, j :: 0 <= i < j < |times| ==> times[i] <= times[j]
  }

  /** The bucket after checks at `times`. */
  function AfterChecks(cfg: Config, b: Bucket, times: seq<real>): Bucket
    requires cfg.rate > 0.0
  {
    if times == [] then b else CheckBucket(cfg, AfterChecks(cfg, b, times[..|times| - 1]), times[|times| - 1]).0
  }

  /** Until the wait is over the bucket is short of a token; from its end on it has one. */
  lemma WaitIsExact(cfg: Config, before: Bucket, t: real, now: real)
    requires cfg.rate > 0.0 && before.last <= t <= now && BucketInv(cfg, before) && !Allows(cfg, before, t)
    ensures var (b, wait) := CheckBucket(cfg, before, t);
      Allows(cfg, b, now) <==> cfg.burst >= 1 && now >= t + wait
  {
    var (b, wait) := CheckBucket(cfg, before, t);
    WaitFills(cfg, before, t);
    assert Inflow(cfg, t, t + wait) == 1.0 - b.tokens;
    InflowGrows(cfg, t, t + wait, now);
  }

  /** After a denial at `t` that asked to wait, and any further checks before the wait is over, a
      check is allowed exactly from the end of the wait on. (With a burst below one nothing is ever
      allowed.) */
  lemma {:induction false} RetryHintIsExact(cfg: Config, before: Bucket, t: real, times: seq<real>, now: real)
    requires cfg.rate > 0.0 && before.last <= t && BucketInv(cfg, before) && !Allows(cfg, before, t)
    requires Ascending(times) && forall i :: 0 <= i < |times| ==> t <= times[i] < t + CheckBucket(cfg, before, t).1
    requires t <= now && (times != [] ==> times[|times| - 1] <= now)
    ensures var (b, wait) := CheckBucket(cfg, before, t);
      && Level(cfg, AfterChecks(cfg, b, times), now) == Level(cfg, b, now)
      && (Allows(cfg, AfterChecks(cfg, b, times), now) <==> cfg.burst >= 1 && now >= t + wait)
  {
    var (b, wait) := CheckBucket(cfg, before, t);
    WaitIsExact(cfg, before, t, now);
    if times != [] {
      var front, last := times[..|times| - 1], times[|times| - 1];
      RetryHintIsExact(cfg, before, t, front, last);
      assert AfterChecks(cfg, b, times) == Bucket(Level(cfg, b, last), last);
      RefillIsContinuous(cfg, b, last, now);
    }
  }

  /** Checks at `times`, none after `now`, that all came before the wait announced at `t` was over. */
  ghost predicate BeforeWaitEnds(cfg: Config, before: Bucket, t: real, times: seq<real>, now: real)
    requires cfg.rate > 0.0
  {
    && Ascending(times) && (forall i :: 0 <= i < |times| ==> t <= times[i] < t + CheckBucket(cfg, before, t).1)
    && (times != [] ==> times[|times| - 1] <= now)
  }

  /** One more denied check was one more before the wait was over. */
  lemma OneMoreDenied(cfg: Config, before: Bucket, t: real, times: seq<real>, now: real)
    requires cfg.rate > 0.0 && cfg.burst >= 1 && before.last <= t <= now && BucketInv(cfg, before)
             && !Allows(cfg, before, t)
    requires BeforeWaitEnds(cfg, before, t, times, now)
    requires !Allows(cfg, AfterChecks(cfg, CheckBucket(cfg, before, t).0, times), now)
    ensures BeforeWaitEnds(cfg, before, t, times + [now], now)
    ensures AfterChecks(cfg, CheckBucket(cfg, before, t).0, times + [now])
         == CheckBucket(cfg, AfterChecks(cfg, CheckBucket(cfg, before, t).0, times), now).0
  {
    RetryHintIsExact(cfg, before, t, times, now);
    assert (times + [now])[..|times|] == times;
  }

  function Ceil(x: real): int {
    -((-x).Floor)
  }

  /** `retry_after_header`: whole seconds, at least one. */
  function RetryAfter(wait: real): int {
    if Ceil(wait) > 1 then Ceil(wait) else 1
  }

  /** A client that waits the announced seconds and was not overtaken gets its token, and no smaller
      announcement of at least one second would do. */
  lemma RetryAfterSuffices(cfg: Config, before: Bucket, t: real, seconds: int)
    requires cfg.rate > 0.0 && cfg.burst >= 1 && BucketInv(cfg, before) && before.last <= t && !Allows(cfg, before, t)
    requires seconds >= 1
    ensures Allows(cfg, CheckBucket(cfg, before, t).0, t + seconds as real)
       <==> seconds >= RetryAfter(CheckBucket(cfg, before, t).1)
  {
    var wait := CheckBucket(cfg, before, t).1;
    CheckKeepsBucket(cfg, before, t);
    WaitIsExact(cfg, before, t, t + seconds as real);
    CeilIsLeast(wait, seconds);
  }

  lemma CeilIsLeast(x: real, n: int)
    ensures n as real >= x <==> n >= Ceil(x)
  {
    var f := (-x).Floor;
    assert f as real <= -x < f as real + 1.0;
    if n >= Ceil(x) {
      assert n as real >= (-f) as real == -(f as real);
    } else {
      assert n + 1 <= -f;
      assert (n + 1) as real <= (-f) as real == -(f as real);
    }
  }

  // ---- the rate bound -----------------------------------------------------

  function Allowed(cfg: Config, b: Bucket, times: seq<real>): nat
    requires cfg.rate > 0.0
  {
    if times == [] then 0
    else
      Allowed(cfg, b, times[..|times| - 1])
      + if Allows(cfg, AfterChecks(cfg, b, times[..|times| - 1]), times[|times| - 1]) then 1 else 0
  }

  /** Checks between `from` and `until` on a bucket in any state allow at most what the bucket held
      plus what flowed in, so at most burst + rate * T in any window of length T. */
  lemma {:induction false} RateBound(cfg: Config, b: Bucket, times: seq<real>, from: real, until: real)
    requires cfg.rate > 0.0 && cfg.burst >= 0 && BucketInv(cfg, b) && b.last <= from <= until
    requires Ascending(times) && forall i :: 0 <= i < |times| ==> from <= times[i] <= until
    ensures BucketInv(cfg, AfterChecks(cfg, b, times)) && AfterChecks(cfg, b, times).last <= until
    ensures Allowed(cfg, b, times) as real + Level(cfg, AfterChecks(cfg, b, times), until)
              <= Level(cfg, b, from) + Inflow(cfg, from, until)
    ensures Allowed(cfg, b, times) as real <= cfg.burst as real + Inflow(cfg, from, until)
  {
    InflowGrows(cfg, from, from, until);
    if times == [] {
      RefillIsContinuous(cfg, b, from, until);
      InflowGrows(cfg, b.last, b.last, from);
      InflowAdds(cfg, b.last, from, until);
      LevelIsCapped(cfg, b, until);
    } else {
      var front, last := times[..|times| - 1], times[|times| - 1];
      var mid := AfterChecks(cfg, b, front);
      RateBound(cfg, b, front, from, last);
      OneCheck(cfg, mid, last, until);
      InflowAdds(cfg, from, last, until);
    }
  }

  /** What a check takes and what is left at `until` came out of the bucket or flowed in since. */
  lemma OneCheck(cfg: Config, b: Bucket, now: real, until: real)
    requires cfg.rate > 0.0 && cfg.burst >= 0 && BucketInv(cfg, b) && b.last <= now <= until
    ensures var after := CheckBucket(cfg, b, now).0;
      && BucketInv(cfg, after) && after.last == now
      && (if Allows(cfg, b, now) then 1.0 else 0.0) + Level(cfg, after, until)
           <= Level(cfg, b, now) + Inflow(cfg, now, until)
      && 0.0 <= Level(cfg, after, until)
  {
    CheckKeepsBucket(cfg, b, now);
    LevelIsCapped(cfg, CheckBucket(cfg, b, now).0, until);
  }

  lemma LevelIsCapped(cfg: Config, b: Bucket, now: real)
    requires cfg.rate > 0.0 && cfg.burst >= 0 && BucketInv(cfg, b) && b.last <= now
    ensures 0.0 <= Level(cfg, b, now) <= cfg.burst as real
    ensures Level(cfg, b, now) <= b.tokens + Inflow(cfg, b.last, now)
  {
    InflowGrows(cfg, b.last, b.last, now);
  }

  // ---- and what is granted --------------------------------------------------

  /** A burst gets every whole token there is: of n checks at one instant exactly as many are allowed as
      the bucket holds whole tokens, and those are what it is short of afterwards. */
  lemma {:induction false} BurstIsExact(cfg: Config, b: Bucket, now: real, times: seq<real>)
    requires cfg.rate > 0.0 && cfg.burst >= 0 && BucketInv(cfg, b) && b.last <= now
    requires forall i :: 0 <= i < |times| ==> times[i] == now
    ensures BucketInv(cfg, AfterChecks(cfg, b, times)) && AfterChecks(cfg, b, times).last <= now
    ensures Level(cfg, AfterChecks(cfg, b, times), now) == Level(cfg, b, now) - Allowed(cfg, b, times) as real
    ensures var whole := Level(cfg, b, now).Floor;
            Allowed(cfg, b, times) == if |times| <= whole then |times| else whole
  {
    LevelIsCapped(cfg, b, now);
    if times != [] {
      var front := times[..|times| - 1];
      var mid := AfterChecks(cfg, b, front);
      BurstIsExact(cfg, b, now, front);
      CheckKeepsBucket(cfg, mid, now);
      LevelAtOnce(cfg, mid, now);
    }
  }

  /** What one check leaves, at the same instant. */
  lemma LevelAtOnce(cfg: Config, b: Bucket, now: real)
    requires cfg.rate > 0.0 && cfg.burst >= 0 && BucketInv(cfg, b) && b.last <= now
    ensures Level(cfg, CheckBucket(cfg, b, now).0, now) == Level(cfg, b, now) - if Allows(cfg, b, now) then 1.0 else 0.0
  {
    InflowGrows(cfg, now, now, now);
    LevelIsCapped(cfg, b, now);
  }

  /** A client that starts with a token and keeps 1/rate seconds between its checks is never denied. */
  lemma {:induction false} SteadyClientIsNeverDenied(cfg: Config, b: Bucket, times: seq<real>)
    requires cfg.rate > 0.0 && cfg.burst >= 1 && BucketInv(cfg, b)
    requires times != [] ==> b.last <= times[0] && Allows(cfg, b, times[0])
    requires forall i :: 0 < i < |times| ==> times[i - 1] <= times[i] && Inflow(cfg, times[i - 1], times[i]) >= 1.0
    ensures BucketInv(cfg, AfterChecks(cfg, b, times))
    ensures times != [] ==> AfterChecks(cfg, b, times).last == times[|times| - 1]
    ensures Allowed(cfg, b, times) == |times|
  {
    if times != [] {
      var front, last := times[..|times| - 1], times[|times| - 1];
      var mid := AfterChecks(cfg, b, front);
      SteadyClientIsNeverDenied(cfg, b, front);
      if front != [] {
        assert mid.last == front[|front| - 1] == times[|times| - 2];
        assert Inflow(cfg, mid.last, last) >= 1.0;
      }
      CheckKeepsBucket(cfg, mid, last);
    }
  }
}
