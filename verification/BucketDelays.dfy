/** What a reply means, and what each delay reported with a refusal promises the caller: when enough tokens are there,
    that nothing will help, when the window has room, or that only an administrator can help. */
module BucketDelays {
  import opened Arithmetic
  import opened BucketSpec
  import opened BucketRuns
  import W = WindowSpec

  // ---- the reply -------------------------------------------------------------------------------------------

  /** d is a whole number of intervals, the least after whose refills the balance has the cost. */
  ghost predicate IsLeastWait(b: BucketState, d: int) {
    exists k :: k >= 1 && IsLeastCount(b, k) && d == b.cfg.refillInterval * k
  }

  predicate IsLeastCount(b: BucketState, k: int) {
    b.tokens + b.cfg.refillRate * (k - 1) < Cost(b.cfg) <= b.tokens + b.cfg.refillRate * k
  }

  /** A blocked bucket refuses without a delay. One that has, once refilled, less than the cost refuses until the least
      number of intervals that add what is missing, or for a second when nothing is ever added. One that has the cost
      grants, unless its window refuses; then it names one interval. */
  lemma RepliesExactly(b: BucketState, now: int)
    ensures var c, reply := Refill(b, now), Allow(b, now).1;
      if b.blocked then reply == Reply(false, 0)
      else if c.tokens >= Cost(b.cfg) then
        if b.window.Some? && !W.Admits(b.window.value, now) then reply == Reply(false, b.cfg.refillInterval)
        else reply == Reply(true, 0)
      else if b.cfg.refillRate > 0 && b.cfg.refillInterval > 0 then !reply.allowed && IsLeastWait(c, reply.retryAfter)
      else reply == Reply(false, 1_000_000_000)
  {
    var c := Refill(b, now);
    var missing, r := Cost(b.cfg) - c.tokens, b.cfg.refillRate;
    if missing > 0 && r > 0 && b.cfg.refillInterval > 0 {
      var k := CeilDiv(missing, r);
      CeilBounds(missing, r);
      CeilCovers(1, missing, r);
      assert IsLeastCount(c, k);
    }
  }

  // ---- too few tokens ----------------------------------------------------------------------------------------

  /** The bucket can come to have the cost at all. */
  predicate CanRecover(cfg: Config) {
    cfg.refillRate > 0 && cfg.refillInterval > 0 && Cost(cfg) <= cfg.maxTokens
  }

  lemma {:induction false} StarvedForGood(b: BucketState, es: seq<Event>)
    requires InRange(b) && !CanRecover(b.cfg) && b.tokens < Cost(b.cfg)
    ensures GrantTimes(b, es) == []
    decreases es
  {
    if es != [] {
      StepInRange(b, es[0]);
      BalanceWithinCap(b, es[0].at);
      MulMonotone(0, Intervals(b, es[0].at), b.cfg.refillRate);
      StarvedForGood(Step(b, es[0]), es[1..]);
    }
  }

  /** A call refused for want of tokens can be followed by a grant exactly when the bucket refills and its cap has the
      cost; otherwise nothing is ever granted again, whatever is tried and whenever. */
  lemma HelpsExactlyWhen(b: BucketState, now: int)
    requires InRange(b) && !b.blocked && b.window.None? && Refill(b, now).tokens < Cost(b.cfg)
    ensures (exists t :: t >= now && Allow(Allow(b, now).0, t).1.allowed) <==> CanRecover(b.cfg)
    ensures !CanRecover(b.cfg) ==> forall es :: GrantTimes(Allow(b, now).0, es) == []
  {
    var c := Allow(b, now).0;
    StepInRange(b, Event(Call, now));
    if CanRecover(b.cfg) {
      var t := Max(now, c.lastRefill + RetryAfter(c));
      EnoughExactlyFrom(c, t);
      assert Allow(c, t).1.allowed;
    } else {
      forall es ensures GrantTimes(c, es) == [] {
        StarvedForGood(c, es);
      }
      forall t ensures !Allow(c, t).1.allowed {
        StarvedForGood(c, [Event(Call, t)]);
        assert !Grants(c, Event(Call, t));
      }
    }
  }

  // ---- a block -----------------------------------------------------------------------------------------------

  /** From a block on nothing is granted until it is lifted, however long one waits. */
  lemma {:induction false} BlockedUntilLifted(b: BucketState, es: seq<Event>)
    requires b.blocked && forall i :: 0 <= i < |es| ==> es[i].op != Unblock
    ensures GrantTimes(b, es) == [] && Final(b, es).blocked
    decreases es
  {
    if es != [] {
      BlockedUntilLifted(Step(b, es[0]), es[1..]);
    }
  }

  // ---- a full window -----------------------------------------------------------------------------------------

  /** The window holds no more than its limit. */
  predicate WithinLimit(b: BucketState) {
    b.window.Some? ==> |b.window.value.live| <= Max(b.window.value.maxRequests, 0)
  }

  lemma {:induction false} SweptIsShorter(live: seq<int>, cutoff: int)
    ensures |W.Compact(live, cutoff)| <= |live|
    ensures |W.Compact(live, cutoff)| < |live| <==> live != [] && live[0] <= cutoff
    ensures |W.Compact(live, cutoff)| == |live| ==> W.Compact(live, cutoff) == live
  {
    if live != [] && live[0] <= cutoff {
      SweptIsShorter(live[1..], cutoff);
    }
  }

  /** So it is in every life of a bucket. */
  lemma {:induction false} LifeWithinLimit(b: BucketState, es: seq<Event>)
    requires WithinLimit(b)
    ensures WithinLimit(Final(b, es))
    decreases es
  {
    if es != [] {
      if b.window.Some? {
        SweptIsShorter(b.window.value.live, es[0].at - b.window.value.duration);
      }
      LifeWithinLimit(Step(b, es[0]), es[1..]);
    }
  }

  /** The bucket has the cost, and its window is full. */
  predicate Shut(b: BucketState) {
    && InRange(b) && !b.blocked && b.tokens >= Cost(b.cfg) && b.window.Some?
    && |b.window.value.live| == Max(b.window.value.maxRequests, 0)
  }

  lemma RefilledStaysShut(b: BucketState, now: int)
    requires Shut(b)
    ensures Shut(Refill(b, now)) && Refill(b, now).window == b.window && Refill(b, now).cfg == b.cfg
  {
    BalanceWithinCap(b, now);
  }

  /** A full window grants exactly from the time its oldest admission leaves it, and is not changed by refusing. */
  lemma ShutGrantsExactly(b: BucketState, t: int)
    requires Shut(b)
    ensures var w := b.window.value;
      && (Allow(b, t).1.allowed <==> w.maxRequests > 0 && t >= w.live[0] + w.duration)
      && (!Allow(b, t).1.allowed ==> Shut(Allow(b, t).0) && Allow(b, t).0.window == b.window)
  {
    RefilledStaysShut(b, t);
    SweptIsShorter(b.window.value.live, t - b.window.value.duration);
  }

  lemma {:induction false} StaysShut(b: BucketState, es: seq<Event>)
    requires Shut(b) && CallsOnly(es) && GrantTimes(b, es) == []
    ensures Shut(Final(b, es)) && Final(b, es).window == b.window
    decreases es
  {
    if es != [] {
      ShutGrantsExactly(b, es[0].at);
      RefilledStaysShut(b, es[0].at);
      assert CallsOnly(es[1..]);
      StaysShut(Step(b, es[0]), es[1..]);
    }
  }

  /** The delay a full window's refusal names is one refill interval, and says nothing of the window: as long as nothing
      is granted, a later call is granted if and only if it comes when the oldest admission counted has left the window,
      so waiting as long as told is enough exactly when that is within one interval. */
  lemma WindowDelayExactly(b: BucketState, now: int, es: seq<Event>, t: int)
    requires InRange(b) && !b.blocked && b.window.Some? && WithinLimit(b)
    requires Refill(b, now).tokens >= Cost(b.cfg) && !Allow(b, now).1.allowed
    requires CallsOnly(es) && GrantTimes(Allow(b, now).0, es) == []
    ensures var c := Allow(b, now).0;
      var w := c.window.value;
      && Allow(b, now).1.retryAfter == b.cfg.refillInterval
      && (w.maxRequests > 0 ==> w.live != [])
      && (Allow(Final(c, es), t).1.allowed <==> w.maxRequests > 0 && t >= w.live[0] + w.duration)
  {
    var c := Allow(b, now).0;
    SweptIsShorter(b.window.value.live, now - b.window.value.duration);
    BalanceWithinCap(b, now);
    assert Shut(c);
    StaysShut(c, es);
    ShutGrantsExactly(Final(c, es), t);
  }

  // ---- no window ---------------------------------------------------------------------------------------------

  lemma {:induction false} LifeKeepsNoWindow(b: BucketState, es: seq<Event>)
    requires b.window.None?
    ensures Final(b, es).window.None? && Final(b, es).cfg == b.cfg
    decreases es
  {
    if es != [] {
      LifeKeepsNoWindow(Step(b, es[0]), es[1..]);
    }
  }

  /** Without a window, or with one that is not enabled, a bucket refuses only while it is blocked or for want
      of tokens, whatever its life so far. */
  lemma GrantsWithoutWindow(cfg: Config, t: int, es: seq<Event>, now: int)
    requires cfg.slidingWindow.Some? ==> !cfg.slidingWindow.value.enabled
    ensures var b := Final(New(cfg, t), es);
            !b.blocked && Refill(b, now).tokens >= Cost(cfg) ==> Allow(b, now).1 == Reply(true, 0)
  {
    LifeKeepsNoWindow(New(cfg, t), es);
  }
}
