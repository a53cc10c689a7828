/** The same refill and debit in 64-bit two's-complement arithmetic, with Go's saturating time
    subtraction and truncating division. */
module MachineBucket {
  import opened Arithmetic
  import opened Wrappers
  import opened BucketSpec
  import R = BucketRuns
  import W = WindowSpec

  const TWO63 := 0x8000_0000_0000_0000
  const TWO64 := 0x1_0000_0000_0000_0000
  const MILLISECOND := 1_000_000
  const HOUR := 3600 * SECOND

  predicate Fits(x: int) { -TWO63 <= x < TWO63 }

  /** The value left after 64-bit overflow. */
  function Wrap(x: int): int { (x + TWO63) % TWO64 - TWO63 }

  /** Duration between two instants, clamped to what a Duration can hold. */
  function SaturatingSub(a: int, b: int): int {
    if a - b >= TWO63 then TWO63 - 1 else if a - b < -TWO63 then -TWO63 else a - b
  }

  /** Division truncating toward zero. */
  function TruncDiv(a: int, b: int): int
    requires b > 0
  {
    if a >= 0 then a / b else -((-a) / b)
  }

  /** The bounds an administrator's parameters are checked against. */
  predicate Validated(cfg: Config) {
    && 1 <= cfg.maxTokens <= 1_000_000
    && 0 <= cfg.refillRate <= 100_000
    && (cfg.refillRate > 0 ==> 10 * MILLISECOND <= cfg.refillInterval <= HOUR)
  }

  lemma WrapFits(x: int)
    requires Fits(x)
    ensures Wrap(x) == x
  {
  }

  function MachineRefill(b: BucketState, now: int): BucketState {
    if b.cfg.refillInterval <= 0 then b
    else
      var intervals := TruncDiv(SaturatingSub(now, b.lastRefill), b.cfg.refillInterval);
      if intervals <= 0 then b
      else MachineApply(b, intervals * b.cfg.refillInterval, intervals * b.cfg.refillRate)
  }

  function MachineApply(b: BucketState, span: int, tokensToAdd: int): BucketState {
    var updated := Wrap(b.tokens + Wrap(tokensToAdd));
    b.(lastRefill := Wrap(b.lastRefill + Wrap(span)),
       tokens := if updated > b.cfg.maxTokens then b.cfg.maxTokens else updated)
  }

  lemma ApplyExact(b: BucketState, span: int, tokensToAdd: int)
    requires Fits(span) && Fits(b.lastRefill + span) && Fits(tokensToAdd) && Fits(b.tokens + tokensToAdd)
    ensures MachineApply(b, span, tokensToAdd)
         == b.(lastRefill := b.lastRefill + span, tokens := Min(b.tokens + tokensToAdd, b.cfg.maxTokens))
  {
    WrapFits(span);
    WrapFits(b.lastRefill + span);
    WrapFits(tokensToAdd);
    WrapFits(b.tokens + tokensToAdd);
  }

  function MachineRetryAfter(b: BucketState): int {
    if b.cfg.refillRate <= 0 || b.cfg.refillInterval <= 0 then SECOND
    else
      var deficit := Wrap(Cost(b.cfg) - b.tokens);
      var intervals := TruncDiv(Wrap(Wrap(deficit + b.cfg.refillRate) - 1), b.cfg.refillRate);
      Wrap(intervals * b.cfg.refillInterval)
  }

  /** Allow with the bucket's arithmetic in 64 bits; the window is asked as on values. */
  function MachineAllow(b: BucketState, now: int): (BucketState, Reply) {
    if b.blocked then (b, Reply(false, 0)) else MachineConsume(MachineRefill(b, now).(lastAccess := now), now)
  }

  function MachineConsume(c: BucketState, now: int): (BucketState, Reply) {
    if c.tokens < Cost(c.cfg) then (c, Reply(false, MachineRetryAfter(c)))
    else
      var debited := Wrap(c.tokens - Cost(c.cfg));
      if c.window.None? then (c.(tokens := debited), Reply(true, 0))
      else
        var d := c.(window := Some(W.Allow(c.window.value, now)));
        if W.Admits(c.window.value, now) then (d.(tokens := debited), Reply(true, 0))
        else (d.(tokens := Wrap(debited + Cost(c.cfg))), Reply(false, c.cfg.refillInterval))
  }

  /** The refill's products and sums. */
  predicate RefillFits(b: BucketState, now: int) {
    b.cfg.refillInterval > 0 ==>
      var k := TruncDiv(SaturatingSub(now, b.lastRefill), b.cfg.refillInterval);
      k > 0 ==>
        && Fits(k * b.cfg.refillInterval) && Fits(b.lastRefill + k * b.cfg.refillInterval)
        && Fits(k * b.cfg.refillRate) && Fits(b.tokens + k * b.cfg.refillRate)
  }

  /** The estimate's sums and product. */
  predicate RetryFits(b: BucketState) {
    && Fits(Cost(b.cfg) - b.tokens) && Fits(Cost(b.cfg) - b.tokens + b.cfg.refillRate)
    && (b.cfg.refillRate > 0 && b.cfg.refillInterval > 0 ==>
          Fits(CeilDiv(Cost(b.cfg) - b.tokens, b.cfg.refillRate) * b.cfg.refillInterval))
  }

  /** A bucket an administrator could have set up, at rest between calls. */
  predicate Deployed(b: BucketState) {
    && Validated(b.cfg) && Fits(b.cfg.refillInterval) && Fits(b.lastRefill)
    && 0 <= b.tokens <= b.cfg.maxTokens
  }

  lemma IntervalsBounded(elapsed: int, d: int)
    requires d > 0 && elapsed < TWO63
    ensures TruncDiv(elapsed, d) * d <= Max(elapsed, 0)
    ensures d >= 10 * MILLISECOND ==> TruncDiv(elapsed, d) <= 922_337_203_686
  {
    if elapsed >= 0 {
      FloorBounds(elapsed, d);
      if d >= 10 * MILLISECOND {
        var q := elapsed / d;
        if q > 922_337_203_686 {
          MulMonotone(922_337_203_687, q, d);
          MulMonotone(10 * MILLISECOND, d, 922_337_203_687);
        }
      }
    } else {
      FloorReaches(-elapsed, d, 0);
      MulMonotone(0, (-elapsed) / d, d);
    }
  }

  lemma TokensToAddFit(k: int, r: int)
    requires 0 < k && 0 <= r <= 100_000
    requires r > 0 ==> k <= 922_337_203_686
    ensures 0 <= k * r <= 92_233_720_368_600_000
  {
    if r > 0 {
      MulMonotone(1, k, r);
      MulMonotone(r, 100_000, k);
    }
  }

  /** No product or sum of the refill overflows, for any two 64-bit times. */
  lemma RefillNeverOverflows(b: BucketState, now: int)
    requires Deployed(b) && Fits(now)
    ensures RefillFits(b, now)
  {
    var d := b.cfg.refillInterval;
    if d > 0 {
      var elapsed := SaturatingSub(now, b.lastRefill);
      var k := TruncDiv(elapsed, d);
      IntervalsBounded(elapsed, d);
      if k > 0 {
        MulMonotone(1, k, d);
        TokensToAddFit(k, b.cfg.refillRate);
      }
    }
  }

  // ---- retry-after -------------------------------------------------------------------------------

  /** The delay a rejection reports fits a duration. */
  predicate RetrySafe(b: BucketState) {
    b.cfg.refillRate <= 0 || b.cfg.refillInterval <= 0
    || CeilDiv(Cost(b.cfg) - b.tokens, b.cfg.refillRate) * b.cfg.refillInterval < TWO63
  }

  lemma CeilNonnegative(x: int, r: int)
    requires x >= 1 && r > 0
    ensures CeilDiv(x, r) >= 1 && x <= CeilDiv(x, r) * r
  {
    FloorReaches(x + r - 1, r, 1);
    CeilBounds(x, r);
  }

  /** A delay that fits comes from a deficit nowhere near the end of the range. */
  lemma SafeDeficitIsSmall(deficit: int, r: int, d: int)
    requires deficit >= 1 && 0 < r <= 100_000 && d >= 10 * MILLISECOND && CeilDiv(deficit, r) * d < TWO63
    ensures deficit < TWO63 - 100_000
  {
    var q := CeilDiv(deficit, r);
    CeilNonnegative(deficit, r);
    MulMonotone(10 * MILLISECOND, d, q);
    assert q < 1_000_000_000_000;
    MulMonotone(r, 100_000, q);
  }

  /** The estimate is the mathematical one exactly when that fits a duration: a machine delay always does, and
      when the mathematical one does too nothing on the way to it overflows. */
  lemma RetryExactlyWhen(b: BucketState)
    requires Deployed(b) && Fits(Cost(b.cfg)) && b.tokens < Cost(b.cfg)
    ensures MachineRetryAfter(b) == RetryAfter(b) <==> RetrySafe(b)
    ensures RetrySafe(b) ==> RetryFits(b)
  {
    var r, d := b.cfg.refillRate, b.cfg.refillInterval;
    var deficit := Cost(b.cfg) - b.tokens;
    if r > 0 && d > 0 {
      var q := CeilDiv(deficit, r);
      CeilNonnegative(deficit, r);
      assert d * q == q * d;
      if q * d < TWO63 {
        SafeDeficitIsSmall(deficit, r, d);
        MulMonotone(0, q, d);
        WrapFits(deficit);
        WrapFits(deficit + r);
        WrapFits(deficit + r - 1);
        WrapFits(q * d);
      }
    }
  }

  /** A bigger balance waits no longer. */
  lemma RetrySafeFromLess(b: BucketState, tokens: int)
    requires RetrySafe(b.(tokens := tokens)) && tokens <= b.tokens
    ensures RetrySafe(b)
  {
    var r, d := b.cfg.refillRate, b.cfg.refillInterval;
    if r > 0 && d > 0 {
      FloorMonotone(Cost(b.cfg) - b.tokens + r - 1, Cost(b.cfg) - tokens + r - 1, r);
      MulMonotone(CeilDiv(Cost(b.cfg) - b.tokens, r), CeilDiv(Cost(b.cfg) - tokens, r), d);
    }
  }

  /** Costs of at most a million tokens are safe at every balance. */
  lemma RetryNeverOverflows(b: BucketState)
    requires Deployed(b) && Cost(b.cfg) <= 1_000_000
    ensures RetrySafe(b.(tokens := 0)) && RetrySafe(b)
    ensures b.tokens < Cost(b.cfg) ==> RetryFits(b) && MachineRetryAfter(b) == RetryAfter(b)
  {
    var r, d := b.cfg.refillRate, b.cfg.refillInterval;
    if r > 0 && d > 0 {
      var cost := Cost(b.cfg);
      var q := CeilDiv(cost, r);
      MulMonotone(1, r, cost);
      CeilCoversDeficit(cost, r);
      MulMonotone(q, 1_000_000, d);
      MulMonotone(d, HOUR, 1_000_000);
    }
    RetrySafeFromLess(b, 0);
    if b.tokens < Cost(b.cfg) {
      RetryExactlyWhen(b);
    }
  }

  lemma CeilCoversDeficit(x: int, r: int)
    requires x >= 1 && r >= 1
    ensures CeilDiv(x, r) <= x
  {
    MulMonotone(1, r, x);
    FloorReaches(x + r - 1, r, x + 1);
    Distribute(r, x, 1);
  }

  // ---- the refill ------------------------------------------------------------------------------------

  lemma ClockBehindRefill(b: BucketState, now: int)
    requires b.cfg.refillInterval > 0 && now < b.lastRefill
    ensures TruncDiv(SaturatingSub(now, b.lastRefill), b.cfg.refillInterval) <= 0
    ensures Intervals(b, now) == 0
  {
    var d := b.cfg.refillInterval;
    FloorReaches(now - b.lastRefill, d, 1);
    FloorReaches(-SaturatingSub(now, b.lastRefill), d, 0);
  }

  /** Unless the subtraction saturates, the machine's refill is the mathematical one. */
  lemma MachineRefillExact(b: BucketState, now: int)
    requires Deployed(b) && Fits(now) && now - b.lastRefill < TWO63
    ensures MachineRefill(b, now) == Refill(b, now)
  {
    RefillNeverOverflows(b, now);
    var d := b.cfg.refillInterval;
    if d > 0 {
      if now < b.lastRefill {
        ClockBehindRefill(b, now);
      } else {
        var k := (now - b.lastRefill) / d;
        assert TruncDiv(SaturatingSub(now, b.lastRefill), d) == k;
        FloorReaches(now - b.lastRefill, d, 0);
        if k > 0 {
          ApplyExact(b, k * d, k * b.cfg.refillRate);
        }
      }
    }
  }

  /** When it does saturate the balance is right all the same: both refills fill the bucket, or neither adds. */
  lemma MachineRefillSaturated(b: BucketState, now: int)
    requires Deployed(b) && Fits(now) && now - b.lastRefill >= TWO63
    ensures MachineRefill(b, now) == Refill(b, now).(lastRefill := MachineRefill(b, now).lastRefill)
    ensures b.cfg.refillRate > 0 ==> Refill(b, now).tokens == b.cfg.maxTokens
    ensures b.cfg.refillInterval > 0 ==>
      MachineRefill(b, now).lastRefill == b.lastRefill + (TWO63 - 1) / b.cfg.refillInterval * b.cfg.refillInterval
  {
    RefillNeverOverflows(b, now);
    var d, r := b.cfg.refillInterval, b.cfg.refillRate;
    if d > 0 {
      var x := now - b.lastRefill;
      var k, m := (TWO63 - 1) / d, Intervals(b, now);
      FloorMonotone(TWO63 - 1, x, d);
      FloorReaches(TWO63 - 1, d, 0);
      if r > 0 {
        ManyIntervals(k, d, r);
        MulMonotone(1_000_000, m, r);
        MulMonotone(1, r, 1_000_000);
      }
      if k > 0 {
        ApplyExact(b, k * d, k * r);
      }
    }
  }

  /** More than enough intervals to fill any bucket. */
  lemma ManyIntervals(k: int, d: int, r: int)
    requires 0 < d <= HOUR && r > 0 && k == (TWO63 - 1) / d
    ensures k >= 1_000_000 && k * r >= 1_000_000
  {
    MulMonotone(d, HOUR, 1_000_000);
    FloorReaches(TWO63 - 1, d, 1_000_000);
    MulMonotone(1_000_000, k, r);
    MulMonotone(1, r, 1_000_000);
  }

  /** The time since the last refill is one a duration can hold, or is cut to one with as many whole intervals. */
  predicate ElapsedSafe(b: BucketState, now: int) {
    b.cfg.refillInterval <= 0 || now - b.lastRefill < TWO63
    || (now - b.lastRefill) / b.cfg.refillInterval == (TWO63 - 1) / b.cfg.refillInterval
  }

  /** The machine's refill, refill time and all, is the mathematical one exactly then. */
  lemma MachineRefillExactlyWhen(b: BucketState, now: int)
    requires Deployed(b) && Fits(now)
    ensures MachineRefill(b, now) == Refill(b, now) <==> ElapsedSafe(b, now)
  {
    if now - b.lastRefill < TWO63 {
      MachineRefillExact(b, now);
    } else if b.cfg.refillInterval > 0 {
      MachineRefillSaturated(b, now);
      var d := b.cfg.refillInterval;
      var k, m := (TWO63 - 1) / d, (now - b.lastRefill) / d;
      FloorMonotone(TWO63 - 1, now - b.lastRefill, d);
      FloorReaches(TWO63 - 1, d, 0);
      MulCancel(k, m, d);
      assert Refill(b, now).lastRefill == b.lastRefill + d * m;
    }
  }

  // ---- one call ----------------------------------------------------------------------------------------

  /** The call is granted, or the delay it reports fits. */
  predicate ReplySafe(b: BucketState, now: int) {
    b.blocked || Refill(b, now).tokens >= Cost(b.cfg) || RetrySafe(Refill(b, now))
  }

  lemma RefillDeployed(b: BucketState, now: int)
    requires Deployed(b) && Fits(now)
    ensures Deployed(Refill(b, now)) && Deployed(MachineRefill(b, now))
    ensures MachineRefill(b, now) == Refill(b, now).(lastRefill := MachineRefill(b, now).lastRefill)
  {
    if now - b.lastRefill < TWO63 {
      MachineRefillExact(b, now);
    } else {
      MachineRefillSaturated(b, now);
    }
    BalanceWithinCap(b, now);
    RefillTimeFits(b, now);
  }

  lemma RefillTimeFits(b: BucketState, now: int)
    requires Deployed(b) && Fits(now)
    ensures Fits(Refill(b, now).lastRefill) && Fits(MachineRefill(b, now).lastRefill)
  {
    if b.cfg.refillInterval > 0 {
      if b.lastRefill <= now {
        RefillIsCurrent(b, now);
      } else {
        ClockBehindRefill(b, now);
      }
    }
  }

  lemma ConsumeExactlyWhen(c: BucketState, now: int)
    requires Deployed(c) && Fits(Cost(c.cfg))
    ensures MachineConsume(c, now).0 == Consume(c, now).0.(lastAccess := c.lastAccess)
    ensures MachineConsume(c, now).1 == Consume(c, now).1 <==> c.tokens >= Cost(c.cfg) || RetrySafe(c)
  {
    if c.tokens < Cost(c.cfg) {
      RetryExactlyWhen(c);
      assert RetryAfter(c.(lastAccess := now)) == RetryAfter(c);
    } else {
      WrapFits(c.tokens - Cost(c.cfg));
      WrapFits(c.tokens);
    }
  }

  /** For every configuration an administrator can set, any cost and any two 64-bit times, the call leaves the
      mathematical balance, and gives the mathematical decision and delay exactly when it is granted or the
      delay fits a duration. */
  lemma MachineReplyExactlyWhen(b: BucketState, now: int)
    requires Deployed(b) && Fits(now) && Fits(Cost(b.cfg))
    ensures MachineAllow(b, now).0 == Allow(b, now).0.(lastRefill := MachineAllow(b, now).0.lastRefill)
    ensures MachineAllow(b, now).1 == Allow(b, now).1 <==> ReplySafe(b, now)
    ensures !b.blocked ==> MachineAllow(b, now).0.lastRefill == MachineRefill(b, now).lastRefill
  {
    if !b.blocked {
      RefillDeployed(b, now);
      var c := MachineRefill(b, now).(lastAccess := now);
      ConsumeExactlyWhen(c, now);
      assert Consume(c, now).0 == Consume(Refill(b, now), now).0.(lastRefill := c.lastRefill);
      assert RetryAfter(c) == RetryAfter(Refill(b, now).(lastAccess := now));
    }
  }

  /** The call is the mathematical one in every respect exactly when its reply is safe and, unless it is blocked,
      so is its elapsed time. */
  lemma MachineAllowExactlyWhen(b: BucketState, now: int)
    requires Deployed(b) && Fits(now) && Fits(Cost(b.cfg))
    ensures MachineAllow(b, now) == Allow(b, now) <==> ReplySafe(b, now) && (b.blocked || ElapsedSafe(b, now))
  {
    MachineReplyExactlyWhen(b, now);
    if !b.blocked {
      RefillDeployed(b, now);
      MachineRefillExactlyWhen(b, now);
      assert Allow(b, now).0.lastRefill == Refill(b, now).lastRefill;
    }
  }

  /** The bound on the cost is needed, and nothing in the validation supplies it: a bucket that asks ten
      million tokens per call reports a negative delay. */
  lemma UnboundedCostOverflows()
    ensures var b := New(Config(1, 1, HOUR, 10_000_000, None), 0);
            Deployed(b) && !ReplySafe(b, 0) && MachineAllow(b, 0).1.retryAfter < 0 < Allow(b, 0).1.retryAfter
  {
    var b := New(Config(1, 1, HOUR, 10_000_000, None), 0);
    assert Intervals(b, 0) == 0;
    assert Allow(b, 0).1.retryAfter == HOUR * 9_999_999;
    assert MachineAllow(b, 0).1.retryAfter == Wrap(9_999_999 * HOUR);
  }

  // ---- runs -----------------------------------------------------------------------------------------------

  function MachineStep(b: BucketState, e: R.Event): BucketState {
    match e.op
    case Call => MachineAllow(b, e.at).0
    case Scheduled => MachineRefill(b, e.at)
    case Block => b.(blocked := true)
    case Unblock => b.(blocked := false)
  }

  function MachineShows(b: BucketState, e: R.Event): seq<R.Outcome> {
    if e.op != R.Call then []
    else [R.Outcome(e.at, MachineAllow(b, e.at).1, if b.blocked then None else Some(MachineAllow(b, e.at).0.tokens))]
  }

  function MachineOutcomes(b: BucketState, es: seq<R.Event>): seq<R.Outcome>
    decreases es
  {
    if es == [] then [] else MachineShows(b, es[0]) + MachineOutcomes(MachineStep(b, es[0]), es[1..])
  }

  function MachineFinal(b: BucketState, es: seq<R.Event>): BucketState
    decreases es
  {
    if es == [] then b else MachineFinal(MachineStep(b, es[0]), es[1..])
  }

  predicate EventSafe(b: BucketState, e: R.Event) {
    match e.op
    case Call => ReplySafe(b, e.at) && (b.blocked || ElapsedSafe(b, e.at))
    case Scheduled => ElapsedSafe(b, e.at)
    case _ => true
  }

  lemma StepExactlyWhen(b: BucketState, e: R.Event)
    requires Deployed(b) && Fits(e.at) && Fits(Cost(b.cfg))
    ensures MachineStep(b, e) == R.Step(b, e) && MachineShows(b, e) == R.Shows(b, e) <==> EventSafe(b, e)
    ensures Deployed(R.Step(b, e)) && R.Step(b, e).cfg == b.cfg
  {
    RefillDeployed(b, e.at);
    MachineRefillExactlyWhen(b, e.at);
    BalanceWithinCap(b, e.at);
    if e.op == R.Call {
      MachineAllowExactlyWhen(b, e.at);
      assert MachineShows(b, e) == R.Shows(b, e) ==> MachineShows(b, e)[0].reply == R.Shows(b, e)[0].reply;
    }
  }

  /** Every event of the run leaves the same state and shows the same outcome on both. */
  predicate InStep(b: BucketState, es: seq<R.Event>)
    decreases es
  {
    es == []
    || (MachineStep(b, es[0]) == R.Step(b, es[0]) && MachineShows(b, es[0]) == R.Shows(b, es[0])
        && InStep(R.Step(b, es[0]), es[1..]))
  }

  predicate AllSafe(b: BucketState, es: seq<R.Event>)
    decreases es
  {
    es == [] || (EventSafe(b, es[0]) && AllSafe(R.Step(b, es[0]), es[1..]))
  }

  predicate AllFit(es: seq<R.Event>) {
    forall i :: 0 <= i < |es| ==> Fits(es[i].at)
  }

  /** Machine and mathematics stay in step through a run exactly when every event is safe when it comes. */
  lemma {:induction false} InStepExactlyWhen(b: BucketState, es: seq<R.Event>)
    requires Deployed(b) && Fits(Cost(b.cfg)) && AllFit(es)
    ensures InStep(b, es) <==> AllSafe(b, es)
    decreases es
  {
    if es != [] {
      StepExactlyWhen(b, es[0]);
      InStepExactlyWhen(R.Step(b, es[0]), es[1..]);
    }
  }

  lemma {:induction false} InStepOutcomes(b: BucketState, es: seq<R.Event>)
    requires InStep(b, es)
    ensures MachineOutcomes(b, es) == R.Outcomes(b, es) && MachineFinal(b, es) == R.Final(b, es)
    decreases es
  {
    if es != [] {
      InStepOutcomes(R.Step(b, es[0]), es[1..]);
    }
  }

  /** Every clock reading lies less than the longest duration after t. */
  predicate Near(t: int, es: seq<R.Event>) {
    forall i :: 0 <= i < |es| ==> Fits(es[i].at) && es[i].at - t < TWO63
  }

  lemma {:induction false} NearIsSafe(b: BucketState, es: seq<R.Event>)
    requires Deployed(b) && Fits(Cost(b.cfg)) && RetrySafe(b.(tokens := 0)) && Near(b.lastRefill, es)
    ensures AllSafe(b, es)
    decreases es
  {
    if es != [] {
      var e := es[0];
      var c := R.Step(b, e);
      StepExactlyWhen(b, e);
      RefillDeployed(b, e.at);
      RetrySafeFromLess(Refill(b, e.at), 0);
      RefillsOnward(b, e);
      NearIsSafe(c, es[1..]);
    }
  }

  lemma RefillsOnward(b: BucketState, e: R.Event)
    ensures b.lastRefill <= R.Step(b, e).lastRefill
  {
    var k := Intervals(b, e.at);
    if k > 0 {
      MulMonotone(1, k, b.cfg.refillInterval);
    }
  }

  /** Every run whose clock readings stay less than the longest duration after the last refill it starts from
      gives the mathematical outcomes and ends in the mathematical state, as long as the longest delay the
      configuration can report fits; costs of up to a million tokens make it fit. */
  lemma MachineRunAgrees(b: BucketState, es: seq<R.Event>)
    requires Deployed(b) && Fits(Cost(b.cfg)) && (RetrySafe(b.(tokens := 0)) || Cost(b.cfg) <= 1_000_000)
    requires Near(b.lastRefill, es)
    ensures MachineOutcomes(b, es) == R.Outcomes(b, es) && MachineFinal(b, es) == R.Final(b, es)
  {
    if Cost(b.cfg) <= 1_000_000 {
      RetryNeverOverflows(b);
    }
    NearIsSafe(b, es);
    InStepExactlyWhen(b, es);
    InStepOutcomes(b, es);
  }

  /** One token an hour, last refilled at the earliest time, called twice at the latest. */
  const LONG_IDLE := New(Config(1, 1, HOUR, 1, None), -TWO63)

  /** Past that the balance of one call is right but not that of the next: the machine has recorded too early a
      refill, and grants a second call at the same instant. */
  lemma SecondCallDiffers()
    ensures var b, now := LONG_IDLE, TWO63 - 1;
      && Deployed(b) && !ElapsedSafe(b, now)
      && MachineAllow(b, now).1 == Allow(b, now).1 == Reply(true, 0)
      && MachineAllow(MachineAllow(b, now).0, now).1.allowed
      && !Allow(Allow(b, now).0, now).1.allowed
  {
    var b, now := LONG_IDLE, TWO63 - 1;
    RefillIsCurrent(b, now);
    MachineReplyExactlyWhen(b, now);
    var m := MachineAllow(b, now).0;
    MachineRefillSaturated(b, now);
    assert m.tokens == 0;
    assert now - m.lastRefill >= HOUR;
    var k := TruncDiv(SaturatingSub(now, m.lastRefill), HOUR);
    assert k >= 1;
    assert MachineRefill(m, now).tokens == 1;
  }
}
