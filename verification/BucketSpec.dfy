/** One token bucket on values, as a single caller sees it. Times and durations are nanoseconds. */
module BucketSpec {
  import opened Arithmetic
  import opened Wrappers
  import W = WindowSpec

  const SECOND := 1_000_000_000

  datatype Config = Config(
    maxTokens: int,
    refillRate: int,
    refillInterval: int,
    tokensPerRequest: int,
    slidingWindow: Option<W.WindowConfig>)

  datatype BucketState = BucketState(
    cfg: Config,
    tokens: int,
    lastRefill: int,
    lastAccess: int,
    blocked: bool,
    window: Option<W.WindowState>)

  datatype Reply = Reply(allowed: bool, retryAfter: int)

  /** The parameters the limiter's arithmetic is meant for. */
  predicate Sane(cfg: Config) {
    cfg.maxTokens >= 0 && cfg.refillRate >= 0
  }

  function Normalize(cfg: Config): Config {
    if cfg.tokensPerRequest <= 0 then cfg.(tokensPerRequest := 1) else cfg
  }

  function FreshWindow(cfg: Config): Option<W.WindowState> {
    if cfg.slidingWindow.Some? && cfg.slidingWindow.value.enabled then Some(W.New(cfg.slidingWindow.value)) else None
  }

  function New(cfg: Config, now: int): BucketState {
    BucketState(Normalize(cfg), cfg.maxTokens, now, now, false, FreshWindow(cfg))
  }

  function Cost(cfg: Config): int {
    if cfg.tokensPerRequest <= 0 then 1 else cfg.tokensPerRequest
  }

  /** Whole refill intervals between the last refill and now; none without a positive interval. */
  function Intervals(b: BucketState, now: int): int {
    if b.cfg.refillInterval <= 0 then 0 else Max(0, (now - b.lastRefill) / b.cfg.refillInterval)
  }

  /** lazyRefill under its guard, which is also ScheduledRefill. */
  function Refill(b: BucketState, now: int): BucketState {
    var k := Intervals(b, now);
    if k <= 0 then b
    else b.(lastRefill := b.lastRefill + b.cfg.refillInterval * k,
            tokens := Min(b.tokens + b.cfg.refillRate * k, b.cfg.maxTokens))
  }

  function RetryAfter(b: BucketState): int {
    if b.cfg.refillRate <= 0 || b.cfg.refillInterval <= 0 then SECOND
    else b.cfg.refillInterval * CeilDiv(Cost(b.cfg) - b.tokens, b.cfg.refillRate)
  }

  /** The part of Allow after the refill: debit, then the window, which may give the debit back. */
  function Consume(b: BucketState, now: int): (BucketState, Reply) {
    var c := b.(lastAccess := now);
    if c.tokens < Cost(c.cfg) then (c, Reply(false, RetryAfter(c)))
    else if c.window.None? then (c.(tokens := c.tokens - Cost(c.cfg)), Reply(true, 0))
    else
      var d := c.(window := Some(W.Allow(c.window.value, now)));
      if W.Admits(c.window.value, now) then (d.(tokens := c.tokens - Cost(c.cfg)), Reply(true, 0))
      else (d, Reply(false, c.cfg.refillInterval))
  }

  function Allow(b: BucketState, now: int): (BucketState, Reply) {
    if b.blocked then (b, Reply(false, 0)) else Consume(Refill(b, now), now)
  }

  /** The instant of Go's zero time, earlier than any time a bucket records. */
  const ZERO_TIME := -62135596800 * SECOND

  function NextRefillTime(b: BucketState): int {
    if b.cfg.refillInterval <= 0 then ZERO_TIME else b.lastRefill + b.cfg.refillInterval
  }

  function UpdateConfig(b: BucketState, cfg: Config): BucketState {
    b.(cfg := Normalize(cfg), tokens := Min(b.tokens, cfg.maxTokens), window := FreshWindow(cfg))
  }

  // ---- refilling ----------------------------------------------------------------------------

  /** The refill leaves less than one interval pending. */
  lemma RefillIsCurrent(b: BucketState, now: int)
    requires b.cfg.refillInterval > 0
    ensures now < Refill(b, now).lastRefill + b.cfg.refillInterval == NextRefillTime(Refill(b, now))
    ensures b.lastRefill <= now ==> b.lastRefill <= Refill(b, now).lastRefill <= now
    ensures Intervals(Refill(b, now), now) == 0
  {
    var d := b.cfg.refillInterval;
    var q := (now - b.lastRefill) / d;
    FloorBounds(now - b.lastRefill, d);
    if q > 0 {
      MulMonotone(1, q, d);
      FloorUnique(now - b.lastRefill - d * q, d, 0);
    }
  }

  /** Refilling at t1 and again at t2 is refilling once at t2. */
  lemma RefillTwice(b: BucketState, t1: int, t2: int)
    requires b.cfg.refillRate >= 0 && t1 <= t2
    ensures Refill(Refill(b, t1), t2) == Refill(b, t2)
    ensures Intervals(Refill(b, t1), t2) == Intervals(b, t2) - Intervals(b, t1)
  {
    var k1 := Intervals(b, t1);
    if k1 > 0 {
      var d, r := b.cfg.refillInterval, b.cfg.refillRate;
      FloorMonotone(t1 - b.lastRefill, t2 - b.lastRefill, d);
      var k2 := (t2 - b.lastRefill) / d - k1;
      FloorShift(t2 - b.lastRefill, d, -k1);
      assert t2 - (b.lastRefill + d * k1) == t2 - b.lastRefill + d * (-k1);
      assert Intervals(Refill(b, t1), t2) == k2;
      Distribute(d, k1, k2);
      Distribute(r, k1, k2);
      MulMonotone(0, k2, r);
    }
  }

  /** A balance within the cap stays within it, whatever the call. */
  lemma BalanceWithinCap(b: BucketState, now: int)
    requires Sane(b.cfg) && 0 <= b.tokens <= b.cfg.maxTokens
    ensures 0 <= Refill(b, now).tokens <= b.cfg.maxTokens
    ensures b.tokens <= Refill(b, now).tokens <= b.tokens + b.cfg.refillRate * Intervals(b, now)
    ensures 0 <= Allow(b, now).0.tokens <= b.cfg.maxTokens
  {
    MulMonotone(0, Intervals(b, now), b.cfg.refillRate);
  }

  /** A call debits exactly its cost when granted and, unless blocked, nothing but the refill's effect
      remains otherwise: a window rejection gives the debit back. */
  lemma CallDebitsOnGrantOnly(b: BucketState, now: int)
    ensures Allow(b, now).1.allowed ==>
              && !b.blocked
              && Allow(b, now).0.tokens == Refill(b, now).tokens - Cost(b.cfg)
    ensures !Allow(b, now).1.allowed && !b.blocked ==> Allow(b, now).0.tokens == Refill(b, now).tokens
    ensures b.blocked ==> Allow(b, now).0 == b
    ensures !b.blocked ==>
              && Allow(b, now).0.lastAccess == now && Allow(b, now).0.lastRefill == Refill(b, now).lastRefill
              && Allow(b, now).0.cfg == b.cfg && !Allow(b, now).0.blocked
  {
  }

  /** A new bucket is full, open and up to date, charges at least one token a call, and grants its first call, whenever
      that comes, exactly when its cap has the cost and its window, if it has one, lets anyone in. */
  lemma NewGrantsFirst(cfg: Config, t: int, now: int)
    requires Sane(cfg)
    ensures var b := New(cfg, t);
      && b.tokens == cfg.maxTokens && b.lastRefill == b.lastAccess == t && !b.blocked
      && b.cfg.tokensPerRequest == Cost(cfg) >= 1 && (cfg.tokensPerRequest >= 1 ==> b.cfg == cfg)
      && (Allow(b, now).1.allowed
          <==> Cost(cfg) <= cfg.maxTokens
               && (cfg.slidingWindow.Some? && cfg.slidingWindow.value.enabled ==>
                     cfg.slidingWindow.value.maxRequests > 0))
  {
    BalanceWithinCap(New(cfg, t), now);
  }

  /** Without a positive interval nothing is refilled, and the next refill is at the zero time, the start of year 1. */
  lemma NoIntervalNoRefill(b: BucketState, now: int)
    requires b.cfg.refillInterval <= 0
    ensures Refill(b, now) == b && NextRefillTime(b) == -62_135_596_800_000_000_000
  {
  }

  /** A new configuration takes effect without minting tokens: the balance stays within the new cap, loses only
      what lies above it, and the next call is decided by the new cost and an empty window. But for the balance, the
      times and the block the bucket is a new one of that configuration. */
  lemma UpdateClamps(b: BucketState, cfg: Config, now: int)
    requires 0 <= b.tokens && cfg.maxTokens >= 0
    ensures var u := UpdateConfig(b, cfg);
      && 0 <= u.tokens <= cfg.maxTokens && u.tokens <= b.tokens
      && (b.tokens <= cfg.maxTokens ==> u.tokens == b.tokens)
      && u.lastRefill == b.lastRefill && u.blocked == b.blocked
      && Cost(u.cfg) == Cost(cfg)
      && u == New(cfg, now).(tokens := u.tokens, lastRefill := b.lastRefill, lastAccess := b.lastAccess,
                             blocked := b.blocked)
      && (cfg.slidingWindow.Some? && cfg.slidingWindow.value.enabled && cfg.slidingWindow.value.maxRequests > 0 ==>
            W.Admits(u.window.value, now))
  {
  }
}
