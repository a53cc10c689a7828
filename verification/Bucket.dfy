/** The token bucket as an object whose fields calls update in place. One call runs at a time here, so
    each compare-and-swap succeeds at its first try; interleaved calls are in ConcurrentBucket. */
module Bucket {
  import opened Wrappers
  import opened BucketSpec
  import Window

  class Bucket {
    var cfg: Config
    var tokens: int
    var lastRefillTime: int
    var lastAccessTime: int
    var blocked: bool
    var window: Window.SlidingWindow?
    ghost var state: BucketState  // the fields, with the window on values

    ghost function Repr(): (r: set<object>)
      reads this
      ensures this in r
    {
      {this} + if window == null then {} else {window, window.timestamps}
    }

    ghost predicate Valid()
      reads this, Repr()
    {
      && (window != null ==> window.Valid())
      && state == BucketState(cfg, tokens, lastRefillTime, lastAccessTime, blocked,
                              if window == null then None else Some(window.Value()))
    }

    constructor (config: Config, now: int)
      ensures Valid() && fresh(Repr())
      ensures state == New(config, now)
    {
      var normalized := Normalized(config);
      cfg := normalized;
      tokens := normalized.maxTokens;
      lastRefillTime := now;
      lastAccessTime := now;
      blocked := false;
      window := null;
      state := New(config, now);
      if normalized.slidingWindow.Some? && normalized.slidingWindow.value.enabled {
        window := new Window.SlidingWindow(normalized.slidingWindow.value);
      }
    }

    static method Normalized(config: Config) returns (normalized: Config)
      ensures normalized == Normalize(config)
    {
      normalized := config;
      if normalized.tokensPerRequest <= 0 {
        normalized := normalized.(tokensPerRequest := 1);
      }
    }

    method LazyRefill(now: int)
      requires Valid() && cfg.refillInterval > 0
      modifies this`tokens, this`lastRefillTime, this`state
      ensures Valid()
      ensures state == Refill(old(state), now)
    {
      state := Refill(state, now);
      var intervals := (now - lastRefillTime) / cfg.refillInterval;
      if intervals <= 0 {
        return;
      }
      lastRefillTime := lastRefillTime + cfg.refillInterval * intervals;
      var updated := tokens + cfg.refillRate * intervals;
      if updated > cfg.maxTokens {
        updated := cfg.maxTokens;
      }
      tokens := updated;
    }

    method Allow(now: int) returns (allowed: bool, retryAfter: int)
      requires Valid()
      modifies Repr()
      ensures Valid() && Repr() == old(Repr())
      ensures (state, Reply(allowed, retryAfter)) == BucketSpec.Allow(old(state), now)
    {
      if blocked {
        return false, 0;
      }
      var n := cfg.tokensPerRequest;
      if n <= 0 {
        n := 1;
      }
      if cfg.refillInterval > 0 {
        LazyRefill(now);
      }
      allowed, retryAfter := Take(n, now);
    }

    /** Allow once the refill is done: records the access and debits, or says how long to wait. */
    method Take(n: int, now: int) returns (allowed: bool, retryAfter: int)
      requires Valid() && n == Cost(cfg)
      modifies Repr()
      ensures Valid() && Repr() == old(Repr())
      ensures (state, Reply(allowed, retryAfter)) == Consume(old(state), now)
    {
      state := Consume(state, now).0;
      lastAccessTime := now;
      if tokens < n {
        if cfg.refillRate <= 0 || cfg.refillInterval <= 0 {
          return false, SECOND;
        }
        var deficit := n - tokens;
        var intervals := (deficit + cfg.refillRate - 1) / cfg.refillRate;
        return false, cfg.refillInterval * intervals;
      }
      tokens := tokens - n;
      if window != null {
        var admitted := window.Allow(now);
        if !admitted {
          tokens := tokens + n;
          return false, cfg.refillInterval;
        }
      }
      return true, 0;
    }

    method ScheduledRefill(now: int)
      requires Valid()
      modifies this`tokens, this`lastRefillTime, this`state
      ensures Valid()
      ensures state == Refill(old(state), now)
    {
      if cfg.refillInterval <= 0 {
        return;
      }
      LazyRefill(now);
    }

    /** Swaps the configuration in, keeping the balance up to the new cap and starting a new window. */
    method UpdateConfig(config: Config)
      requires Valid()
      modifies this
      ensures Valid() && fresh(Repr() - {this})
      ensures state == BucketSpec.UpdateConfig(old(state), config)
    {
      state := BucketSpec.UpdateConfig(state, config);
      cfg := Normalized(config);
      if tokens > cfg.maxTokens {
        tokens := cfg.maxTokens;
      }
      if cfg.slidingWindow.Some? && cfg.slidingWindow.value.enabled {
        window := new Window.SlidingWindow(cfg.slidingWindow.value);
      } else {
        window := null;
      }
    }

    method Block()
      requires Valid()
      modifies this`blocked, this`state
      ensures Valid()
      ensures state == old(state).(blocked := true)
    {
      blocked := true;
      state := state.(blocked := true);
    }

    method Unblock()
      requires Valid()
      modifies this`blocked, this`state
      ensures Valid()
      ensures state == old(state).(blocked := false)
    {
      blocked := false;
      state := state.(blocked := false);
    }

    method NextRefillTime() returns (next: int)
      requires Valid()
      ensures next == BucketSpec.NextRefillTime(state)
    {
      if cfg.refillInterval <= 0 {
        return ZERO_TIME;
      }
      return lastRefillTime + cfg.refillInterval;
    }
  }
}
