/** Whole lives of one bucket: what any time-ordered sequence of calls may do. */
module BucketRuns {
  import opened Arithmetic
  import opened Wrappers
  import opened BucketSpec
  import W = WindowSpec

  datatype Op = Call | Scheduled | Block | Unblock

  datatype Event = Event(op: Op, at: int)

  /** What a caller of Allow sees; the balance is recorded for calls that reach it. */
  datatype Outcome = Outcome(at: int, reply: Reply, balance: Option<int>)

  function Step(b: BucketState, e: Event): BucketState {
    match e.op
    case Call => Allow(b, e.at).0
    case Scheduled => Refill(b, e.at)
    case Block => b.(blocked := true)
    case Unblock => b.(blocked := false)
  }

  function Shows(b: BucketState, e: Event): seq<Outcome> {
    if e.op != Call then []
    else [Outcome(e.at, Allow(b, e.at).1, if b.blocked then None else Some(Allow(b, e.at).0.tokens))]
  }

  function Final(b: BucketState, es: seq<Event>): BucketState
    decreases es
  {
    if es == [] then b else Final(Step(b, es[0]), es[1..])
  }

  function Outcomes(b: BucketState, es: seq<Event>): seq<Outcome>
    decreases es
  {
    if es == [] then [] else Shows(b, es[0]) + Outcomes(Step(b, es[0]), es[1..])
  }

  /** Times never go back, starting at t. */
  predicate Ordered(t: int, es: seq<Event>)
    decreases es
  {
    es == [] || (t <= es[0].at && Ordered(es[0].at, es[1..]))
  }

  function WithoutScheduled(es: seq<Event>): seq<Event> {
    if es == [] then []
    else (if es[0].op == Scheduled then [] else [es[0]]) + WithoutScheduled(es[1..])
  }

  // ---- the scheduler changes nothing -----------------------------------------------------------

  /** Equal once both are refilled up to t. */
  predicate SameAt(b: BucketState, c: BucketState, t: int) {
    Refill(b, t) == Refill(c, t)
  }

  lemma SameLater(b: BucketState, c: BucketState, t: int, t': int)
    requires SameAt(b, c, t) && t <= t' && b.cfg.refillRate >= 0
    ensures SameAt(b, c, t')
    ensures b.cfg == c.cfg && b.blocked == c.blocked && b.lastAccess == c.lastAccess
  {
    assert Refill(b, t).cfg == b.cfg && Refill(c, t).cfg == c.cfg;
    RefillTwice(b, t, t');
    RefillTwice(c, t, t');
  }

  lemma SameStep(b: BucketState, c: BucketState, e: Event)
    requires SameAt(b, c, e.at) && b.cfg.refillRate >= 0
    ensures SameAt(Step(b, e), Step(c, e), e.at)
    ensures Step(b, e).cfg == b.cfg
    ensures Shows(b, e) == Shows(c, e)
  {
    SameLater(b, c, e.at, e.at);
    RefillTwice(b, e.at, e.at);
    RefillTwice(c, e.at, e.at);
  }

  /** Inserting scheduled refills anywhere in a time-ordered run changes no decision, no retry-after
      and no balance after a call. */
  lemma {:induction false} ScheduledRefillsInvisible(b: BucketState, c: BucketState, es: seq<Event>, t: int)
    requires SameAt(b, c, t) && Ordered(t, es) && b.cfg.refillRate >= 0
    ensures Outcomes(b, es) == Outcomes(c, WithoutScheduled(es))
    decreases es
  {
    if es != [] {
      var e := es[0];
      SameLater(b, c, t, e.at);
      if e.op == Scheduled {
        RefillTwice(b, e.at, e.at);
        assert WithoutScheduled(es) == WithoutScheduled(es[1..]);
        ScheduledRefillsInvisible(Step(b, e), c, es[1..], e.at);
      } else {
        SameStep(b, c, e);
        ScheduledRefillsInvisible(Step(b, e), Step(c, e), es[1..], e.at);
        assert WithoutScheduled(es) == [e] + WithoutScheduled(es[1..]);
        assert WithoutScheduled(es)[1..] == WithoutScheduled(es[1..]);
      }
    }
  }

  /** A balance read after a blocked call is the one thing a scheduled refill can change: Allow returns
      before refilling. The balance then differs exactly when the inserted refill found something to add. */
  lemma BlockedBalanceSeesScheduledRefill(b: BucketState, s: int, t: int)
    requires Sane(b.cfg) && 0 <= b.tokens <= b.cfg.maxTokens && s <= t
    ensures Allow(Refill(b, s), t).0.tokens != Allow(b, t).0.tokens
       <==> b.blocked && Intervals(b, s) > 0 && b.cfg.refillRate > 0 && b.tokens < b.cfg.maxTokens
  {
    RefillTwice(b, s, t);
    if Intervals(b, s) > 0 && b.cfg.refillRate > 0 {
      MulMonotone(1, Intervals(b, s), b.cfg.refillRate);
    }
  }

  // ---- lazy refill is eager ticking --------------------------------------------------------------

  /** The reference: one tick at every lastRefill + j * interval up to now. */
  function Ticks(b: BucketState, now: int): BucketState
    decreases now - b.lastRefill
  {
    if b.cfg.refillInterval <= 0 || b.lastRefill + b.cfg.refillInterval > now then b
    else Ticks(b.(tokens := Min(b.tokens + b.cfg.refillRate, b.cfg.maxTokens),
                  lastRefill := b.lastRefill + b.cfg.refillInterval), now)
  }

  lemma {:induction false} TicksAreRefill(b: BucketState, now: int)
    requires b.cfg.refillRate >= 0
    ensures Ticks(b, now) == Refill(b, now)
    decreases now - b.lastRefill
  {
    var d := b.cfg.refillInterval;
    if d > 0 {
      FloorReaches(now - b.lastRefill, d, 1);
      if b.lastRefill + d <= now {
        var b1 := b.(tokens := Min(b.tokens + b.cfg.refillRate, b.cfg.maxTokens), lastRefill := b.lastRefill + d);
        FloorUnique(d, d, 1);
        assert Intervals(b, b.lastRefill + d) == 1;
        assert b1 == Refill(b, b.lastRefill + d);
        RefillTwice(b, b.lastRefill + d, now);
        TicksAreRefill(b1, now);
      }
    }
  }

  function EagerStep(b: BucketState, e: Event): BucketState {
    var c := Ticks(b, e.at);
    match e.op
    case Call => if c.blocked then c else Consume(c, e.at).0
    case Scheduled => c
    case Block => c.(blocked := true)
    case Unblock => c.(blocked := false)
  }

  function EagerShows(b: BucketState, e: Event): seq<Outcome> {
    var c := Ticks(b, e.at);
    if e.op != Call then []
    else if c.blocked then [Outcome(e.at, Reply(false, 0), None)]
    else [Outcome(e.at, Consume(c, e.at).1, Some(Consume(c, e.at).0.tokens))]
  }

  function EagerOutcomes(b: BucketState, es: seq<Event>): seq<Outcome>
    decreases es
  {
    if es == [] then [] else EagerShows(b, es[0]) + EagerOutcomes(EagerStep(b, es[0]), es[1..])
  }

  lemma EagerStepSame(b: BucketState, c: BucketState, e: Event)
    requires SameAt(b, c, e.at) && b.cfg.refillRate >= 0
    ensures SameAt(Step(b, e), EagerStep(c, e), e.at)
    ensures Step(b, e).cfg == b.cfg
    ensures Shows(b, e) == EagerShows(c, e)
  {
    SameLater(b, c, e.at, e.at);
    TicksAreRefill(c, e.at);
    RefillTwice(b, e.at, e.at);
    RefillTwice(c, e.at, e.at);
  }

  /** For every time-ordered run, decisions, retry-afters and balances are those of a bucket that
      ticks at each grid point. */
  lemma {:induction false} LazyIsEager(b: BucketState, c: BucketState, es: seq<Event>, t: int)
    requires SameAt(b, c, t) && Ordered(t, es) && b.cfg.refillRate >= 0
    ensures Outcomes(b, es) == EagerOutcomes(c, es)
    decreases es
  {
    if es != [] {
      SameLater(b, c, t, es[0].at);
      EagerStepSame(b, c, es[0]);
      LazyIsEager(Step(b, es[0]), EagerStep(c, es[0]), es[1..], es[0].at);
    }
  }

  // ---- bursts ------------------------------------------------------------------------------------

  predicate Grants(b: BucketState, e: Event) {
    e.op == Call && Allow(b, e.at).1.allowed
  }

  /** The times of the granted calls, in order. */
  function GrantTimes(b: BucketState, es: seq<Event>): seq<int>
    decreases es
  {
    if es == [] then []
    else (if Grants(b, es[0]) then [es[0].at] else []) + GrantTimes(Step(b, es[0]), es[1..])
  }

  /** Grants at times in the closed interval [s, e]. */
  function GrantsWithin(b: BucketState, es: seq<Event>, s: int, e: int): nat {
    W.Count(GrantTimes(b, es), s - 1, e)
  }

  predicate InRange(b: BucketState) {
    Sane(b.cfg) && 0 <= b.tokens <= b.cfg.maxTokens
  }

  /** Tokens the bucket could hand out by time e if the cap never bit. */
  function Potential(b: BucketState, e: int): int {
    b.tokens + b.cfg.refillRate * Intervals(b, e)
  }

  lemma StepInRange(b: BucketState, e: Event)
    requires InRange(b)
    ensures InRange(Step(b, e)) && Step(b, e).cfg == b.cfg
  {
    BalanceWithinCap(b, e.at);
  }

  /** A step never raises the potential, and a grant lowers it by its cost. */
  lemma StepPotential(b: BucketState, e: Event, end: int)
    requires InRange(b) && e.at <= end
    ensures Potential(Step(b, e), end) + (if Grants(b, e) then Cost(b.cfg) else 0) <= Potential(b, end)
  {
    var c := Refill(b, e.at);
    BalanceWithinCap(b, e.at);
    RefillTwice(b, e.at, end);
    Distribute(b.cfg.refillRate, Intervals(c, end), Intervals(b, e.at));
    assert Potential(c, end) <= Potential(b, end);
    if e.op == Call && !b.blocked {
      assert Intervals(Step(b, e), end) == Intervals(c, end);
    }
  }

  lemma CountHead(x: seq<int>, y: seq<int>, lo: int, hi: int)
    requires |x| <= 1
    ensures W.Count(x + y, lo, hi) == (if x != [] && lo < x[0] <= hi then 1 else 0) + W.Count(y, lo, hi)
  {
    if x == [] { assert x + y == y; } else { assert (x + y)[1..] == y; }
  }

  lemma {:induction false} NoGrantsAfter(b: BucketState, es: seq<Event>, t: int, s: int, e: int)
    requires Ordered(t, es) && e < t
    ensures GrantsWithin(b, es, s, e) == 0
    decreases es
  {
    if es != [] {
      CountHead(if Grants(b, es[0]) then [es[0].at] else [], GrantTimes(Step(b, es[0]), es[1..]), s - 1, e);
      NoGrantsAfter(Step(b, es[0]), es[1..], es[0].at, s, e);
    }
  }

  lemma {:induction false} GrantsWithinPotential(b: BucketState, es: seq<Event>, t: int, s: int, e: int)
    requires InRange(b) && Ordered(t, es)
    ensures Cost(b.cfg) * GrantsWithin(b, es, s, e) <= Potential(b, e)
    decreases es
  {
    MulMonotone(0, Intervals(b, e), b.cfg.refillRate);
    if es != [] {
      var ev := es[0];
      CountHead(if Grants(b, ev) then [ev.at] else [], GrantTimes(Step(b, ev), es[1..]), s - 1, e);
      if ev.at > e {
        NoGrantsAfter(Step(b, ev), es[1..], ev.at, s, e);
      } else {
        StepInRange(b, ev);
        StepPotential(b, ev, e);
        GrantsWithinPotential(Step(b, ev), es[1..], ev.at, s, e);
        Distribute(Cost(b.cfg), 1, GrantsWithin(Step(b, ev), es[1..], s, e));
      }
    }
  }

  lemma {:induction false} SameGrants(b: BucketState, c: BucketState, es: seq<Event>, t: int)
    requires SameAt(b, c, t) && Ordered(t, es) && b.cfg.refillRate >= 0
    ensures GrantTimes(b, es) == GrantTimes(c, es)
    decreases es
  {
    if es != [] {
      SameLater(b, c, t, es[0].at);
      SameStep(b, c, es[0]);
      assert es[0].op == Call ==> Shows(b, es[0])[0].reply == Shows(c, es[0])[0].reply;
      SameGrants(Step(b, es[0]), Step(c, es[0]), es[1..], es[0].at);
    }
  }

  /** What may accrue over a stretch of time, rounded up to whole intervals. */
  function AccruedAtMost(cfg: Config, span: int): int {
    if cfg.refillInterval <= 0 then 0 else cfg.refillRate * CeilDiv(span, cfg.refillInterval)
  }

  lemma PotentialFrom(b: BucketState, s: int, e: int)
    requires InRange(b) && s <= e
    ensures Potential(Refill(b, s), e) <= b.cfg.maxTokens + AccruedAtMost(b.cfg, e - s)
  {
    var c := Refill(b, s);
    BalanceWithinCap(b, s);
    if b.cfg.refillInterval > 0 {
      var d, k := b.cfg.refillInterval, Intervals(c, e);
      RefillIsCurrent(b, s);
      FloorBounds(e - c.lastRefill, d);
      CeilCovers((e - c.lastRefill) / d, e - s, d);
      CeilCovers(0, e - s, d);
      MulMonotone(k, CeilDiv(e - s, d), b.cfg.refillRate);
    }
  }

  /** On every sub-interval [s, e] of a bucket's life, grants cost at most one full bucket plus what
      accrues in the interval. */
  lemma {:induction false} BurstBound(b: BucketState, es: seq<Event>, t: int, s: int, e: int)
    requires InRange(b) && Ordered(t, es) && s <= e
    ensures Cost(b.cfg) * GrantsWithin(b, es, s, e) <= b.cfg.maxTokens + AccruedAtMost(b.cfg, e - s)
    decreases es
  {
    PotentialFrom(b, s, e);
    if es == [] || s <= es[0].at {
      var c := Refill(b, s);
      RefillTwice(b, s, s);
      BalanceWithinCap(b, s);
      SameGrants(b, c, es, s);
      GrantsWithinPotential(c, es, s, s, e);
    } else {
      var ev := es[0];
      CountHead(if Grants(b, ev) then [ev.at] else [], GrantTimes(Step(b, ev), es[1..]), s - 1, e);
      StepInRange(b, ev);
      BurstBound(Step(b, ev), es[1..], ev.at, s, e);
    }
  }

  /** A call that reaches the window is one request to it, granted exactly when admitted. */
  lemma WindowStep(b: BucketState, e: Event, wc: W.WindowConfig, r: W.WindowRun, a: int) returns (r': W.WindowRun)
    requires e.op == Call && !b.blocked && Refill(b, e.at).tokens >= Cost(b.cfg) && b.window == Some(r.w)
    requires W.MatchesLog(wc, r, W.LogRun(r.log, r.decisions), e.at)
    requires W.Count(r.log, a, a + wc.duration) <= Max(wc.maxRequests, 0)
    ensures Step(b, e).window == Some(r'.w)
    ensures r'.log == r.log + if Grants(b, e) then [e.at] else []
    ensures W.MatchesLog(wc, r', W.LogRun(r'.log, r'.decisions), e.at)
    ensures W.Count(r'.log, a, a + wc.duration) <= Max(wc.maxRequests, 0)
  {
    var op, l := W.Request(e.at), W.LogRun(r.log, r.decisions);
    r' := W.Step(r, op);
    W.StepMatches(wc, r, l, op, e.at);
    W.StepWithinLimit(wc, r, l, op, a);
  }

  /** The log of a windowed bucket's grants keeps the window's own limit. */
  lemma {:induction false} WindowedGrants(b: BucketState, es: seq<Event>, t: int, wc: W.WindowConfig, r: W.WindowRun,
                                            a: int)
    requires Ordered(t, es) && b.window == Some(r.w)
    requires W.MatchesLog(wc, r, W.LogRun(r.log, r.decisions), t)
    requires W.Count(r.log, a, a + wc.duration) <= Max(wc.maxRequests, 0)
    ensures W.Count(r.log + GrantTimes(b, es), a, a + wc.duration) <= Max(wc.maxRequests, 0)
    decreases es
  {
    if es == [] {
      assert r.log + GrantTimes(b, es) == r.log;
    } else {
      var e := es[0];
      var l := W.LogRun(r.log, r.decisions);
      W.MatchesLater(wc, r, l, t, e.at);
      if e.op == Call && !b.blocked && Refill(b, e.at).tokens >= Cost(b.cfg) {
        var r' := WindowStep(b, e, wc, r, a);
        WindowedGrants(Step(b, e), es[1..], e.at, wc, r', a);
        assert r'.log + GrantTimes(Step(b, e), es[1..]) == r.log + GrantTimes(b, es);
      } else {
        WindowedGrants(Step(b, e), es[1..], e.at, wc, r, a);
        assert GrantTimes(b, es) == GrantTimes(Step(b, e), es[1..]);
      }
    }
  }

  /** With a window configured, no interval (a, a + W] of the bucket's life holds more than maxRequests grants. */
  lemma WindowedBurstBound(cfg: Config, es: seq<Event>, t: int, a: int)
    requires cfg.slidingWindow.Some? && cfg.slidingWindow.value.enabled && Ordered(t, es)
    ensures var wc := cfg.slidingWindow.value;
            GrantsWithin(New(cfg, t), es, a + 1, a + wc.duration) <= Max(wc.maxRequests, 0)
  {
    var wc := cfg.slidingWindow.value;
    var r := W.WindowRun(W.New(wc), [], []);
    WindowedGrants(New(cfg, t), es, t, wc, r, a);
    assert r.log + GrantTimes(New(cfg, t), es) == GrantTimes(New(cfg, t), es);
  }

  // ---- retry-after -------------------------------------------------------------------------------

  /** A bucket whose rejections carry a refill-based estimate that can come true. */
  predicate Recoverable(b: BucketState) {
    && InRange(b) && !b.blocked && b.window.None?
    && b.cfg.refillRate > 0 && b.cfg.refillInterval > 0 && Cost(b.cfg) <= b.cfg.maxTokens
  }

  /** No admin action in the run. */
  predicate CallsOnly(es: seq<Event>) {
    forall i :: 0 <= i < |es| ==> es[i].op == Call || es[i].op == Scheduled
  }

  /** Balance of a rejected bucket at t reaches the cost exactly when t reaches the last refill plus the estimate. */
  lemma EnoughExactlyFrom(b: BucketState, t: int)
    requires Recoverable(b) && b.tokens < Cost(b.cfg)
    ensures Refill(b, t).tokens >= Cost(b.cfg) <==> t >= b.lastRefill + RetryAfter(b)
  {
    var r, d := b.cfg.refillRate, b.cfg.refillInterval;
    var deficit := Cost(b.cfg) - b.tokens;
    var k := (t - b.lastRefill) / d;
    var need := CeilDiv(deficit, r);
    FloorReaches(deficit + r - 1, r, 1);
    FloorReaches(t - b.lastRefill, d, need);
    CeilBounds(deficit, r);
    if k >= need {
      MulMonotone(need, k, r);
    } else if k >= 0 {
      MulMonotone(k, need - 1, r);
    }
  }

  lemma {:induction false} QuietRun(b: BucketState, es: seq<Event>, t: int, end: int)
    requires Recoverable(b) && Ordered(t, es) && CallsOnly(es) && GrantTimes(b, es) == []
    requires forall i :: 0 <= i < |es| ==> es[i].at <= end
    requires t <= end
    ensures Recoverable(Final(b, es))
    ensures Refill(Final(b, es), end).tokens == Refill(b, end).tokens
    ensures Final(b, es).cfg == b.cfg
    decreases es
  {
    if es != [] {
      var e := es[0];
      StepInRange(b, e);
      RefillTwice(b, e.at, end);
      assert Refill(Step(b, e), end).tokens == Refill(Refill(b, e.at), end).tokens;
      QuietRun(Step(b, e), es[1..], e.at, end);
    }
  }

  /** Retry-after is exact. After a rejection at `now`, and as long as nothing is granted, a call at
      t is granted if and only if t has reached the last refill plus the reported delay; the last
      refill is at most `now` and less than one interval before it. So now + delay suffices, and
      every call up to now + delay - interval is still rejected. */
  lemma RetryAfterExact(b: BucketState, now: int, es: seq<Event>, t: int)
    requires Recoverable(b) && b.lastRefill <= now && !Allow(b, now).1.allowed
    requires Ordered(now, es) && CallsOnly(es) && GrantTimes(Allow(b, now).0, es) == []
    requires now <= t && forall i :: 0 <= i < |es| ==> es[i].at <= t
    ensures var c, delay := Allow(b, now).0, Allow(b, now).1.retryAfter;
            && (Allow(Final(c, es), t).1.allowed <==> t >= c.lastRefill + delay)
            && c.lastRefill <= now < c.lastRefill + b.cfg.refillInterval
  {
    BalanceWithinCap(b, now);
    RefillIsCurrent(b, now);
    var c := Allow(b, now).0;
    QuietRun(c, es, now, t);
    EnoughExactlyFrom(c, t);
  }

  /** No run of calls and scheduled refills gets a grant out of a rejected bucket before now + delay - interval has
      passed. */
  lemma {:induction false} NothingGrantedEarly(b: BucketState, now: int, es: seq<Event>)
    requires Recoverable(b) && b.lastRefill <= now && !Allow(b, now).1.allowed
    requires Ordered(now, es) && CallsOnly(es)
    requires forall i :: 0 <= i < |es| ==> es[i].at <= now + Allow(b, now).1.retryAfter - b.cfg.refillInterval
    ensures GrantTimes(Allow(b, now).0, es) == []
  {
    BalanceWithinCap(b, now);
    RefillIsCurrent(b, now);
    var c := Allow(b, now).0;
    StarvedUntil(c, c, es, now);
  }

  lemma {:induction false} StarvedUntil(c: BucketState, b: BucketState, es: seq<Event>, t: int)
    requires Recoverable(c) && c.tokens < Cost(c.cfg)
    requires Recoverable(b) && b.cfg == c.cfg && Refill(b, t).tokens == Refill(c, t).tokens
    requires Refill(b, t).lastRefill == Refill(c, t).lastRefill
    requires Ordered(t, es) && CallsOnly(es)
    requires forall i :: 0 <= i < |es| ==> es[i].at < c.lastRefill + RetryAfter(c)
    ensures GrantTimes(b, es) == []
    decreases es
  {
    if es != [] {
      var e := es[0];
      RefillTwice(b, t, e.at);
      RefillTwice(c, t, e.at);
      RefillTwice(b, e.at, e.at);
      EnoughExactlyFrom(c, e.at);
      StepInRange(b, e);
      StarvedUntil(c, Step(b, e), es[1..], e.at);
    }
  }
}
