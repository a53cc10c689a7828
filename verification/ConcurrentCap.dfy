/** How far, and for which configurations, window refunds push a balance above its cap when a call may be held up
    between reading its clock and using it, so that it carries an earlier clock than refills already made.
    ConcurrentClock says what is left of this when calls and refills begin in the order of their clocks. */
module ConcurrentCap {
  import opened Arithmetic
  import opened BucketSpec
  import opened ConcurrentBucket
  import opened Wrappers
  import W = WindowSpec

  // ---- threads that do not move -----------------------------------------------------------------------

  lemma {:induction false} GoesKeepOthers(s: State, i: nat, k: nat)
    requires i < |s.threads|
    ensures forall j :: 0 <= j < |s.threads| && j != i ==> Run(s, Goes(i, k)).threads[j] == s.threads[j]
    decreases k
  {
    if k > 0 {
      assert Goes(i, k)[1..] == Goes(i, k - 1);
      GoesKeepOthers(Advance(s, i), i, k - 1);
    }
  }

  /** Threads from `from` up are at rest. */
  predicate Resting(s: State, from: nat) {
    forall j :: from <= j < |s.threads| ==> s.threads[j].pc == Idle
  }

  /** Threads below m hold a debit that they are about to give back. */
  predicate Refunding(s: State, m: nat) {
    m <= |s.threads| && forall j :: 0 <= j < m ==> s.threads[j].pc == Refund
  }

  // ---- filling the bucket --------------------------------------------------------------------------------

  /** The configurations whose balance can pass the cap, given two threads. */
  predicate CanOverflow(cfg: Config) {
    FreshWindow(cfg).Some? && cfg.refillRate > 0 && cfg.refillInterval > 0 && Cost(cfg) <= cfg.maxTokens
  }

  /** Late enough to fill the bucket from empty. */
  function FillTime(b: BucketState): int {
    b.lastRefill + b.cfg.refillInterval * b.cfg.maxTokens
  }

  lemma FillTimeFills(b: BucketState, at: int)
    requires b.cfg.refillRate > 0 && b.cfg.refillInterval > 0 && b.cfg.maxTokens > 0 && b.tokens >= 0
    requires at >= FillTime(b)
    ensures var c := Refill(b, at);
            c == b.(tokens := b.cfg.maxTokens, lastRefill := c.lastRefill)
  {
    var d, k := b.cfg.refillInterval, (at - b.lastRefill) / b.cfg.refillInterval;
    FloorReaches(at - b.lastRefill, d, b.cfg.maxTokens);
    MulMonotone(1, b.cfg.refillRate, k);
  }

  /** Thread i, at rest, runs one scheduled refill at `at` with no one else moving. */
  lemma RefillAlone(s: State, i: nat, at: int) returns (acts: seq<Action>)
    requires i < |s.threads| && s.threads[i].pc == Idle
    ensures var s' := Run(s, acts);
      && s'.b == Refill(s.b, at) && s'.threads[i].pc == Idle && s'.ledger.latest == Max(s.ledger.latest, at)
      && forall j :: 0 <= j < |s.threads| && j != i ==> s'.threads[j] == s.threads[j]
    ensures at >= s.ledger.latest ==> OnClock(s, acts)
  {
    var begin := BeginScheduled(i, at);
    var s1 := Step(s, begin);
    var k := SoloRefill(s1, i);
    GoesKeepOthers(s1, i, k);
    GoesOnClock(s1, i, k);
    acts := [begin] + Goes(i, k);
    assert acts[1..] == Goes(i, k);
  }

  /** The same late enough to fill the bucket. */
  lemma FillUp(s: State, i: nat, at: int) returns (acts: seq<Action>)
    requires i < |s.threads| && s.threads[i].pc == Idle && at >= FillTime(s.b)
    requires s.b.cfg.refillRate > 0 && s.b.cfg.refillInterval > 0 && s.b.cfg.maxTokens > 0 && s.b.tokens >= 0
    ensures var s' := Run(s, acts);
      && s'.b == s.b.(tokens := s.b.cfg.maxTokens, lastRefill := s'.b.lastRefill)
      && s'.threads[i].pc == Idle && s'.ledger.latest == Max(s.ledger.latest, at)
      && forall j :: 0 <= j < |s.threads| && j != i ==> s'.threads[j] == s.threads[j]
    ensures at >= s.ledger.latest ==> OnClock(s, acts)
  {
    acts := RefillAlone(s, i, at);
    FillTimeFills(s.b, at);
  }

  // ---- filling the window ----------------------------------------------------------------------------------

  /** A clock reading at which an admission made at 0 still counts, whatever the sign of the duration. It stays
      at or before 0 however far refills have moved the clock since. */
  function LateCall(cfg: Config): int
    requires CanOverflow(cfg)
  {
    Min(0, cfg.slidingWindow.value.duration - 1)
  }

  /** A full, unblocked bucket whose window counts j admissions, the oldest made at 0. */
  predicate Primed(b: BucketState, cfg: Config, j: nat) {
    && CanOverflow(cfg) && b.cfg == Normalize(cfg) && !b.blocked && b.tokens == cfg.maxTokens && b.window.Some?
    && b.window.value.duration == cfg.slidingWindow.value.duration
    && b.window.value.maxRequests == cfg.slidingWindow.value.maxRequests
    && |b.window.value.live| == j && (j > 0 ==> b.window.value.live[0] == 0)
  }

  lemma NothingExpires(b: BucketState, cfg: Config, j: nat)
    requires Primed(b, cfg, j)
    ensures W.Cleanup(b.window.value, LateCall(cfg)) == b.window.value
  {
  }

  /** A refill at any time leaves a full bucket full. */
  lemma FullStaysFull(b: BucketState, now: int)
    requires b.cfg.refillRate >= 0 && b.tokens == b.cfg.maxTokens
    ensures Refill(b, now) == b.(lastRefill := Refill(b, now).lastRefill)
  {
    MulMonotone(0, Intervals(b, now), b.cfg.refillRate);
  }

  /** A full bucket with room in its window grants the call. */
  lemma GrantedCall(b: BucketState, cfg: Config, j: nat)
    requires Primed(b, cfg, j) && j < cfg.slidingWindow.value.maxRequests
    ensures var c := Allow(b, if j == 0 then 0 else LateCall(cfg)).0;
      && c.tokens >= 0 && c.cfg == b.cfg
      && Primed(c.(tokens := cfg.maxTokens), cfg, j + 1)
  {
    FullStaysFull(b, if j == 0 then 0 else LateCall(cfg));
    NothingExpires(b, cfg, j);
  }

  /** The first j admissions, each followed by a scheduled refill. */
  lemma {:induction false} FillWindow(cfg: Config, n: nat, j: nat) returns (acts: seq<Action>)
    requires CanOverflow(cfg) && n >= 2 && (j > 0 ==> j <= cfg.slidingWindow.value.maxRequests)
    ensures var s := Run(Start(cfg, 0, n), acts); Primed(s.b, cfg, j) && Resting(s, 0) && |s.threads| == n
    decreases j
  {
    if j == 0 {
      return [];
    }
    var before := FillWindow(cfg, n, j - 1);
    var s := Run(Start(cfg, 0, n), before);
    var call := BeginAllow(0, if j == 1 then 0 else LateCall(cfg));
    var s1 := Step(s, call);
    var k := SoloCallIsSequential(s, 0, call.now);
    GoesKeepOthers(s1, 0, k);
    GrantedCall(s.b, cfg, j - 1);
    var s2 := Run(s1, Goes(0, k));
    var fill := FillUp(s2, 0, FillTime(s2.b));
    var once := [call] + Goes(0, k);
    assert once[1..] == Goes(0, k);
    acts := before + (once + fill);
    RunAppend(Start(cfg, 0, n), before, once + fill);
    RunAppend(s, once, fill);
  }

  // ---- holding debits -----------------------------------------------------------------------------------------

  /** The window is full for calls at LateCall. */
  predicate Shut(b: BucketState, cfg: Config)
    requires CanOverflow(cfg)
  {
    Primed(b, cfg, if cfg.slidingWindow.value.maxRequests > 0 then cfg.slidingWindow.value.maxRequests else 0)
  }

  lemma ShutRefuses(b: BucketState, cfg: Config)
    requires CanOverflow(cfg) && Shut(b, cfg)
    ensures !W.Admits(b.window.value, LateCall(cfg)) && W.Allow(b.window.value, LateCall(cfg)) == b.window.value
  {
    NothingExpires(b, cfg, |b.window.value.live|);
  }

  lemma FourGoes(s: State, i: nat)
    requires i < |s.threads|
    ensures Run(s, Goes(i, 4)) == Advance(Advance(Advance(Advance(s, i), i), i), i)
  {
    hide Advance;
    OneGo(s, i);
    OneGo(Advance(s, i), i);
    MoreGoes(s, i, 1, 1);
    OneGo(Advance(Advance(s, i), i), i);
    MoreGoes(s, i, 2, 1);
    OneGo(Advance(Advance(Advance(s, i), i), i), i);
    MoreGoes(s, i, 3, 1);
  }

  /** From before its debit, thread i on a full bucket takes four steps to the window's answer. */
  lemma DebitAndAsk(s: State, i: nat, cfg: Config)
    requires CanOverflow(cfg) && s.b.cfg == Normalize(cfg) && s.b.tokens == cfg.maxTokens && s.b.window.Some?
    requires i < |s.threads| && s.threads[i].pc == StoreAccess
    ensures var s' := Run(s, Goes(i, 4));
      var w, now := s.b.window.value, s.threads[i].now;
      && s'.b == s.b.(tokens := cfg.maxTokens - Cost(cfg), lastAccess := now, window := Some(W.Allow(w, now)))
      && s'.threads[i].pc == if W.Admits(w, now) then Idle else Refund
  {
    hide Run;
    hide W.Allow;
    hide W.Admits;
    FourGoes(s, i);
  }

  /** Past its refill, a call on a full bucket with a shut window debits, is refused and is about to refund. */
  lemma SoloToRefund(s: State, i: nat, cfg: Config)
    requires CanOverflow(cfg) && Shut(s.b, cfg) && i < |s.threads|
    requires s.threads[i].pc == StoreAccess && s.threads[i].now == LateCall(cfg)
    ensures var s' := Run(s, Goes(i, 4));
      && s'.b == s.b.(tokens := cfg.maxTokens - Cost(cfg), lastAccess := s'.b.lastAccess)
      && s'.threads[i].pc == Refund
  {
    DebitAndAsk(s, i, cfg);
    ShutRefuses(s.b, cfg);
  }

  /** A whole call of thread i up to its refund. */
  lemma CallToRefund(s: State, i: nat, cfg: Config) returns (acts: seq<Action>)
    requires CanOverflow(cfg) && Shut(s.b, cfg) && i < |s.threads| && s.threads[i].pc == Idle
    ensures var s' := Run(s, acts);
      && s'.b.tokens == cfg.maxTokens - Cost(cfg) && s'.b.cfg == s.b.cfg
      && Shut(s'.b.(tokens := cfg.maxTokens), cfg)
      && s'.threads[i].pc == Refund
      && forall j :: 0 <= j < |s.threads| && j != i ==> s'.threads[j] == s.threads[j]
  {
    hide Run;
    var begin := BeginAllow(i, LateCall(cfg));
    var s1 := Step(s, begin);
    var s2 := Advance(s1, i);
    OneGo(s1, i);
    var k := SoloRefill(s2, i);
    FullStaysFull(s.b, LateCall(cfg));
    var s3 := Run(s2, Goes(i, k));
    MoreGoes(s1, i, 1, k);
    SoloToRefund(s3, i, cfg);
    MoreGoes(s1, i, 1 + k, 4);
    GoesKeepOthers(s1, i, 1 + k + 4);
    acts := [begin] + Goes(i, 1 + k + 4);
    RunNext(s, begin, Goes(i, 1 + k + 4));
  }

  /** m calls hold a debit each, and the bucket has been filled up behind them. */
  lemma {:induction false} HoldDebits(cfg: Config, n: nat, m: nat) returns (acts: seq<Action>)
    requires CanOverflow(cfg) && n >= 2 && m < n
    ensures var s := Run(Start(cfg, 0, n), acts);
            Shut(s.b, cfg) && |s.threads| == n && Refunding(s, m) && Resting(s, m)
    decreases m
  {
    if m == 0 {
      var r := cfg.slidingWindow.value.maxRequests;
      acts := FillWindow(cfg, n, if r > 0 then r else 0);
    } else {
      var before := HoldDebits(cfg, n, m - 1);
      var s := Run(Start(cfg, 0, n), before);
      var call := CallToRefund(s, m - 1, cfg);
      var s1 := Run(s, call);
      var fill := FillUp(s1, n - 1, FillTime(s1.b));
      acts := before + (call + fill);
      RunAppend(Start(cfg, 0, n), before, call + fill);
      RunAppend(s, call, fill);
    }
  }

  /** The refunds come back on top of the full bucket. */
  lemma {:induction false} GiveAllBack(s: State, m: nat) returns (acts: seq<Action>)
    requires Refunding(s, m) && Resting(s, m)
    ensures var s' := Run(s, acts);
            s'.b.tokens == s.b.tokens + Cost(s.b.cfg) * m && |s'.threads| == |s.threads| && Resting(s', 0)
    decreases m
  {
    if m == 0 {
      return [];
    }
    var s1 := Step(s, Go(m - 1));
    var rest := GiveAllBack(s1, m - 1);
    Distribute(Cost(s.b.cfg), m - 1, 1);
    acts := [Go(m - 1)] + rest;
    assert acts[1..] == rest;
  }

  /** The cap is no bound, and nor is any bound by the calls in progress: for every configuration that allows
      it at all, and any number of threads, a run ends with every thread at rest and the balance exactly at
      the bound by the number of threads. The run relies on stale clocks: its calls begin with clocks of at most
      zero after refills at ever later times. */
  lemma RefundExceedsCap(cfg: Config, n: nat) returns (acts: seq<Action>)
    requires CanOverflow(cfg) && n >= 2
    ensures var s := Run(Start(cfg, 0, n), acts);
            s.b.tokens == cfg.maxTokens + Cost(cfg) * (n - 1) && Resting(s, 0)
  {
    var debits := HoldDebits(cfg, n, n - 1);
    var refunds := GiveAllBack(Run(Start(cfg, 0, n), debits), n - 1);
    RunAppend(Start(cfg, 0, n), debits, refunds);
    acts := debits + refunds;
  }

  // ---- and only those ---------------------------------------------------------------------------------------------

  /** With a cost above the cap no call ever debits. */
  predicate NeverDebits(s: State) {
    && s.b.tokens <= s.b.cfg.maxTokens < Cost(s.b.cfg)
    && forall t :: t in s.threads ==> t.pc != CasDebit && t.pc != AskWindow && t.pc != Refund
  }

  lemma StepNeverDebits(s: State, a: Action)
    requires NeverDebits(s)
    ensures NeverDebits(Step(s, a))
  {
    var s' := Step(s, a);
    forall t | t in s'.threads ensures t.pc != CasDebit && t.pc != AskWindow && t.pc != Refund {
      var j :| 0 <= j < |s'.threads| && s'.threads[j] == t;
      assert s.threads[j] in s.threads;
    }
    if a.Go? && a.i < |s.threads| {
      assert s.threads[a.i] in s.threads;
    }
  }

  lemma {:induction false} RunNeverDebits(s: State, acts: seq<Action>)
    requires NeverDebits(s)
    ensures NeverDebits(Run(s, acts))
    decreases acts
  {
    if acts != [] {
      StepNeverDebits(s, acts[0]);
      RunNeverDebits(Step(s, acts[0]), acts[1..]);
    }
  }

  lemma {:induction false} NobodyActs(s: State, acts: seq<Action>)
    requires s.threads == []
    ensures Run(s, acts).b.tokens == s.b.tokens
    decreases acts
  {
    if acts != [] {
      NobodyActs(Step(s, acts[0]), acts[1..]);
    }
  }

  /** A bucket that nothing refills hands out what it started with. */
  lemma NothingAccrues(cfg: Config, t0: int, n: nat, acts: seq<Action>)
    requires Sane(cfg) && (cfg.refillRate == 0 || cfg.refillInterval <= 0)
    ensures Run(Start(cfg, t0, n), acts).b.tokens <= cfg.maxTokens
  {
    hide Inv;
    hide Run;
    hide Start;
    var s := Run(Start(cfg, t0, n), acts);
    TokenLedger(cfg, t0, n, acts);
    Reached(cfg, t0, n, acts);
    OwedNonnegative(s);
    MulMonotone(0, Held(s.threads), Cost(cfg));
    MulMonotone(0, s.ledger.grants, Cost(cfg));
  }

  lemma OwedNonnegative(s: State)
    requires Inv(s)
    ensures s.b.cfg.refillRate * Pending(s.threads) >= 0
  {
    forall j | 0 <= j < |s.threads| && Owes(s.threads[j]) ensures s.threads[j].intervals >= 0 {
      assert ThreadOK(s, s.threads[j]);
    }
    PendingNonnegative(s.threads);
    MulMonotone(0, Pending(s.threads), s.b.cfg.refillRate);
  }

  lemma WithinCapOtherwise(cfg: Config, n: nat, t0: int, acts: seq<Action>)
    requires Sane(cfg) && !(n >= 2 && CanOverflow(cfg))
    ensures Run(Start(cfg, t0, n), acts).b.tokens <= cfg.maxTokens
  {
    var s := Start(cfg, t0, n);
    if n == 0 {
      NobodyActs(s, acts);
    } else if cfg.refillRate == 0 || cfg.refillInterval <= 0 {
      NothingAccrues(cfg, t0, n, acts);
    } else if Cost(cfg) > cfg.maxTokens {
      Reached(cfg, t0, n, acts);
      RunNeverDebits(s, acts);
    } else {
      BalanceRange(cfg, t0, n, acts);
      MulMonotone(0, Held(Run(s, acts).threads), Cost(cfg));
    }
  }

  /** Where calls may begin with clocks earlier than those already used, a balance can pass its cap exactly when
      there is a window, two calls can run at once, and the bucket refills and can pay for a call. On one clock
      that never goes back the condition is needed but not enough (ConcurrentClock.PassesCapExactlyWhen). */
  lemma CapExceededExactlyWhen(cfg: Config, n: nat)
    requires Sane(cfg)
    ensures (exists t0, acts :: Run(Start(cfg, t0, n), acts).b.tokens > cfg.maxTokens)
       <==> FreshWindow(cfg).Some? && n >= 2 && cfg.refillRate > 0 && cfg.refillInterval > 0
            && Cost(cfg) <= cfg.maxTokens
  {
    if n >= 2 && CanOverflow(cfg) {
      var acts := RefundExceedsCap(cfg, n);
      MulMonotone(1, n - 1, Cost(cfg));
      assert Run(Start(cfg, 0, n), acts).b.tokens > cfg.maxTokens;
    } else {
      forall t0, acts ensures Run(Start(cfg, t0, n), acts).b.tokens <= cfg.maxTokens {
        WithinCapOtherwise(cfg, n, t0, acts);
      }
    }
  }
}
