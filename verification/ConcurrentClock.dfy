/** When refunds push a balance above its cap although every call reads one clock that never goes back. */
module ConcurrentClock {
  import opened Arithmetic
  import opened BucketSpec
  import opened ConcurrentBucket
  import opened ConcurrentBudget
  import opened ConcurrentCap
  import opened Wrappers
  import W = WindowSpec

  // ---- a refused call is enough -------------------------------------------------------------------------------

  /** From any state with a refused call in it, another thread can finish, fill the bucket and let the refund
      come on top. */
  lemma RefundOnTop(s: State, i: nat) returns (acts: seq<Action>)
    requires Inv(s) && i < |s.threads| && |s.threads| >= 2 && s.threads[i].pc == Refund
    requires s.b.cfg.refillRate > 0 && s.b.cfg.refillInterval > 0
    ensures OnClock(s, acts) && Run(s, acts).b.tokens > s.b.cfg.maxTokens
  {
    var other := if i == 0 then 1 else 0;
    var k := StepsLeft(s, other);
    var finish := Goes(other, k);
    var s1 := Run(s, finish);
    AloneFinishes(s, other, k);
    GoesKeepOthers(s, other, k);
    GoesOnClock(s, other, k);
    RunInv(s, finish);
    var fill := RefundOnTopOfFull(s1, i, other);
    OnClockAppend(s, finish, fill);
    RunAppend(s, finish, fill);
    acts := finish + fill;
  }

  lemma RefundOnTopOfFull(s: State, i: nat, other: nat) returns (acts: seq<Action>)
    requires Inv(s) && i < |s.threads| && other < |s.threads| && s.threads[other].pc == Idle
    requires s.threads[i].pc == Refund && s.b.cfg.refillRate > 0 && s.b.cfg.refillInterval > 0
    ensures OnClock(s, acts) && Run(s, acts).b.tokens > s.b.cfg.maxTokens
  {
    InvCounts(s);
    OneGo(s, i);
    GoesOnClock(s, i, 1);
    if s.b.cfg.maxTokens == 0 {
      return Goes(i, 1);
    }
    var fill := FillUp(s, other, Max(s.ledger.latest, FillTime(s.b)));
    var s1 := Run(s, fill);
    OneGo(s1, i);
    GoesOnClock(s1, i, 1);
    OnClockAppend(s, fill, Goes(i, 1));
    RunAppend(s, fill, Goes(i, 1));
    acts := fill + Goes(i, 1);
  }

  /** Only a refund takes the balance above the cap. */
  lemma {:induction false} OnlyRefundsExceed(s: State, acts: seq<Action>) returns (k: nat)
    requires s.b.tokens <= s.b.cfg.maxTokens && Run(s, acts).b.tokens > s.b.cfg.maxTokens
    ensures k <= |acts| && AnyRefused(Run(s, acts[..k]))
    decreases acts
  {
    var s1 := Step(s, acts[0]);
    if s1.b.tokens > s.b.cfg.maxTokens {
      k := 0;
      assert s.threads[acts[0].i].pc == Refund;
    } else {
      StepKeepsSetup(s, acts[0]);
      var rest := OnlyRefundsExceed(s1, acts[1..]);
      k := rest + 1;
      assert acts[..k][1..] == acts[1..][..rest];
    }
  }

  /** Some run on one clock takes the balance above the cap. */
  ghost predicate PassesCap(cfg: Config, n: nat) {
    exists t0, acts :: OnClock(Start(cfg, t0, n), acts) && Run(Start(cfg, t0, n), acts).b.tokens > cfg.maxTokens
  }

  /** Some run on one clock has a call refused by the window. */
  ghost predicate Refuses(cfg: Config, n: nat) {
    exists t0, acts :: OnClock(Start(cfg, t0, n), acts) && AnyRefused(Run(Start(cfg, t0, n), acts))
  }

  /** On one clock a balance can pass its cap exactly when the window can refuse a call at all, there is a second
      thread, and the bucket refills. */
  lemma PassesCapExactlyWhenRefusing(cfg: Config, n: nat)
    requires Sane(cfg)
    ensures PassesCap(cfg, n) <==> n >= 2 && cfg.refillRate > 0 && cfg.refillInterval > 0 && Refuses(cfg, n)
  {
    if PassesCap(cfg, n) {
      var t0, acts :| OnClock(Start(cfg, t0, n), acts) && Run(Start(cfg, t0, n), acts).b.tokens > cfg.maxTokens;
      CapNeedsOverflow(cfg, n, t0, acts);
      var k := OnlyRefundsExceed(Start(cfg, t0, n), acts);
      assert acts == acts[..k] + acts[k..];
      OnClockAppend(Start(cfg, t0, n), acts[..k], acts[k..]);
    }
    if n >= 2 && cfg.refillRate > 0 && cfg.refillInterval > 0 && Refuses(cfg, n) {
      var t0, acts :| OnClock(Start(cfg, t0, n), acts) && AnyRefused(Run(Start(cfg, t0, n), acts));
      RefusalPassesCap(cfg, n, t0, acts);
    }
  }

  lemma RefusalPassesCap(cfg: Config, n: nat, t0: int, acts: seq<Action>)
    requires Sane(cfg) && n >= 2 && cfg.refillRate > 0 && cfg.refillInterval > 0
    requires OnClock(Start(cfg, t0, n), acts) && AnyRefused(Run(Start(cfg, t0, n), acts))
    ensures PassesCap(cfg, n)
  {
    var s := Run(Start(cfg, t0, n), acts);
    Reached(cfg, t0, n, acts);
    var i: nat :| i < |s.threads| && s.threads[i].pc == Refund;
    var more := RefundOnTop(s, i);
    OnClockAppend(Start(cfg, t0, n), acts, more);
    RunAppend(Start(cfg, t0, n), acts, more);
    assert OnClock(Start(cfg, t0, n), acts + more);
  }

  lemma CapNeedsOverflow(cfg: Config, n: nat, t0: int, acts: seq<Action>)
    requires Sane(cfg) && Run(Start(cfg, t0, n), acts).b.tokens > cfg.maxTokens
    ensures n >= 2 && CanOverflow(cfg)
  {
    if !(n >= 2 && CanOverflow(cfg)) {
      WithinCapOtherwise(cfg, n, t0, acts);
    }
  }

  // ---- calls that wait with an old clock --------------------------------------------------------------------------

  /** A call stopped on its way from its claim to its debit. Whatever it has claimed fills the bucket. */
  predicate Paused(t: Thread, cfg: Config) {
    !t.scheduled && (t.pc == StoreAccess || HoldsRefill(t, cfg))
  }

  predicate HoldsRefill(t: Thread, cfg: Config) {
    t.pc == LoadTokens && !t.scheduled && t.intervals >= cfg.maxTokens
  }

  /** The bucket of an unblocked configuration of this kind, whose last thread is at rest. */
  predicate Ready(s: State, cfg: Config, n: nat) {
    && CanOverflow(cfg) && n >= 2 && |s.threads| == n && s.threads[n - 1].pc == Idle
    && s.b.cfg == Normalize(cfg) && !s.b.blocked && 0 <= s.b.tokens <= cfg.maxTokens
    && s.b.window.Some?
    && s.b.window.value.duration == cfg.slidingWindow.value.duration
    && s.b.window.value.maxRequests == cfg.slidingWindow.value.maxRequests
  }

  /** A paused call applies what it has claimed, if anything, and stands before its debit. */
  lemma Resume(s: State, i: nat, cfg: Config) returns (k: nat)
    requires CanOverflow(cfg) && s.b.cfg == Normalize(cfg) && 0 <= s.b.tokens <= cfg.maxTokens
    requires i < |s.threads| && Paused(s.threads[i], cfg)
    ensures var s' := Run(s, Goes(i, k));
      && s'.b == s.b.(tokens := if HoldsRefill(s.threads[i], cfg) then cfg.maxTokens else s.b.tokens)
      && s'.threads[i].pc == StoreAccess && s'.threads[i].now == s.threads[i].now && !s'.threads[i].scheduled
  {
    if s.threads[i].pc == StoreAccess {
      return 0;
    }
    MulMonotone(1, cfg.refillRate, s.threads[i].intervals);
    OneGo(s, i);
    OneGo(Advance(s, i), i);
    MoreGoes(s, i, 1, 1);
    return 2;
  }

  /** The last thread lets time pass, and the m-th of the others begins a call, claims what has accrued and stops. */
  lemma PauseOne(s: State, i: nat, cfg: Config) returns (acts: seq<Action>)
    requires CanOverflow(cfg) && s.b.cfg == Normalize(cfg) && !s.b.blocked && i < |s.threads| && s.threads[i].pc == Idle
    requires s.b.lastRefill == s.ledger.latest
    ensures OnClock(s, acts)
    ensures var s' := Run(s, acts);
      && s'.b == s.b.(lastRefill := s'.ledger.latest) && HoldsRefill(s'.threads[i], cfg)
      && s'.ledger.latest > s.ledger.latest && s'.threads[i].now == s'.ledger.latest
      && forall j :: 0 <= j < |s.threads| && j != i ==> s'.threads[j] == s.threads[j]
  {
    var d, cap := cfg.refillInterval, cfg.maxTokens;
    var at := s.b.lastRefill + d * cap;
    FloorUnique(d * cap, d, cap);
    MulMonotone(1, cap, d);
    var begin := BeginAllow(i, at);
    var s1 := Step(s, begin);
    OneGo(s1, i);
    OneGo(Advance(s1, i), i);
    MoreGoes(s1, i, 1, 1);
    OneGo(Advance(Advance(s1, i), i), i);
    MoreGoes(s1, i, 2, 1);
    GoesKeepOthers(s1, i, 3);
    GoesOnClock(s1, i, 3);
    acts := [begin] + Goes(i, 3);
    assert acts[1..] == Goes(i, 3);
  }

  /** All threads but the last are stopped like that, each with a bucketful claimed. */
  lemma {:induction false} PauseAll(cfg: Config, n: nat, m: nat) returns (acts: seq<Action>)
    requires CanOverflow(cfg) && n >= 2 && m <= n - 1
    ensures OnClock(Start(cfg, 0, n), acts)
    ensures var s := Run(Start(cfg, 0, n), acts);
      && |s.threads| == n && s.b == BucketSpec.New(cfg, 0).(lastRefill := s.ledger.latest)
      && (forall j :: 0 <= j < m ==> HoldsRefill(s.threads[j], cfg) && s.threads[j].now <= s.ledger.latest)
      && (forall j :: m <= j < n ==> s.threads[j].pc == Idle)
    decreases m
  {
    if m == 0 {
      return [];
    }
    var before := PauseAll(cfg, n, m - 1);
    var s := Run(Start(cfg, 0, n), before);
    var more := PauseOne(s, m - 1, cfg);
    OnClockAppend(Start(cfg, 0, n), before, more);
    RunAppend(Start(cfg, 0, n), before, more);
    acts := before + more;
  }

  // ---- filling the window within one duration ----------------------------------------------------------------------

  /** Thread i, at rest, makes one call at `at` with no one else moving. */
  lemma CallAlone(s: State, i: nat, at: int) returns (acts: seq<Action>)
    requires i < |s.threads| && s.threads[i].pc == Idle && at >= s.ledger.latest
    ensures OnClock(s, acts)
    ensures var s' := Run(s, acts);
      && s'.b == Allow(s.b, at).0 && s'.threads[i].pc == Idle && s'.ledger.latest == at
      && forall j :: 0 <= j < |s.threads| && j != i ==> s'.threads[j] == s.threads[j]
  {
    var begin := BeginAllow(i, at);
    var s1 := Step(s, begin);
    var k := SoloCallIsSequential(s, i, at);
    GoesKeepOthers(s1, i, k);
    GoesOnClock(s1, i, k);
    acts := [begin] + Goes(i, k);
    assert acts[1..] == Goes(i, k);
  }

  /** The last thread serves calls from `first` on, its first slot; the other threads are stopped, those from p on
      with a bucketful claimed. */
  predicate Serving(s: State, cfg: Config, n: nat, p: nat, first: int) {
    && Ready(s, cfg, n) && p <= n - 1
    && (forall j :: 0 <= j < n - 1 ==> Paused(s.threads[j], cfg) && s.threads[j].now <= first)
    && (forall j :: p <= j < n - 1 ==> HoldsRefill(s.threads[j], cfg))
    && first <= s.ledger.latest < first + s.b.window.value.duration
    && s.ledger.latest < s.b.lastRefill + cfg.refillInterval
    && (if s.b.window.value.live == [] then s.ledger.latest == first else s.b.window.value.live[0] == first)
  }

  /** How many more calls one interval is sure to make an empty balance pay for. */
  function SureGain(cfg: Config): int {
    Calls(cfg, Min(cfg.refillRate, cfg.maxTokens))
  }

  /** Refill instants still to come within the duration of the first slot. */
  function TicksLeft(s: State, cfg: Config, first: int): int
    requires CanOverflow(cfg)
  {
    (first + cfg.slidingWindow.value.duration - 1 - s.b.lastRefill) / cfg.refillInterval
  }

  /** Calls that can still be paid for within that duration. */
  function Left(s: State, cfg: Config, n: nat, p: nat, first: int): int
    requires CanOverflow(cfg)
  {
    Calls(cfg, s.b.tokens) + (n - 1 - p) * Calls(cfg, cfg.maxTokens) + SureGain(cfg) * TicksLeft(s, cfg, first)
  }

  lemma ServeCall(s: State, cfg: Config, n: nat, p: nat, first: int) returns (acts: seq<Action>)
    requires Serving(s, cfg, n, p, first)
    requires Calls(cfg, s.b.tokens) > 0 && |s.b.window.value.live| < cfg.slidingWindow.value.maxRequests
    ensures OnClock(s, acts)
    ensures var s' := Run(s, acts);
      && Serving(s', cfg, n, p, first)
      && |s'.b.window.value.live| == |s.b.window.value.live| + 1
      && s'.b.tokens == s.b.tokens - Cost(cfg) && s'.b.lastRefill == s.b.lastRefill
  {
    FloorReaches(s.b.tokens, Cost(cfg), 1);
    FloorReaches(s.ledger.latest - s.b.lastRefill, cfg.refillInterval, 1);
    acts := CallAlone(s, n - 1, s.ledger.latest);
  }

  lemma ServeResume(s: State, cfg: Config, n: nat, p: nat, first: int) returns (acts: seq<Action>)
    requires Serving(s, cfg, n, p, first) && p < n - 1
    ensures OnClock(s, acts)
    ensures var s' := Run(s, acts);
            Serving(s', cfg, n, p + 1, first) && s'.b == s.b.(tokens := cfg.maxTokens)
  {
    var k := Resume(s, p, cfg);
    GoesKeepOthers(s, p, k);
    GoesOnClock(s, p, k);
    acts := Goes(p, k);
  }

  lemma ServeTick(s: State, cfg: Config, n: nat, p: nat, first: int) returns (acts: seq<Action>)
    requires Serving(s, cfg, n, p, first) && TicksLeft(s, cfg, first) > 0 && s.b.window.value.live != []
    ensures OnClock(s, acts)
    ensures var s' := Run(s, acts);
      && Serving(s', cfg, n, p, first)
      && s'.b == s.b.(tokens := Min(s.b.tokens + cfg.refillRate, cfg.maxTokens),
                      lastRefill := s.b.lastRefill + cfg.refillInterval)
      && s'.b.lastRefill < first + cfg.slidingWindow.value.duration
  {
    var d := cfg.refillInterval;
    FloorReaches(first + cfg.slidingWindow.value.duration - 1 - s.b.lastRefill, d, 1);
    FloorUnique(d, d, 1);
    acts := RefillAlone(s, n - 1, s.b.lastRefill + d);
  }

  /** With the balance spent and no bucketful waiting, what is left is ticks; and it starts from a full bucket. */
  lemma CallsLeft(s: State, cfg: Config, n: nat, p: nat, first: int)
    requires Serving(s, cfg, n, p, first) && Left(s, cfg, n, p, first) > 0
    ensures s.b.tokens == cfg.maxTokens ==> Calls(cfg, s.b.tokens) > 0
    ensures Calls(cfg, s.b.tokens) >= 0
    ensures Calls(cfg, s.b.tokens) == 0 && p == n - 1 ==> TicksLeft(s, cfg, first) > 0
  {
    FloorReaches(cfg.maxTokens, Cost(cfg), 1);
    FloorReaches(s.b.tokens, Cost(cfg), 0);
    FloorReaches(Min(cfg.refillRate, cfg.maxTokens), Cost(cfg), 0);
    if TicksLeft(s, cfg, first) <= 0 {
      MulMonotone(TicksLeft(s, cfg, first), 0, SureGain(cfg));
    }
  }

  /** Another call, another bucketful or another tick, and no fewer calls paid for in all. */
  lemma ServeStep(s: State, cfg: Config, n: nat, p: nat, first: int) returns (step: seq<Action>, q: nat)
    requires Serving(s, cfg, n, p, first) && |s.b.window.value.live| < cfg.slidingWindow.value.maxRequests
    requires Left(s, cfg, n, p, first) > 0
    requires s.b.window.value.live != [] || s.b.tokens == cfg.maxTokens
    ensures OnClock(s, step) && Serving(Run(s, step), cfg, n, q, first)
    ensures
      var s' := Run(s, step);
      var slots, slots' := |s.b.window.value.live|, |s'.b.window.value.live|;
      && (slots' == slots + 1 || (slots' == slots > 0 && q == p + 1)
          || (slots' == slots > 0 && q == p
              && s.b.lastRefill < s'.b.lastRefill < first + cfg.slidingWindow.value.duration))
      && slots' + Left(s', cfg, n, q, first) >= slots + Left(s, cfg, n, p, first)
  {
    hide Serving;
    q := p;
    CallsLeft(s, cfg, n, p, first);
    if Calls(cfg, s.b.tokens) > 0 {
      step := ServeCall(s, cfg, n, p, first);
      FloorShift(s.b.tokens, Cost(cfg), -1);
    } else if p < n - 1 {
      step := ServeResume(s, cfg, n, p, first);
      q := p + 1;
      Distribute(Calls(cfg, cfg.maxTokens), n - 1 - p, -1);
    } else {
      ServingWithin(s, cfg, n, p, first);
      step := ServeTick(s, cfg, n, p, first);
      FloorShift(first + cfg.slidingWindow.value.duration - 1 - s.b.lastRefill, cfg.refillInterval, -1);
      Distribute(SureGain(cfg), TicksLeft(s, cfg, first), -1);
      FloorMonotone(Min(cfg.refillRate, cfg.maxTokens), Min(s.b.tokens + cfg.refillRate, cfg.maxTokens), Cost(cfg));
    }
  }

  lemma ServingWithin(s: State, cfg: Config, n: nat, p: nat, first: int)
    requires Serving(s, cfg, n, p, first)
    ensures p <= n - 1 && CanOverflow(cfg) && 0 <= s.b.tokens <= cfg.maxTokens && s.b.window.Some?
  {
  }

  /** The window can be brought to any number of slots that what is left pays for. */
  lemma {:induction false} Serve(s: State, cfg: Config, n: nat, p: nat, first: int, goal: int)
    returns (acts: seq<Action>, q: nat)
    requires Serving(s, cfg, n, p, first)
    requires |s.b.window.value.live| <= goal <= cfg.slidingWindow.value.maxRequests
    requires goal <= |s.b.window.value.live| + Left(s, cfg, n, p, first)
    requires s.b.window.value.live != [] || s.b.tokens == cfg.maxTokens
    ensures OnClock(s, acts)
    ensures Serving(Run(s, acts), cfg, n, q, first) && |Run(s, acts).b.window.value.live| == goal
    decreases goal - |s.b.window.value.live|, n - p, first + cfg.slidingWindow.value.duration - s.b.lastRefill
  {
    hide Serving;
    hide Left;
    ServingWithin(s, cfg, n, p, first);
    if |s.b.window.value.live| == goal {
      return [], p;
    }
    var step, q1 := ServeStep(s, cfg, n, p, first);
    ServingWithin(Run(s, step), cfg, n, q1, first);
    var rest;
    rest, q := Serve(Run(s, step), cfg, n, q1, first, goal);
    OnClockAppend(s, step, rest);
    RunAppend(s, step, rest);
    acts := step + rest;
  }

  // ---- and then past it -----------------------------------------------------------------------------------

  /** Threads from lo on, but the last, are stopped with clocks at which the first slot still counts. */
  predicate Waiting(s: State, cfg: Config, n: nat, lo: nat) {
    && Ready(s, cfg, n)
    && var w := s.b.window.value;
       forall j :: lo <= j < n - 1 ==>
         Paused(s.threads[j], cfg) && (w.live != [] ==> s.threads[j].now < w.live[0] + w.duration)
  }

  /** Thread lo, with the bucket full, goes on to its debit and asks the window. */
  lemma AskNext(s: State, cfg: Config, n: nat, lo: nat) returns (acts: seq<Action>)
    requires Waiting(s, cfg, n, lo) && lo < n - 1 && s.b.tokens == cfg.maxTokens
    requires s.b.window.value.live != [] || cfg.slidingWindow.value.maxRequests <= 0
    ensures OnClock(s, acts)
    ensures
      var s' := Run(s, acts);
      var live := s.b.window.value.live;
      if |live| < cfg.slidingWindow.value.maxRequests
      then Waiting(s', cfg, n, lo + 1) && |s'.b.window.value.live| == |live| + 1
      else s'.threads[lo].pc == Refund
  {
    var k := Resume(s, lo, cfg);
    var s1 := Run(s, Goes(lo, k));
    DebitAndAsk(s1, lo, cfg);
    MoreGoes(s, lo, k, 4);
    GoesKeepOthers(s, lo, k + 4);
    GoesOnClock(s, lo, k + 4);
    acts := Goes(lo, k + 4);
  }

  /** The clock moves on, the bucket is filled up before each waiting call, and they take what room the window
      has left, until one is refused. */
  lemma {:induction false} ServeWaiting(s: State, cfg: Config, n: nat, lo: nat) returns (acts: seq<Action>)
    requires Waiting(s, cfg, n, lo) && lo <= n - 2
    requires cfg.slidingWindow.value.maxRequests - |s.b.window.value.live| <= n - 2 - lo
    requires s.b.window.value.live != [] || cfg.slidingWindow.value.maxRequests <= 0
    ensures OnClock(s, acts) && AnyRefused(Run(s, acts))
    decreases n - lo
  {
    var fill := FillUp(s, n - 1, Max(s.ledger.latest, FillTime(s.b)));
    var s1 := Run(s, fill);
    var ask := AskNext(s1, cfg, n, lo);
    OnClockAppend(s, fill, ask);
    RunAppend(s, fill, ask);
    acts := fill + ask;
    if |s.b.window.value.live| < cfg.slidingWindow.value.maxRequests {
      var rest := ServeWaiting(Run(s, acts), cfg, n, lo + 1);
      OnClockAppend(s, acts, rest);
      RunAppend(s, acts, rest);
      acts := acts + rest;
    }
  }

  // ---- how large a limit can still refuse -----------------------------------------------------------------

  /** Up to this limit the window can be made to refuse a call on one clock: what is sure to be paid for within a
      duration, and one waiting call for each thread but two. */
  function Least(cfg: Config, n: nat): int
    requires CanOverflow(cfg)
  {
    var w := cfg.slidingWindow.value.duration;
    n - 2 + if w <= 0 then 1 else n * Calls(cfg, cfg.maxTokens) + SureGain(cfg) * Grid(w, cfg.refillInterval)
  }

  lemma LeastPaysForOne(cfg: Config, n: nat)
    requires CanOverflow(cfg) && n >= 1
    ensures Least(cfg, n) > n - 2
  {
    var w := cfg.slidingWindow.value.duration;
    if w > 0 {
      CapPaysForOne(cfg);
      FloorReaches(w + cfg.refillInterval - 2, cfg.refillInterval, 0);
      FloorReaches(Min(cfg.refillRate, cfg.maxTokens), Cost(cfg), 0);
      MulMonotone(0, Grid(w, cfg.refillInterval), SureGain(cfg));
      MulMonotone(1, n, Calls(cfg, cfg.maxTokens));
    }
  }

  lemma RefusesThen(cfg: Config, n: nat, acts: seq<Action>, more: seq<Action>)
    requires OnClock(Start(cfg, 0, n), acts) && OnClock(Run(Start(cfg, 0, n), acts), more)
    requires AnyRefused(Run(Run(Start(cfg, 0, n), acts), more))
    ensures Refuses(cfg, n)
  {
    OnClockAppend(Start(cfg, 0, n), acts, more);
    RunAppend(Start(cfg, 0, n), acts, more);
    assert OnClock(Start(cfg, 0, n), acts + more);
  }

  /** With no room at all the first call is refused. */
  lemma RefusesClosed(cfg: Config, n: nat)
    requires CanOverflow(cfg) && n >= 2 && cfg.slidingWindow.value.maxRequests <= 0
    ensures Refuses(cfg, n)
  {
    var pause := PauseAll(cfg, n, n - 1);
    var rest := ServeWaiting(Run(Start(cfg, 0, n), pause), cfg, n, 0);
    RefusesThen(cfg, n, pause, rest);
  }

  /** Without a positive duration: one slot from a call late enough for the waiting calls, then theirs. */
  lemma RefusesInstant(cfg: Config, n: nat)
    requires CanOverflow(cfg) && n >= 2 && cfg.slidingWindow.value.duration <= 0
    requires 0 < cfg.slidingWindow.value.maxRequests <= Least(cfg, n)
    ensures Refuses(cfg, n)
  {
    var pause := PauseAll(cfg, n, n - 1);
    var s := Run(Start(cfg, 0, n), pause);
    var first := s.ledger.latest + 1 - cfg.slidingWindow.value.duration;
    FullStaysFull(s.b, first);
    var call := CallAlone(s, n - 1, first);
    var rest := ServeWaiting(Run(s, call), cfg, n, 0);
    OnClockAppend(s, call, rest);
    RunAppend(s, call, rest);
    RefusesThen(cfg, n, pause, call + rest);
  }

  /** Serving starts just before a refill instant, with all there is to be paid still to come. */
  lemma StartServing(cfg: Config, n: nat) returns (acts: seq<Action>, first: int)
    requires CanOverflow(cfg) && n >= 2 && cfg.slidingWindow.value.duration > 0
    ensures OnClock(Start(cfg, 0, n), acts)
    ensures var s := Run(Start(cfg, 0, n), acts);
      && Serving(s, cfg, n, 0, first) && s.b.tokens == cfg.maxTokens && s.b.window.value.live == []
      && Left(s, cfg, n, 0, first) == Least(cfg, n) - (n - 2) > 0
  {
    hide Run;
    hide Left;
    hide Least;
    var pause := PauseAll(cfg, n, n - 1);
    var s := Run(Start(cfg, 0, n), pause);
    first := s.b.lastRefill + cfg.refillInterval - 1;
    FloorUnique(cfg.refillInterval - 1, cfg.refillInterval, 0);
    var wait := RefillAlone(s, n - 1, first);
    OnClockAppend(Start(cfg, 0, n), pause, wait);
    RunAppend(Start(cfg, 0, n), pause, wait);
    LeftAtStart(Run(s, wait), cfg, n, first);
    acts := pause + wait;
  }

  lemma LeftAtStart(s: State, cfg: Config, n: nat, first: int)
    requires CanOverflow(cfg) && n >= 2 && cfg.slidingWindow.value.duration > 0
    requires s.b.tokens == cfg.maxTokens && s.b.lastRefill == first + 1 - cfg.refillInterval
    ensures Left(s, cfg, n, 0, first) == Least(cfg, n) - (n - 2) > 0
  {
    Distribute(Calls(cfg, cfg.maxTokens), n - 1, 1);
    LeastPaysForOne(cfg, n);
  }

  /** With a positive duration: as many slots as it takes within it, then the waiting calls. */
  lemma RefusesWithin(cfg: Config, n: nat)
    requires CanOverflow(cfg) && n >= 2 && cfg.slidingWindow.value.duration > 0
    requires 0 < cfg.slidingWindow.value.maxRequests <= Least(cfg, n)
    ensures Refuses(cfg, n)
  {
    var start, first := StartServing(cfg, n);
    var more := ServingRefuses(Run(Start(cfg, 0, n), start), cfg, n, first);
    RefusesThen(cfg, n, start, more);
  }

  lemma ServingRefuses(s: State, cfg: Config, n: nat, first: int) returns (acts: seq<Action>)
    requires Serving(s, cfg, n, 0, first) && s.b.tokens == cfg.maxTokens && s.b.window.value.live == []
    requires 0 < cfg.slidingWindow.value.maxRequests <= n - 2 + Left(s, cfg, n, 0, first)
    requires Left(s, cfg, n, 0, first) > 0
    ensures OnClock(s, acts) && AnyRefused(Run(s, acts))
  {
    hide AnyRefused;
    var goal := Max(1, cfg.slidingWindow.value.maxRequests - (n - 2));
    var serve, q := Serve(s, cfg, n, 0, first, goal);
    var rest := ServeWaiting(Run(s, serve), cfg, n, 0);
    OnClockAppend(s, serve, rest);
    RunAppend(s, serve, rest);
    acts := serve + rest;
  }

  /** The two limits differ by at most one call for each refill within a duration. */
  lemma LimitsNear(cfg: Config, n: nat)
    requires CanOverflow(cfg)
    ensures Least(cfg, n) <= Most(cfg, n)
    ensures Most(cfg, n) - Least(cfg, n) <= Max(0, Grid(cfg.slidingWindow.value.duration, cfg.refillInterval))
  {
    var r, cap, cost, w := cfg.refillRate, cfg.maxTokens, Cost(cfg), cfg.slidingWindow.value.duration;
    if w > 0 {
      FloorReaches(w + cfg.refillInterval - 2, cfg.refillInterval, 0);
      FloorMonotone(Min(r, cap), cap, cost);
      FloorMonotone(Min(r, cap), r + cost - 1, cost);
      FloorMonotone(r + cost - 1, r + cost, cost);
      FloorShift(r, cost, 1);
      assert SureGain(cfg) <= Gain(cfg) <= SureGain(cfg) + 1;
      MulMonotone(SureGain(cfg), Gain(cfg), Grid(w, cfg.refillInterval));
      MulMonotone(Gain(cfg), SureGain(cfg) + 1, Grid(w, cfg.refillInterval));
      Distribute(Grid(w, cfg.refillInterval), SureGain(cfg), 1);
    }
  }

  /** What passing the cap on one clock takes: a limit no larger than `Most`; and a limit no larger than `Least`
      is enough. */
  lemma PassesCapBetween(cfg: Config, n: nat)
    requires Sane(cfg)
    ensures PassesCap(cfg, n) ==> CanOverflow(cfg) && n >= 2 && cfg.slidingWindow.value.maxRequests <= Most(cfg, n)
    ensures CanOverflow(cfg) && n >= 2 && cfg.slidingWindow.value.maxRequests <= Least(cfg, n) ==> PassesCap(cfg, n)
    ensures CanOverflow(cfg) ==>
              && Least(cfg, n) <= Most(cfg, n)
              && Most(cfg, n) - Least(cfg, n) <= Max(0, Grid(cfg.slidingWindow.value.duration, cfg.refillInterval))
  {
    if CanOverflow(cfg) {
      LimitsNear(cfg, n);
    }
    if PassesCap(cfg, n) {
      var t0, acts :| OnClock(Start(cfg, t0, n), acts) && Run(Start(cfg, t0, n), acts).b.tokens > cfg.maxTokens;
      CapNeedsOverflow(cfg, n, t0, acts);
      if cfg.slidingWindow.value.maxRequests > Most(cfg, n) {
        NeverRefused(cfg, t0, n, acts);
      }
    }
    if CanOverflow(cfg) && n >= 2 && cfg.slidingWindow.value.maxRequests <= Least(cfg, n) {
      if cfg.slidingWindow.value.maxRequests <= 0 {
        RefusesClosed(cfg, n);
      } else if cfg.slidingWindow.value.duration <= 0 {
        RefusesInstant(cfg, n);
      } else {
        RefusesWithin(cfg, n);
      }
      PassesCapExactlyWhenRefusing(cfg, n);
    }
  }

  /** The two limits are the same when the duration holds no refill instant, when the refill rate is a whole
      number of calls, or when one refill pays for as many calls as a full bucket. */
  lemma LimitsMeet(cfg: Config, n: nat)
    requires CanOverflow(cfg)
    requires cfg.slidingWindow.value.duration <= 1 || cfg.refillRate % Cost(cfg) == 0
          || Calls(cfg, cfg.refillRate) >= Calls(cfg, cfg.maxTokens)
    ensures Least(cfg, n) == Most(cfg, n)
  {
    var r, cap, cost := cfg.refillRate, cfg.maxTokens, Cost(cfg);
    if cfg.slidingWindow.value.duration == 1 {
      FloorUnique(cfg.refillInterval - 1, cfg.refillInterval, 0);
    }
    FloorMonotone(Min(r, cap), cap, cost);
    FloorMonotone(Min(r, cap), r, cost);
    FloorMonotone(r, r + cost - 1, cost);
    if r % cost == 0 {
      FloorUnique(r + cost - 1, cost, r / cost);
    }
  }

  /** On one clock, and for such configurations, a balance can pass its cap exactly when besides all else the
      window's limit is no larger than what a full bucket for each thread and the refills within one duration pay
      for, and one more call for each thread but two. */
  lemma PassesCapExactlyWhen(cfg: Config, n: nat)
    requires Sane(cfg)
    requires CanOverflow(cfg) ==>
               || cfg.slidingWindow.value.duration <= 1 || cfg.refillRate % Cost(cfg) == 0
               || Calls(cfg, cfg.refillRate) >= Calls(cfg, cfg.maxTokens)
    ensures PassesCap(cfg, n)
       <==> CanOverflow(cfg) && n >= 2
            && cfg.slidingWindow.value.maxRequests - (n - 2)
               <= if cfg.slidingWindow.value.duration <= 0 then 1
                  else n * Calls(cfg, cfg.maxTokens)
                       + Calls(cfg, Min(cfg.refillRate, cfg.maxTokens))
                         * Grid(cfg.slidingWindow.value.duration, cfg.refillInterval)
  {
    PassesCapBetween(cfg, n);
    if CanOverflow(cfg) {
      LimitsMeet(cfg, n);
    }
  }

  /** Where only calls with an earlier clock than refills already made take the balance above the cap. */
  lemma OldClocksNeeded()
    ensures var cfg := Config(1, 1, 1, 1, Some(W.WindowConfig(true, 0, 3, 0)));
      && (exists t0, acts :: Run(Start(cfg, t0, 2), acts).b.tokens > cfg.maxTokens)
      && !PassesCap(cfg, 2)
  {
    var cfg := Config(1, 1, 1, 1, Some(W.WindowConfig(true, 0, 3, 0)));
    CapExceededExactlyWhen(cfg, 2);
    PassesCapExactlyWhen(cfg, 2);
  }
}
