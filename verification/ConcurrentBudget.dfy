/** While no window has refused a call, what the bucket can pay for bounds what its window can hold. On one
    clock that never goes back this bounds the limits a window can have and still refuse a call. */
module ConcurrentBudget {
  import opened Arithmetic
  import opened BucketSpec
  import opened ConcurrentBucket
  import opened ConcurrentCap
  import W = WindowSpec

  predicate AnyRefused(s: State) {
    exists j :: 0 <= j < |s.threads| && s.threads[j].pc == Refund
  }

  // ---- what is there to spend -----------------------------------------------------------------------------

  /** How many calls a balance pays for. */
  function Calls(cfg: Config, tokens: int): int {
    tokens / Cost(cfg)
  }

  /** How many more calls one interval can make the balance pay for. */
  function Gain(cfg: Config): int {
    Min(Calls(cfg, cfg.maxTokens), CeilDiv(cfg.refillRate, Cost(cfg)))
  }

  /** How many calls a thread has paid for, or can still make the balance pay for. */
  function Share(cfg: Config, t: Thread): int {
    if Holds(t) then 1
    else if Owes(t) then Min(Calls(cfg, cfg.maxTokens), Gain(cfg) * t.intervals)
    else 0
  }

  function Shares(cfg: Config, ts: seq<Thread>): int {
    if ts == [] then 0 else Share(cfg, ts[0]) + Shares(cfg, ts[1..])
  }

  function Wealth(s: State): int {
    Calls(s.b.cfg, s.b.tokens) + Shares(s.b.cfg, s.threads)
  }

  lemma {:induction false} SharesReplaced(cfg: Config, ts: seq<Thread>, i: nat, t: Thread)
    requires i < |ts|
    ensures Shares(cfg, ts[i := t]) == Shares(cfg, ts) - Share(cfg, ts[i]) + Share(cfg, t)
  {
    if i == 0 {
      assert ts[0 := t][1..] == ts[1..];
    } else {
      assert ts[i := t][1..] == ts[1..][i - 1 := t];
      SharesReplaced(cfg, ts[1..], i - 1, t);
    }
  }

  /** The configurations of this module: a refill that adds something, and a cost within the cap. */
  predicate Apt(cfg: Config) {
    cfg.refillRate > 0 && cfg.refillInterval > 0 && Cost(cfg) <= cfg.maxTokens
  }

  predicate Counted(ts: seq<Thread>) {
    forall j :: 0 <= j < |ts| && Owes(ts[j]) ==> ts[j].intervals >= 0
  }

  lemma CapPaysForOne(cfg: Config)
    requires Apt(cfg)
    ensures Calls(cfg, cfg.maxTokens) >= 1 && Gain(cfg) >= 1
  {
    FloorReaches(cfg.maxTokens, Cost(cfg), 1);
    FloorReaches(cfg.refillRate + Cost(cfg) - 1, Cost(cfg), 1);
  }

  lemma {:induction false} SharesBounded(cfg: Config, ts: seq<Thread>)
    requires Apt(cfg) && Counted(ts)
    ensures 0 <= Shares(cfg, ts) <= |ts| * Calls(cfg, cfg.maxTokens)
  {
    if ts != [] {
      CapPaysForOne(cfg);
      if Owes(ts[0]) { MulMonotone(0, ts[0].intervals, Gain(cfg)); }
      SharesBounded(cfg, ts[1..]);
      Distribute(Calls(cfg, cfg.maxTokens), |ts| - 1, 1);
    }
  }

  /** One thread without a share leaves the others a cap each. */
  lemma SharesOfOthers(cfg: Config, ts: seq<Thread>, i: nat)
    requires Apt(cfg) && Counted(ts) && i < |ts| && Share(cfg, ts[i]) == 0
    ensures Shares(cfg, ts) <= (|ts| - 1) * Calls(cfg, cfg.maxTokens)
  {
    var rest := ts[..i] + ts[i + 1..];
    SharesSplit(cfg, ts[..i], ts[i..]);
    SharesSplit(cfg, ts[..i], ts[i + 1..]);
    assert ts == ts[..i] + ts[i..] && ts[i..][1..] == ts[i + 1..];
    forall j | 0 <= j < |rest| && Owes(rest[j]) ensures rest[j].intervals >= 0 {
      assert rest[j] == ts[if j < i then j else j + 1];
    }
    SharesBounded(cfg, rest);
  }

  lemma {:induction false} SharesSplit(cfg: Config, x: seq<Thread>, y: seq<Thread>)
    ensures Shares(cfg, x + y) == Shares(cfg, x) + Shares(cfg, y)
  {
    if x == [] {
      assert x + y == y;
    } else {
      assert (x + y)[1..] == x[1..] + y;
      SharesSplit(cfg, x[1..], y);
    }
  }

  // ---- what has been spent ------------------------------------------------------------------------------------

  /** How many whole intervals had passed at `at`. */
  function Cell(s: State, at: int): int
    requires s.b.cfg.refillInterval > 0
  {
    (at - s.ledger.start) / s.b.cfg.refillInterval
  }

  /** A full bucket for each thread, and what the intervals claimed since `at` can have added. */
  function Allowance(s: State, at: int): int
    requires s.b.cfg.refillInterval > 0
  {
    |s.threads| * Calls(s.b.cfg, s.b.cfg.maxTokens) + Gain(s.b.cfg) * (s.ledger.claimed - Cell(s, at))
  }

  /** Each live slot and those after it were paid for out of the allowance of its time. */
  predicate Funded(s: State, live: seq<int>)
    requires s.b.cfg.refillInterval > 0
    decreases live
  {
    live == [] || (Wealth(s) + |live| <= Allowance(s, live[0]) && Funded(s, live[1..]))
  }

  predicate Spending(t: Thread) {
    t.pc == StoreAccess || t.pc == LoadBalance || t.pc == CasDebit || t.pc == AskWindow
  }

  predicate BackedThread(s: State, t: Thread)
    requires s.b.cfg.refillInterval > 0
  {
    && t.pc != Refund
    && (Owes(t) ==> Cell(s, t.now) <= s.ledger.claimed)
    && (Spending(t) ==> Wealth(s) <= Allowance(s, t.now))
  }

  predicate ThreadsBacked(s: State)
    requires s.b.cfg.refillInterval > 0
  {
    forall j :: 0 <= j < |s.threads| ==> BackedThread(s, s.threads[j])
  }

  predicate Backed(s: State) {
    && Apt(s.b.cfg) && s.b.tokens <= s.b.cfg.maxTokens && s.b.window.Some?
    && ThreadsBacked(s) && Funded(s, s.b.window.value.live)
  }

  /** A step that adds no more than its claims allow. */
  predicate Modest(s: State, s': State) {
    && s'.b.cfg == s.b.cfg && s'.ledger.start == s.ledger.start && |s'.threads| == |s.threads|
    && s.ledger.claimed <= s'.ledger.claimed
    && Wealth(s') <= Wealth(s) + Gain(s.b.cfg) * (s'.ledger.claimed - s.ledger.claimed)
  }

  lemma AllowanceGrows(s: State, s': State, at: int)
    requires Modest(s, s') && s.b.cfg.refillInterval > 0
    ensures Wealth(s') - Allowance(s', at) <= Wealth(s) - Allowance(s, at)
  {
    Distribute(Gain(s.b.cfg), s.ledger.claimed - Cell(s, at), s'.ledger.claimed - s.ledger.claimed);
  }

  lemma BackedStays(s: State, s': State, t: Thread)
    requires Modest(s, s') && s.b.cfg.refillInterval > 0 && BackedThread(s, t)
    ensures BackedThread(s', t)
  {
    AllowanceGrows(s, s', t.now);
  }

  lemma {:induction false} FundedStays(s: State, s': State, live: seq<int>)
    requires Modest(s, s') && s.b.cfg.refillInterval > 0 && Funded(s, live)
    ensures Funded(s', live)
    decreases live
  {
    if live != [] {
      AllowanceGrows(s, s', live[0]);
      FundedStays(s, s', live[1..]);
    }
  }

  lemma {:induction false} FundedSwept(s: State, live: seq<int>, cutoff: int)
    requires s.b.cfg.refillInterval > 0 && Funded(s, live)
    ensures Funded(s, W.Compact(live, cutoff))
    decreases live
  {
    if live != [] && live[0] <= cutoff {
      FundedSwept(s, live[1..], cutoff);
    }
  }

  /** A grant moves one call from the wealth into the window. */
  lemma {:induction false} FundedGrant(s: State, s': State, live: seq<int>, at: int)
    requires Modest(s, s') && s.b.cfg.refillInterval > 0 && s'.ledger.claimed == s.ledger.claimed
    requires Wealth(s') == Wealth(s) - 1
    requires Funded(s, live) && Wealth(s) <= Allowance(s, at)
    ensures Funded(s', live + [at])
    decreases live
  {
    if live == [] {
      assert ([] + [at])[1..] == [];
    } else {
      assert (live + [at])[1..] == live[1..] + [at];
      FundedGrant(s, s', live[1..], at);
    }
  }

  // ---- one step -----------------------------------------------------------------------------------------------

  lemma ThreadsCounted(s: State)
    requires ThreadsOK(s)
    ensures Counted(s.threads)
  {
    forall j | 0 <= j < |s.threads| && Owes(s.threads[j]) ensures s.threads[j].intervals >= 0 {
      assert ThreadOK(s, s.threads[j]);
    }
  }

  lemma InvCounts(s: State)
    requires Inv(s)
    ensures Counted(s.threads) && s.b.tokens >= 0
  {
    ThreadsCounted(s);
  }

  lemma BackedIsNotRefunding(s: State, i: nat)
    requires Backed(s) && i < |s.threads|
    ensures s.threads[i].pc != Refund
  {
    assert BackedThread(s, s.threads[i]);
  }

  /** k intervals of refill pay for no more than k times what one does, rounded up. */
  lemma RefillPays(cfg: Config, tokens: int, k: int)
    requires k >= 0
    ensures Calls(cfg, tokens + cfg.refillRate * k) <= Calls(cfg, tokens) + CeilDiv(cfg.refillRate, Cost(cfg)) * k
  {
    var cost, up := Cost(cfg), CeilDiv(cfg.refillRate, Cost(cfg));
    CeilBounds(cfg.refillRate, cost);
    MulMonotone(cfg.refillRate, cost * up, k);
    assert cost * up * k == cost * (up * k);
    FloorMonotone(tokens + cfg.refillRate * k, tokens + cost * (up * k), cost);
    FloorShift(tokens, cost, up * k);
  }

  /** Applying k intervals pays for no more calls than its share. */
  lemma GainCovers(cfg: Config, tokens: int, k: int)
    requires Apt(cfg) && k >= 1 && tokens >= 0
    ensures Calls(cfg, Min(tokens + cfg.refillRate * k, cfg.maxTokens))
         <= Calls(cfg, tokens) + Min(Calls(cfg, cfg.maxTokens), Gain(cfg) * k)
  {
    var full := tokens + cfg.refillRate * k;
    FloorReaches(tokens, Cost(cfg), 0);
    FloorMonotone(Min(full, cfg.maxTokens), cfg.maxTokens, Cost(cfg));
    FloorMonotone(Min(full, cfg.maxTokens), full, Cost(cfg));
    RefillPays(cfg, tokens, k);
    CapPaysForOne(cfg);
    hide Calls;
    hide CeilDiv;
    MulMonotone(1, k, Calls(cfg, cfg.maxTokens));
  }

  lemma ClaimModest(s: State, i: nat)
    requires Apt(s.b.cfg) && i < |s.threads| && s.threads[i].pc == CasLast && s.threads[i].intervals >= 1
    ensures Modest(s, TryClaim(s, i))
  {
    var t, s' := s.threads[i], TryClaim(s, i);
    SharesReplaced(s.b.cfg, s.threads, i, s'.threads[i]);
  }

  lemma ApplyModest(s: State, i: nat)
    requires Apt(s.b.cfg) && i < |s.threads| && s.threads[i].pc == CasTokens && s.b.tokens >= 0
    requires s.threads[i].intervals >= 1
    ensures Modest(s, TryApply(s, i))
  {
    hide Calls;
    hide Gain;
    GainCovers(s.b.cfg, s.b.tokens, s.threads[i].intervals);
    SharesReplaced(s.b.cfg, s.threads, i, TryApply(s, i).threads[i]);
  }

  lemma DebitModest(s: State, i: nat)
    requires s.b.tokens <= s.b.cfg.maxTokens && i < |s.threads| && s.threads[i].pc == CasDebit
    ensures Modest(s, TryDebit(s, i)) && TryDebit(s, i).b.tokens <= s.b.cfg.maxTokens
  {
    SharesReplaced(s.b.cfg, s.threads, i, TryDebit(s, i).threads[i]);
    FloorShift(s.b.tokens, Cost(s.b.cfg), -1);
  }

  /** Everything else moves one thread and no tokens. */
  lemma QuietModest(s: State, s': State, i: nat, t: Thread)
    requires i < |s.threads| && s'.threads == s.threads[i := t] && s'.ledger.claimed == s.ledger.claimed
    requires s'.b.cfg == s.b.cfg && s'.b.tokens == s.b.tokens && s'.ledger.start == s.ledger.start
    requires Share(s.b.cfg, t) == Share(s.b.cfg, s.threads[i])
    ensures Modest(s, s') && Wealth(s') == Wealth(s)
  {
    SharesReplaced(s.b.cfg, s.threads, i, t);
  }

  /** Cells count from the start, and lastRefillTime is as many intervals after it as have been claimed. */
  lemma CellNow(s: State, at: int)
    requires Claimed(s) && s.b.cfg.refillInterval > 0
    ensures Cell(s, at) == s.ledger.claimed + (at - s.b.lastRefill) / s.b.cfg.refillInterval
  {
    FloorShift(at - s.b.lastRefill, s.b.cfg.refillInterval, s.ledger.claimed);
  }

  /** A thread done with its refill has no share of its own, and nothing up to its clock is left to claim. */
  lemma SpendingStarts(s: State, i: nat)
    requires Apt(s.b.cfg) && 0 <= s.b.tokens <= s.b.cfg.maxTokens && Counted(s.threads)
    requires i < |s.threads| && Share(s.b.cfg, s.threads[i]) == 0 && Cell(s, s.threads[i].now) <= s.ledger.claimed
    ensures Wealth(s) <= Allowance(s, s.threads[i].now)
  {
    var cfg := s.b.cfg;
    SharesOfOthers(cfg, s.threads, i);
    Distribute(Calls(cfg, cfg.maxTokens), |s.threads| - 1, 1);
    FloorMonotone(s.b.tokens, cfg.maxTokens, Cost(cfg));
    CapPaysForOne(cfg);
    MulMonotone(0, s.ledger.claimed - Cell(s, s.threads[i].now), Gain(s.b.cfg));
  }

  lemma OwnLook(s: State, i: nat)
    requires Apt(s.b.cfg) && ThreadsBacked(s) && i < |s.threads|
    requires s.threads[i].pc in {Idle, CheckBlocked, LoadTokens, LoadBalance}
    ensures Modest(s, Advance(s, i)) && BackedThread(Advance(s, i), Look(s, s.threads[i]))
  {
    var t, s' := s.threads[i], Advance(s, i);
    assert BackedThread(s, t);
    LookWeighsTheSame(s, t);
    QuietModest(s, s', i, Look(s, t));
    AllowanceGrows(s, s', t.now);
  }

  lemma OwnLookLast(s: State, i: nat)
    requires Claimed(s) && Counted(s.threads) && Apt(s.b.cfg) && 0 <= s.b.tokens <= s.b.cfg.maxTokens
    requires i < |s.threads| && s.threads[i].pc == LoadLast
    ensures Modest(s, Advance(s, i)) && BackedThread(Advance(s, i), LookLast(s, s.threads[i]))
  {
    var t, s' := s.threads[i], Advance(s, i);
    LookWeighsTheSame(s, t);
    QuietModest(s, s', i, Look(s, t));
    AllowanceGrows(s, s', t.now);
    CellNow(s, t.now);
    if Spending(Look(s, t)) {
      SpendingStarts(s, i);
    }
  }

  lemma OwnClaim(s: State, i: nat)
    requires Claimed(s) && i < |s.threads| && s.threads[i].pc == CasLast && ThreadOK(s, s.threads[i])
    ensures BackedThread(TryClaim(s, i), TryClaim(s, i).threads[i])
  {
    CellNow(s, s.threads[i].now);
  }

  lemma OwnApply(s: State, i: nat)
    requires Backed(s) && i < |s.threads| && s.threads[i].pc == CasTokens && s.b.tokens >= 0
    requires s.threads[i].intervals >= 1 && Counted(TryApply(s, i).threads)
    ensures BackedThread(TryApply(s, i), TryApply(s, i).threads[i])
  {
    var s' := TryApply(s, i);
    assert BackedThread(s, s.threads[i]);
    ApplyModest(s, i);
    if Spending(s'.threads[i]) {
      SpendingStarts(s', i);
    }
  }

  lemma OwnDebit(s: State, i: nat)
    requires Backed(s) && i < |s.threads| && s.threads[i].pc in {StoreAccess, CasDebit}
    ensures BackedThread(Advance(s, i), Advance(s, i).threads[i]) && Modest(s, Advance(s, i))
  {
    var t, s' := s.threads[i], Advance(s, i);
    assert BackedThread(s, t);
    if t.pc == CasDebit {
      DebitModest(s, i);
    } else {
      QuietModest(s, s', i, s'.threads[i]);
    }
    AllowanceGrows(s, s', t.now);
  }

  lemma OthersStayBacked(s: State, s': State, i: nat)
    requires Backed(s) && Modest(s, s') && i < |s.threads|
    requires s'.threads == s.threads[i := s'.threads[i]] && BackedThread(s', s'.threads[i])
    ensures ThreadsBacked(s')
  {
    hide BackedThread;
    hide Funded;
    forall j | 0 <= j < |s'.threads| ensures BackedThread(s', s'.threads[j]) {
      if j != i {
        BackedStays(s, s', s.threads[j]);
      }
    }
  }

  /** Modest steps that leave the window alone keep everything backed, the mover apart. */
  lemma ModestKeepsBacked(s: State, s': State, i: nat)
    requires Backed(s) && Modest(s, s') && s'.b.tokens <= s.b.cfg.maxTokens && s'.b.window == s.b.window
    requires i < |s.threads| && s'.threads == s.threads[i := s'.threads[i]] && BackedThread(s', s'.threads[i])
    ensures Backed(s')
  {
    hide BackedThread;
    hide Funded;
    FundedStays(s, s', s.b.window.value.live);
    OthersStayBacked(s, s', i);
  }

  lemma AskGrants(s: State, i: nat)
    requires Backed(s) && i < |s.threads| && s.threads[i].pc == AskWindow
    requires W.Admits(s.b.window.value, s.threads[i].now)
    ensures Modest(s, Ask(s, i)) && Wealth(Ask(s, i)) == Wealth(s) - 1
    ensures Funded(Ask(s, i), Ask(s, i).b.window.value.live)
  {
    hide Calls;
    hide Gain;
    var t, s', live := s.threads[i], Ask(s, i), s.b.window.value.live;
    var cutoff := t.now - s.b.window.value.duration;
    assert BackedThread(s, t);
    SharesReplaced(s.b.cfg, s.threads, i, s'.threads[i]);
    FundedSwept(s, live, cutoff);
    FundedGrant(s, s', W.Compact(live, cutoff), t.now);
  }

  lemma AskKeepsBacked(s: State, i: nat)
    requires Backed(s) && i < |s.threads| && s.threads[i].pc == AskWindow
    requires W.Admits(s.b.window.value, s.threads[i].now)
    ensures Backed(Ask(s, i))
  {
    var s' := Ask(s, i);
    AskGrants(s, i);
    OthersStayBacked(s, s', i);
  }

  /** The window is about to turn thread i away. */
  predicate Refusing(s: State, i: nat)
    requires i < |s.threads|
  {
    s.threads[i].pc == AskWindow && s.b.window.Some? && !W.Admits(s.b.window.value, s.threads[i].now)
  }

  /** Apart from the window's refusal every step keeps the wealth backed, whatever the clocks. */
  lemma AdvanceBacked(s: State, i: nat)
    requires Inv(s) && Backed(s) && i < |s.threads| && !Refusing(s, i)
    ensures Backed(Advance(s, i))
  {
    hide Modest;
    hide Funded;
    hide BackedThread;
    var t, s' := s.threads[i], Advance(s, i);
    assert ThreadOK(s, t) && BackedThread(s, t);
    InvCounts(s);
    match t.pc {
      case CasLast =>
        ClaimModest(s, i);
        OwnClaim(s, i);
        ModestKeepsBacked(s, s', i);
      case CasTokens =>
        AdvanceThreads(s, i);
        ThreadsCounted(s');
        ApplyModest(s, i);
        OwnApply(s, i);
        ModestKeepsBacked(s, s', i);
      case StoreAccess | CasDebit =>
        OwnDebit(s, i);
        ModestKeepsBacked(s, s', i);
      case AskWindow => AskKeepsBacked(s, i);
      case Refund => BackedIsNotRefunding(s, i);
      case LoadLast =>
        OwnLookLast(s, i);
        ModestKeepsBacked(s, s', i);
      case _ =>
        OwnLook(s, i);
        ModestKeepsBacked(s, s', i);
    }
  }

  lemma IdleStepBacked(s: State, s': State, i: nat)
    requires Backed(s) && i < |s.threads| && s.threads[i].pc == Idle
    requires s'.b == s.b.(blocked := s'.b.blocked) && s'.ledger == s.ledger.(latest := s'.ledger.latest)
    requires |s'.threads| == |s.threads| && s'.threads == s.threads[i := s'.threads[i]]
    requires s'.threads[i].pc in {Idle, LoadLast, CheckBlocked}
    ensures Backed(s')
  {
    QuietModest(s, s', i, s'.threads[i]);
    ModestKeepsBacked(s, s', i);
  }

  // ---- one clock ------------------------------------------------------------------------------------------------

  /** Threads still running with a clock below `limit`. */
  function Stale(ts: seq<Thread>, limit: int): nat {
    if ts == [] then 0 else (if IsStale(ts[0], limit) then 1 else 0) + Stale(ts[1..], limit)
  }

  predicate IsStale(t: Thread, limit: int) {
    t.pc != Idle && t.now < limit
  }

  lemma {:induction false} StaleReplaced(ts: seq<Thread>, i: nat, t: Thread, limit: int)
    requires i < |ts|
    ensures Stale(ts[i := t], limit)
         == Stale(ts, limit) - (if IsStale(ts[i], limit) then 1 else 0) + (if IsStale(t, limit) then 1 else 0)
  {
    if i == 0 {
      assert ts[0 := t][1..] == ts[1..];
    } else {
      assert ts[i := t][1..] == ts[1..][i - 1 := t];
      StaleReplaced(ts[1..], i - 1, t, limit);
    }
  }

  lemma {:induction false} StaleAtMost(ts: seq<Thread>, limit: int)
    ensures Stale(ts, limit) <= |ts|
  {
    if ts != [] { StaleAtMost(ts[1..], limit); }
  }

  lemma StaleOthers(ts: seq<Thread>, i: nat, limit: int)
    requires i < |ts| && !IsStale(ts[i], limit)
    ensures Stale(ts, limit) <= |ts| - 1
  {
    var t := ts[i].(pc := CheckBlocked, now := limit - 1);
    StaleReplaced(ts, i, t, limit);
    StaleAtMost(ts[i := t], limit);
  }

  /** Refill instants that can lie after one clock reading and less than a duration w after it. */
  function Grid(w: int, d: int): int
    requires d > 0
  {
    (w + d - 2) / d
  }

  /** How many calls that read a clock less than one duration after the oldest live slot can have been paid for
      by then. Where the duration is not positive there are none but the slot itself. */
  function Budget(cfg: Config, w: int, n: nat): int
    requires Apt(cfg)
  {
    if w <= 0 then 1 else n * Calls(cfg, cfg.maxTokens) + Gain(cfg) * Grid(w, cfg.refillInterval)
  }

  lemma BudgetPositive(cfg: Config, w: int, n: nat)
    requires Apt(cfg) && n >= 1
    ensures Budget(cfg, w, n) >= 1
  {
    if w > 0 {
      CapPaysForOne(cfg);
      FloorReaches(w + cfg.refillInterval - 2, cfg.refillInterval, 0);
      MulMonotone(0, Grid(w, cfg.refillInterval), Gain(cfg));
      MulMonotone(1, n, Calls(cfg, cfg.maxTokens));
    }
  }

  /** Room for slots: what the budget pays for, and one for each thread but one caught with an old clock. */
  function Room(s: State): int
    requires Apt(s.b.cfg) && s.b.window.Some?
  {
    |s.threads| - 1 + Budget(s.b.cfg, s.b.window.value.duration, |s.threads|)
  }

  /** A slot later than all before it: only such a slot ever becomes the oldest. */
  predicate Record(live: seq<int>, j: nat)
    requires j < |live|
  {
    forall i :: 0 <= i < j ==> live[i] < live[j]
  }

  predicate SlotFits(s: State, j: nat)
    requires Apt(s.b.cfg) && s.b.window.Some? && j < |s.b.window.value.live|
  {
    var w := s.b.window.value;
    var limit := w.live[j] + w.duration;
    && w.live[j] <= s.ledger.latest
    && (s.ledger.latest >= limit ==> |w.live| - j + Stale(s.threads, limit) <= Room(s))
  }

  /** Once the clock has left the duration of a slot, the slots from it on and the calls that may still join
      them fit the room. */
  predicate Roomy(s: State)
    requires Apt(s.b.cfg) && s.b.window.Some?
  {
    forall j :: 0 <= j < |s.b.window.value.live| && Record(s.b.window.value.live, j) ==> SlotFits(s, j)
  }

  lemma {:induction false} FundedAt(s: State, live: seq<int>, j: nat)
    requires s.b.cfg.refillInterval > 0 && Funded(s, live) && j < |live|
    ensures Wealth(s) + |live| - j <= Allowance(s, live[j])
    decreases live
  {
    if j > 0 {
      FundedAt(s, live[1..], j - 1);
    }
  }

  lemma CellsWithin(x: int, y: int, w: int, d: int)
    requires d > 0 && y <= x + w - 1
    ensures y / d - x / d <= Grid(w, d)
  {
    FloorBounds(x, d);
    FloorBounds(y, d);
    FloorReaches(w + d - 2, d, y / d - x / d);
  }

  /** While the clock is within a slot's duration the budget pays for the slots from it on and for what is still
      to be spent. */
  lemma InDuration(s: State, j: nat)
    requires Inv(s) && Backed(s) && j < |s.b.window.value.live|
    requires s.b.window.value.live[j] <= s.ledger.latest < s.b.window.value.live[j] + s.b.window.value.duration
    ensures Wealth(s) + |s.b.window.value.live| - j
         <= Budget(s.b.cfg, s.b.window.value.duration, |s.threads|)
  {
    hide Inv;
    hide Wealth;
    var w, d := s.b.window.value, s.b.cfg.refillInterval;
    FundedAt(s, w.live, j);
    ClaimedIntervals(s);
    CellsWithin(w.live[j] - s.ledger.start, s.ledger.latest - s.ledger.start, w.duration, d);
    CapPaysForOne(s.b.cfg);
    MulMonotone(s.ledger.claimed - Cell(s, w.live[j]), Grid(w.duration, d), Gain(s.b.cfg));
  }

  lemma WealthCoversHeld(s: State, i: nat)
    requires Apt(s.b.cfg) && Counted(s.threads) && s.b.tokens >= 0 && i < |s.threads|
    ensures Wealth(s) >= 0
    ensures Holds(s.threads[i]) ==> Wealth(s) >= 1
  {
    var rest := s.threads[i := s.threads[i].(pc := Idle)];
    SharesReplaced(s.b.cfg, s.threads, i, rest[i]);
    SharesBounded(s.b.cfg, rest);
    SharesBounded(s.b.cfg, s.threads);
    FloorReaches(s.b.tokens, Cost(s.b.cfg), 0);
  }

  /** A step that leaves the window and the clock alone, and frees threads if anything. */
  lemma RoomyStays(s: State, s': State, i: nat)
    requires Apt(s.b.cfg) && s.b.window.Some? && Roomy(s) && i < |s.threads|
    requires s'.b.cfg == s.b.cfg && s'.b.window == s.b.window && s'.ledger.latest == s.ledger.latest
    requires |s'.threads| == |s.threads| && s'.threads == s.threads[i := s'.threads[i]]
    requires s'.threads[i].pc == Idle || (s.threads[i].pc != Idle && s'.threads[i].now == s.threads[i].now)
    ensures Roomy(s')
  {
    var w := s.b.window.value;
    forall j | 0 <= j < |w.live| && Record(w.live, j) ensures SlotFits(s', j) {
      assert SlotFits(s, j);
      StaleReplaced(s.threads, i, s'.threads[i], w.live[j] + w.duration);
    }
  }

  /** A call begins: for each slot whose duration the clock now leaves, the budget has paid, and the thread that
      begins is not one of those with an old clock. */
  lemma BeginRoomy(s: State, i: nat, now: int, scheduled: bool)
    requires Inv(s) && Backed(s) && Roomy(s)
    requires i < |s.threads| && s.threads[i].pc == Idle && s.ledger.latest <= now
    ensures Roomy(Begin(s, i, now, scheduled))
  {
    hide Inv;
    hide Backed;
    BackedHasWindow(s);
    var w, s' := s.b.window.value, Begin(s, i, now, scheduled);
    forall j | 0 <= j < |w.live| && Record(w.live, j) ensures SlotFits(s', j) {
      assert SlotFits(s, j);
      var limit := w.live[j] + w.duration;
      StaleReplaced(s.threads, i, s'.threads[i], limit);
      if s.ledger.latest < limit <= now {
        SlotsLeft(s, i, j);
        StaleOthers(s'.threads, i, limit);
      }
    }
  }

  lemma SlotsLeft(s: State, i: nat, j: nat)
    requires Inv(s) && Backed(s) && i < |s.threads| && j < |s.b.window.value.live|
    requires s.b.window.value.live[j] <= s.ledger.latest < s.b.window.value.live[j] + s.b.window.value.duration
    ensures |s.b.window.value.live| - j <= Budget(s.b.cfg, s.b.window.value.duration, |s.threads|)
  {
    hide Inv;
    hide Wealth;
    InvCounts(s);
    WealthCoversHeld(s, i);
    InDuration(s, j);
  }

  /** What a sweep drops, and what it stops at. */
  lemma {:induction false} SweepStops(live: seq<int>, cutoff: int) returns (k: nat)
    ensures k <= |live| && W.Compact(live, cutoff) == live[k..]
    ensures forall a :: 0 <= a < k ==> live[a] <= cutoff
    ensures k < |live| ==> live[k] > cutoff
    decreases live
  {
    if live == [] || live[0] > cutoff {
      k := 0;
    } else {
      var rest := SweepStops(live[1..], cutoff);
      k := rest + 1;
      assert live[1..][rest..] == live[k..];
    }
  }

  /** A latest slot of what a sweep leaves was one before the sweep. */
  lemma RecordBefore(live: seq<int>, k: nat, cutoff: int, now: int, j: nat)
    requires k + j < |live| && Record(live[k..] + [now], j)
    requires (forall a :: 0 <= a < k ==> live[a] <= cutoff) && live[k] > cutoff
    ensures Record(live, k + j) && live[k + j] > cutoff
  {
    var rest := live[k..] + [now];
    assert forall a :: k <= a <= k + j ==> live[a] == rest[a - k];
    if j > 0 { assert rest[0] < rest[j]; }
  }

  lemma AskRoomy(s: State, i: nat)
    requires Inv(s) && Backed(s) && Roomy(s) && i < |s.threads| && s.threads[i].pc == AskWindow && !Refusing(s, i)
    ensures Roomy(Ask(s, i))
  {
    hide Inv;
    hide Backed;
    InvClocks(s, i);
    BackedHasWindow(s);
    var w, t, s' := s.b.window.value, s.threads[i], Ask(s, i);
    var cutoff := t.now - w.duration;
    var k := SweepStops(w.live, cutoff);
    forall j | 0 <= j < |s'.b.window.value.live| && Record(s'.b.window.value.live, j) ensures SlotFits(s', j) {
      if k + j < |w.live| {
        RecordBefore(w.live, k, cutoff, t.now, j);
        assert SlotFits(s, k + j);
        StaleReplaced(s.threads, i, s'.threads[i], w.live[k + j] + w.duration);
      } else {
        StaleOthers(s'.threads, i, t.now + w.duration);
        BudgetPositive(s.b.cfg, w.duration, |s.threads|);
      }
    }
  }

  lemma InvClocks(s: State, i: nat)
    requires Inv(s) && i < |s.threads| && s.threads[i].pc != Idle
    ensures s.threads[i].now <= s.ledger.latest
  {
    assert ThreadOK(s, s.threads[i]);
  }

  lemma BackedHasWindow(s: State)
    requires Backed(s)
    ensures s.b.window.Some? && Apt(s.b.cfg)
  {
  }

  /** A window that can hold what there is room for turns no one away. */
  lemma RoomAdmits(s: State, i: nat)
    requires Inv(s) && Backed(s) && Roomy(s) && i < |s.threads| && Room(s) <= s.b.window.value.maxRequests
    ensures !Refusing(s, i)
  {
    hide Inv;
    hide Backed;
    hide Wealth;
    BackedHasWindow(s);
    if Refusing(s, i) {
      var w, t := s.b.window.value, s.threads[i];
      var k := SweepStops(w.live, t.now - w.duration);
      BudgetPositive(s.b.cfg, w.duration, |s.threads|);
      assert Record(w.live, k) by {
        assert forall a :: 0 <= a < k ==> w.live[a] < w.live[k];
      }
      assert SlotFits(s, k);
      var limit := w.live[k] + w.duration;
      if s.ledger.latest >= limit {
        StaleReplaced(s.threads, i, t.(pc := Idle), limit);
      } else {
        InvCounts(s);
        WealthCoversHeld(s, i);
        InDuration(s, k);
      }
      assert false;
    }
  }

  // ---- runs ---------------------------------------------------------------------------------------------------------

  /** Nothing refused so far, and nothing that could be. */
  predicate Safe(s: State) {
    Inv(s) && Backed(s) && Roomy(s) && Room(s) <= s.b.window.value.maxRequests
  }

  lemma WindowKeepsLimits(s: State, a: Action)
    requires s.b.window.Some?
    ensures var w, w' := s.b.window, Step(s, a).b.window;
            w'.Some? && w'.value.duration == w.value.duration && w'.value.maxRequests == w.value.maxRequests
  {
  }

  lemma BlockSafe(s: State, on: bool)
    requires Backed(s) && Roomy(s)
    ensures Backed(s.(b := s.b.(blocked := on))) && Roomy(s.(b := s.b.(blocked := on)))
  {
    var s' := s.(b := s.b.(blocked := on));
    assert Modest(s, s');
    FundedStays(s, s', s.b.window.value.live);
    forall j | 0 <= j < |s.threads| ensures BackedThread(s', s.threads[j]) {
      BackedStays(s, s', s.threads[j]);
    }
    forall j | 0 <= j < |s.b.window.value.live| && Record(s.b.window.value.live, j) ensures SlotFits(s', j) {
      assert SlotFits(s, j);
    }
  }

  lemma GoSafe(s: State, i: nat)
    requires Safe(s) && i < |s.threads|
    ensures Backed(Advance(s, i)) && Roomy(Advance(s, i))
  {
    hide Inv;
    hide Backed;
    hide Roomy;
    BackedHasWindow(s);
    RoomAdmits(s, i);
    AdvanceBacked(s, i);
    BackedIsNotRefunding(s, i);
    if s.threads[i].pc == AskWindow {
      AskRoomy(s, i);
    } else {
      RoomyStays(s, Advance(s, i), i);
    }
  }

  lemma StepSafe(s: State, a: Action)
    requires Safe(s) && Timely(s, a)
    ensures Safe(Step(s, a))
  {
    hide Inv;
    hide Backed;
    hide Roomy;
    BackedHasWindow(s);
    StepInv(s, a);
    StepKeepsSetup(s, a);
    WindowKeepsLimits(s, a);
    match a {
      case Go(i) => if i < |s.threads| { GoSafe(s, i); }
      case SetBlocked(on) => BlockSafe(s, on);
      case BeginAllow(i, now) => if Step(s, a) != s { BeginSafe(s, i, now, false); }
      case BeginScheduled(i, now) => if Step(s, a) != s { BeginSafe(s, i, now, true); }
    }
  }

  lemma BeginSafe(s: State, i: nat, now: int, scheduled: bool)
    requires Inv(s) && Backed(s) && Roomy(s) && i < |s.threads| && s.threads[i].pc == Idle && s.ledger.latest <= now
    ensures Backed(Begin(s, i, now, scheduled)) && Roomy(Begin(s, i, now, scheduled))
  {
    hide Inv;
    IdleStepBacked(s, Begin(s, i, now, scheduled), i);
    BeginRoomy(s, i, now, scheduled);
  }

  lemma {:induction false} RunSafe(s: State, acts: seq<Action>)
    requires Safe(s) && OnClock(s, acts)
    ensures Safe(Run(s, acts))
    decreases acts
  {
    if acts != [] {
      StepSafe(s, acts[0]);
      RunSafe(Step(s, acts[0]), acts[1..]);
    }
  }

  /** The largest limit at which a window can refuse a call on one clock. */
  function Most(cfg: Config, n: nat): int
    requires CanOverflow(cfg)
  {
    n - 2 + Budget(cfg, cfg.slidingWindow.value.duration, n)
  }

  lemma StartSafe(cfg: Config, t0: int, n: nat)
    requires CanOverflow(cfg) && n >= 1 && cfg.slidingWindow.value.maxRequests > Most(cfg, n)
    ensures Safe(Start(cfg, t0, n))
  {
    var s := Start(cfg, t0, n);
    StartInv(cfg, t0, n);
    assert Sane(cfg);
    assert forall j :: 0 <= j < |s.threads| ==> BackedThread(s, s.threads[j]);
  }

  /** On one clock a window whose limit is above that never refuses, so the balance stays within the cap. */
  lemma NeverRefused(cfg: Config, t0: int, n: nat, acts: seq<Action>)
    requires CanOverflow(cfg) && n >= 1 && cfg.slidingWindow.value.maxRequests > Most(cfg, n)
    requires OnClock(Start(cfg, t0, n), acts)
    ensures var s := Run(Start(cfg, t0, n), acts); !AnyRefused(s) && s.b.tokens <= cfg.maxTokens
  {
    var s := Run(Start(cfg, t0, n), acts);
    StartSafe(cfg, t0, n);
    RunSafe(Start(cfg, t0, n), acts);
    RunInv(Start(cfg, t0, n), acts);
    forall j | 0 <= j < |s.threads| ensures s.threads[j].pc != Refund {
      BackedIsNotRefunding(s, j);
    }
  }
}
