/** The lock-free bucket under any interleaving. Each thread runs Allow or ScheduledRefill one atomic
    load, store, compare-and-swap or add per step; the window's own mutex makes its Allow one step.
    A run is any sequence of actions, so every schedule of any number of threads is covered. */
module ConcurrentBucket {
  import opened Arithmetic
  import opened Wrappers
  import opened BucketSpec
  import W = WindowSpec

  /** The atomic operation a thread performs next. */
  datatype PC =
    | Idle
    | CheckBlocked                // blocked.Load
    | LoadLast                    // lastRefillTime.Load
    | CasLast                     // lastRefillTime.CompareAndSwap
    | LoadTokens                  // tokens.Load in the refill
    | CasTokens                   // tokens.CompareAndSwap in the refill
    | StoreAccess                 // lastAccessTime.Store
    | LoadBalance                 // tokens.Load before the debit
    | CasDebit                    // tokens.CompareAndSwap of the debit
    | AskWindow                   // the window's Allow
    | Refund                      // tokens.Add

  /** seenCount, first and retries are bookkeeping: how much had been claimed when lastRefillTime was
      loaded, the interval count first computed, and the failed claims so far. */
  datatype Thread = Thread(
    pc: PC,
    now: int,
    scheduled: bool,
    seenLast: int,
    intervals: int,
    seen: int,
    reply: Option<Reply>,
    seenCount: int,
    first: nat,
    retries: nat)

  /** One successful compare-and-swap on lastRefillTime, by a caller whose clock read `at`. */
  datatype Claim = Claim(from: int, to: int, count: int, at: int)

  datatype Ledger = Ledger(start: int, claims: seq<Claim>, claimed: int, grants: nat, discarded: int, latest: int)

  datatype State = State(b: BucketState, threads: seq<Thread>, ledger: Ledger)

  datatype Action = BeginAllow(i: nat, now: int) | BeginScheduled(i: nat, now: int) | Go(i: nat) | SetBlocked(on: bool)

  const RESTING := Thread(Idle, 0, false, 0, 0, 0, None, 0, 0, 0)

  function Start(cfg: Config, t0: int, n: nat): State {
    State(BucketSpec.New(cfg, t0), seq(n, _ => RESTING), Ledger(t0, [], 0, 0, 0, t0))
  }

  function Put(s: State, i: nat, t: Thread): State
    requires i < |s.threads|
  {
    s.(threads := s.threads[i := t])
  }

  function Done(t: Thread, reply: Reply): Thread {
    t.(pc := Idle, reply := Some(reply))
  }

  function AfterRefill(t: Thread): Thread {
    t.(pc := if t.scheduled then Idle else StoreAccess)
  }

  function Begin(s: State, i: nat, now: int, scheduled: bool): State
    requires i < |s.threads|
  {
    var t := RESTING.(now := now, scheduled := scheduled, pc := if scheduled then LoadLast else CheckBlocked);
    Put(s, i, t).(ledger := s.ledger.(latest := Max(s.ledger.latest, now)))
  }

  /** Thread i performs its next atomic operation. */
  function Advance(s: State, i: nat): (s': State)
    requires i < |s.threads|
    ensures |s'.threads| == |s.threads|
  {
    match s.threads[i].pc
    case CasLast => TryClaim(s, i)
    case CasTokens => TryApply(s, i)
    case StoreAccess => Put(s, i, s.threads[i].(pc := LoadBalance)).(b := s.b.(lastAccess := s.threads[i].now))
    case CasDebit => TryDebit(s, i)
    case AskWindow => Ask(s, i)
    case Refund => GiveBack(s, i)
    case _ => Put(s, i, Look(s, s.threads[i]))
  }

  /** The loads: they change nothing but the thread. */
  function Look(s: State, t: Thread): Thread {
    var b := s.b;
    match t.pc
    case CheckBlocked =>
      if b.blocked then Done(t, Reply(false, 0))
      else t.(pc := if b.cfg.refillInterval > 0 then LoadLast else StoreAccess)
    case LoadLast => LookLast(s, t)
    case LoadTokens => t.(pc := CasTokens, seen := b.tokens)
    case LoadBalance =>
      if b.tokens < Cost(b.cfg) then Done(t, Reply(false, RetryAfter(b)))
      else t.(pc := CasDebit, seen := b.tokens)
    case _ => t
  }

  function LookLast(s: State, t: Thread): Thread {
    var k := if s.b.cfg.refillInterval <= 0 then 0 else (t.now - s.b.lastRefill) / s.b.cfg.refillInterval;
    var u := if t.retries == 0 then t.(first := Max(0, k)) else t;
    if k <= 0 then AfterRefill(u)
    else u.(pc := CasLast, seenLast := s.b.lastRefill, intervals := k, seenCount := s.ledger.claimed)
  }

  function TryClaim(s: State, i: nat): State
    requires i < |s.threads|
  {
    var t := s.threads[i];
    if s.b.lastRefill != t.seenLast then Put(s, i, t.(pc := LoadLast, retries := t.retries + 1))
    else
      var next := t.seenLast + s.b.cfg.refillInterval * t.intervals;
      Put(s, i, t.(pc := LoadTokens)).(
        b := s.b.(lastRefill := next),
        ledger := s.ledger.(claims := s.ledger.claims + [Claim(t.seenLast, next, t.intervals, t.now)],
                            claimed := s.ledger.claimed + t.intervals))
  }

  function TryApply(s: State, i: nat): State
    requires i < |s.threads|
  {
    var t := s.threads[i];
    if s.b.tokens != t.seen then Put(s, i, t.(pc := LoadTokens))
    else
      var full := t.seen + s.b.cfg.refillRate * t.intervals;
      var updated := Min(full, s.b.cfg.maxTokens);
      Put(s, i, AfterRefill(t)).(
        b := s.b.(tokens := updated),
        ledger := s.ledger.(discarded := s.ledger.discarded + (full - updated)))
  }

  function TryDebit(s: State, i: nat): State
    requires i < |s.threads|
  {
    var t := s.threads[i];
    if s.b.tokens != t.seen then Put(s, i, t.(pc := LoadBalance))
    else Put(s, i, t.(pc := AskWindow)).(b := s.b.(tokens := t.seen - Cost(s.b.cfg)))
  }

  function Ask(s: State, i: nat): State
    requires i < |s.threads|
  {
    var t, w := s.threads[i], s.b.window;
    var b := if w.None? then s.b else s.b.(window := Some(W.Allow(w.value, t.now)));
    if w.None? || W.Admits(w.value, t.now)
    then Put(s, i, Done(t, Reply(true, 0))).(b := b, ledger := s.ledger.(grants := s.ledger.grants + 1))
    else Put(s, i, t.(pc := Refund)).(b := b)
  }

  function GiveBack(s: State, i: nat): State
    requires i < |s.threads|
  {
    Put(s, i, Done(s.threads[i], Reply(false, s.b.cfg.refillInterval))).(
      b := s.b.(tokens := s.b.tokens + Cost(s.b.cfg)))
  }

  function Step(s: State, a: Action): (s': State)
    ensures |s'.threads| == |s.threads|
  {
    match a
    case BeginAllow(i, now) => if i < |s.threads| && s.threads[i].pc.Idle? then Begin(s, i, now, false) else s
    case BeginScheduled(i, now) => if i < |s.threads| && s.threads[i].pc.Idle? then Begin(s, i, now, true) else s
    case Go(i) => if i < |s.threads| then Advance(s, i) else s
    case SetBlocked(on) => s.(b := s.b.(blocked := on))
  }

  function Run(s: State, acts: seq<Action>): (s': State)
    ensures |s'.threads| == |s.threads|
    decreases acts
  {
    if acts == [] then s else Run(Step(s, acts[0]), acts[1..])
  }

  /** A call or scheduled refill that begins now reads a clock no earlier than any read before. */
  predicate Timely(s: State, a: Action) {
    match a
    case BeginAllow(_, now) => s.ledger.latest <= now
    case BeginScheduled(_, now) => s.ledger.latest <= now
    case _ => true
  }

  /** A run in which everyone reads one clock that never goes back. */
  predicate OnClock(s: State, acts: seq<Action>)
    decreases acts
  {
    acts == [] || (Timely(s, acts[0]) && OnClock(Step(s, acts[0]), acts[1..]))
  }

  // ---- what the threads hold ---------------------------------------------------------------------

  predicate Holds(t: Thread) { t.pc == AskWindow || t.pc == Refund }

  predicate Owes(t: Thread) { t.pc == LoadTokens || t.pc == CasTokens }

  /** Calls holding a debit not yet granted or refunded. */
  function Held(ts: seq<Thread>): nat {
    if ts == [] then 0 else (if Holds(ts[0]) then 1 else 0) + Held(ts[1..])
  }

  /** Intervals claimed but not yet applied to the balance. */
  function Pending(ts: seq<Thread>): int {
    if ts == [] then 0 else (if Owes(ts[0]) then ts[0].intervals else 0) + Pending(ts[1..])
  }

  lemma {:induction false} Replaced(ts: seq<Thread>, i: nat, t: Thread)
    requires i < |ts|
    ensures Held(ts[i := t]) == Held(ts) - (if Holds(ts[i]) then 1 else 0) + (if Holds(t) then 1 else 0)
    ensures Pending(ts[i := t])
         == Pending(ts) - (if Owes(ts[i]) then ts[i].intervals else 0) + (if Owes(t) then t.intervals else 0)
  {
    if i == 0 {
      assert ts[0 := t][1..] == ts[1..];
    } else {
      assert ts[i := t][1..] == ts[1..][i - 1 := t];
      Replaced(ts[1..], i - 1, t);
    }
  }

  lemma {:induction false} HeldAtMost(ts: seq<Thread>)
    ensures Held(ts) <= |ts|
  {
    if ts != [] { HeldAtMost(ts[1..]); }
  }

  lemma {:induction false} PendingNonnegative(ts: seq<Thread>)
    requires forall j :: 0 <= j < |ts| && Owes(ts[j]) ==> ts[j].intervals >= 0
    ensures Pending(ts) >= 0
  {
    if ts != [] { PendingNonnegative(ts[1..]); }
  }

  lemma SomeoneIsNotHolding(ts: seq<Thread>, i: nat)
    requires i < |ts| && !Holds(ts[i])
    ensures Held(ts) <= |ts| - 1
  {
    Replaced(ts, i, ts[i].(pc := AskWindow));
    HeldAtMost(ts[i := ts[i].(pc := AskWindow)]);
  }

  // ---- invariants --------------------------------------------------------------------------------

  /** Every token is accounted for. */
  predicate Conserved(s: State) {
    var n, r := Cost(s.b.cfg), s.b.cfg.refillRate;
    && s.b.tokens + n * Held(s.threads) + n * s.ledger.grants + r * Pending(s.threads) + s.ledger.discarded
       == s.b.cfg.maxTokens + r * s.ledger.claimed
    && s.b.tokens >= 0 && s.ledger.discarded >= 0
  }

  /** The claims lie end to end from `start` to `last`, each whole intervals long and none past its
      claimant's clock. */
  predicate Tiles(start: int, claims: seq<Claim>, last: int, d: int, latest: int)
    decreases claims
  {
    if claims == [] then last == start
    else
      var c := claims[|claims| - 1];
      && c.to == last && c.count >= 1 && c.to == c.from + d * c.count && c.to <= c.at <= latest
      && Tiles(start, claims[..|claims| - 1], c.from, d, latest)
  }

  function TotalCount(claims: seq<Claim>): int {
    if claims == [] then 0 else TotalCount(claims[..|claims| - 1]) + claims[|claims| - 1].count
  }

  predicate Claimed(s: State) {
    var d, l := s.b.cfg.refillInterval, s.ledger;
    && s.b.lastRefill == l.start + d * l.claimed
    && s.b.lastRefill <= l.latest && l.start <= l.latest
    && Tiles(l.start, l.claims, s.b.lastRefill, d, l.latest)
    && TotalCount(l.claims) == l.claimed
    && (l.claims != [] ==> d > 0)
  }

  /** What a thread's locals say at its program point. */
  predicate ThreadOK(s: State, t: Thread) {
    var d, l := s.b.cfg.refillInterval, s.ledger;
    && (t.pc != Idle ==> t.now <= l.latest)
    && (t.pc == CasLast || Owes(t) ==> d > 0 && t.intervals >= 1)
    && (t.pc == CasLast ==>
          && t.seenLast == l.start + d * t.seenCount && t.seenCount <= l.claimed
          && t.intervals == (t.now - t.seenLast) / d
          && t.intervals + t.retries <= t.first)
    && (t.pc == LoadLast && t.retries > 0 ==> d > 0 && Max(0, (t.now - s.b.lastRefill) / d) + t.retries <= t.first)
    && (t.pc != LoadLast ==> t.retries <= t.first)
    && (t.pc == CheckBlocked ==> t.retries == 0)
    && (t.pc == CasDebit ==> t.seen >= Cost(s.b.cfg))
    && (t.pc == Refund ==> s.b.window.Some?)
  }

  predicate ThreadsOK(s: State) {
    forall j :: 0 <= j < |s.threads| ==> ThreadOK(s, s.threads[j])
  }

  /** The balance and the debits in flight exceed the cap by at most one debit for every other thread. */
  predicate Bounded(s: State) {
    && (s.threads != [] ==>
          s.b.tokens + Cost(s.b.cfg) * Held(s.threads) <= s.b.cfg.maxTokens + Cost(s.b.cfg) * (|s.threads| - 1))
    && (s.b.window.None? ==> s.b.tokens <= s.b.cfg.maxTokens)
  }

  predicate Inv(s: State) {
    Sane(s.b.cfg) && Conserved(s) && Claimed(s) && ThreadsOK(s) && Bounded(s)
  }

  // ---- preservation ------------------------------------------------------------------------------

  lemma StartInv(cfg: Config, t0: int, n: nat)
    requires Sane(cfg)
    ensures Inv(Start(cfg, t0, n))
    ensures Held(Start(cfg, t0, n).threads) == 0
  {
    NoneActive(Start(cfg, t0, n).threads);
    if n > 0 { MulMonotone(0, n - 1, Cost(Normalize(cfg))); }
  }

  lemma {:induction false} NoneActive(ts: seq<Thread>)
    requires forall j :: 0 <= j < |ts| ==> ts[j].pc == Idle
    ensures Held(ts) == 0 && Pending(ts) == 0
  {
    if ts != [] { NoneActive(ts[1..]); }
  }

  lemma ConservedMoves(s: State, s': State, tokens: int, held: int, grants: int, pending: int, discarded: int,
                       claimed: int)
    requires Conserved(s) && s'.b.cfg == s.b.cfg
    requires s'.b.tokens == s.b.tokens + tokens && s'.b.tokens >= 0
    requires Held(s'.threads) == Held(s.threads) + held
    requires s'.ledger.grants == s.ledger.grants + grants
    requires Pending(s'.threads) == Pending(s.threads) + pending
    requires s'.ledger.discarded == s.ledger.discarded + discarded && discarded >= 0
    requires s'.ledger.claimed == s.ledger.claimed + claimed
    requires tokens + Cost(s.b.cfg) * (held + grants) + s.b.cfg.refillRate * (pending - claimed) + discarded == 0
    ensures Conserved(s')
  {
    var n, r := Cost(s.b.cfg), s.b.cfg.refillRate;
    Distribute(n, Held(s.threads), held);
    Distribute(n, s.ledger.grants, grants);
    Distribute(n, held, grants);
    Distribute(r, Pending(s.threads), pending);
    Distribute(r, s.ledger.claimed, claimed);
    Distribute(r, pending - claimed, claimed);
  }

  lemma ClaimConserved(s: State, i: nat)
    requires Conserved(s) && i < |s.threads| && s.threads[i].pc == CasLast
    ensures Conserved(TryClaim(s, i))
  {
    var t, s' := s.threads[i], TryClaim(s, i);
    Replaced(s.threads, i, s'.threads[i]);
    var k := if s.b.lastRefill == t.seenLast then t.intervals else 0;
    ConservedMoves(s, s', 0, 0, 0, k, 0, k);
  }

  lemma ConservedBalance(s: State)
    requires Conserved(s)
    ensures s.b.tokens >= 0
  {
  }

  lemma ApplyConserved(s: State, i: nat)
    requires Conserved(s) && Sane(s.b.cfg) && i < |s.threads| && s.threads[i].pc == CasTokens
    requires s.threads[i].intervals >= 1
    ensures Conserved(TryApply(s, i))
  {
    hide Conserved;
    hide Held;
    hide Pending;
    var t, s', r := s.threads[i], TryApply(s, i), s.b.cfg.refillRate;
    Replaced(s.threads, i, s'.threads[i]);
    MulMonotone(0, t.intervals, r);
    ConservedBalance(s);
    if s.b.tokens == t.seen {
      ConservedMoves(s, s', s'.b.tokens - t.seen, 0, 0, -t.intervals, s'.ledger.discarded - s.ledger.discarded, 0);
    } else {
      ConservedMoves(s, s', 0, 0, 0, 0, 0, 0);
    }
  }

  lemma DebitConserved(s: State, i: nat)
    requires Conserved(s) && i < |s.threads| && s.threads[i].pc == CasDebit && s.threads[i].seen >= Cost(s.b.cfg)
    ensures Conserved(TryDebit(s, i))
  {
    var t, s' := s.threads[i], TryDebit(s, i);
    Replaced(s.threads, i, s'.threads[i]);
    if s.b.tokens == t.seen {
      ConservedMoves(s, s', -Cost(s.b.cfg), 1, 0, 0, 0, 0);
    } else {
      ConservedMoves(s, s', 0, 0, 0, 0, 0, 0);
    }
  }

  lemma AskConserved(s: State, i: nat)
    requires Conserved(s) && i < |s.threads| && s.threads[i].pc == AskWindow
    ensures Conserved(Ask(s, i))
  {
    var s' := Ask(s, i);
    Replaced(s.threads, i, s'.threads[i]);
    if s'.threads[i].pc == Idle {
      ConservedMoves(s, s', 0, -1, 1, 0, 0, 0);
    } else {
      ConservedMoves(s, s', 0, 0, 0, 0, 0, 0);
    }
  }

  lemma GiveBackConserved(s: State, i: nat)
    requires Conserved(s) && i < |s.threads| && s.threads[i].pc == Refund
    ensures Conserved(GiveBack(s, i))
  {
    var s' := GiveBack(s, i);
    Replaced(s.threads, i, s'.threads[i]);
    ConservedMoves(s, s', Cost(s.b.cfg), -1, 0, 0, 0, 0);
  }

  lemma LookWeighsTheSame(s: State, t: Thread)
    requires t.pc in {Idle, CheckBlocked, LoadLast, LoadTokens, LoadBalance}
    ensures !Holds(t) && !Holds(Look(s, t)) && Owes(t) == Owes(Look(s, t))
    ensures Owes(t) ==> Look(s, t).intervals == t.intervals
  {
  }

  /** A step that moves no token: only thread i's locals, or the access time. */
  lemma QuietConserved(s: State, i: nat, t': Thread, access: int)
    requires Conserved(s) && Bounded(s) && i < |s.threads|
    requires Holds(t') == Holds(s.threads[i]) && Owes(t') == Owes(s.threads[i])
    requires Owes(t') ==> t'.intervals == s.threads[i].intervals
    ensures Conserved(Put(s, i, t').(b := s.b.(lastAccess := access)))
    ensures Bounded(Put(s, i, t').(b := s.b.(lastAccess := access)))
  {
    Replaced(s.threads, i, t');
  }

  lemma LookConserved(s: State, i: nat)
    requires Conserved(s) && Bounded(s) && i < |s.threads|
    requires s.threads[i].pc in {Idle, CheckBlocked, LoadLast, LoadTokens, LoadBalance}
    ensures Conserved(Put(s, i, Look(s, s.threads[i]))) && Bounded(Put(s, i, Look(s, s.threads[i])))
  {
    LookWeighsTheSame(s, s.threads[i]);
    QuietConserved(s, i, Look(s, s.threads[i]), s.b.lastAccess);
    assert s.b.(lastAccess := s.b.lastAccess) == s.b;
  }

  lemma AdvanceConserved(s: State, i: nat)
    requires Inv(s) && i < |s.threads|
    ensures Conserved(Advance(s, i))
  {
    var t := s.threads[i];
    assert ThreadOK(s, t);
    match t.pc {
      case CasLast => ClaimConserved(s, i);
      case CasTokens => ApplyConserved(s, i);
      case CasDebit => DebitConserved(s, i);
      case AskWindow => AskConserved(s, i);
      case Refund => GiveBackConserved(s, i);
      case StoreAccess => QuietConserved(s, i, t.(pc := LoadBalance), t.now);
      case _ => LookConserved(s, i);
    }
  }

  lemma {:induction false} TilesLater(start: int, claims: seq<Claim>, last: int, d: int, latest: int, latest': int)
    requires Tiles(start, claims, last, d, latest) && latest <= latest'
    ensures Tiles(start, claims, last, d, latest')
    decreases claims
  {
    if claims != [] {
      TilesLater(start, claims[..|claims| - 1], claims[|claims| - 1].from, d, latest, latest');
    }
  }

  lemma ClaimTiles(s: State, i: nat)
    requires Claimed(s) && i < |s.threads| && s.threads[i].pc == CasLast && ThreadOK(s, s.threads[i])
    ensures Claimed(TryClaim(s, i))
    ensures s.b.lastRefill <= TryClaim(s, i).b.lastRefill
    ensures s.ledger.claimed <= TryClaim(s, i).ledger.claimed
  {
    var t, l, d := s.threads[i], s.ledger, s.b.cfg.refillInterval;
    if s.b.lastRefill == t.seenLast {
      FloorBounds(t.now - t.seenLast, d);
      MulMonotone(1, t.intervals, d);
      Distribute(d, l.claimed, t.intervals);
      var claims' := TryClaim(s, i).ledger.claims;
      assert claims'[..|claims'| - 1] == l.claims;
    }
  }

  lemma AdvanceClaimed(s: State, i: nat)
    requires Inv(s) && i < |s.threads|
    ensures Claimed(Advance(s, i))
    ensures s.b.lastRefill <= Advance(s, i).b.lastRefill
    ensures s.ledger.claimed <= Advance(s, i).ledger.claimed
  {
    assert ThreadOK(s, s.threads[i]);
    if s.threads[i].pc == CasLast {
      ClaimTiles(s, i);
    }
  }

  /** Another thread's step leaves a thread's locals meaning what they meant. */
  lemma ThreadStaysOK(s: State, s': State, t: Thread)
    requires ThreadOK(s, t) && s'.b.cfg == s.b.cfg && s'.ledger.start == s.ledger.start
    requires s.ledger.claimed <= s'.ledger.claimed && s.ledger.latest <= s'.ledger.latest
    requires s.b.lastRefill <= s'.b.lastRefill && (s.b.window.Some? ==> s'.b.window.Some?)
    ensures ThreadOK(s', t)
  {
    var d := s.b.cfg.refillInterval;
    if t.pc == LoadLast && t.retries > 0 {
      FloorMonotone(t.now - s'.b.lastRefill, t.now - s.b.lastRefill, d);
    }
  }

  /** A failed claim means someone else claimed meanwhile, so fewer intervals are left to the caller. */
  lemma FailedClaimLowersCount(s: State, i: nat)
    requires Inv(s) && i < |s.threads| && s.threads[i].pc == CasLast
    requires s.b.lastRefill != s.threads[i].seenLast
    ensures (s.threads[i].now - s.b.lastRefill) / s.b.cfg.refillInterval < s.threads[i].intervals
  {
    var t, l, d := s.threads[i], s.ledger, s.b.cfg.refillInterval;
    assert ThreadOK(s, t);
    assert t.seenCount != l.claimed;
    Distribute(d, t.seenCount, l.claimed - t.seenCount);
    MulMonotone(1, l.claimed - t.seenCount, d);
    FloorMonotone(t.now - s.b.lastRefill, t.now - t.seenLast - d, d);
    FloorShift(t.now - t.seenLast, d, -1);
  }

  lemma ClaimThreadOK(s: State, i: nat)
    requires Inv(s) && i < |s.threads| && s.threads[i].pc == CasLast
    ensures ThreadOK(TryClaim(s, i), TryClaim(s, i).threads[i])
  {
    assert ThreadOK(s, s.threads[i]);
    if s.b.lastRefill != s.threads[i].seenLast {
      FailedClaimLowersCount(s, i);
    }
  }

  lemma LookThreadOK(s: State, t: Thread)
    requires Claimed(s) && ThreadOK(s, t) && t.pc in {Idle, CheckBlocked, LoadLast, LoadTokens, LoadBalance}
    ensures ThreadOK(s, Look(s, t))
  {
  }

  lemma DebitSideThreadOK(s: State, i: nat)
    requires i < |s.threads| && ThreadOK(s, s.threads[i])
    requires s.threads[i].pc in {CasTokens, StoreAccess, CasDebit, AskWindow, Refund}
    ensures ThreadOK(Advance(s, i), Advance(s, i).threads[i])
  {
  }

  lemma AdvanceOwnThread(s: State, i: nat)
    requires Inv(s) && i < |s.threads|
    ensures ThreadOK(Advance(s, i), Advance(s, i).threads[i])
  {
    var t := s.threads[i];
    assert ThreadOK(s, t);
    match t.pc {
      case CasLast => ClaimThreadOK(s, i);
      case CasTokens | StoreAccess | CasDebit | AskWindow | Refund => DebitSideThreadOK(s, i);
      case _ =>
        LookThreadOK(s, t);
        ThreadStaysOK(s, Advance(s, i), Look(s, t));
    }
  }

  lemma InvHasThreads(s: State)
    requires Inv(s)
    ensures ThreadsOK(s)
  {
  }

  lemma AdvanceThreads(s: State, i: nat)
    requires Inv(s) && i < |s.threads|
    ensures ThreadsOK(Advance(s, i))
  {
    hide Inv;
    var s' := Advance(s, i);
    assert ThreadsOK(s) by { InvHasThreads(s); }
    AdvanceOwnThread(s, i);
    AdvanceClaimed(s, i);
    forall j | 0 <= j < |s'.threads| ensures ThreadOK(s', s'.threads[j]) {
      if j != i {
        assert s'.threads[j] == s.threads[j];
        ThreadStaysOK(s, s', s.threads[j]);
      }
    }
  }

  /** Moves that take nothing from the sum of balance and debits in flight but a grant. */
  lemma BoundedMoves(s: State, s': State, tokens: int, held: int)
    requires Bounded(s) && s'.b.cfg == s.b.cfg && |s'.threads| == |s.threads|
    requires s'.b.window.None? ==> s.b.window.None? && s'.b.tokens <= s.b.tokens
    requires s'.b.tokens == s.b.tokens + tokens && Held(s'.threads) == Held(s.threads) + held
    requires tokens + Cost(s.b.cfg) * held <= 0
    ensures Bounded(s')
  {
    Distribute(Cost(s.b.cfg), Held(s.threads), held);
  }

  lemma ApplyBounded(s: State, i: nat)
    requires Bounded(s) && i < |s.threads| && s.threads[i].pc == CasTokens
    ensures Bounded(TryApply(s, i))
  {
    var t, s' := s.threads[i], TryApply(s, i);
    Replaced(s.threads, i, s'.threads[i]);
    if s.b.tokens == t.seen {
      SomeoneIsNotHolding(s'.threads, i);
      MulMonotone(Held(s'.threads), |s'.threads| - 1, Cost(s.b.cfg));
    }
  }

  lemma ClaimAndDebitBounded(s: State, i: nat)
    requires Bounded(s) && i < |s.threads| && s.threads[i].pc in {CasLast, CasDebit}
    ensures Bounded(Advance(s, i))
  {
    var t, s' := s.threads[i], Advance(s, i);
    Replaced(s.threads, i, s'.threads[i]);
    if t.pc == CasDebit && s.b.tokens == t.seen {
      BoundedMoves(s, s', -Cost(s.b.cfg), 1);
    } else {
      BoundedMoves(s, s', 0, 0);
    }
  }

  lemma AskAndRefundBounded(s: State, i: nat)
    requires Bounded(s) && i < |s.threads| && ThreadOK(s, s.threads[i])
    requires s.threads[i].pc in {AskWindow, Refund}
    ensures Bounded(Advance(s, i))
  {
    var t, s' := s.threads[i], Advance(s, i);
    Replaced(s.threads, i, s'.threads[i]);
    if t.pc == Refund {
      BoundedMoves(s, s', Cost(s.b.cfg), -1);
    } else if s'.threads[i].pc == Idle {
      BoundedMoves(s, s', 0, -1);
    } else {
      BoundedMoves(s, s', 0, 0);
    }
  }

  lemma AdvanceBounded(s: State, i: nat)
    requires Inv(s) && i < |s.threads|
    ensures Bounded(Advance(s, i))
  {
    var t := s.threads[i];
    assert ThreadOK(s, t);
    match t.pc {
      case CasTokens => ApplyBounded(s, i);
      case CasLast | CasDebit => ClaimAndDebitBounded(s, i);
      case AskWindow | Refund => AskAndRefundBounded(s, i);
      case StoreAccess => QuietConserved(s, i, t.(pc := LoadBalance), t.now);
      case _ => LookConserved(s, i);
    }
  }

  lemma StepInv(s: State, a: Action)
    requires Inv(s)
    ensures Inv(Step(s, a))
  {
    match a {
      case Go(i) =>
        if i < |s.threads| {
          AdvanceConserved(s, i);
          AdvanceClaimed(s, i);
          AdvanceThreads(s, i);
          AdvanceBounded(s, i);
        }
      case BeginAllow(i, now) => if Step(s, a) != s { BeginInv(s, i, now, false); }
      case BeginScheduled(i, now) => if Step(s, a) != s { BeginInv(s, i, now, true); }
      case SetBlocked(on) => BlockInv(s, on);
    }
  }

  lemma BlockInv(s: State, on: bool)
    requires Inv(s)
    ensures Inv(s.(b := s.b.(blocked := on)))
  {
    forall j | 0 <= j < |s.threads| ensures ThreadOK(s.(b := s.b.(blocked := on)), s.threads[j]) {
      ThreadStaysOK(s, s.(b := s.b.(blocked := on)), s.threads[j]);
    }
  }

  lemma BeginInv(s: State, i: nat, now: int, scheduled: bool)
    requires Inv(s) && i < |s.threads| && s.threads[i].pc == Idle
    ensures Inv(Begin(s, i, now, scheduled))
  {
    var s' := Begin(s, i, now, scheduled);
    Replaced(s.threads, i, s'.threads[i]);
    TilesLater(s.ledger.start, s.ledger.claims, s.b.lastRefill, s.b.cfg.refillInterval, s.ledger.latest,
               s'.ledger.latest);
    forall j | 0 <= j < |s'.threads| ensures ThreadOK(s', s'.threads[j]) {
      if j != i {
        ThreadStaysOK(s, s', s.threads[j]);
      }
    }
  }

  lemma {:induction false} RunInv(s: State, acts: seq<Action>)
    requires Inv(s)
    ensures Inv(Run(s, acts))
    ensures Run(s, acts).b.cfg == s.b.cfg && Run(s, acts).ledger.start == s.ledger.start
    ensures |Run(s, acts).threads| == |s.threads|
    ensures Run(s, acts).b.window.Some? == s.b.window.Some?
    decreases acts
  {
    if acts != [] {
      StepInv(s, acts[0]);
      StepKeepsSetup(s, acts[0]);
      RunInv(Step(s, acts[0]), acts[1..]);
    }
  }

  lemma StepKeepsSetup(s: State, a: Action)
    ensures Step(s, a).b.cfg == s.b.cfg && Step(s, a).ledger.start == s.ledger.start
    ensures |Step(s, a).threads| == |s.threads|
    ensures Step(s, a).b.window.Some? == s.b.window.Some?
  {
  }

  lemma {:induction false} RunAppend(s: State, x: seq<Action>, y: seq<Action>)
    ensures Run(s, x + y) == Run(Run(s, x), y)
    decreases x
  {
    if x == [] {
      assert x + y == y;
    } else {
      assert (x + y)[1..] == x[1..] + y;
      RunAppend(Step(s, x[0]), x[1..], y);
    }
  }

  lemma RunNext(s: State, a: Action, rest: seq<Action>)
    ensures Run(s, [a] + rest) == Run(Step(s, a), rest)
  {
    assert ([a] + rest)[1..] == rest;
  }

  lemma {:induction false} OnClockAppend(s: State, x: seq<Action>, y: seq<Action>)
    ensures OnClock(s, x + y) <==> OnClock(s, x) && OnClock(Run(s, x), y)
    decreases x
  {
    if x == [] {
      assert x + y == y;
    } else {
      assert (x + y)[1..] == x[1..] + y;
      OnClockAppend(Step(s, x[0]), x[1..], y);
    }
  }

  // ---- what every interleaving guarantees ---------------------------------------------------------

  lemma LedgerBoundsGrants(s: State)
    requires Inv(s)
    ensures Cost(s.b.cfg) * s.ledger.grants <= s.b.cfg.maxTokens + s.b.cfg.refillRate * s.ledger.claimed
  {
    forall j | 0 <= j < |s.threads| && Owes(s.threads[j]) ensures s.threads[j].intervals >= 0 {
      assert ThreadOK(s, s.threads[j]);
    }
    PendingNonnegative(s.threads);
    MulMonotone(0, Pending(s.threads), s.b.cfg.refillRate);
    MulMonotone(0, Held(s.threads), Cost(s.b.cfg));
  }

  /** Whole refill intervals from one instant to another. */
  function Whole(cfg: Config, from: int, to: int): int {
    if cfg.refillInterval > 0 then (to - from) / cfg.refillInterval else 0
  }

  /** Claimed intervals are the whole intervals from the start to lastRefillTime, and no more than have
      passed by the latest clock used. */
  lemma ClaimedIntervals(s: State)
    requires Inv(s)
    ensures s.ledger.claimed == Whole(s.b.cfg, s.ledger.start, s.b.lastRefill)
    ensures s.ledger.claimed <= Whole(s.b.cfg, s.ledger.start, s.ledger.latest)
  {
    var d, l := s.b.cfg.refillInterval, s.ledger;
    if d > 0 {
      FloorUnique(d * l.claimed, d, l.claimed);
      FloorMonotone(s.b.lastRefill - l.start, l.latest - l.start, d);
    }
  }

  lemma LedgerHolds(s: State, cfg: Config, t0: int)
    requires Inv(s) && s.b.cfg == Normalize(cfg) && s.ledger.start == t0
    ensures s.b.tokens + Cost(cfg) * Held(s.threads) + Cost(cfg) * s.ledger.grants
            + cfg.refillRate * Pending(s.threads) + s.ledger.discarded
         == cfg.maxTokens + cfg.refillRate * Whole(cfg, t0, s.b.lastRefill)
    ensures s.ledger.discarded >= 0
    ensures Cost(cfg) * s.ledger.grants <= cfg.maxTokens + cfg.refillRate * Whole(cfg, t0, s.ledger.latest)
  {
    LedgerBoundsGrants(s);
    ClaimedIntervals(s);
    MulMonotone(s.ledger.claimed, Whole(cfg, t0, s.ledger.latest), cfg.refillRate);
  }

  lemma Reached(cfg: Config, t0: int, n: nat, acts: seq<Action>)
    requires Sane(cfg)
    ensures var s := Run(Start(cfg, t0, n), acts);
            Inv(s) && s.b.cfg == Normalize(cfg) && s.ledger.start == t0 && |s.threads| == n
            && s.b.window.Some? == FreshWindow(cfg).Some?
  {
    StartInv(cfg, t0, n);
    RunInv(Start(cfg, t0, n), acts);
  }

  /** The token ledger balances in every reachable state, so grants never cost more than one full bucket
      plus what the clocks used so far let accrue. */
  lemma TokenLedger(cfg: Config, t0: int, n: nat, acts: seq<Action>)
    requires Sane(cfg)
    ensures var s := Run(Start(cfg, t0, n), acts);
            && s.b.tokens + Cost(cfg) * Held(s.threads) + Cost(cfg) * s.ledger.grants
               + cfg.refillRate * Pending(s.threads) + s.ledger.discarded
               == cfg.maxTokens + cfg.refillRate * Whole(cfg, t0, s.b.lastRefill)
            && s.ledger.discarded >= 0
            && Cost(cfg) * s.ledger.grants <= cfg.maxTokens + cfg.refillRate * Whole(cfg, t0, s.ledger.latest)
  {
    Reached(cfg, t0, n, acts);
    LedgerHolds(Run(Start(cfg, t0, n), acts), cfg, t0);
  }

  lemma {:induction false} DiscardsGrow(s: State, acts: seq<Action>)
    ensures Run(s, acts).ledger.discarded >= s.ledger.discarded
    decreases acts
  {
    if acts != [] {
      DiscardsGrow(Step(s, acts[0]), acts[1..]);
    }
  }

  lemma GrantsFromState(s: State, s': State)
    requires Inv(s) && Inv(s') && s'.b.cfg == s.b.cfg && s'.ledger.discarded >= s.ledger.discarded
    ensures Cost(s.b.cfg) * (s'.ledger.grants - s.ledger.grants)
         <= s.b.tokens + Cost(s.b.cfg) * Held(s.threads)
            + s.b.cfg.refillRate * (Pending(s.threads) + s'.ledger.claimed - s.ledger.claimed)
  {
    var n, r := Cost(s.b.cfg), s.b.cfg.refillRate;
    forall j | 0 <= j < |s'.threads| && Owes(s'.threads[j]) ensures s'.threads[j].intervals >= 0 {
      assert ThreadOK(s', s'.threads[j]);
    }
    PendingNonnegative(s'.threads);
    MulMonotone(0, Pending(s'.threads), r);
    MulMonotone(0, Held(s'.threads), n);
    Distribute(n, s'.ledger.grants - s.ledger.grants, s.ledger.grants);
    Distribute(r, Pending(s.threads) + s'.ledger.claimed - s.ledger.claimed, s.ledger.claimed);
    Distribute(r, Pending(s.threads), s'.ledger.claimed);
  }

  /** From any point of any interleaving on, the grants cost at most the balance and the debits and refills in
      flight at that point plus what is claimed afterwards. */
  lemma GrantsBetween(cfg: Config, t0: int, n: nat, acts: seq<Action>, more: seq<Action>)
    requires Sane(cfg)
    ensures var s := Run(Start(cfg, t0, n), acts);
      var s' := Run(s, more);
      Cost(cfg) * (s'.ledger.grants - s.ledger.grants)
        <= s.b.tokens + Cost(cfg) * Held(s.threads)
           + cfg.refillRate * (Pending(s.threads) + Whole(cfg, t0, s'.b.lastRefill) - Whole(cfg, t0, s.b.lastRefill))
  {
    hide Inv;
    hide Start;
    var s := Run(Start(cfg, t0, n), acts);
    Reached(cfg, t0, n, acts);
    RunInv(s, more);
    DiscardsGrow(s, more);
    GrantsFromState(s, Run(s, more));
    ClaimedIntervals(s);
    ClaimedIntervals(Run(s, more));
  }

  /** The balance is never negative, and the balance and the debits in flight together exceed the cap by
      at most one cost for each thread but one. Only window refunds use that slack: without a window the
      balance stays within the cap. */
  lemma BalanceRange(cfg: Config, t0: int, n: nat, acts: seq<Action>)
    requires Sane(cfg) && n > 0
    ensures var s := Run(Start(cfg, t0, n), acts);
            && 0 <= s.b.tokens
            && s.b.tokens + Cost(cfg) * Held(s.threads) <= cfg.maxTokens + Cost(cfg) * (n - 1)
            && (FreshWindow(cfg).None? ==> s.b.tokens <= cfg.maxTokens)
  {
    Reached(cfg, t0, n, acts);
  }

  /** No interval is refilled twice: the successful claims lie end to end from the start to lastRefillTime,
      which stays on the grid and never passes the latest clock used. */
  lemma NoDoubleRefill(cfg: Config, t0: int, n: nat, acts: seq<Action>)
    requires Sane(cfg)
    ensures var s := Run(Start(cfg, t0, n), acts);
            && Tiles(t0, s.ledger.claims, s.b.lastRefill, cfg.refillInterval, s.ledger.latest)
            && s.b.lastRefill == t0 + cfg.refillInterval * TotalCount(s.ledger.claims)
            && s.b.lastRefill <= s.ledger.latest
  {
    Reached(cfg, t0, n, acts);
  }

  /** A call loses at most as many races for lastRefillTime as it first found intervals to claim. */
  lemma BoundedRetry(cfg: Config, t0: int, n: nat, acts: seq<Action>, i: nat)
    requires Sane(cfg) && i < n
    ensures var t := Run(Start(cfg, t0, n), acts).threads[i]; t.retries <= t.first
  {
    Reached(cfg, t0, n, acts);
    RetriesBounded(Run(Start(cfg, t0, n), acts), i);
  }

  lemma RetriesBounded(s: State, i: nat)
    requires ThreadsOK(s) && i < |s.threads|
    ensures s.threads[i].retries <= s.threads[i].first
  {
    assert ThreadOK(s, s.threads[i]);
  }

  /** Every claim in a tiling covers its own stretch: distinct claims never overlap. */
  lemma {:induction false} ClaimsAreDisjoint(start: int, claims: seq<Claim>, last: int, d: int, latest: int, i: nat,
                                               j: nat)
    requires d > 0 && Tiles(start, claims, last, d, latest) && i < j < |claims|
    ensures claims[i].from < claims[i].to <= claims[j].from < claims[j].to <= last
    decreases claims
  {
    var front, c := claims[..|claims| - 1], claims[|claims| - 1];
    MulMonotone(1, c.count, d);
    if j < |front| {
      ClaimsAreDisjoint(start, front, c.from, d, latest, i, j);
    } else {
      ClaimEndsBy(start, front, c.from, d, latest, i);
    }
  }

  lemma {:induction false} ClaimEndsBy(start: int, claims: seq<Claim>, last: int, d: int, latest: int, i: nat)
    requires d > 0 && Tiles(start, claims, last, d, latest) && i < |claims|
    ensures claims[i].from < claims[i].to <= last
    decreases claims
  {
    var front, c := claims[..|claims| - 1], claims[|claims| - 1];
    MulMonotone(1, c.count, d);
    if i < |front| {
      ClaimEndsBy(start, front, c.from, d, latest, i);
    }
  }

  // ---- one thread alone is the sequential bucket ------------------------------------------------------

  function Goes(i: nat, k: nat): seq<Action> {
    if k == 0 then [] else [Go(i)] + Goes(i, k - 1)
  }

  lemma {:induction false} MoreGoes(s: State, i: nat, k: nat, m: nat)
    requires i < |s.threads|
    ensures Run(s, Goes(i, k + m)) == Run(Run(s, Goes(i, k)), Goes(i, m))
    decreases k
  {
    if k > 0 {
      assert Goes(i, k)[1..] == Goes(i, k - 1) && Goes(i, k + m)[1..] == Goes(i, k - 1 + m);
      MoreGoes(Advance(s, i), i, k - 1, m);
    }
  }

  lemma OneGo(s: State, i: nat)
    requires i < |s.threads|
    ensures Run(s, Goes(i, 1)) == Advance(s, i)
  {
    assert Goes(i, 1) == [Go(i)] + Goes(i, 0);
    assert Goes(i, 1)[1..] == [];
  }

  lemma {:induction false} GoesOnClock(s: State, i: nat, k: nat)
    requires i < |s.threads|
    ensures OnClock(s, Goes(i, k)) && Run(s, Goes(i, k)).ledger.latest == s.ledger.latest
    decreases k
  {
    if k > 0 {
      assert Goes(i, k)[1..] == Goes(i, k - 1);
      GoesOnClock(Advance(s, i), i, k - 1);
    }
  }

  /** How many steps thread i can still need if no other thread moves. */
  function StepsLeft(s: State, i: nat): nat
    requires i < |s.threads|
  {
    var t := s.threads[i];
    match t.pc
    case Idle => 0
    case Refund => 1
    case AskWindow => 2
    case CasDebit => if t.seen == s.b.tokens then 3 else 5
    case LoadBalance => 4
    case StoreAccess => 5
    case CasTokens => if t.seen == s.b.tokens then 6 else 8
    case LoadTokens => 7
    case CasLast => if t.seenLast == s.b.lastRefill then 8 else 10
    case LoadLast => 9
    case CheckBlocked => 10
  }

  /** From any state, in the middle of any interleaving, a thread left alone finishes within ten steps. */
  lemma {:induction false} AloneFinishes(s: State, i: nat, k: nat)
    requires i < |s.threads| && StepsLeft(s, i) <= k
    ensures Run(s, Goes(i, k)).threads[i].pc == Idle
    ensures StepsLeft(s, i) <= 10
    decreases k
  {
    if k > 0 {
      assert Goes(i, k)[1..] == Goes(i, k - 1);
      AloneFinishes(Advance(s, i), i, k - 1);
    }
  }

  /** Thread i at its refill, undisturbed, leaves the refilled bucket. */
  lemma SoloRefill(s: State, i: nat) returns (k: nat)
    requires i < |s.threads| && s.threads[i].pc == LoadLast
    ensures k <= 4
    ensures var s' := Run(s, Goes(i, k));
            && s'.b == Refill(s.b, s.threads[i].now)
            && s'.threads[i].pc == AfterRefill(s.threads[i]).pc && s'.threads[i].now == s.threads[i].now
  {
    var s1 := Advance(s, i);
    OneGo(s, i);
    if s1.threads[i].pc != CasLast {
      return 1;
    }
    var s2 := Advance(s1, i);
    OneGo(s1, i);
    MoreGoes(s, i, 1, 1);
    var s3 := Advance(s2, i);
    OneGo(s2, i);
    MoreGoes(s, i, 2, 1);
    OneGo(s3, i);
    MoreGoes(s, i, 3, 1);
    return 4;
  }

  /** Thread i past its refill, undisturbed, finishes as the sequential bucket does. */
  lemma SoloConsume(s: State, i: nat) returns (k: nat)
    requires i < |s.threads| && s.threads[i].pc == StoreAccess
    ensures k <= 5
    ensures var s' := Run(s, Goes(i, k));
            && (s'.b, s'.threads[i].reply) == (Consume(s.b, s.threads[i].now).0, Some(Consume(s.b, s.threads[i].now).1))
            && s'.threads[i].pc == Idle
  {
    hide Run;
    hide W.Allow;
    hide W.Admits;
    var s1 := Advance(s, i);
    OneGo(s, i);
    var s2 := Advance(s1, i);
    OneGo(s1, i);
    MoreGoes(s, i, 1, 1);
    if s2.threads[i].pc == Idle {
      return 2;
    }
    var s3 := Advance(s2, i);
    OneGo(s2, i);
    MoreGoes(s, i, 2, 1);
    var s4 := Advance(s3, i);
    OneGo(s3, i);
    MoreGoes(s, i, 3, 1);
    if s4.threads[i].pc == Idle {
      return 4;
    }
    OneGo(s4, i);
    MoreGoes(s, i, 4, 1);
    return 5;
  }

  /** A call that runs undisturbed leaves the bucket and the reply of the sequential Allow, within ten
      atomic steps. */
  lemma SoloCallIsSequential(s: State, i: nat, now: int) returns (k: nat)
    requires i < |s.threads| && s.threads[i].pc == Idle
    ensures k <= 10
    ensures var s' := Run(Step(s, BeginAllow(i, now)), Goes(i, k));
            (s'.b, s'.threads[i].reply) == (Allow(s.b, now).0, Some(Allow(s.b, now).1)) && s'.threads[i].pc == Idle
  {
    hide Run;
    var s1 := Step(s, BeginAllow(i, now));
    var s2 := Advance(s1, i);
    OneGo(s1, i);
    if s.b.blocked {
      return 1;
    }
    var s3, k1 := s2, 0;
    if s2.threads[i].pc == LoadLast {
      k1 := SoloRefill(s2, i);
      s3 := Run(s2, Goes(i, k1));
      MoreGoes(s1, i, 1, k1);
    }
    var k2 := SoloConsume(s3, i);
    MoreGoes(s1, i, 1 + k1, k2);
    return 1 + k1 + k2;
  }
}
