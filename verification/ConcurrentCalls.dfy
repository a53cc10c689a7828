/** What one step of any interleaving may do to the balance and to a call, said without the steps' own code: when
    the balance moves and by how much, when a refill is done with, and how a call can end. */
module ConcurrentCalls {
  import opened Arithmetic
  import opened Wrappers
  import opened BucketSpec
  import opened ConcurrentBucket
  import W = WindowSpec

  // ---- the balance ----------------------------------------------------------------------------------------

  /** Refills and calls begin at rest; a step moves the thread that takes it, and no other. */
  lemma ThreadsMoveAlone(s: State, a: Action, j: nat)
    requires j < |s.threads| && Step(s, a).threads[j] != s.threads[j]
    ensures a == Go(j) || (s.threads[j].pc == Idle && (a.BeginAllow? || a.BeginScheduled?) && a.i == j)
  {
  }

  /** A thread stops owing the intervals it has claimed only in a step that adds them all, up to the cap; only what
      the cap cuts off is discarded. */
  lemma ClaimIsPaidInFull(s: State, a: Action, i: nat)
    requires i < |s.threads| && Owes(s.threads[i])
    ensures var t, t', b := s.threads[i], Step(s, a).threads[i], s.b;
      var full := b.tokens + b.cfg.refillRate * t.intervals;
      if Owes(t') then t'.intervals == t.intervals
      else
        && Step(s, a).b.tokens == Min(full, b.cfg.maxTokens)
        && Step(s, a).ledger.discarded - s.ledger.discarded == full - Step(s, a).b.tokens
  {
    assert Step(s, a).threads[i] != s.threads[i] ==> a == Go(i);
  }

  /** A thread comes to owe intervals only by claiming, on from lastRefillTime, all that have passed by its clock. */
  lemma ClaimTakesAll(s: State, a: Action, i: nat)
    requires Inv(s) && i < |s.threads| && !Owes(s.threads[i]) && Owes(Step(s, a).threads[i])
    ensures var t', d := Step(s, a).threads[i], s.b.cfg.refillInterval;
      && d > 0 && t'.intervals == (t'.now - s.b.lastRefill) / d >= 1
      && Step(s, a).b.lastRefill == s.b.lastRefill + d * t'.intervals
  {
    ThreadsMoveAlone(s, a, i);
    assert ThreadOK(s, s.threads[i]);
  }

  /** Tokens are discarded only by a step that leaves the bucket full. */
  lemma DiscardOnlyWhenFull(s: State, a: Action)
    ensures Step(s, a).ledger.discarded >= s.ledger.discarded
    ensures Step(s, a).ledger.discarded > s.ledger.discarded ==> Step(s, a).b.tokens == s.b.cfg.maxTokens
  {
  }

  /** A debit takes one cost off a balance that has it, and a call gives up its debit only when it is granted or by
      giving the cost back. */
  lemma DebitAndReturn(s: State, a: Action, i: nat)
    requires Inv(s) && i < |s.threads|
    ensures var t, t', b, b' := s.threads[i], Step(s, a).threads[i], s.b, Step(s, a).b;
      && (!Holds(t) && Holds(t') ==> b.tokens >= Cost(b.cfg) && b'.tokens == b.tokens - Cost(b.cfg))
      && (Holds(t) && !Holds(t') ==>
            if Step(s, a).ledger.grants == s.ledger.grants + 1 then b'.tokens == b.tokens
            else Step(s, a).ledger.grants == s.ledger.grants && b'.tokens == b.tokens + Cost(b.cfg))
  {
    if Step(s, a).threads[i] != s.threads[i] {
      ThreadsMoveAlone(s, a, i);
      assert ThreadOK(s, s.threads[i]);
    }
  }

  /** Nothing else moves the balance: only the thread that takes the step can, by ending what it owes or changing
      what it holds. */
  lemma BalanceMovesOnlySo(s: State, a: Action)
    requires Step(s, a).b.tokens != s.b.tokens
    ensures a.Go? && a.i < |s.threads|
    ensures var t, t' := s.threads[a.i], Step(s, a).threads[a.i];
            (Owes(t) && !Owes(t')) || (!Holds(t) && Holds(t')) || (Holds(t) && !Holds(t'))
  {
  }

  /** After each step of the run the balance is below the cap. */
  predicate NeverFull(s: State, acts: seq<Action>)
    decreases acts
  {
    acts == [] || (Step(s, acts[0]).b.tokens < s.b.cfg.maxTokens && NeverFull(Step(s, acts[0]), acts[1..]))
  }

  lemma {:induction false} NothingDiscarded(s: State, acts: seq<Action>)
    requires NeverFull(s, acts)
    ensures Run(s, acts).ledger.discarded == s.ledger.discarded
    decreases acts
  {
    if acts != [] {
      DiscardOnlyWhenFull(s, acts[0]);
      StepKeepsSetup(s, acts[0]);
      NothingDiscarded(Step(s, acts[0]), acts[1..]);
    }
  }

  /** What the balance, the debits and refills in flight and the grants account for. */
  function Accounted(cfg: Config, s: State): int {
    s.b.tokens + Cost(cfg) * (Held(s.threads) + s.ledger.grants) + cfg.refillRate * Pending(s.threads)
  }

  lemma AccountedIs(cfg: Config, t0: int, n: nat, acts: seq<Action>)
    requires Sane(cfg)
    ensures var s := Run(Start(cfg, t0, n), acts);
      Accounted(cfg, s) + s.ledger.discarded == cfg.maxTokens + cfg.refillRate * Whole(cfg, t0, s.b.lastRefill)
  {
    hide Run;
    hide Start;
    hide Whole;
    var s := Run(Start(cfg, t0, n), acts);
    TokenLedger(cfg, t0, n, acts);
    Distribute(Cost(cfg), Held(s.threads), s.ledger.grants);
  }

  /** From any point of any interleaving on, and as long as the bucket is not full, no token is lost: what is accounted
      for grows by the rate for every interval claimed. */
  lemma LosslessUntilFull(cfg: Config, t0: int, n: nat, acts: seq<Action>, more: seq<Action>)
    requires Sane(cfg) && NeverFull(Run(Start(cfg, t0, n), acts), more)
    ensures var s := Run(Start(cfg, t0, n), acts);
      var s' := Run(s, more);
      Accounted(cfg, s') - Accounted(cfg, s)
      == cfg.refillRate * (Whole(cfg, t0, s'.b.lastRefill) - Whole(cfg, t0, s.b.lastRefill))
  {
    hide Run;
    hide Start;
    hide Whole;
    hide Accounted;
    var s := Run(Start(cfg, t0, n), acts);
    var s' := Run(s, more);
    NothingDiscarded(s, more);
    RunAppend(Start(cfg, t0, n), acts, more);
    AccountedIs(cfg, t0, n, acts);
    AccountedIs(cfg, t0, n, acts + more);
    Distribute(cfg.refillRate, Whole(cfg, t0, s'.b.lastRefill) - Whole(cfg, t0, s.b.lastRefill),
               Whole(cfg, t0, s.b.lastRefill));
  }

  // ---- the refill -----------------------------------------------------------------------------------------

  predicate Refilling(t: Thread) {
    t.pc == LoadLast || t.pc == CasLast || Owes(t)
  }

  /** Past its refill a call has left no whole interval unclaimed; nor has a thread that owes what it claimed. */
  predicate CaughtUp(s: State, t: Thread) {
    s.b.cfg.refillInterval > 0 && t.pc != Idle && t.pc != CheckBlocked && t.pc != LoadLast && t.pc != CasLast ==>
      t.now < s.b.lastRefill + s.b.cfg.refillInterval
  }

  predicate AllCaughtUp(s: State) {
    forall j :: 0 <= j < |s.threads| ==> CaughtUp(s, s.threads[j])
  }

  lemma OwnCaughtUp(s: State, i: nat)
    requires Claimed(s) && i < |s.threads| && ThreadOK(s, s.threads[i]) && CaughtUp(s, s.threads[i])
    ensures CaughtUp(Advance(s, i), Advance(s, i).threads[i])
    ensures Refilling(s.threads[i]) && !Refilling(Advance(s, i).threads[i]) && s.b.cfg.refillInterval > 0 ==>
              s.threads[i].now < Advance(s, i).b.lastRefill + s.b.cfg.refillInterval
  {
    var t, d := s.threads[i], s.b.cfg.refillInterval;
    if d > 0 {
      FloorBounds(t.now - s.b.lastRefill, d);
      FloorBounds(t.now - t.seenLast, d);
      FloorReaches(t.now - s.b.lastRefill, d, 1);
    }
  }

  lemma StepCaughtUp(s: State, a: Action)
    requires Inv(s) && AllCaughtUp(s)
    ensures AllCaughtUp(Step(s, a))
  {
    var s' := Step(s, a);
    if a.Go? && a.i < |s.threads| {
      AdvanceClaimed(s, a.i);
      assert ThreadOK(s, s.threads[a.i]);
      OwnCaughtUp(s, a.i);
    }
    forall j | 0 <= j < |s'.threads| ensures CaughtUp(s', s'.threads[j]) {
      if s'.threads[j] == s.threads[j] {
        assert CaughtUp(s, s.threads[j]);
      } else {
        ThreadsMoveAlone(s, a, j);
      }
    }
  }

  lemma {:induction false} RunCaughtUp(s: State, acts: seq<Action>)
    requires Inv(s) && AllCaughtUp(s)
    ensures AllCaughtUp(Run(s, acts))
    decreases acts
  {
    if acts != [] {
      StepInv(s, acts[0]);
      StepCaughtUp(s, acts[0]);
      RunCaughtUp(Step(s, acts[0]), acts[1..]);
    }
  }

  /** In every interleaving a call reaches its debit, and a scheduled refill its end, only when no whole interval up to
      its clock is left to claim, however many races for lastRefillTime it lost on the way. */
  lemma RefillsBeforeItSpends(cfg: Config, t0: int, n: nat, acts: seq<Action>, i: nat)
    requires Sane(cfg) && cfg.refillInterval > 0 && i < n
    ensures var s := Run(Start(cfg, t0, n), acts);
      var t, s' := s.threads[i], Step(s, Go(i));
      && (Holds(t) || t.pc in {StoreAccess, LoadBalance, CasDebit} ==> t.now < s.b.lastRefill + cfg.refillInterval)
      && (Refilling(t) && !Refilling(s'.threads[i]) ==> t.now < s'.b.lastRefill + cfg.refillInterval)
  {
    var s := Run(Start(cfg, t0, n), acts);
    StartInv(cfg, t0, n);
    RunCaughtUp(Start(cfg, t0, n), acts);
    Reached(cfg, t0, n, acts);
    assert ThreadOK(s, s.threads[i]) && CaughtUp(s, s.threads[i]);
    OwnCaughtUp(s, i);
  }

  // ---- how a call ends ----------------------------------------------------------------------------------------

  /** Why a call may end with this reply in this state. */
  predicate Justified(b: BucketState, t: Thread, reply: Reply) {
    || (reply == Reply(true, 0) && Holds(t) && (b.window.Some? ==> W.Admits(b.window.value, t.now)))
    || (reply == Reply(false, 0) && b.blocked && t.pc == CheckBlocked)
    || (reply == Reply(false, RetryAfter(b)) && b.tokens < Cost(b.cfg) && !Holds(t))
    || (reply == Reply(false, b.cfg.refillInterval) && t.pc == Refund)
  }

  /** In every interleaving a call ends only in a step of its own: granted, holding its debit, when the window, if there
      is one, admits it; refused when the bucket is blocked, or does not have the cost at that moment, or when the
      window has refused it. */
  lemma EndsOnlySo(s: State, a: Action, i: nat)
    requires i < |s.threads| && !s.threads[i].scheduled
    requires s.threads[i].pc != Idle && Step(s, a).threads[i].pc == Idle
    ensures a == Go(i) && Step(s, a).threads[i].reply.Some?
    ensures Justified(s.b, s.threads[i], Step(s, a).threads[i].reply.value)
    ensures Step(s, a).ledger.grants == s.ledger.grants + if Step(s, a).threads[i].reply.value.allowed then 1 else 0
  {
    ThreadsMoveAlone(s, a, i);
  }

  /** A call is about to refund only because the window has just refused it, at its own clock. */
  lemma RefundsOnlyWhenRefused(s: State, a: Action, i: nat)
    requires i < |s.threads| && s.threads[i].pc != Refund && Step(s, a).threads[i].pc == Refund
    ensures a == Go(i) && s.b.window.Some? && !W.Admits(s.b.window.value, s.threads[i].now) && Holds(s.threads[i])
  {
    ThreadsMoveAlone(s, a, i);
  }

  /** Whenever the window is asked it is asked once, with the call's own clock, and a call that gets as far as its
      debit has stored that clock as the last access. */
  lemma AsksAndStoresItsClock(s: State, a: Action)
    ensures Step(s, a).b.window != s.b.window ==>
              && a.Go? && a.i < |s.threads| && Holds(s.threads[a.i]) && s.b.window.Some?
              && Step(s, a).b.window.value == W.Allow(s.b.window.value, s.threads[a.i].now)
    ensures Step(s, a).b.lastAccess != s.b.lastAccess ==>
              a.Go? && a.i < |s.threads| && Step(s, a).b.lastAccess == s.threads[a.i].now
    ensures forall i :: 0 <= i < |s.threads| && StartsToSpend(s.threads[i], Step(s, a).threads[i]) ==>
              Step(s, a).b.lastAccess == s.threads[i].now
  {
  }

  predicate StartsToSpend(t: Thread, t': Thread) {
    t'.pc == LoadBalance && t.pc != LoadBalance && t.pc != CasDebit
  }

  /** How far a call has come: the check, the claim, the refill, the access time, the debit, the window, the refund, the
      end. */
  function Phase(t: Thread): nat {
    match t.pc
    case CheckBlocked => 0
    case LoadLast => 1
    case CasLast => 1
    case LoadTokens => 2
    case CasTokens => 2
    case StoreAccess => 3
    case LoadBalance => 4
    case CasDebit => 4
    case AskWindow => 5
    case Refund => 6
    case Idle => 7
  }

  /** A lost swap is tried again; it sends a call no further back than to the load it follows, and a call keeps its
      clock to the end. */
  lemma NoStepBack(s: State, a: Action, i: nat)
    requires i < |s.threads| && s.threads[i].pc != Idle
    ensures Phase(Step(s, a).threads[i]) >= Phase(s.threads[i])
    ensures Step(s, a).threads[i].now == s.threads[i].now && Step(s, a).threads[i].scheduled == s.threads[i].scheduled
  {
    if Step(s, a).threads[i] != s.threads[i] {
      ThreadsMoveAlone(s, a, i);
    }
  }

  // ---- calls that cannot be refused, and calls that must be --------------------------------------------------

  /** No one begins anything on thread i. */
  predicate LeavesAlone(a: Action, i: nat) {
    !((a.BeginAllow? || a.BeginScheduled?) && a.i == i)
  }

  /** Through the run thread i is not begun again, the bucket is not blocked, and it never holds less than the cost. */
  predicate Ample(s: State, acts: seq<Action>, i: nat)
    decreases acts
  {
    && !s.b.blocked && s.b.tokens >= Cost(s.b.cfg)
    && (acts == [] || (LeavesAlone(acts[0], i) && Ample(Step(s, acts[0]), acts[1..], i)))
  }

  predicate OnItsWay(t: Thread) {
    && !t.scheduled && t.pc != Refund
    && (t.pc == Idle ==> t.reply == Some(Reply(true, 0)))
  }

  lemma StepOnItsWay(s: State, a: Action, i: nat)
    requires i < |s.threads| && OnItsWay(s.threads[i]) && LeavesAlone(a, i)
    requires s.b.window.None? && !s.b.blocked && s.b.tokens >= Cost(s.b.cfg)
    ensures OnItsWay(Step(s, a).threads[i])
  {
  }

  lemma {:induction false} RunOnItsWay(s: State, acts: seq<Action>, i: nat)
    requires i < |s.threads| && OnItsWay(s.threads[i]) && s.b.window.None? && Ample(s, acts, i)
    ensures OnItsWay(Run(s, acts).threads[i])
    decreases acts
  {
    if acts != [] {
      StepOnItsWay(s, acts[0], i);
      StepKeepsSetup(s, acts[0]);
      RunOnItsWay(Step(s, acts[0]), acts[1..], i);
    }
  }

  /** Without a window, a call that meets neither a block nor a balance below its cost is granted when it ends,
      whatever the other threads do and however many swaps it loses. */
  lemma AmpleCallIsGranted(s: State, i: nat, now: int, acts: seq<Action>)
    requires i < |s.threads| && s.threads[i].pc == Idle && s.b.window.None?
    requires Ample(Step(s, BeginAllow(i, now)), acts, i)
    ensures var t := Run(Step(s, BeginAllow(i, now)), acts).threads[i];
            t.pc == Idle ==> t.reply == Some(Reply(true, 0))
  {
    RunOnItsWay(Step(s, BeginAllow(i, now)), acts, i);
  }

  /** The block is as it was last set. */
  function LastSet(on: bool, acts: seq<Action>): bool {
    if acts == [] then on
    else if acts[|acts| - 1].SetBlocked? then acts[|acts| - 1].on
    else LastSet(on, acts[..|acts| - 1])
  }

  lemma {:induction false} BlockedIsLastSet(s: State, acts: seq<Action>)
    ensures Run(s, acts).b.blocked == LastSet(s.b.blocked, acts)
  {
    if acts != [] {
      var front, last := acts[..|acts| - 1], acts[|acts| - 1];
      BlockedIsLastSet(s, front);
      assert acts == front + [last];
      RunAppend(s, front, [last]);
      RunNext(Run(s, front), last, []);
      assert [last] + [] == [last];
    }
  }

  predicate KeepsBlock(acts: seq<Action>) {
    forall a :: a in acts ==> a != SetBlocked(false)
  }

  predicate KeptOut(t: Thread) {
    t.scheduled || ((t.pc == Idle || t.pc == CheckBlocked) && (t.reply.Some? ==> t.reply.value == Reply(false, 0)))
  }

  predicate KeptOutScheduled(t: Thread) {
    t.scheduled ==> (Refilling(t) || t.pc == Idle) && t.reply.None?
  }

  lemma {:induction false} RunKeptOut(s: State, acts: seq<Action>, i: nat)
    requires i < |s.threads| && s.b.blocked && KeepsBlock(acts)
    requires KeptOut(s.threads[i]) && KeptOutScheduled(s.threads[i])
    ensures Run(s, acts).b.blocked
    ensures KeptOut(Run(s, acts).threads[i]) && KeptOutScheduled(Run(s, acts).threads[i])
    decreases acts
  {
    if acts != [] {
      assert acts[0] in acts && forall a :: a in acts[1..] ==> a in acts;
      RunKeptOut(Step(s, acts[0]), acts[1..], i);
    }
  }

  /** From a block on, and until it is lifted, no call that begins is granted or holds a token: the only reply is a
      refusal without a delay. Calls already past the check are not stopped. */
  lemma BlockStopsNewCalls(s: State, i: nat, now: int, acts: seq<Action>)
    requires i < |s.threads| && s.threads[i].pc == Idle && KeepsBlock(acts)
    ensures var t := Run(Step(Step(s, SetBlocked(true)), BeginAllow(i, now)), acts).threads[i];
      && !Holds(t) && (t.reply.Some? ==> t.reply.value == Reply(false, 0))
  {
    var s1 := Step(s, SetBlocked(true));
    var s2 := Step(s1, BeginAllow(i, now));
    assert s2.threads[i] == RESTING.(now := now, pc := CheckBlocked);
    RunKeptOut(s2, acts, i);
  }
}
