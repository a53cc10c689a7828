/** What becomes of the window's own limit when calls interleave. */
module ConcurrentWindow {
  import opened Arithmetic
  import opened BucketSpec
  import opened ConcurrentBucket
  import opened Wrappers
  import W = WindowSpec

  /** The question an action puts to the window, if it puts one. */
  function AskOf(s: State, a: Action): seq<W.WindowOp> {
    if a.Go? && a.i < |s.threads| && s.threads[a.i].pc == AskWindow then [W.Request(s.threads[a.i].now)] else []
  }

  /** The clock of the call that an action grants, if it grants one. */
  function GrantOf(s: State, a: Action): seq<int> {
    if AskOf(s, a) != [] && Step(s, a).ledger.grants > s.ledger.grants then [AskOf(s, a)[0].at] else []
  }

  /** The questions put to the window in a run, in the order in which they are put. */
  function Asks(s: State, acts: seq<Action>): seq<W.WindowOp>
    decreases acts
  {
    if acts == [] then [] else AskOf(s, acts[0]) + Asks(Step(s, acts[0]), acts[1..])
  }

  /** The clocks of the calls granted in a run, in the order in which they are granted. */
  function Grants(s: State, acts: seq<Action>): seq<int>
    decreases acts
  {
    if acts == [] then [] else GrantOf(s, acts[0]) + Grants(Step(s, acts[0]), acts[1..])
  }

  // ---- in order -------------------------------------------------------------------------------------------

  /** A question is a step of the sequential window, and everything else leaves it alone. */
  lemma StepFollowsAsk(s: State, a: Action, cfg: W.WindowConfig, ops: seq<W.WindowOp>)
    requires s.b.window == Some(W.Exec(cfg, ops).w)
    ensures var r := W.Exec(cfg, ops + AskOf(s, a));
            Step(s, a).b.window == Some(r.w) && r.log == W.Exec(cfg, ops).log + GrantOf(s, a)
    ensures |GrantOf(s, a)| == Step(s, a).ledger.grants - s.ledger.grants
  {
    if AskOf(s, a) == [] {
      assert ops + AskOf(s, a) == ops;
    } else {
      assert (ops + AskOf(s, a))[..|ops|] == ops;
    }
  }

  lemma {:induction false} WindowFollowsAsks(s: State, acts: seq<Action>, cfg: W.WindowConfig, ops: seq<W.WindowOp>)
    requires s.b.window == Some(W.Exec(cfg, ops).w)
    ensures W.Exec(cfg, ops + Asks(s, acts)).log == W.Exec(cfg, ops).log + Grants(s, acts)
    ensures |Grants(s, acts)| == Run(s, acts).ledger.grants - s.ledger.grants
    decreases acts
  {
    hide W.Exec;
    if acts == [] {
      assert ops + Asks(s, acts) == ops;
    } else {
      hide Step;
      hide AskOf;
      hide GrantOf;
      var asked := AskOf(s, acts[0]);
      StepFollowsAsk(s, acts[0], cfg, ops);
      WindowFollowsAsks(Step(s, acts[0]), acts[1..], cfg, ops + asked);
      assert ops + Asks(s, acts) == ops + asked + Asks(Step(s, acts[0]), acts[1..]);
    }
  }

  /** In every interleaving in which the window is asked in the order of the clocks, no interval of its length holds
      more grants than its limit. */
  lemma LimitHoldsInOrder(cfg: Config, t0: int, n: nat, acts: seq<Action>, a: int)
    requires FreshWindow(cfg).Some? && W.Nondecreasing(Asks(Start(cfg, t0, n), acts))
    ensures var s, w := Start(cfg, t0, n), cfg.slidingWindow.value;
      && |Grants(s, acts)| == Run(s, acts).ledger.grants
      && W.Count(Grants(s, acts), a, a + w.duration) <= Max(w.maxRequests, 0)
  {
    var s, w := Start(cfg, t0, n), cfg.slidingWindow.value;
    assert s.b.window == Some(W.New(w)) && s.ledger.grants == 0;
    FromFresh(s, acts, w, a);
  }

  lemma FromFresh(s: State, acts: seq<Action>, w: W.WindowConfig, a: int)
    requires s.b.window == Some(W.New(w)) && W.Nondecreasing(Asks(s, acts))
    ensures |Grants(s, acts)| == Run(s, acts).ledger.grants - s.ledger.grants
    ensures W.Count(Grants(s, acts), a, a + w.duration) <= Max(w.maxRequests, 0)
  {
    hide *;
    ExecNothing(w);
    WindowFollowsAsks(s, acts, w, []);
    assert [] + Asks(s, acts) == Asks(s, acts) && [] + Grants(s, acts) == Grants(s, acts);
    W.NeverOverLimit(w, Asks(s, acts), a);
  }

  lemma ExecNothing(w: W.WindowConfig)
    ensures W.Exec(w, []) == W.WindowRun(W.New(w), [], [])
  {
  }

  // ---- out of order ---------------------------------------------------------------------------------------

  lemma {:induction false} GrantsAppend(s: State, x: seq<Action>, y: seq<Action>)
    ensures Grants(s, x + y) == Grants(s, x) + Grants(Run(s, x), y)
    decreases x
  {
    if x == [] {
      assert x + y == y;
    } else {
      assert (x + y)[1..] == x[1..] + y;
      GrantsAppend(Step(s, x[0]), x[1..], y);
    }
  }

  /** A stretch of a run on one clock, with what it grants. */
  predicate Leads(s: State, acts: seq<Action>, s': State, grants: seq<int>) {
    OnClock(s, acts) && Run(s, acts) == s' && Grants(s, acts) == grants
  }

  lemma LeadsOne(s: State, a: Action)
    requires Timely(s, a)
    ensures Leads(s, [a], Step(s, a), GrantOf(s, a))
  {
    assert [a][1..] == [];
  }

  lemma LeadsOn(s: State, x: seq<Action>, s': State, g: seq<int>, y: seq<Action>, s'': State, g': seq<int>)
    requires Leads(s, x, s', g) && Leads(s', y, s'', g')
    ensures Leads(s, x + y, s'', g + g')
  {
    OnClockAppend(s, x, y);
    RunAppend(s, x, y);
    GrantsAppend(s, x, y);
  }

  lemma LeadsStep(s: State, x: seq<Action>, s': State, g: seq<int>, a: Action)
    requires Leads(s, x, s', g) && Timely(s', a)
    ensures Leads(s, x + [a], Step(s', a), g + GrantOf(s', a))
  {
    LeadsOne(s', a);
    LeadsOn(s, x, s', g, [a], Step(s', a), GrantOf(s', a));
  }

  /** Thread i begins a call at `at`, pays and is about to ask. */
  lemma CallToAsk(s: State, i: nat, at: int) returns (acts: seq<Action>, s': State)
    requires i < |s.threads| && s.threads[i].pc == Idle && at >= s.ledger.latest
    requires s.b.cfg.refillInterval <= 0 && !s.b.blocked && s.b.tokens >= Cost(s.b.cfg)
    ensures Leads(s, acts, s', [])
    ensures s'.b == s.b.(tokens := s.b.tokens - Cost(s.b.cfg), lastAccess := at) && s'.ledger.latest == at
    ensures s'.threads == s.threads[i := s'.threads[i]] && s'.threads[i].pc == AskWindow && s'.threads[i].now == at
  {
    hide Leads;
    hide TryClaim;
    hide TryApply;
    hide Ask;
    hide GiveBack;
    hide LookLast;
    hide RetryAfter;
    var s0 := Step(s, BeginAllow(i, at));
    LeadsOne(s, BeginAllow(i, at));
    var s1 := Step(s0, Go(i));
    LeadsStep(s, [BeginAllow(i, at)], s0, [], Go(i));
    var s2 := Step(s1, Go(i));
    LeadsStep(s, [BeginAllow(i, at)] + [Go(i)], s1, [], Go(i));
    var s3 := Step(s2, Go(i));
    LeadsStep(s, [BeginAllow(i, at)] + [Go(i)] + [Go(i)], s2, [], Go(i));
    s' := Step(s3, Go(i));
    LeadsStep(s, [BeginAllow(i, at)] + [Go(i)] + [Go(i)] + [Go(i)], s3, [], Go(i));
    acts := [BeginAllow(i, at)] + [Go(i)] + [Go(i)] + [Go(i)] + [Go(i)];
  }

  /** The window grants what thread i asks. */
  lemma AskGranted(s: State, i: nat)
    requires i < |s.threads| && s.threads[i].pc == AskWindow && s.b.window.Some?
    requires W.Admits(s.b.window.value, s.threads[i].now)
    ensures Leads(s, [Go(i)], Ask(s, i), [s.threads[i].now])
  {
    LeadsOne(s, Go(i));
  }

  /** A whole call, granted. */
  lemma CallGranted(s: State, i: nat, at: int) returns (acts: seq<Action>, s': State)
    requires i < |s.threads| && s.threads[i].pc == Idle && at >= s.ledger.latest
    requires s.b.cfg.refillInterval <= 0 && !s.b.blocked && s.b.tokens >= Cost(s.b.cfg)
    requires s.b.window.Some? && W.Admits(s.b.window.value, at)
    ensures Leads(s, acts, s', [at])
    ensures s'.b == s.b.(tokens := s.b.tokens - Cost(s.b.cfg), lastAccess := at,
                         window := Some(W.Allow(s.b.window.value, at)))
    ensures s'.ledger.latest == at && s'.threads == s.threads[i := s'.threads[i]] && s'.threads[i].pc == Idle
  {
    hide Leads;
    var call, s1 := CallToAsk(s, i, at);
    AskGranted(s1, i);
    s' := Ask(s1, i);
    acts := call + [Go(i)];
    LeadsOn(s, call, s1, [], [Go(i)], s', [at]);
    assert [] + [at] == [at];
  }

  const TWO_IN_FIVE := Config(4, 0, 0, 1, Some(W.WindowConfig(true, 5, 2, 0)))

  /** Two threads on one clock can put their questions in the other order, and then the limit fails: with at most two
      in any five units, calls at 10, 10, 16 and 12 are granted in this order, and three of them lie in (7, 12]. */
  lemma LimitFailsOutOfOrder() returns (acts: seq<Action>)
    ensures var s := Start(TWO_IN_FIVE, 0, 2);
      && OnClock(s, acts) && Grants(s, acts) == [10, 10, 16, 12] && W.Count(Grants(s, acts), 7, 12) == 3
  {
    hide Leads;
    var s := Start(TWO_IN_FIVE, 0, 2);
    var a1, s1 := CallGranted(s, 0, 10);
    var a2, s2 := CallGranted(s1, 0, 10);
    LeadsOn(s, a1, s1, [10], a2, s2, [10]);
    var a3, s3 := CallToAsk(s2, 1, 12);
    LeadsOn(s, a1 + a2, s2, [10] + [10], a3, s3, []);
    SweptTwo();
    var a4, s4 := CallGranted(s3, 0, 16);
    LeadsOn(s, a1 + a2 + a3, s3, [10] + [10] + [], a4, s4, [16]);
    AskGranted(s4, 1);
    LeadsOn(s, a1 + a2 + a3 + a4, s4, [10] + [10] + [] + [16], [Go(1)], Ask(s4, 1), [12]);
    acts := a1 + a2 + a3 + a4 + [Go(1)];
    assert [10] + [10] + [] + [16] + [12] == [10, 10, 16, 12];
    LeadsMeans(s, acts, Ask(s4, 1), [10, 10, 16, 12]);
    CountThree();
  }

  lemma LeadsMeans(s: State, acts: seq<Action>, s': State, grants: seq<int>)
    requires Leads(s, acts, s', grants)
    ensures OnClock(s, acts) && Grants(s, acts) == grants
  {
  }

  lemma SweptTwo()
    ensures W.Compact([10, 10], 11) == []
  {
    assert [10, 10][1..] == [10] && [10][1..] == [];
  }

  lemma CountThree()
    ensures W.Count([10, 10, 16, 12], 7, 12) == 3
  {
    assert [10, 10, 16, 12][1..] == [10, 16, 12] && [10, 16, 12][1..] == [16, 12] && [16, 12][1..] == [12];
    assert [12][1..] == [];
  }
}
