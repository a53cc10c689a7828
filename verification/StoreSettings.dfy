/** What the store's settings mean for the requests that follow them, over whole runs: the tiers it was made with, the
    address limit while it is on and off, and the global limit while it is off. */
module StoreSettings {
  import opened Arithmetic
  import opened Wrappers
  import opened BucketSpec
  import opened StoreIds
  import opened StoreSpec
  import opened StoreAgreement
  import opened StoreCaps
  import opened StoreEffects
  import C = ClientSpec
  import O = StoreOptimisation
  import E = StoreEviction
  import R = BucketRuns

  predicate NoSetIp(ops: seq<Op>) {
    forall i :: 0 <= i < |ops| ==> !ops[i].SetIp?
  }

  predicate NoSetGlobal(ops: seq<Op>) {
    forall i :: 0 <= i < |ops| ==> !ops[i].SetGlobal?
  }

  predicate SaneOps(ops: seq<Op>) {
    forall i :: 0 <= i < |ops| ==> O.SaneOp(ops[i])
  }

  lemma {:induction false} SettingsKept(s: StoreState, ops: seq<Op>)
    requires NoSetIp(ops)
    ensures SameSettings(s, Final(s, ops))
    decreases |ops|
  {
    if ops != [] {
      SettingsKept(s, ops[..|ops| - 1]);
      StepSettings(Final(s, ops[..|ops| - 1]), ops[|ops| - 1]);
    }
  }

  lemma {:induction false} GivenKept(s: StoreState, ops: seq<Op>)
    ensures var t := Final(s, ops);
            t.tierDefaults == s.tierDefaults && t.maxClients == s.maxClients && t.ipCap == s.ipCap
    decreases |ops|
  {
    if ops != [] {
      GivenKept(s, ops[..|ops| - 1]);
      StepSettings(Final(s, ops[..|ops| - 1]), ops[|ops| - 1]);
    }
  }

  /** Agreement, shape and sane configurations, all along. */
  lemma {:induction false} RunKeepsAll(s: StoreState, ops: seq<Op>)
    requires Agrees(s) && Shaped(s) && O.Healthy(s) && E.Run(s, ops) && SaneOps(ops)
    ensures Agrees(Final(s, ops)) && Shaped(Final(s, ops)) && O.Healthy(Final(s, ops))
    decreases |ops|
  {
    if ops != [] {
      var front, last := ops[..|ops| - 1], ops[|ops| - 1];
      RunKeepsAll(s, front);
      StepAgrees(Final(s, front), last);
      StepHealthy(Final(s, front), last);
    }
  }

  // ---- the tiers the store was made with --------------------------------------------------------------------

  /** What a request for a tier is answered with when its client is new: the tier's own limits if the store was given
      any, else those given for the default tier, else a hundred tokens refilled by ten a second. */
  function Given(tiers: map<string, Config>, tier: string): Config {
    var name := if tier == "" then C.DEFAULT_TIER else tier;
    if name in tiers then tiers[name]
    else if C.DEFAULT_TIER in tiers then tiers[C.DEFAULT_TIER]
    else Config(100, 10, SECOND, 1, None)
  }

  /** At any time in the store's life the first request of a client that the outer gates let through is answered by a
      full bucket of the limits the store was made with; and the caps are the ones it was made with. */
  lemma FirstRequestMeetsGiven(maxClients: int, tiers: map<string, Config>, ops: seq<Op>, r: Request)
    requires E.Run(NewStore(maxClients, tiers), ops) && KeyOK(Ask(r))
    requires var s := Final(NewStore(maxClients, tiers), ops);
             r.key !in s.clients && GlobalGrants(s, r) && IpGrants(s, r)
    ensures var s := Final(NewStore(maxClients, tiers), ops);
      var (c, reply) := BucketSpec.Allow(BucketSpec.New(Given(tiers, r.tier), r.now), r.now);
      && AllowRequest(s, r).1 == (if reply.allowed then AllowResult(true, c.tokens, 0, Ok)
                                  else AllowResult(false, 0, reply.retryAfter, ClientLimit))
      && s.maxClients == maxClients && s.ipCap == if maxClients > 0 then 4 * maxClients else 200000
  {
    var s0, s := NewStore(maxClients, tiers), Final(NewStore(maxClients, tiers), ops);
    GivenKept(s0, ops);
    assert BucketAt(s, Tier(r.key, C.TierName(r.tier))).None? && BucketAt(s, Tier(r.key, C.DEFAULT_TIER)).None?;
    assert Met(s, Target(s, r), r.now) == BucketSpec.New(Given(tiers, r.tier), r.now);
    AllowedExactlyWhen(s, r);
  }

  // ---- the address limit ------------------------------------------------------------------------------------

  /** From the limit's last setting on, a request that carries an address is gated by it, and an address without
      a bucket meets a full one of that limit. */
  lemma AddressMeetsLimit(s: StoreState, cfg: Config, ops: seq<Op>, r: Request)
    requires NoSetIp(ops)
    requires var t := Final(SetIPLimit(s, true, cfg), ops);
             GlobalGrants(t, r) && r.ip != "" && r.ip !in t.ipBuckets && KeyOK(Ask(r)) && ClientFits(t, r.key)
    ensures var t := Final(SetIPLimit(s, true, cfg), ops);
      var (b, reply) := BucketSpec.Allow(BucketSpec.New(cfg, r.now), r.now);
      && BucketAt(AllowRequest(t, r).0, Ip(r.ip)) == Some(b)
      && (!reply.allowed ==> AllowRequest(t, r).1 == AllowResult(false, 0, reply.retryAfter, IpLimit))
      && (reply.allowed ==> AllowRequest(t, r).1.reason !in {IpLimit, GlobalLimit})
  {
    var t := Final(SetIPLimit(s, true, cfg), ops);
    SettingsKept(SetIPLimit(s, true, cfg), ops);
    assert Addressed(t, r) && Met(t, Ip(r.ip), r.now) == BucketSpec.New(cfg, r.now);
    AskAt(t, r, Ip(r.ip));
    OuterDenialLeavesClients(t, r);
  }

  /** ip has a bucket of these limits, or one from before with the limits it had then. */
  predicate LimitAt(s0: StoreState, s: StoreState, cfg: Config, ip: string) {
    ip in s.ipBuckets ==>
      || s.ipBuckets[ip].cfg == Normalize(cfg)
      || (ip in s0.ipBuckets && s.ipBuckets[ip].cfg == s0.ipBuckets[ip].cfg)
  }

  /** What an operation leaves of an address's bucket. */
  function AddressLeaves(s: StoreState, op: Op, ip: string): Option<BucketState> {
    match op
    case Ask(r) => AskLeaves(s, r, Ip(ip))
    case SetIp(on, _) => if on then BucketAt(s, Ip(ip)) else None
    case Pass(due, now) =>
      if BucketAt(s, Ip(ip)).Some? && IdOf(Ip(ip)) in due then Some(Refill(BucketAt(s, Ip(ip)).value, now))
      else BucketAt(s, Ip(ip))
    case _ => BucketAt(s, Ip(ip))
  }

  lemma AddressAt(s: StoreState, op: Op, ip: string)
    requires Shaped(s) && Agrees(s) && O.Healthy(s) && KeyOK(op) && PassOK(s, op)
    ensures BucketAt(Step(s, op), Ip(ip)) == AddressLeaves(s, op, ip)
  {
    StepLeaves(s, op, Ip(ip));
    LeavesAddress(s, op, ip);
    hide Leaves;
    hide AddressLeaves;
    hide Step;
  }

  lemma LeavesAddress(s: StoreState, op: Op, ip: string)
    ensures Leaves(s, op, Ip(ip)) == AddressLeaves(s, op, ip)
  {
    hide AskLeaves;
  }

  lemma AskKeepsLimit(s: StoreState, r: Request, ip: string)
    requires AskLeaves(s, r, Ip(ip)).Some?
    ensures AskLeaves(s, r, Ip(ip)).value.cfg
         == if ip in s.ipBuckets then s.ipBuckets[ip].cfg else Normalize(Fresh(s, Ip(ip)))
  {
    hide GlobalGrants;
    hide IpGrants;
  }

  lemma StepLimitAt(s0: StoreState, s: StoreState, op: Op, cfg: Config, ip: string)
    requires Shaped(s) && Agrees(s) && O.Healthy(s) && KeyOK(op) && PassOK(s, op)
    requires s.ipConfig == Some(cfg) && LimitAt(s0, s, cfg, ip)
    ensures LimitAt(s0, Step(s, op), cfg, ip)
  {
    AddressAt(s, op, ip);
    hide Shaped;
    hide Agrees;
    hide O.Healthy;
    hide Step;
    hide AskLeaves;
    assert BucketAt(Step(s, op), Ip(ip)).Some? <==> ip in Step(s, op).ipBuckets;
    if op.Ask? && AskLeaves(s, op.r, Ip(ip)).Some? {
      AskKeepsLimit(s, op.r, ip);
    }
  }

  /** From the limit's last setting on, every address bucket made has that limit; older ones keep theirs. */
  lemma {:induction false} AddressBucketsHaveLimit(s: StoreState, cfg: Config, ops: seq<Op>, ip: string)
    requires Shaped(s) && Agrees(s) && O.Healthy(s) && Sane(cfg) && SaneOps(ops) && NoSetIp(ops)
    requires E.Run(SetIPLimit(s, true, cfg), ops)
    ensures LimitAt(SetIPLimit(s, true, cfg), Final(SetIPLimit(s, true, cfg), ops), cfg, ip)
    decreases |ops|
  {
    var s0 := SetIPLimit(s, true, cfg);
    if ops != [] {
      var front, last := ops[..|ops| - 1], ops[|ops| - 1];
      AddressBucketsHaveLimit(s, cfg, front, ip);
      StepAgrees(s, SetIp(true, cfg));
      StepHealthy(s, SetIp(true, cfg));
      RunKeepsAll(s0, front);
      SettingsKept(s0, front);
      StepLimitAt(s0, Final(s0, front), last, cfg, ip);
    }
  }

  /** From the first request of an address after the limit was set, and as long as its bucket lives, the
      requests allowed from it, whoever's keys they carry, cost at most the limit's capacity and its rate for
      each whole interval. */
  lemma AddressCap(s: StoreState, cfg: Config, before: seq<Op>, r: Request, ops: seq<Op>, end: int)
    requires Shaped(s) && Agrees(s) && O.Healthy(s) && Sane(cfg) && r.now <= end
    requires NoSetIp(before) && SaneOps(before) && E.Run(SetIPLimit(s, true, cfg), before) && KeyOK(Ask(r))
    requires var t := Final(SetIPLimit(s, true, cfg), before);
      && GlobalGrants(t, r) && r.ip != "" && r.ip !in t.ipBuckets
      && E.Run(Step(t, Ask(r)), ops) && Lives(Step(t, Ask(r)), ops, Ip(r.ip)) && O.Ordered(r.now, ops)
    ensures var t := Final(SetIPLimit(s, true, cfg), before);
      Cost(cfg) * ((if AllowRequest(t, r).1.allowed then 1 else 0)
                   + AllowedThrough(Step(t, Ask(r)), ops, Ip(r.ip), r.now, end))
      <= cfg.maxTokens + cfg.refillRate * Elapsed(cfg, r.now, end)
  {
    hide *;
    InForce(s, cfg, before);
    LifeFromFirst(Final(SetIPLimit(s, true, cfg), before), cfg, r, ops, end);
  }

  lemma InForce(s: StoreState, cfg: Config, ops: seq<Op>)
    requires Shaped(s) && Agrees(s) && O.Healthy(s) && Sane(cfg) && SaneOps(ops) && NoSetIp(ops)
    requires E.Run(SetIPLimit(s, true, cfg), ops)
    ensures var t := Final(SetIPLimit(s, true, cfg), ops);
            Shaped(t) && Agrees(t) && t.ipEnabled && t.ipConfig == Some(cfg)
  {
    StepAgrees(s, SetIp(true, cfg));
    StepHealthy(s, SetIp(true, cfg));
    RunKeepsAll(SetIPLimit(s, true, cfg), ops);
    SettingsKept(SetIPLimit(s, true, cfg), ops);
  }

  lemma AskAgrees(t: StoreState, r: Request)
    requires Shaped(t) && Agrees(t) && KeyOK(Ask(r))
    ensures Shaped(Step(t, Ask(r))) && Agrees(Step(t, Ask(r)))
  {
    StepAgrees(t, Ask(r));
  }

  lemma LifeFromFirst(t: StoreState, cfg: Config, r: Request, ops: seq<Op>, end: int)
    requires Shaped(t) && Agrees(t) && KeyOK(Ask(r)) && GlobalGrants(t, r) && Sane(cfg) && r.now <= end
    requires t.ipEnabled && t.ipConfig == Some(cfg) && r.ip != "" && r.ip !in t.ipBuckets
    requires E.Run(Step(t, Ask(r)), ops) && Lives(Step(t, Ask(r)), ops, Ip(r.ip)) && O.Ordered(r.now, ops)
    ensures Cost(cfg) * ((if AllowRequest(t, r).1.allowed then 1 else 0)
                         + AllowedThrough(Step(t, Ask(r)), ops, Ip(r.ip), r.now, end))
         <= cfg.maxTokens + cfg.refillRate * Elapsed(cfg, r.now, end)
  {
    hide *;
    AskAgrees(t, r);
    FirstCall(t, cfg, r);
    LifeCap(Step(t, Ask(r)), cfg, r, if AllowRequest(t, r).1.allowed then 1 else 0, ops, end);
  }

  /** The request that an address's bucket is made for. */
  lemma FirstCall(t: StoreState, cfg: Config, r: Request)
    requires Shaped(t) && KeyOK(Ask(r)) && GlobalGrants(t, r)
    requires t.ipEnabled && t.ipConfig == Some(cfg) && r.ip != "" && r.ip !in t.ipBuckets
    ensures BucketAt(Step(t, Ask(r)), Ip(r.ip)) == Some(BucketSpec.Allow(BucketSpec.New(cfg, r.now), r.now).0)
    ensures AllowRequest(t, r).1.allowed ==> BucketSpec.Allow(BucketSpec.New(cfg, r.now), r.now).1.allowed
  {
    assert ClientFits(t, r.key);
    assert Met(t, Ip(r.ip), r.now) == BucketSpec.New(cfg, r.now);
    AskAt(t, r, Ip(r.ip));
    AllowedExactlyWhen(t, r);
  }

  /** The life of a bucket after the call that it was made for. */
  lemma LifeCap(s: StoreState, cfg: Config, r: Request, m: nat, ops: seq<Op>, end: int)
    requires m <= if BucketSpec.Allow(BucketSpec.New(cfg, r.now), r.now).1.allowed then 1 else 0
    requires Shaped(s) && Agrees(s) && Sane(cfg) && r.now <= end
    requires E.Run(s, ops) && Lives(s, ops, Ip(r.ip)) && O.Ordered(r.now, ops)
    requires BucketAt(s, Ip(r.ip)) == Some(BucketSpec.Allow(BucketSpec.New(cfg, r.now), r.now).0)
    ensures Cost(cfg) * (m + AllowedThrough(s, ops, Ip(r.ip), r.now, end))
         <= cfg.maxTokens + cfg.refillRate * Elapsed(cfg, r.now, end)
  {
    var b, p := BucketSpec.New(cfg, r.now), Ip(r.ip);
    var call, life := [R.Event(R.Call, r.now)], OwnLife(s, ops, p, r.now);
    R.StepInRange(b, call[0]);
    StoreLifeIsOwnLife(s, ops, p, r.now, r.now, end);
    OneEvent(b, call, life, r.now, r.now, end);
    assert R.Final(b, call) == BucketSpec.Allow(b, r.now).0 by { assert call[1..] == []; }
    R.GrantsWithinPotential(b, call + life, r.now, r.now, end);
    FreshPotential(cfg, r.now, end);
    MulMonotone(m + AllowedThrough(s, ops, p, r.now, end), R.GrantsWithin(b, call + life, r.now, end), Cost(cfg));
  }

  /** While the address limit is off there is no bucket for any address, and no request is denied for its address. */
  lemma {:induction false} NoAddressesWhileOff(s: StoreState, cfg: Config, ops: seq<Op>, r: Request)
    requires Shaped(s) && Agrees(s) && O.Healthy(s) && Sane(cfg) && SaneOps(ops) && NoSetIp(ops)
    requires E.Run(SetIPLimit(s, false, cfg), ops)
    ensures var t := Final(SetIPLimit(s, false, cfg), ops);
            t.ipBuckets == map[] && IpGrants(t, r) && AllowRequest(t, r).1.reason != IpLimit
    decreases |ops|
  {
    var s0, t := SetIPLimit(s, false, cfg), Final(SetIPLimit(s, false, cfg), ops);
    SettingsKept(s0, ops);
    OuterDenialLeavesClients(t, r);
    if ops != [] {
      var front, last := ops[..|ops| - 1], ops[|ops| - 1];
      NoAddressesWhileOff(s, cfg, front, r);
      StepAgrees(s, SetIp(false, cfg));
      StepHealthy(s, SetIp(false, cfg));
      RunKeepsAll(s0, front);
      SettingsKept(s0, front);
      StillNoAddresses(Final(s0, front), last);
    }
  }

  lemma StillNoAddresses(s: StoreState, op: Op)
    requires Shaped(s) && Agrees(s) && O.Healthy(s) && KeyOK(op) && PassOK(s, op)
    requires s.ipBuckets == map[] && !s.ipEnabled && !op.SetIp?
    ensures Step(s, op).ipBuckets == map[]
  {
    forall ip ensures ip !in Step(s, op).ipBuckets {
      AddressAt(s, op, ip);
      hide Step;
      assert BucketAt(Step(s, op), Ip(ip)).None?;
    }
  }

  /** An address loses its bucket only when the limit is turned off, or as the least recently used of a full table to a
      newcomer that the global gate let through. */
  lemma AddressDropped(s: StoreState, op: Op, ip: string)
    requires Shaped(s) && Agrees(s) && O.Healthy(s) && KeyOK(op) && Possible(s, op)
    requires ip in s.ipBuckets && ip !in Step(s, op).ipBuckets
    ensures (op.SetIp? && !op.enabled)
         || (op.Ask? && Addressed(s, op.r) && GlobalGrants(s, op.r)
             && op.r.ip !in s.ipBuckets && |s.ipBuckets| >= s.ipCap
             && forall j :: j in s.ipBuckets ==> s.ipBuckets[ip].lastAccess <= s.ipBuckets[j].lastAccess)
  {
    AddressAt(s, op, ip);
    hide Step;
    hide Agrees;
    hide O.Healthy;
    assert BucketAt(s, Ip(ip)).Some? && BucketAt(Step(s, op), Ip(ip)).None?;
  }

  // ---- the global limit -----------------------------------------------------------------------------------------

  /** From the global limit's removal until it is set again there is no global bucket, and no request is denied by
      it. */
  lemma {:induction false} NoGlobalDenialWhileOff(s: StoreState, ops: seq<Op>, r: Request)
    requires Shaped(s) && Agrees(s) && O.Healthy(s) && SaneOps(ops) && NoSetGlobal(ops) && E.Run(DisableGlobal(s), ops)
    ensures var t := Final(DisableGlobal(s), ops); t.global.None? && AllowRequest(t, r).1.reason != GlobalLimit
    decreases |ops|
  {
    var s0, t := DisableGlobal(s), Final(DisableGlobal(s), ops);
    OuterDenialLeavesClients(t, r);
    if ops != [] {
      var front, last := ops[..|ops| - 1], ops[|ops| - 1];
      NoGlobalDenialWhileOff(s, front, r);
      StepAgrees(s, NoGlobal);
      StepHealthy(s, NoGlobal);
      RunKeepsAll(s0, front);
      StillNoGlobal(Final(s0, front), last);
    }
  }

  lemma StillNoGlobal(s: StoreState, op: Op)
    requires Shaped(s) && Agrees(s) && O.Healthy(s) && KeyOK(op) && PassOK(s, op)
    requires s.global.None? && !op.SetGlobal?
    ensures Step(s, op).global.None?
  {
    StepLeaves(s, op, Global);
    LeavesNoGlobal(s, op);
    hide Step;
    hide Leaves;
    hide O.Healthy;
    assert BucketAt(Step(s, op), Global).None?;
  }

  lemma LeavesNoGlobal(s: StoreState, op: Op)
    requires s.global.None? && !op.SetGlobal?
    ensures Leaves(s, op, Global).None?
  {
  }
}
