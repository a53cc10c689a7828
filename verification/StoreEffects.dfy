/** What one operation leaves of every bucket and of its place in the schedule, owner by owner; and what the
    administrator's settings mean for every request that follows them. */
module StoreEffects {
  import opened Arithmetic
  import opened Wrappers
  import opened BucketSpec
  import opened StoreIds
  import opened StoreSpec
  import opened StoreAgreement
  import opened StoreCaps
  import C = ClientSpec
  import P = SchedulerSpec
  import O = StoreOptimisation
  import E = StoreEviction

  // ---- what is left at an owner ---------------------------------------------------------------------------

  /** What making sure of a client leaves at p: a newcomer gets its default tier and, when the map is full, the victim
      loses every tier. */
  function WithNewcomer(s: StoreState, key: string, now: int, victim: string, p: Owner): Option<BucketState> {
    if key in s.clients then BucketAt(s, p)
    else if p == Tier(key, C.DEFAULT_TIER) then Some(BucketSpec.New(Fresh(s, p), now))
    else if s.maxClients > 0 && |s.clients| >= s.maxClients && p.Tier? && p.key == victim && victim != "" then None
    else BucketAt(s, p)
  }

  /** What a request leaves at p: where it calls Allow, that call's result; else what making room for its address and
      its client leaves. */
  function AskLeaves(s: StoreState, r: Request, p: Owner): Option<BucketState> {
    if Consults(s, r, p) then Some(BucketSpec.Allow(Met(s, p, r.now), r.now).0)
    else
      match p
      case Global => None
      case Ip(ip) =>
        if Addressed(s, r) && GlobalGrants(s, r) && r.ip !in s.ipBuckets && |s.ipBuckets| >= s.ipCap
           && ip == r.ipVictim && ip != "" then None
        else BucketAt(s, p)
      case Tier(_, _) =>
        if GlobalGrants(s, r) && IpGrants(s, r) then WithNewcomer(s, r.key, r.now, r.victim, p) else BucketAt(s, p)
  }

  function Marked(b: Option<BucketState>, p: Owner, key: string, on: bool): Option<BucketState> {
    if b.Some? && p.Tier? && p.key == key then Some(b.value.(blocked := on)) else b
  }

  /** What an operation leaves at p. */
  function Leaves(s: StoreState, op: Op, p: Owner): Option<BucketState> {
    match op
    case Ask(r) => AskLeaves(s, r, p)
    case Configure(key, tier, cfg, now, victim) =>
      if p == Tier(key, if tier == "" then C.DEFAULT_TIER else tier) then Some(BucketSpec.New(cfg, now))
      else WithNewcomer(s, key, now, victim, p)
    case BlockClient(key, now, victim) => Marked(WithNewcomer(s, key, now, victim, p), p, key, true)
    case UnblockClient(key) => Marked(BucketAt(s, p), p, key, false)
    case SetGlobal(cfg, now) => if p == Global then Some(BucketSpec.New(cfg, now)) else BucketAt(s, p)
    case NoGlobal => if p == Global then None else BucketAt(s, p)
    case SetIp(on, _) => if !on && p.Ip? then None else BucketAt(s, p)
    case Pass(due, now) =>
      if BucketAt(s, p).Some? && IdOf(p) in due then Some(Refill(BucketAt(s, p).value, now)) else BucketAt(s, p)
  }

  lemma NewcomerAt(s: StoreState, key: string, now: int, victim: string, p: Owner)
    ensures BucketAt(GetOrCreateClient(s, key, now, victim), p) == WithNewcomer(s, key, now, victim, p)
  {
    if key !in s.clients {
      O.CreateIs(s, key, now, victim);
      O.EvictAt(s, victim, p);
      O.WithClientAt(O.Room(s, victim), key, p);
      InstallAt(WithClient(O.Room(s, victim), key), Tier(key, C.DEFAULT_TIER), DefaultConfig(s), now, p);
    }
  }

  lemma NewAddressAt(s: StoreState, ip: string, now: int, victim: string, p: Owner)
    ensures BucketAt(GetOrCreateIp(s, ip, now, victim), p)
         == if ip in s.ipBuckets then BucketAt(s, p)
            else if p == Ip(ip) then Some(BucketSpec.New(Fresh(s, p), now))
            else if |s.ipBuckets| >= s.ipCap && victim != "" && p == Ip(victim) then None
            else BucketAt(s, p)
  {
    if ip !in s.ipBuckets {
      O.IpRoomAt(s, victim, p);
      InstallAt(O.IpRoom(s, victim), Ip(ip), IpConfig(s), now, p);
    }
  }

  lemma IpGateLeaves(s: StoreState, r: Request, p: Owner)
    requires GlobalGrants(s, r)
    ensures p.Ip? ==> BucketAt(E.AtClient(s, r), p) == AskLeaves(s, r, p)
    ensures !p.Ip? ==> BucketAt(E.AtClient(s, r), p) == BucketAt(GlobalGate(s, r).0, p)
  {
    var g := GlobalGate(s, r).0;
    GlobalGateAt(s, r, p);
    IpGateAt(g, r, p);
    if Addressed(s, r) {
      NewAddressAt(g, r.ip, r.now, r.ipVictim, p);
      NewAddressAt(g, r.ip, r.now, r.ipVictim, Ip(r.ip));
      AllowAtAt(GetOrCreateIp(g, r.ip, r.now, r.ipVictim), Ip(r.ip), r.now, p);
    }
  }

  lemma ClientGateLeaves(s: StoreState, r: Request, p: Owner)
    requires Unambiguous(r.key) && r.key != "" && ClientFits(s, r.key)
    ensures BucketAt(ClientGate(s, r).0, p)
         == if !ClientBlocked(s, r.key) && p == Target(s, r)
            then Some(BucketSpec.Allow(Met(s, p, r.now), r.now).0)
            else WithNewcomer(s, r.key, r.now, r.victim, p)
  {
    var s1 := GetOrCreateClient(s, r.key, r.now, r.victim);
    NewClientOK(s, r.key, r.now, r.victim);
    NewcomerAt(s, r.key, r.now, r.victim, p);
    if !ClientBlocked(s, r.key) {
      TargetAfterCreate(s, r);
      TierAt(s1, r, p);
      TierAt(s1, r, Target(s, r));
      ServeAt(EnsureTier(s1, r.key, r.tier, r.now), r, p);
    }
  }

  lemma NewcomerAtClient(s: StoreState, r: Request, p: Owner)
    requires p.Tier?
    ensures WithNewcomer(E.AtClient(s, r), r.key, r.now, r.victim, p) == WithNewcomer(s, r.key, r.now, r.victim, p)
  {
    E.AtClientSame(s, r);
    MetAtClient(s, r, p);
    MetAtClient(s, r, Tier(r.key, C.DEFAULT_TIER));
    E.GatesLeaveClients(s, r);
    E.GatesLeaveClients(GlobalGate(s, r).0, r);
  }

  lemma AskAt(s: StoreState, r: Request, p: Owner)
    requires Unambiguous(r.key) && r.key != "" && ClientFits(s, r.key)
    ensures BucketAt(AllowRequest(s, r).0, p) == AskLeaves(s, r, p)
  {
    E.AtClientSame(s, r);
    AtClientAt(s, r, p);
    GlobalGateAt(s, r, p);
    if GlobalGrants(s, r) {
      IpGateLeaves(s, r, p);
      if IpGrants(s, r) {
        TargetAtClient(s, r);
        ClientGateLeaves(E.AtClient(s, r), r, p);
        if p.Tier? {
          MetAtClient(s, r, p);
          NewcomerAtClient(s, r, p);
        }
      }
    }
  }

  lemma {:induction false} AnswerAllLeaves(s: StoreState, due: seq<string>, now: int, p: Owner)
    ensures BucketAt(AnswerAll(s, due, now), p).Some? <==> BucketAt(s, p).Some?
  {
    if due != [] {
      AnswerAllLeaves(s, due[..|due| - 1], now, p);
      AnswerLeaves(AnswerAll(s, due[..|due| - 1], now), due[|due| - 1], now, p);
    }
  }

  lemma AnswerLeaves(s: StoreState, id: string, now: int, p: Owner)
    ensures BucketAt(AnswerDue(s, id, now), p).Some? <==> BucketAt(s, p).Some?
  {
    if OnDue(s, id, now).1.Some? {
      var o := Named(OwnerOf(id).value);
      O.PutAt(s, o, Refill(BucketAt(s, o).value, now), p);
    }
  }

  /** An operation leaves at every owner, whoever's it is, exactly this: nothing else comes, goes or changes. */
  lemma StepLeaves(s: StoreState, op: Op, p: Owner)
    requires Shaped(s) && Agrees(s) && KeyOK(op) && PassOK(s, op)
    requires op.Pass? && BucketAt(s, p).Some? ==> Sane(BucketAt(s, p).value.cfg)
    ensures BucketAt(Step(s, op), p) == Leaves(s, op, p)
  {
    match op {
      case Ask(r) => AskAt(s, r, p);
      case Configure(key, tier, cfg, now, victim) =>
        var o, s1 := Tier(key, C.TierName(tier)), GetOrCreateClient(s, key, now, victim);
        NewcomerAt(s, key, now, victim, p);
        CreateAt(s, key, now, victim, p);
        InstallAt(Unschedule(s1, o), o, cfg, now, p);
      case BlockClient(key, now, victim) =>
        NewcomerAt(s, key, now, victim, p);
        O.SetBlockedAt(GetOrCreateClient(s, key, now, victim), key, true, p);
      case UnblockClient(key) => O.SetBlockedAt(s, key, false, p);
      case SetGlobal(cfg, now) => SetGlobalAt(s, cfg, now, p);
      case Pass(due, now) =>
        AnswerAllLeaves(s.(plan := P.Without(s.plan, due)), due, now, p);
        if BucketAt(s, p).Some? {
          PassAt(s, due, now, now, p);
        }
      case _ =>
    }
  }

  // ---- settings --------------------------------------------------------------------------------------------

  /** What the store was given and what the administrator set. */
  predicate SameSettings(s: StoreState, s': StoreState) {
    && s'.tierDefaults == s.tierDefaults && s'.maxClients == s.maxClients && s'.ipCap == s.ipCap
    && s'.ipEnabled == s.ipEnabled && s'.ipConfig == s.ipConfig
  }

  lemma InstallSettings(s: StoreState, o: Owner, cfg: Config, now: int)
    ensures SameSettings(s, Install(s, o, cfg, now))
  {
  }

  lemma NewcomerSettings(s: StoreState, key: string, now: int, victim: string)
    ensures SameSettings(s, GetOrCreateClient(s, key, now, victim))
  {
    if key !in s.clients {
      O.CreateIs(s, key, now, victim);
      InstallSettings(WithClient(O.Room(s, victim), key), Tier(key, C.DEFAULT_TIER), DefaultConfig(s), now);
    }
  }

  lemma NewAddressSettings(s: StoreState, ip: string, now: int, victim: string)
    ensures SameSettings(s, GetOrCreateIp(s, ip, now, victim))
  {
    InstallSettings(O.IpRoom(s, victim), Ip(ip), IpConfig(s), now);
  }

  lemma AllowSettings(s: StoreState, o: Owner, now: int)
    ensures SameSettings(s, AllowAt(s, o, now).0)
  {
  }

  lemma ServeSettings(s: StoreState, r: Request)
    ensures SameSettings(s, Serve(EnsureTier(s, r.key, r.tier, r.now), r).0)
  {
    var s1 := EnsureTier(s, r.key, r.tier, r.now);
    if s1 != s {
      InstallSettings(s, Tier(r.key, r.tier), s.tierDefaults[r.tier], r.now);
    }
    AllowSettings(s1, Serving(s1, r), r.now);
  }

  lemma AskSettings(s: StoreState, r: Request)
    ensures SameSettings(s, AllowRequest(s, r).0)
  {
    hide AllowAt;
    hide Serve;
    hide EnsureTier;
    hide GetOrCreateIp;
    hide GetOrCreateClient;
    var s1 := GlobalGate(s, r).0;
    AllowSettings(s, Global, r.now);
    var t := GetOrCreateIp(s1, r.ip, r.now, r.ipVictim);
    NewAddressSettings(s1, r.ip, r.now, r.ipVictim);
    AllowSettings(t, Ip(r.ip), r.now);
    var s2 := IpGate(s1, r).0;
    NewcomerSettings(s2, r.key, r.now, r.victim);
    ServeSettings(GetOrCreateClient(s2, r.key, r.now, r.victim), r);
  }

  lemma {:induction false} AnswerSettings(s: StoreState, due: seq<string>, now: int)
    ensures SameSettings(s, AnswerAll(s, due, now))
  {
    if due != [] {
      AnswerSettings(s, due[..|due| - 1], now);
    }
  }

  /** Only the address limit's own operation changes a setting, and it sets both of its own. */
  lemma StepSettings(s: StoreState, op: Op)
    ensures op.SetIp? ==>
              SameSettings(s.(ipEnabled := op.enabled, ipConfig := Some(op.cfg)), Step(s, op))
    ensures !op.SetIp? ==> SameSettings(s, Step(s, op))
  {
    match op {
      case Ask(r) => AskSettings(s, r);
      case Configure(key, tier, cfg, now, victim) =>
        var o := Tier(key, C.TierName(tier));
        NewcomerSettings(s, key, now, victim);
        InstallSettings(Unschedule(GetOrCreateClient(s, key, now, victim), o), o, cfg, now);
      case BlockClient(key, now, victim) => NewcomerSettings(s, key, now, victim);
      case SetGlobal(cfg, now) => InstallSettings(Unschedule(s, Global), Global, cfg, now);
      case Pass(due, now) => AnswerSettings(s.(plan := P.Without(s.plan, due)), due, now);
      case _ =>
    }
  }

  // ---- the schedule ------------------------------------------------------------------------------------------

  /** The entry for p, if there is one, is the old one or, if `made`, that of a bucket made for p at now. */
  predicate OldOrFresh(s: StoreState, s': StoreState, p: Owner, now: int, made: bool) {
    && Fresh(s', p) == Fresh(s, p)
    && (IdOf(p) in s'.plan ==>
          || (IdOf(p) in s.plan && s'.plan[IdOf(p)] == s.plan[IdOf(p)])
          || (made && s'.plan[IdOf(p)] == now + Fresh(s, p).refillInterval))
  }

  predicate OwnId(o: Owner) {
    OwnerOf(IdOf(o)) == Some(o)
  }

  lemma InstallPlan(s: StoreState, o: Owner, now: int, p: Owner)
    requires OwnId(o) && OwnId(p)
    ensures OldOrFresh(s, Install(s, o, Fresh(s, o), now), p, now, p == o)
  {
    InstallSettings(s, o, Fresh(s, o), now);
    assert IdOf(o) == IdOf(p) ==> o == p;
  }

  lemma NewcomerPlan(s: StoreState, key: string, now: int, victim: string, p: Owner)
    requires Unambiguous(key) && OwnId(p)
    ensures OldOrFresh(s, GetOrCreateClient(s, key, now, victim), p, now,
                       key !in s.clients && p == Tier(key, C.DEFAULT_TIER))
  {
    if key !in s.clients {
      O.CreateIs(s, key, now, victim);
      DispatchRoundTrip(Tier(key, C.DEFAULT_TIER));
      InstallPlan(WithClient(O.Room(s, victim), key), Tier(key, C.DEFAULT_TIER), now, p);
    }
  }

  lemma NewAddressPlan(s: StoreState, ip: string, now: int, victim: string, p: Owner)
    requires OwnId(p)
    ensures OldOrFresh(s, GetOrCreateIp(s, ip, now, victim), p, now, ip !in s.ipBuckets && p == Ip(ip))
  {
    DispatchRoundTrip(Ip(ip));
    InstallPlan(O.IpRoom(s, victim), Ip(ip), now, p);
  }

  lemma AllowPlan(s: StoreState, o: Owner, now: int, p: Owner)
    ensures AllowAt(s, o, now).0.plan == s.plan && OldOrFresh(s, AllowAt(s, o, now).0, p, now, false)
  {
    AllowSettings(s, o, now);
  }

  lemma ServePlan(s: StoreState, r: Request, p: Owner)
    requires Unambiguous(r.key) && OwnId(p)
    ensures OldOrFresh(s, Serve(EnsureTier(s, r.key, r.tier, r.now), r).0, p, r.now,
                       BucketAt(s, p).None? && p == Tier(r.key, r.tier))
  {
    var s1 := EnsureTier(s, r.key, r.tier, r.now);
    if s1 != s {
      DispatchRoundTrip(Tier(r.key, r.tier));
      InstallPlan(s, Tier(r.key, r.tier), r.now, p);
    }
    AllowPlan(s1, Serving(s1, r), r.now, p);
  }

  /** A request makes a bucket only where there was none. */
  lemma MadeAt(s: StoreState, r: Request, p: Owner)
    ensures var s1 := GlobalGate(s, r).0;
      var s2 := IpGate(s1, r).0;
      && (r.ip !in s1.ipBuckets && p == Ip(r.ip) ==> BucketAt(s, p).None?)
      && (r.key !in s2.clients && p == Tier(r.key, C.DEFAULT_TIER) ==> BucketAt(s, p).None?)
      && (BucketAt(GetOrCreateClient(s2, r.key, r.now, r.victim), p).None? && p == Tier(r.key, r.tier) ==>
            BucketAt(s, p).None?)
  {
    GlobalGateAt(s, r, p);
    E.GatesLeaveClients(s, r);
    E.GatesLeaveClients(GlobalGate(s, r).0, r);
    hide IpGate;
    hide GlobalGate;
    var s2 := IpGate(GlobalGate(s, r).0, r).0;
    NewcomerAt(s2, r.key, r.now, r.victim, p);
  }

  lemma AskPlan(s: StoreState, r: Request, p: Owner)
    requires Unambiguous(r.key) && OwnId(p)
    ensures OldOrFresh(s, AllowRequest(s, r).0, p, r.now, BucketAt(s, p).None?)
  {
    MadeAt(s, r, p);
    hide AllowAt;
    hide Serve;
    hide EnsureTier;
    hide GetOrCreateIp;
    hide GetOrCreateClient;
    hide Fresh;
    hide IdOf;
    hide BucketAt;
    var s1 := GlobalGate(s, r).0;
    AllowPlan(s, Global, r.now, p);
    var t := GetOrCreateIp(s1, r.ip, r.now, r.ipVictim);
    NewAddressPlan(s1, r.ip, r.now, r.ipVictim, p);
    AllowPlan(t, Ip(r.ip), r.now, p);
    var s2 := IpGate(s1, r).0;
    NewcomerPlan(s2, r.key, r.now, r.victim, p);
    ServePlan(GetOrCreateClient(s2, r.key, r.now, r.victim), r, p);
  }

  lemma {:induction false} AnswerAllPlan(s: StoreState, due: seq<string>, now: int, id: string)
    requires Shaped(s) && AllLive(s, due)
    ensures Shaped(AnswerAll(s, due, now)) && (Live(AnswerAll(s, due, now), id) <==> Live(s, id))
    ensures var s' := AnswerAll(s, due, now);
      if id in due then id in s'.plan && Found(s', id).Some? && s'.plan[id] == NextRefillTime(Found(s', id).value)
      else (id in s'.plan <==> id in s.plan) && (id in s.plan ==> s'.plan[id] == s.plan[id])
  {
    if due != [] {
      var front, last := due[..|due| - 1], due[|due| - 1];
      assert due == front + [last];
      AnswerAllPlan(s, front, now, id);
      AnswerAllPlan(s, front, now, last);
      AnswerPlan(AnswerAll(s, front, now), last, now, id);
    }
  }

  lemma AnswerPlan(s: StoreState, id: string, now: int, k: string)
    requires Shaped(s) && Live(s, id)
    ensures Shaped(AnswerDue(s, id, now)) && (Live(AnswerDue(s, id, now), k) <==> Live(s, k))
    ensures var s' := AnswerDue(s, id, now);
      if k == id then k in s'.plan && Found(s', k).Some? && s'.plan[k] == NextRefillTime(Found(s', k).value)
      else Found(s', k) == Found(s, k) && (k in s'.plan <==> k in s.plan) && (k in s.plan ==> s'.plan[k] == s.plan[k])
  {
    var o := OwnerOf(id).value;
    IdOfOwner(id);
    AnswerOneAt(s, id, now, o);
    AnswerDueIs(s, id, now);
    hide Shaped;
    hide IdOf;
    hide OwnerOf;
    if OwnerOf(k).Some? {
      IdOfOwner(k);
      O.PutAt(s, o, Refill(BucketAt(s, o).value, now), OwnerOf(k).value);
    }
  }

  lemma FreshNext(cfg: Config, now: int)
    requires cfg.refillInterval > 0
    ensures NextRefillTime(BucketSpec.New(cfg, now)) == now + cfg.refillInterval
    ensures NextRefillTime(BucketSpec.Allow(BucketSpec.New(cfg, now), now).0) == now + cfg.refillInterval
    ensures BucketSpec.Allow(BucketSpec.New(cfg, now), now).0.cfg == BucketSpec.New(cfg, now).cfg
  {
    FloorUnique(0, cfg.refillInterval, 0);
  }

  /** The operation puts a new bucket at p, or brings the one there up to date. */
  predicate Renews(s: StoreState, op: Op, p: Owner) {
    || BucketAt(s, p).None?
    || (op.Configure? && p == Tier(op.key, C.TierName(op.tier)))
    || (op.SetGlobal? && p == Global)
    || (op.Pass? && IdOf(p) in op.due)
  }

  /** The entry is the next refill's where the operation renews the bucket, and the old one elsewhere. */
  predicate EntryIs(s: StoreState, s': StoreState, op: Op, p: Owner) {
    && BucketAt(s', p).Some? && IdOf(p) in s'.plan
    && if Renews(s, op, p) then s'.plan[IdOf(p)] == NextRefillTime(BucketAt(s', p).value)
       else IdOf(p) in s.plan && s'.plan[IdOf(p)] == s.plan[IdOf(p)]
  }

  lemma AskEntry(s: StoreState, r: Request, p: Owner)
    requires KeyOK(Ask(r)) && ClientFits(s, r.key) && OwnId(p) && (IdOf(p) in s.plan ==> BucketAt(s, p).Some?)
    requires IdOf(p) in AllowRequest(s, r).0.plan
    requires BucketAt(AllowRequest(s, r).0, p).Some?
             && BucketAt(AllowRequest(s, r).0, p).value.cfg.refillInterval > 0
    ensures EntryIs(s, AllowRequest(s, r).0, Ask(r), p)
  {
    AskPlan(s, r, p);
    AskAt(s, r, p);
    if BucketAt(s, p).None? {
      var b := BucketAt(AllowRequest(s, r).0, p).value;
      assert b == Met(s, p, r.now) || b == BucketSpec.Allow(Met(s, p, r.now), r.now).0;
      NextOfMet(s, p, r.now);
    }
  }

  lemma NextOfMet(s: StoreState, p: Owner, now: int)
    requires BucketAt(s, p).None?
    ensures Fresh(s, p).refillInterval > 0 ==>
              && NextRefillTime(Met(s, p, now)) == now + Fresh(s, p).refillInterval
              && NextRefillTime(BucketSpec.Allow(Met(s, p, now), now).0) == now + Fresh(s, p).refillInterval
    ensures Met(s, p, now).cfg.refillInterval == Fresh(s, p).refillInterval
    ensures BucketSpec.Allow(Met(s, p, now), now).0.cfg.refillInterval == Fresh(s, p).refillInterval
  {
    if Fresh(s, p).refillInterval > 0 {
      FreshNext(Fresh(s, p), now);
    }
  }

  lemma ConfigureEntry(s: StoreState, op: Op, p: Owner)
    requires op.Configure? && KeyOK(op) && OwnId(p) && (IdOf(p) in s.plan ==> BucketAt(s, p).Some?)
    requires IdOf(p) in Step(s, op).plan
    requires BucketAt(Step(s, op), p).Some? && BucketAt(Step(s, op), p).value.cfg.refillInterval > 0
    ensures EntryIs(s, Step(s, op), op, p)
  {
    var o, s1 := Tier(op.key, C.TierName(op.tier)), GetOrCreateClient(s, op.key, op.now, op.victim);
    DispatchRoundTrip(o);
    CreateAt(s, op.key, op.now, op.victim, o);
    ReplaceEntry(s1, o, op.cfg, op.now, p);
    if p != o {
      NewcomerEntry(s, op.key, op.now, op.victim, p);
    }
  }

  /** A new bucket in place of o's. */
  lemma ReplaceEntry(s: StoreState, o: Owner, cfg: Config, now: int, p: Owner)
    requires OwnId(o) && OwnId(p) && O.Placed(s, o)
    ensures var s' := Install(Unschedule(s, o), o, cfg, now);
      && (p == o ==> BucketAt(s', p) == Some(BucketSpec.New(cfg, now)))
      && (p == o && IdOf(p) in s'.plan ==> s'.plan[IdOf(p)] == NextRefillTime(BucketSpec.New(cfg, now)))
      && (p != o ==> BucketAt(s', p) == BucketAt(s, p))
      && (p != o ==> (IdOf(p) in s'.plan <==> IdOf(p) in s.plan))
      && (p != o && IdOf(p) in s.plan ==> s'.plan[IdOf(p)] == s.plan[IdOf(p)])
  {
    InstallAt(Unschedule(s, o), o, cfg, now, p);
    assert p != o ==> IdOf(p) != IdOf(o);
  }

  /** Making sure of a client schedules only what it makes. */
  lemma NewcomerEntry(s: StoreState, key: string, now: int, victim: string, p: Owner)
    requires Unambiguous(key) && OwnId(p) && (IdOf(p) in s.plan ==> BucketAt(s, p).Some?)
    ensures var s' := GetOrCreateClient(s, key, now, victim);
      BucketAt(s', p).Some? && BucketAt(s', p).value.cfg.refillInterval > 0 && IdOf(p) in s'.plan ==>
        if BucketAt(s, p).None? then s'.plan[IdOf(p)] == NextRefillTime(BucketAt(s', p).value)
        else IdOf(p) in s.plan && s'.plan[IdOf(p)] == s.plan[IdOf(p)]
  {
    NewcomerPlan(s, key, now, victim, p);
    NewcomerAt(s, key, now, victim, p);
    if BucketAt(s, p).None? {
      NextOfMet(s, p, now);
    }
  }

  lemma OtherEntry(s: StoreState, op: Op, p: Owner)
    requires op.BlockClient? || op.UnblockClient? || op.SetGlobal? || op.NoGlobal? || op.SetIp?
    requires KeyOK(op) && OwnId(p) && (IdOf(p) in s.plan ==> BucketAt(s, p).Some?) && IdOf(p) in Step(s, op).plan
    requires BucketAt(Step(s, op), p).Some? && BucketAt(Step(s, op), p).value.cfg.refillInterval > 0
    ensures EntryIs(s, Step(s, op), op, p)
  {
    match op {
      case BlockClient(key, now, victim) =>
        NewcomerEntry(s, key, now, victim, p);
        O.SetBlockedAt(GetOrCreateClient(s, key, now, victim), key, true, p);
        hide GetOrCreateClient;
        hide BucketAt;
      case UnblockClient(key) =>
        O.SetBlockedAt(s, key, false, p);
        hide BucketAt;
      case SetGlobal(cfg, now) =>
        DispatchRoundTrip(Global);
        ReplaceEntry(s, Global, cfg, now, p);
        hide Install;
        hide BucketAt;
      case SetIp(on, cfg) => SetIpEntry(s, on, cfg, p);
      case NoGlobal =>
    }
  }

  lemma SetIpEntry(s: StoreState, on: bool, cfg: Config, p: Owner)
    requires IdOf(p) in s.plan ==> BucketAt(s, p).Some?
    requires IdOf(p) in SetIPLimit(s, on, cfg).plan && BucketAt(SetIPLimit(s, on, cfg), p).Some?
    ensures EntryIs(s, SetIPLimit(s, on, cfg), SetIp(on, cfg), p)
  {
    hide IdOf;
  }

  lemma PassEntry(s: StoreState, due: seq<string>, now: int, p: Owner)
    requires Shaped(s) && Agrees(s) && P.Drains(s.plan, now, due) && OwnId(p) && BucketAt(s, p).Some?
    requires IdOf(p) in ProcessDue(s, due, now).plan && BucketAt(ProcessDue(s, due, now), p).Some?
    ensures EntryIs(s, ProcessDue(s, due, now), Pass(due, now), p)
  {
    var s0 := s.(plan := P.Without(s.plan, due));
    forall i | 0 <= i < |due| ensures Live(s0, due[i]) {
      assert AgreesAt(s, due[i], {}, None);
      assert Found(s0, due[i]) == Found(s, due[i]);
    }
    assert Shaped(s0);
    AnswerAllPlan(s0, due, now, IdOf(p));
  }

  /** A bucket that refills is scheduled, after an operation that makes, replaces or refills it on schedule, for exactly
      its next refill; any other operation leaves its entry alone. */
  lemma SchedulesExactly(s: StoreState, op: Op, p: Owner)
    requires Shaped(s) && Agrees(s) && KeyOK(op) && PassOK(s, op)
    requires BucketAt(Step(s, op), p).Some? && BucketAt(Step(s, op), p).value.cfg.refillInterval > 0
    ensures var id, s' := IdOf(p), Step(s, op);
      && id in s'.plan
      && if Renews(s, op, p) then s'.plan[id] == NextRefillTime(BucketAt(s', p).value)
         else id in s.plan && s'.plan[id] == s.plan[id]
  {
    StepAgrees(s, op);
    Round(Step(s, op), p);
    assert AgreesAt(Step(s, op), IdOf(p), {}, None) && AgreesAt(s, IdOf(p), {}, None);
    match op {
      case Ask(r) => AskEntry(s, r, p);
      case Configure(_, _, _, _, _) => ConfigureEntry(s, op, p);
      case Pass(due, now) =>
        AnswerAllLeaves(s.(plan := P.Without(s.plan, due)), due, now, p);
        PassEntry(s, due, now, p);
      case _ => OtherEntry(s, op, p);
    }
  }
}
