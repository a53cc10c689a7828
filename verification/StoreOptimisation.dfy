/** Passes of the scheduler change nothing a caller of the store can see. */
module StoreOptimisation {
  import opened Wrappers
  import opened BucketSpec
  import opened StoreIds
  import opened StoreSpec
  import C = ClientSpec
  import P = SchedulerSpec
  import R = BucketRuns
  import opened StoreAgreement

  // ---- buckets by owner ----------------------------------------------------------------------------------

  predicate Placed(s: StoreState, o: Owner) {
    o.Tier? ==> o.key in s.clients
  }

  lemma PutAt(s: StoreState, o: Owner, b: BucketState, p: Owner)
    requires Placed(s, o)
    ensures BucketAt(Put(s, o, b), p) == if p == o then Some(b) else BucketAt(s, p)
  {
  }

  predicate BucketHealthy(b: BucketState) {
    Sane(b.cfg)
  }

  /** Every bucket, present or to come, has sane parameters. */
  ghost predicate Healthy(s: StoreState) {
    && (forall o :: BucketAt(s, o).Some? ==> BucketHealthy(BucketAt(s, o).value))
    && (forall t :: t in s.tierDefaults ==> Sane(s.tierDefaults[t]))
    && (s.ipConfig.Some? ==> Sane(s.ipConfig.value))
  }

  predicate SameOpt(b: Option<BucketState>, c: Option<BucketState>, t: int) {
    if b.Some? && c.Some? then R.SameAt(b.value, c.value, t) else b == c == None
  }

  /** Equal but for the schedule, once every bucket is refilled up to t. */
  ghost predicate Sim(s: StoreState, c: StoreState, t: int) {
    && SameFrame(s, c)
    && (forall o :: SameOpt(BucketAt(s, o), BucketAt(c, o), t))
  }

  predicate SameFrame(s: StoreState, c: StoreState) {
    && s.maxClients == c.maxClients && s.tierDefaults == c.tierDefaults && s.evictions == c.evictions
    && s.ipCap == c.ipCap && s.ipEnabled == c.ipEnabled && s.ipConfig == c.ipConfig
    && s.clients.Keys == c.clients.Keys && s.ipBuckets.Keys == c.ipBuckets.Keys
  }

  lemma SimLater(s: StoreState, c: StoreState, t: int, t': int)
    requires Sim(s, c, t) && t <= t' && Healthy(s)
    ensures Sim(s, c, t')
  {
    forall o ensures SameOpt(BucketAt(s, o), BucketAt(c, o), t') {
      assert SameOpt(BucketAt(s, o), BucketAt(c, o), t);
      if BucketAt(s, o).Some? {
        R.SameLater(BucketAt(s, o).value, BucketAt(c, o).value, t, t');
      }
    }
  }

  lemma SimPut(s: StoreState, c: StoreState, t: int, o: Owner, b: BucketState, d: BucketState)
    requires Sim(s, c, t) && Placed(s, o) && R.SameAt(b, d, t)
    ensures Sim(Put(s, o, b), Put(c, o, d), t)
  {
    forall p ensures SameOpt(BucketAt(Put(s, o, b), p), BucketAt(Put(c, o, d), p), t) {
      PutAt(s, o, b, p);
      PutAt(c, o, d, p);
      assert SameOpt(BucketAt(s, p), BucketAt(c, p), t);
    }
  }

  lemma SimPlan(s: StoreState, c: StoreState, t: int, p: P.Plan, q: P.Plan)
    requires Sim(s, c, t)
    ensures Sim(s.(plan := p), c.(plan := q), t)
  {
    forall o ensures SameOpt(BucketAt(s.(plan := p), o), BucketAt(c.(plan := q), o), t) {
      assert SameOpt(BucketAt(s, o), BucketAt(c, o), t);
    }
  }

  lemma SimInstall(s: StoreState, c: StoreState, t: int, o: Owner, cfg: Config)
    requires Sim(s, c, t) && Placed(s, o)
    ensures Sim(Install(s, o, cfg, t), Install(c, o, cfg, t), t)
  {
    var b := BucketSpec.New(cfg, t);
    SimPut(s, c, t, o, b, b);
    SimPlan(Put(s, o, b), Put(c, o, b), t, Install(s, o, cfg, t).plan, Install(c, o, cfg, t).plan);
  }

  lemma HealthyPut(s: StoreState, o: Owner, b: BucketState)
    requires Healthy(s) && Placed(s, o) && Sane(b.cfg)
    ensures Healthy(Put(s, o, b))
  {
    forall p | BucketAt(Put(s, o, b), p).Some? ensures BucketHealthy(BucketAt(Put(s, o, b), p).value) {
      PutAt(s, o, b, p);
    }
  }

  lemma HealthyFewer(s: StoreState, s': StoreState)
    requires Healthy(s) && s'.tierDefaults == s.tierDefaults && s'.ipConfig == s.ipConfig
    requires forall o :: BucketAt(s', o).Some? ==> BucketAt(s', o) == BucketAt(s, o)
    ensures Healthy(s')
  {
    forall o | BucketAt(s', o).Some? ensures BucketHealthy(BucketAt(s', o).value) {
      assert BucketAt(s', o) == BucketAt(s, o);
    }
  }

  lemma HealthyInstall(s: StoreState, o: Owner, cfg: Config, now: int)
    requires Healthy(s) && Placed(s, o) && Sane(cfg)
    ensures Healthy(Install(s, o, cfg, now))
  {
    HealthyPut(s, o, BucketSpec.New(cfg, now));
    HealthyFewer(Put(s, o, BucketSpec.New(cfg, now)), Install(s, o, cfg, now));
  }

  // ---- what an operation reads of a bucket is the same ------------------------------------------------------

  lemma SimAllowAt(s: StoreState, c: StoreState, o: Owner, t: int)
    requires Sim(s, c, t) && Healthy(s) && Placed(s, o)
    ensures AllowAt(s, o, t).1 == AllowAt(c, o, t).1
    ensures Sim(AllowAt(s, o, t).0, AllowAt(c, o, t).0, t)
    ensures Healthy(AllowAt(s, o, t).0)
    ensures AllowAt(s, o, t).1.allowed ==> Balance(AllowAt(s, o, t).0, o) == Balance(AllowAt(c, o, t).0, o)
    ensures Placed(AllowAt(s, o, t).0, o)
    ensures AllowAt(s, o, t).0.clients.Keys == s.clients.Keys
  {
    assert SameOpt(BucketAt(s, o), BucketAt(c, o), t);
    if BucketAt(s, o).Some? {
      var b, d := BucketAt(s, o).value, BucketAt(c, o).value;
      var e := R.Event(R.Call, t);
      assert BucketHealthy(b);
      R.SameStep(b, d, e);
      assert R.Shows(b, e)[0] == R.Shows(d, e)[0];
      SimPut(s, c, t, o, R.Step(b, e), R.Step(d, e));
      HealthyPut(s, o, R.Step(b, e));
      PutAt(s, o, R.Step(b, e), o);
      PutAt(c, o, R.Step(d, e), o);
      CallDebitsOnGrantOnly(b, t);
    }
  }

  lemma SimBlocked(s: StoreState, c: StoreState, t: int, k: string)
    requires Sim(s, c, t) && Healthy(s) && k in s.clients
    ensures C.IsBlocked(s.clients[k]) <==> C.IsBlocked(c.clients[k])
    ensures C.LastAccess(s.clients[k]) == C.LastAccess(c.clients[k])
    ensures s.clients[k].buckets.Keys == c.clients[k].buckets.Keys
  {
    var m, n := s.clients[k].buckets, c.clients[k].buckets;
    forall tier ensures tier in m <==> tier in n
      ensures tier in m ==> m[tier].blocked == n[tier].blocked && m[tier].lastAccess == n[tier].lastAccess
    {
      assert SameOpt(BucketAt(s, Tier(k, tier)), BucketAt(c, Tier(k, tier)), t);
      if tier in m {
        assert BucketAt(s, Tier(k, tier)) == Some(m[tier]);
        assert BucketHealthy(m[tier]);
        R.SameLater(m[tier], n[tier], t, t);
      }
    }
    SameLatest(m, n);
  }

  lemma SameLatest(m: map<string, BucketState>, n: map<string, BucketState>)
    requires m.Keys == n.Keys && forall t :: t in m ==> m[t].lastAccess == n[t].lastAccess
    ensures C.LatestOf(m) == C.LatestOf(n)
  {
    var a := C.LatestOf(m);
    assert C.IsLatest(n, a) by {
      if a > ZERO_TIME {
        var t :| t in m && m[t].lastAccess == a;
        assert t in n && n[t].lastAccess == a;
      }
    }
    C.LatestUnique(n, a, C.LatestOf(n));
  }

  // ---- the same operation on both ------------------------------------------------------------------------------

  lemma EvictAt(s: StoreState, victim: string, o: Owner)
    ensures BucketAt(EvictLRU(s, victim), o)
         == if victim != "" && o.Tier? && o.key == victim then None else BucketAt(s, o)
  {
  }

  lemma SameSizes(s: StoreState, c: StoreState)
    requires SameFrame(s, c)
    ensures |s.clients| == |c.clients| && |s.ipBuckets| == |c.ipBuckets|
  {
    assert |s.clients| == |s.clients.Keys| && |c.clients| == |c.clients.Keys|;
    assert |s.ipBuckets| == |s.ipBuckets.Keys| && |c.ipBuckets| == |c.ipBuckets.Keys|;
  }

  lemma SimEvict(s: StoreState, c: StoreState, t: int, victim: string)
    requires Sim(s, c, t) && Healthy(s)
    ensures Sim(EvictLRU(s, victim), EvictLRU(c, victim), t) && Healthy(EvictLRU(s, victim))
  {
    forall o ensures SameOpt(BucketAt(EvictLRU(s, victim), o), BucketAt(EvictLRU(c, victim), o), t) {
      EvictAt(s, victim, o);
      EvictAt(c, victim, o);
      assert SameOpt(BucketAt(s, o), BucketAt(c, o), t);
    }
    forall o ensures BucketAt(EvictLRU(s, victim), o).Some? ==> BucketAt(EvictLRU(s, victim), o) == BucketAt(s, o) {
      EvictAt(s, victim, o);
    }
    HealthyFewer(s, EvictLRU(s, victim));
  }

  lemma WithClientAt(s: StoreState, key: string, o: Owner)
    requires key !in s.clients
    ensures BucketAt(WithClient(s, key), o) == BucketAt(s, o)
  {
  }

  lemma SimWithClient(s: StoreState, c: StoreState, t: int, key: string)
    requires Sim(s, c, t) && Healthy(s) && key !in s.clients
    ensures Sim(WithClient(s, key), WithClient(c, key), t) && Healthy(WithClient(s, key))
  {
    forall o ensures SameOpt(BucketAt(WithClient(s, key), o), BucketAt(WithClient(c, key), o), t)
                  && BucketAt(WithClient(s, key), o) == BucketAt(s, o) {
      WithClientAt(s, key, o);
      WithClientAt(c, key, o);
      assert SameOpt(BucketAt(s, o), BucketAt(c, o), t);
    }
    HealthyFewer(s, WithClient(s, key));
  }

  function Room(s: StoreState, victim: string): StoreState {
    if Full(s) then EvictLRU(s, victim) else s
  }

  lemma CreateIs(s: StoreState, key: string, t: int, victim: string)
    requires key !in s.clients
    ensures key !in Room(s, victim).clients
    ensures GetOrCreateClient(s, key, t, victim)
         == Install(WithClient(Room(s, victim), key), Tier(key, C.DEFAULT_TIER), DefaultConfig(s), t)
  {
  }

  lemma SimRoom(s: StoreState, c: StoreState, t: int, victim: string)
    requires Sim(s, c, t) && Healthy(s)
    ensures Sim(Room(s, victim), Room(c, victim), t) && Healthy(Room(s, victim))
  {
    SameSizes(s, c);
    SimEvict(s, c, t, victim);
  }

  lemma SimCreate(s: StoreState, c: StoreState, t: int, key: string, victim: string)
    requires Sim(s, c, t) && Healthy(s)
    ensures Sim(GetOrCreateClient(s, key, t, victim), GetOrCreateClient(c, key, t, victim), t)
    ensures Healthy(GetOrCreateClient(s, key, t, victim))
    ensures key in GetOrCreateClient(s, key, t, victim).clients
  {
    if key !in s.clients {
      var s1, c1 := Room(s, victim), Room(c, victim);
      SimRoom(s, c, t, victim);
      CreateIs(s, key, t, victim);
      CreateIs(c, key, t, victim);
      SimWithClient(s1, c1, t, key);
      SimInstall(WithClient(s1, key), WithClient(c1, key), t, Tier(key, C.DEFAULT_TIER), DefaultConfig(s));
      HealthyInstall(WithClient(s1, key), Tier(key, C.DEFAULT_TIER), DefaultConfig(s), t);
    }
  }

  lemma SimEnsureTier(s: StoreState, c: StoreState, t: int, key: string, tier: string)
    requires Sim(s, c, t) && Healthy(s) && key in s.clients
    ensures Sim(EnsureTier(s, key, tier, t), EnsureTier(c, key, tier, t), t)
    ensures Healthy(EnsureTier(s, key, tier, t))
    ensures key in EnsureTier(s, key, tier, t).clients
  {
    var o := Tier(key, tier);
    assert SameOpt(BucketAt(s, o), BucketAt(c, o), t);
    if tier in s.tierDefaults {
      SimInstall(s, c, t, o, s.tierDefaults[tier]);
      HealthyInstall(s, o, s.tierDefaults[tier], t);
    }
  }

  function IpRoom(s: StoreState, victim: string): StoreState {
    if |s.ipBuckets| >= s.ipCap then EvictIp(s, victim) else s
  }

  lemma IpRoomAt(s: StoreState, victim: string, o: Owner)
    ensures BucketAt(IpRoom(s, victim), o)
         == if |s.ipBuckets| >= s.ipCap && victim != "" && o == Ip(victim) then None else BucketAt(s, o)
  {
  }

  lemma IpRoomFrame(s: StoreState, c: StoreState, victim: string)
    requires SameFrame(s, c)
    ensures SameFrame(IpRoom(s, victim), IpRoom(c, victim))
  {
    SameSizes(s, c);
  }

  lemma SimIpRoom(s: StoreState, c: StoreState, t: int, victim: string)
    requires Sim(s, c, t) && Healthy(s)
    ensures Sim(IpRoom(s, victim), IpRoom(c, victim), t) && Healthy(IpRoom(s, victim))
  {
    SameSizes(s, c);
    IpRoomFrame(s, c, victim);
    forall o ensures SameOpt(BucketAt(IpRoom(s, victim), o), BucketAt(IpRoom(c, victim), o), t) {
      IpRoomAt(s, victim, o);
      IpRoomAt(c, victim, o);
      assert SameOpt(BucketAt(s, o), BucketAt(c, o), t);
    }
    forall o ensures BucketAt(IpRoom(s, victim), o).Some? ==> BucketAt(IpRoom(s, victim), o) == BucketAt(s, o) {
      IpRoomAt(s, victim, o);
    }
    HealthyFewer(s, IpRoom(s, victim));
  }

  lemma SimCreateIp(s: StoreState, c: StoreState, t: int, ip: string, victim: string)
    requires Sim(s, c, t) && Healthy(s)
    ensures Sim(GetOrCreateIp(s, ip, t, victim), GetOrCreateIp(c, ip, t, victim), t)
    ensures Healthy(GetOrCreateIp(s, ip, t, victim))
  {
    if ip !in s.ipBuckets {
      SimIpRoom(s, c, t, victim);
      SimInstall(IpRoom(s, victim), IpRoom(c, victim), t, Ip(ip), IpConfig(s));
      HealthyInstall(IpRoom(s, victim), Ip(ip), IpConfig(s), t);
    }
  }

  lemma SimServing(s: StoreState, c: StoreState, r: Request)
    requires Sim(s, c, r.now)
    ensures Serving(s, r) == Serving(c, r)
    ensures BucketAt(s, Serving(s, r)).Some? <==> BucketAt(c, Serving(c, r)).Some?
  {
    assert SameOpt(BucketAt(s, Tier(r.key, C.TierName(r.tier))), BucketAt(c, Tier(r.key, C.TierName(r.tier))), r.now);
    assert SameOpt(BucketAt(s, Tier(r.key, C.DEFAULT_TIER)), BucketAt(c, Tier(r.key, C.DEFAULT_TIER)), r.now);
  }

  lemma SimClientGate(s: StoreState, c: StoreState, r: Request)
    requires Sim(s, c, r.now) && Healthy(s)
    ensures ClientGate(s, r).1 == ClientGate(c, r).1
    ensures Sim(ClientGate(s, r).0, ClientGate(c, r).0, r.now) && Healthy(ClientGate(s, r).0)
  {
    SimCreate(s, c, r.now, r.key, r.victim);
    var s1, c1 := GetOrCreateClient(s, r.key, r.now, r.victim), GetOrCreateClient(c, r.key, r.now, r.victim);
    SimBlocked(s1, c1, r.now, r.key);
    if !C.IsBlocked(s1.clients[r.key]) {
      SimEnsureTier(s1, c1, r.now, r.key, r.tier);
      SimServe(EnsureTier(s1, r.key, r.tier, r.now), EnsureTier(c1, r.key, r.tier, r.now), r);
    }
  }

  lemma SimServe(s: StoreState, c: StoreState, r: Request)
    requires Sim(s, c, r.now) && Healthy(s) && r.key in s.clients
    ensures Serve(s, r).1 == Serve(c, r).1
    ensures Sim(Serve(s, r).0, Serve(c, r).0, r.now) && Healthy(Serve(s, r).0)
  {
    SimServing(s, c, r);
    var o := Serving(s, r);
    SimAllowAt(s, c, o, r.now);
    ServingStays(s, r);
    ServingStays(c, r);
  }

  /** The bucket that served a request is the one whose balance is reported. */
  lemma ServingStays(s: StoreState, r: Request)
    ensures r.key in s.clients ==> Serving(AllowAt(s, Serving(s, r), r.now).0, r) == Serving(s, r)
  {
  }

  lemma SimRequest(s: StoreState, c: StoreState, r: Request)
    requires Sim(s, c, r.now) && Healthy(s)
    ensures AllowRequest(s, r).1 == AllowRequest(c, r).1
    ensures Sim(AllowRequest(s, r).0, AllowRequest(c, r).0, r.now) && Healthy(AllowRequest(s, r).0)
  {
    SimAllowAt(s, c, Global, r.now);
    var (s1, g) := GlobalGate(s, r);
    var (c1, h) := GlobalGate(c, r);
    if g.allowed {
      SimIpGate(s1, c1, r);
      if IpGate(s1, r).1.allowed {
        SimClientGate(IpGate(s1, r).0, IpGate(c1, r).0, r);
      }
    }
  }

  lemma SimIpGate(s: StoreState, c: StoreState, r: Request)
    requires Sim(s, c, r.now) && Healthy(s)
    ensures IpGate(s, r).1 == IpGate(c, r).1
    ensures Sim(IpGate(s, r).0, IpGate(c, r).0, r.now) && Healthy(IpGate(s, r).0)
  {
    if IpGated(s, r) {
      SimCreateIp(s, c, r.now, r.ip, r.ipVictim);
      SimAllowAt(GetOrCreateIp(s, r.ip, r.now, r.ipVictim), GetOrCreateIp(c, r.ip, r.now, r.ipVictim), Ip(r.ip), r.now);
    }
  }

  lemma SetBlockedAt(s: StoreState, key: string, on: bool, o: Owner)
    ensures BucketAt(SetBlocked(s, key, on), o)
         == if o.Tier? && o.key == key && BucketAt(s, o).Some? then Some(BucketAt(s, o).value.(blocked := on))
            else BucketAt(s, o)
  {
  }

  lemma SameBlocked(b: BucketState, c: BucketState, t: int, on: bool)
    requires R.SameAt(b, c, t) && b.cfg.refillRate >= 0
    ensures R.SameAt(b.(blocked := on), c.(blocked := on), t)
  {
    R.SameStep(b, c, R.Event(if on then R.Block else R.Unblock, t));
  }

  lemma SimSetBlocked(s: StoreState, c: StoreState, t: int, key: string, on: bool)
    requires Sim(s, c, t) && Healthy(s)
    ensures Sim(SetBlocked(s, key, on), SetBlocked(c, key, on), t) && Healthy(SetBlocked(s, key, on))
  {
    var s', c' := SetBlocked(s, key, on), SetBlocked(c, key, on);
    forall o ensures SameOpt(BucketAt(s', o), BucketAt(c', o), t)
                  && (BucketAt(s', o).Some? ==> BucketHealthy(BucketAt(s', o).value)) {
      SetBlockedAt(s, key, on, o);
      SetBlockedAt(c, key, on, o);
      assert SameOpt(BucketAt(s, o), BucketAt(c, o), t);
      if BucketAt(s, o).Some? {
        assert BucketHealthy(BucketAt(s, o).value);
        SameBlocked(BucketAt(s, o).value, BucketAt(c, o).value, t, on);
      }
    }
  }

  lemma SimReinstall(s: StoreState, c: StoreState, t: int, o: Owner, cfg: Config)
    requires Sim(s, c, t) && Healthy(s) && Placed(s, o) && Sane(cfg)
    ensures Sim(Install(Unschedule(s, o), o, cfg, t), Install(Unschedule(c, o), o, cfg, t), t)
    ensures Healthy(Install(Unschedule(s, o), o, cfg, t))
  {
    SimPlan(s, c, t, Unschedule(s, o).plan, Unschedule(c, o).plan);
    HealthyFewer(s, Unschedule(s, o));
    SimInstall(Unschedule(s, o), Unschedule(c, o), t, o, cfg);
    HealthyInstall(Unschedule(s, o), o, cfg, t);
  }

  lemma SimDropGlobal(s: StoreState, c: StoreState, t: int)
    requires Sim(s, c, t) && Healthy(s)
    ensures Sim(DisableGlobal(s), DisableGlobal(c), t) && Healthy(DisableGlobal(s))
  {
    forall o ensures SameOpt(BucketAt(DisableGlobal(s), o), BucketAt(DisableGlobal(c), o), t) {
      assert SameOpt(BucketAt(s, o), BucketAt(c, o), t);
    }
    HealthyFewer(s, DisableGlobal(s));
  }

  lemma SimSetIp(s: StoreState, c: StoreState, t: int, enabled: bool, cfg: Config)
    requires Sim(s, c, t) && Healthy(s) && Sane(cfg)
    ensures Sim(SetIPLimit(s, enabled, cfg), SetIPLimit(c, enabled, cfg), t) && Healthy(SetIPLimit(s, enabled, cfg))
  {
    var s', c' := SetIPLimit(s, enabled, cfg), SetIPLimit(c, enabled, cfg);
    forall o ensures SameOpt(BucketAt(s', o), BucketAt(c', o), t) {
      assert SameOpt(BucketAt(s, o), BucketAt(c, o), t);
    }
    forall o | BucketAt(s', o).Some? ensures BucketHealthy(BucketAt(s', o).value) {
      assert BucketAt(s', o) == BucketAt(s, o);
    }
  }

  // ---- a pass changes nothing visible ------------------------------------------------------------------------------

  lemma SimAnswer(s: StoreState, c: StoreState, id: string, t: int)
    requires Sim(s, c, t) && Healthy(s)
    ensures Sim(AnswerDue(s, id, t), c, t) && Healthy(AnswerDue(s, id, t))
  {
    if OnDue(s, id, t).1.Some? {
      var o := Named(OwnerOf(id).value);
      var b := BucketAt(s, o).value;
      assert BucketHealthy(b);
      assert SameOpt(BucketAt(s, o), BucketAt(c, o), t);
      RefillTwice(b, t, t);
      SimPutOne(s, c, t, o, Refill(b, t));
      SimPlan(Put(s, o, Refill(b, t)), c, t, AnswerDue(s, id, t).plan, c.plan);
      HealthyPut(s, o, Refill(b, t));
      HealthyFewer(Put(s, o, Refill(b, t)), AnswerDue(s, id, t));
    } else {
      SimPlan(s, c, t, AnswerDue(s, id, t).plan, c.plan);
      HealthyFewer(s, AnswerDue(s, id, t));
    }
  }

  lemma SimPutOne(s: StoreState, c: StoreState, t: int, o: Owner, b: BucketState)
    requires Sim(s, c, t) && BucketAt(s, o).Some? && R.SameAt(b, BucketAt(s, o).value, t)
    ensures Sim(Put(s, o, b), c, t)
  {
    forall p ensures SameOpt(BucketAt(Put(s, o, b), p), BucketAt(c, p), t) {
      PutAt(s, o, b, p);
      assert SameOpt(BucketAt(s, p), BucketAt(c, p), t);
    }
  }

  lemma {:induction false} SimAnswerAll(s: StoreState, c: StoreState, due: seq<string>, t: int)
    requires Sim(s, c, t) && Healthy(s)
    ensures Sim(AnswerAll(s, due, t), c, t) && Healthy(AnswerAll(s, due, t))
  {
    if due != [] {
      SimAnswerAll(s, c, due[..|due| - 1], t);
      SimAnswer(AnswerAll(s, due[..|due| - 1], t), c, due[|due| - 1], t);
    }
  }

  lemma SimPass(s: StoreState, c: StoreState, due: seq<string>, t: int)
    requires Sim(s, c, t) && Healthy(s)
    ensures Sim(ProcessDue(s, due, t), c, t) && Healthy(ProcessDue(s, due, t))
  {
    var s0 := s.(plan := P.Without(s.plan, due));
    SimPlan(s, c, t, s0.plan, c.plan);
    HealthyFewer(s, s0);
    SimAnswerAll(s0, c, due, t);
  }

  // ---- runs -----------------------------------------------------------------------------------------------

  /** The clock reading an operation carries. */
  function TimeOf(op: Op): Option<int> {
    match op
    case Ask(r) => Some(r.now)
    case Configure(_, _, _, now, _) => Some(now)
    case BlockClient(_, now, _) => Some(now)
    case SetGlobal(_, now) => Some(now)
    case Pass(_, now) => Some(now)
    case _ => None
  }

  function Later(t: int, op: Op): int {
    if TimeOf(op).Some? then TimeOf(op).value else t
  }

  predicate Ordered(t: int, ops: seq<Op>)
    decreases ops
  {
    ops == [] || (t <= Later(t, ops[0]) && Ordered(Later(t, ops[0]), ops[1..]))
  }

  predicate SaneOp(op: Op) {
    match op
    case Configure(_, _, cfg, _, _) => Sane(cfg)
    case SetGlobal(cfg, _) => Sane(cfg)
    case SetIp(_, cfg) => Sane(cfg)
    case _ => true
  }

  lemma SimStep(s: StoreState, c: StoreState, op: Op, t: int)
    requires Sim(s, c, t) && Healthy(s) && SaneOp(op) && t == Later(t, op) && !op.Pass?
    ensures Sim(Step(s, op), Step(c, op), t) && Healthy(Step(s, op))
    ensures Result(s, op) == Result(c, op)
  {
    match op {
      case Ask(r) => SimRequest(s, c, r);
      case Configure(key, tier, cfg, now, victim) =>
        SimCreate(s, c, t, key, victim);
        SimReinstall(GetOrCreateClient(s, key, t, victim), GetOrCreateClient(c, key, t, victim), t,
                     Tier(key, C.TierName(tier)), cfg);
      case BlockClient(key, now, victim) =>
        SimCreate(s, c, t, key, victim);
        SimSetBlocked(GetOrCreateClient(s, key, t, victim), GetOrCreateClient(c, key, t, victim), t, key, true);
      case UnblockClient(key) => SimSetBlocked(s, c, t, key, false);
      case SetGlobal(cfg, now) => SimReinstall(s, c, t, Global, cfg);
      case NoGlobal => SimDropGlobal(s, c, t);
      case SetIp(enabled, cfg) => SimSetIp(s, c, t, enabled, cfg);
    }
  }

  /** What a caller sees of an operation: the answer to a request, and who is tracked afterwards. */
  datatype Shown = Shown(result: Option<AllowResult>, clients: set<string>, addresses: set<string>, evictions: int)

  function Result(s: StoreState, op: Op): Option<AllowResult> {
    if op.Ask? then Some(AllowRequest(s, op.r).1) else None
  }

  function Shows(s: StoreState, op: Op): seq<Shown> {
    if op.Pass? then []
    else [Shown(Result(s, op), Step(s, op).clients.Keys, Step(s, op).ipBuckets.Keys, Step(s, op).evictions)]
  }

  function Outcomes(s: StoreState, ops: seq<Op>): seq<Shown>
    decreases ops
  {
    if ops == [] then [] else Shows(s, ops[0]) + Outcomes(Step(s, ops[0]), ops[1..])
  }

  function WithoutPasses(ops: seq<Op>): seq<Op> {
    if ops == [] then [] else (if ops[0].Pass? then [] else [ops[0]]) + WithoutPasses(ops[1..])
  }

  /** Every eviction victim and every drain in the run is one the code could take. */
  ghost predicate PossibleRun(s: StoreState, ops: seq<Op>)
    decreases ops
  {
    ops == [] || (Possible(s, ops[0]) && PossibleRun(Step(s, ops[0]), ops[1..]))
  }

  lemma SimPossible(s: StoreState, c: StoreState, op: Op, t: int)
    requires Sim(s, c, t) && Healthy(s) && !op.Pass?
    ensures Possible(s, op) <==> Possible(c, op)
  {
    assert |s.clients| == |s.clients.Keys| && |c.clients| == |c.clients.Keys|;
    assert |s.ipBuckets| == |s.ipBuckets.Keys| && |c.ipBuckets| == |c.ipBuckets.Keys|;
    forall k | k in s.clients ensures C.LastAccess(s.clients[k]) == C.LastAccess(c.clients[k]) {
      SimBlocked(s, c, t, k);
    }
    forall ip | ip in s.ipBuckets ensures s.ipBuckets[ip].lastAccess == c.ipBuckets[ip].lastAccess {
      assert SameOpt(BucketAt(s, Ip(ip)), BucketAt(c, Ip(ip)), t);
      assert BucketHealthy(BucketAt(s, Ip(ip)).value);
      R.SameLater(s.ipBuckets[ip], c.ipBuckets[ip], t, t);
    }
  }

  /** Inserting passes anywhere in a time-ordered run changes no answer, no set of tracked clients or
      addresses and no eviction, given the same choices among ties; and those choices stay possible. */
  lemma {:induction false} PassesInvisible(s: StoreState, c: StoreState, ops: seq<Op>, t: int)
    requires Sim(s, c, t) && Healthy(s) && Ordered(t, ops)
    requires forall i :: 0 <= i < |ops| ==> SaneOp(ops[i])
    ensures Outcomes(s, ops) == Outcomes(c, WithoutPasses(ops))
    ensures PossibleRun(s, ops) ==> PossibleRun(c, WithoutPasses(ops))
    decreases ops
  {
    if ops != [] {
      var op, rest := ops[0], ops[1..];
      var t' := Later(t, op);
      SimLater(s, c, t, t');
      if op.Pass? {
        SimPass(s, c, op.due, t');
        assert WithoutPasses(ops) == WithoutPasses(rest);
        PassesInvisible(Step(s, op), c, rest, t');
      } else {
        SimStep(s, c, op, t');
        SimPossible(s, c, op, t');
        PassesInvisible(Step(s, op), Step(c, op), rest, t');
        assert WithoutPasses(ops) == [op] + WithoutPasses(rest);
        assert WithoutPasses(ops)[1..] == WithoutPasses(rest);
      }
    }
  }

  /** The same for a whole life of the store. */
  lemma PassesInvisibleFromStart(maxClients: int, tiers: map<string, Config>, ops: seq<Op>, t: int)
    requires Ordered(t, ops)
    requires forall tier :: tier in tiers ==> Sane(tiers[tier])
    requires forall i :: 0 <= i < |ops| ==> SaneOp(ops[i])
    ensures Outcomes(NewStore(maxClients, tiers), ops) == Outcomes(NewStore(maxClients, tiers), WithoutPasses(ops))
    ensures PossibleRun(NewStore(maxClients, tiers), ops) ==>
              PossibleRun(NewStore(maxClients, tiers), WithoutPasses(ops))
  {
    var s := NewStore(maxClients, tiers);
    assert forall o :: BucketAt(s, o).None?;
    PassesInvisible(s, s, ops, t);
  }
}
