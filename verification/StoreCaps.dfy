/** Which buckets a request debits, and what that bounds: every bucket's life inside the store is a life of
    that bucket on its own, so its burst bound caps what the whole store grants through it. */
module StoreCaps {
  import opened Arithmetic
  import opened Wrappers
  import opened BucketSpec
  import opened StoreIds
  import opened StoreSpec
  import opened StoreAgreement
  import C = ClientSpec
  import P = SchedulerSpec
  import O = StoreOptimisation
  import E = StoreEviction
  import R = BucketRuns

  // ---- the buckets a request consults ----------------------------------------------------------------

  /** The tier bucket meant to answer: the tier asked for when the client has it or defaults exist for it,
      else the client's default tier. */
  function Target(s: StoreState, r: Request): Owner {
    var asked := Tier(r.key, C.TierName(r.tier));
    if BucketAt(s, asked).Some? || C.TierName(r.tier) in s.tierDefaults then asked else Tier(r.key, C.DEFAULT_TIER)
  }

  /** The configuration a missing bucket is created with: for an address the limit last set, for a tier the one the
      store was given for it. */
  function Fresh(s: StoreState, o: Owner): Config {
    match o
    case Global => ZERO_CONFIG
    case Ip(_) => if s.ipConfig.Some? then s.ipConfig.value else Config(1000, 1000, SECOND, 0, None)
    case Tier(_, tier) => if tier in s.tierDefaults then s.tierDefaults[tier] else ZERO_CONFIG
  }

  /** The bucket at o as a call at now meets it: the one there, else a fresh one. */
  function Met(s: StoreState, o: Owner, now: int): BucketState {
    if BucketAt(s, o).Some? then BucketAt(s, o).value else BucketSpec.New(Fresh(s, o), now)
  }

  predicate GlobalGrants(s: StoreState, r: Request) {
    s.global.None? || BucketSpec.Allow(s.global.value, r.now).1.allowed
  }

  /** The request comes from an address while the address limit is on. */
  predicate Addressed(s: StoreState, r: Request) {
    s.ipEnabled && r.ip != ""
  }

  predicate IpGrants(s: StoreState, r: Request) {
    !Addressed(s, r) || BucketSpec.Allow(Met(s, Ip(r.ip), r.now), r.now).1.allowed
  }

  /** Some tier of the client is blocked. */
  predicate ClientBlocked(s: StoreState, key: string) {
    key in s.clients && exists t :: t in s.clients[key].buckets && s.clients[key].buckets[t].blocked
  }

  /** The request calls Allow on the bucket at p. */
  predicate Consults(s: StoreState, r: Request, p: Owner) {
    match p
    case Global => s.global.Some?
    case Ip(ip) => Addressed(s, r) && ip == r.ip && GlobalGrants(s, r)
    case Tier(_, _) => GlobalGrants(s, r) && IpGrants(s, r) && !ClientBlocked(s, r.key) && p == Target(s, r)
  }

  /** s' has the bucket s has at p, or has dropped it. */
  predicate Kept(s: StoreState, s': StoreState, p: Owner) {
    BucketAt(s', p) == BucketAt(s, p) || BucketAt(s', p).None?
  }

  // ---- step by step ------------------------------------------------------------------------------------

  lemma AllowAtAt(s: StoreState, o: Owner, now: int, p: Owner)
    ensures BucketAt(AllowAt(s, o, now).0, p)
         == if p == o && BucketAt(s, o).Some? then Some(BucketSpec.Allow(BucketAt(s, o).value, now).0)
            else BucketAt(s, p)
    ensures AllowAt(s, o, now).1
         == if BucketAt(s, o).Some? then BucketSpec.Allow(BucketAt(s, o).value, now).1 else Reply(true, 0)
  {
    if BucketAt(s, o).Some? {
      O.PutAt(s, o, BucketSpec.Allow(BucketAt(s, o).value, now).0, p);
    }
  }

  lemma InstallAt(s: StoreState, o: Owner, cfg: Config, now: int, p: Owner)
    requires O.Placed(s, o)
    ensures BucketAt(Install(s, o, cfg, now), p) == if p == o then Some(BucketSpec.New(cfg, now)) else BucketAt(s, p)
  {
    O.PutAt(s, o, BucketSpec.New(cfg, now), p);
  }

  lemma CreateIpAt(s: StoreState, ip: string, now: int, victim: string, p: Owner)
    ensures BucketAt(GetOrCreateIp(s, ip, now, victim), Ip(ip)) == Some(Met(s, Ip(ip), now))
    ensures p != Ip(ip) ==> Kept(s, GetOrCreateIp(s, ip, now, victim), p)
    ensures !p.Ip? ==> BucketAt(GetOrCreateIp(s, ip, now, victim), p) == BucketAt(s, p)
  {
    if ip !in s.ipBuckets {
      var s1 := O.IpRoom(s, victim);
      O.IpRoomAt(s, victim, p);
      InstallAt(s1, Ip(ip), IpConfig(s), now, p);
      InstallAt(s1, Ip(ip), IpConfig(s), now, Ip(ip));
    }
  }

  lemma GlobalGateAt(s: StoreState, r: Request, p: Owner)
    ensures GlobalGate(s, r).1.allowed <==> GlobalGrants(s, r)
    ensures !GlobalGrants(s, r) ==> GlobalGate(s, r).1 == BucketSpec.Allow(s.global.value, r.now).1
    ensures BucketAt(GlobalGate(s, r).0, p)
         == if p == Global && s.global.Some? then Some(BucketSpec.Allow(s.global.value, r.now).0) else BucketAt(s, p)
    ensures GlobalGate(s, r).0.ipEnabled == s.ipEnabled && GlobalGate(s, r).0.ipConfig == s.ipConfig
    ensures GlobalGate(s, r).0.ipBuckets == s.ipBuckets
  {
    AllowAtAt(s, Global, r.now, p);
  }

  lemma IpGateAt(s: StoreState, r: Request, p: Owner)
    ensures IpGate(s, r).1.allowed <==> IpGrants(s, r)
    ensures !IpGrants(s, r) ==> IpGate(s, r).1 == BucketSpec.Allow(Met(s, Ip(r.ip), r.now), r.now).1
    ensures p == Ip(r.ip) && Addressed(s, r) ==>
              BucketAt(IpGate(s, r).0, p) == Some(BucketSpec.Allow(Met(s, p, r.now), r.now).0)
    ensures p != Ip(r.ip) || !Addressed(s, r) ==> Kept(s, IpGate(s, r).0, p)
    ensures !p.Ip? ==> BucketAt(IpGate(s, r).0, p) == BucketAt(s, p)
  {
    if Addressed(s, r) {
      CreateIpAt(s, r.ip, r.now, r.ipVictim, p);
      AllowAtAt(GetOrCreateIp(s, r.ip, r.now, r.ipVictim), Ip(r.ip), r.now, p);
    }
  }

  lemma RoomAt(s: StoreState, victim: string, p: Owner)
    ensures Kept(s, O.Room(s, victim), p)
    ensures !p.Tier? ==> BucketAt(O.Room(s, victim), p) == BucketAt(s, p)
  {
    O.EvictAt(s, victim, p);
  }

  /** What creating the client leaves at p. */
  lemma CreateAt(s: StoreState, key: string, now: int, victim: string, p: Owner)
    ensures var s' := GetOrCreateClient(s, key, now, victim);
      && key in s'.clients && s'.tierDefaults == s.tierDefaults
      && (p.Tier? && p.key == key && key in s.clients ==> s' == s)
      && (key !in s.clients && p == Tier(key, C.DEFAULT_TIER) ==> BucketAt(s', p) == Some(Met(s, p, now)))
      && (key in s.clients || p != Tier(key, C.DEFAULT_TIER) ==> Kept(s, s', p))
      && (!p.Tier? ==> BucketAt(s', p) == BucketAt(s, p))
  {
    if key !in s.clients {
      O.CreateIs(s, key, now, victim);
      RoomAt(s, victim, p);
      O.WithClientAt(O.Room(s, victim), key, p);
      InstallAt(WithClient(O.Room(s, victim), key), Tier(key, C.DEFAULT_TIER), DefaultConfig(s), now, p);
    }
  }

  lemma TierAt(s: StoreState, r: Request, p: Owner)
    requires r.key in s.clients && ClientOK(r.key, s.clients[r.key])
    ensures var s' := EnsureTier(s, r.key, r.tier, r.now);
      && BucketAt(s', p) == (if p == Target(s, r) then Some(Met(s, p, r.now)) else BucketAt(s, p))
      && Serving(s', r) == Target(s, r)
  {
    if EnsureTier(s, r.key, r.tier, r.now) != s {
      InstallAt(s, Tier(r.key, r.tier), s.tierDefaults[r.tier], r.now, p);
      InstallAt(s, Tier(r.key, r.tier), s.tierDefaults[r.tier], r.now, Tier(r.key, C.TierName(r.tier)));
    }
  }

  /** What the client's decision is made of, once its tier is in place. */
  lemma ServeAt(s: StoreState, r: Request, p: Owner)
    requires BucketAt(s, Serving(s, r)).Some?
    ensures var o := Serving(s, r); var b := BucketAt(s, o).value; var (c, reply) := BucketSpec.Allow(b, r.now);
      && BucketAt(Serve(s, r).0, p) == (if p == o then Some(c) else BucketAt(s, p))
      && Serve(s, r).1 == (if reply.allowed then AllowResult(true, c.tokens, 0, Ok)
                           else AllowResult(false, 0, reply.retryAfter, ClientLimit))
  {
    AllowAtAt(s, Serving(s, r), r.now, p);
    AllowAtAt(s, Serving(s, r), r.now, Serving(s, r));
    O.ServingStays(s, r);
  }

  /** Every client in the map has its default tier under its own key. */
  predicate ClientFits(s: StoreState, key: string) {
    key in s.clients ==> ClientOK(key, s.clients[key])
  }

  lemma NewClientOK(s: StoreState, key: string, now: int, victim: string)
    requires Unambiguous(key) && key != "" && ClientFits(s, key)
    ensures var s' := GetOrCreateClient(s, key, now, victim);
      && key in s'.clients && ClientOK(key, s'.clients[key])
      && (C.IsBlocked(s'.clients[key]) <==> ClientBlocked(s, key))
  {
    if key !in s.clients {
      O.CreateIs(s, key, now, victim);
    }
  }

  /** Creating the client does not change which bucket answers, nor what it is met with. */
  lemma TargetAfterCreate(s: StoreState, r: Request)
    requires ClientFits(s, r.key)
    ensures var s' := GetOrCreateClient(s, r.key, r.now, r.victim);
            Target(s', r) == Target(s, r) && Met(s', Target(s, r), r.now) == Met(s, Target(s, r), r.now)
  {
    CreateAt(s, r.key, r.now, r.victim, Tier(r.key, C.TierName(r.tier)));
    CreateAt(s, r.key, r.now, r.victim, Tier(r.key, C.DEFAULT_TIER));
  }

  /** The client's gate: who answers, what is left at p, and what is said. */
  lemma ClientGateAt(s: StoreState, r: Request, p: Owner)
    requires Unambiguous(r.key) && r.key != "" && ClientFits(s, r.key)
    ensures var (s', result) := ClientGate(s, r); var o := Target(s, r);
      var (c, reply) := BucketSpec.Allow(Met(s, o, r.now), r.now);
      && (!ClientBlocked(s, r.key) ==>
            && (p == o ==> BucketAt(s', p) == Some(c))
            && result == (if reply.allowed then AllowResult(true, c.tokens, 0, Ok)
                          else AllowResult(false, 0, reply.retryAfter, ClientLimit)))
      && (ClientBlocked(s, r.key) ==> s' == s && result == AllowResult(false, 0, SECOND, Blocked))
      && (p != o && (r.key in s.clients || p != Tier(r.key, C.DEFAULT_TIER)) ==> Kept(s, s', p))
      && (p != o && r.key !in s.clients && p == Tier(r.key, C.DEFAULT_TIER) ==>
            BucketAt(s', p) == Some(Met(s, p, r.now)))
      && (!p.Tier? ==> BucketAt(s', p) == BucketAt(s, p))
  {
    var s1 := GetOrCreateClient(s, r.key, r.now, r.victim);
    NewClientOK(s, r.key, r.now, r.victim);
    CreateAt(s, r.key, r.now, r.victim, p);
    if !ClientBlocked(s, r.key) {
      TargetAfterCreate(s, r);
      TierAt(s1, r, p);
      TierAt(s1, r, Target(s, r));
      ServeAt(EnsureTier(s1, r.key, r.tier, r.now), r, p);
    }
  }

  lemma AtClientAt(s: StoreState, r: Request, p: Owner)
    ensures E.Reaches(s, r) <==> GlobalGrants(s, r) && IpGrants(s, r)
    ensures BucketAt(E.AtClient(s, r), Global) == BucketAt(GlobalGate(s, r).0, Global)
    ensures p.Tier? ==> BucketAt(E.AtClient(s, r), p) == BucketAt(s, p)
    ensures p == Ip(r.ip) && Addressed(s, r) ==>
              BucketAt(E.AtClient(s, r), p) == Some(BucketSpec.Allow(Met(s, p, r.now), r.now).0)
    ensures p.Ip? && (p != Ip(r.ip) || !Addressed(s, r)) ==> Kept(s, E.AtClient(s, r), p)
  {
    GlobalGateAt(s, r, p);
    GlobalGateAt(s, r, Ip(r.ip));
    IpGateAt(GlobalGate(s, r).0, r, p);
    IpGateAt(GlobalGate(s, r).0, r, Global);
  }

  lemma TargetAtClient(s: StoreState, r: Request)
    ensures Target(E.AtClient(s, r), r) == Target(s, r)
    ensures Met(E.AtClient(s, r), Target(s, r), r.now) == Met(s, Target(s, r), r.now)
    ensures ClientBlocked(E.AtClient(s, r), r.key) == ClientBlocked(s, r.key)
  {
    hide StoreSpec.IpGate;
    hide StoreSpec.GlobalGate;
    E.AtClientSame(s, r);
    E.GatesLeaveClients(s, r);
    E.GatesLeaveClients(GlobalGate(s, r).0, r);
  }

  // ---- the decision and its debits -----------------------------------------------------------------------

  /** A request is allowed exactly when every bucket it is gated by would grant it and its client is not
      blocked; the balance reported is then what the answering bucket has left. A request that the outer gates let
      through is refused as blocked for a second, or with the answering bucket's own delay. */
  lemma AllowedExactlyWhen(s: StoreState, r: Request)
    requires Unambiguous(r.key) && r.key != "" && ClientFits(s, r.key)
    ensures var (c, reply) := BucketSpec.Allow(Met(s, Target(s, r), r.now), r.now);
      && (AllowRequest(s, r).1.allowed
          <==> GlobalGrants(s, r) && IpGrants(s, r) && !ClientBlocked(s, r.key) && reply.allowed)
      && (AllowRequest(s, r).1.allowed ==> AllowRequest(s, r).1 == AllowResult(true, c.tokens, 0, Ok))
      && (GlobalGrants(s, r) && IpGrants(s, r) && !AllowRequest(s, r).1.allowed ==>
            AllowRequest(s, r).1 == if ClientBlocked(s, r.key) then AllowResult(false, 0, SECOND, Blocked)
                                    else AllowResult(false, 0, reply.retryAfter, ClientLimit))
  {
    var a := E.AtClient(s, r);
    E.AtClientSame(s, r);
    AtClientAt(s, r, Target(s, r));
    if E.Reaches(s, r) {
      TargetAtClient(s, r);
      ClientGateAt(a, r, Target(s, r));
    }
  }

  /** The first outer gate that denies a request answers it, under its own name and with its bucket's own delay, and
      every client is as it was. */
  lemma OuterDenialLeavesClients(s: StoreState, r: Request)
    ensures AllowRequest(s, r).1.reason == GlobalLimit <==> !GlobalGrants(s, r)
    ensures AllowRequest(s, r).1.reason == IpLimit <==> GlobalGrants(s, r) && !IpGrants(s, r)
    ensures !GlobalGrants(s, r) ==>
              AllowRequest(s, r).1
              == AllowResult(false, 0, BucketSpec.Allow(s.global.value, r.now).1.retryAfter, GlobalLimit)
    ensures GlobalGrants(s, r) && !IpGrants(s, r) ==>
              AllowRequest(s, r).1
              == AllowResult(false, 0, BucketSpec.Allow(Met(s, Ip(r.ip), r.now), r.now).1.retryAfter, IpLimit)
    ensures !(GlobalGrants(s, r) && IpGrants(s, r)) ==> AllowRequest(s, r).0.clients == s.clients
  {
    E.AtClientSame(s, r);
    AtClientAt(s, r, Global);
    GlobalGateAt(s, r, Global);
    if GlobalGrants(s, r) {
      IpGateAt(GlobalGate(s, r).0, r, Global);
      hide GlobalGrants;
      hide IpGrants;
      ReasonAtClient(E.AtClient(s, r), r);
    }
  }

  lemma ReasonAtClient(s: StoreState, r: Request)
    ensures ClientGate(s, r).1.reason != GlobalLimit && ClientGate(s, r).1.reason != IpLimit
  {
    hide GetOrCreateClient;
    hide EnsureTier;
    hide AllowAt;
    hide Serving;
    hide BucketAt;
  }

  /** What a request leaves at p: its call's result where it calls Allow; elsewhere what was there, unless an
      eviction took it, and the default tier of a client created on the way. */
  lemma RequestAt(s: StoreState, r: Request, p: Owner)
    requires Unambiguous(r.key) && r.key != "" && ClientFits(s, r.key)
    ensures var s' := AllowRequest(s, r).0;
      && (Consults(s, r, p) ==> BucketAt(s', p) == Some(BucketSpec.Allow(Met(s, p, r.now), r.now).0))
      && (!Consults(s, r, p) ==>
            || Kept(s, s', p)
            || (p == Tier(r.key, C.DEFAULT_TIER) && r.key !in s.clients && BucketAt(s', p) == Some(Met(s, p, r.now))))
  {
    if E.Reaches(s, r) {
      ReachingRequestAt(s, r, p);
    } else {
      DeniedRequestAt(s, r, p);
    }
  }

  lemma ReachingRequestAt(s: StoreState, r: Request, p: Owner)
    requires Unambiguous(r.key) && r.key != "" && ClientFits(s, r.key) && E.Reaches(s, r)
    ensures var s' := AllowRequest(s, r).0;
      && (Consults(s, r, p) ==> BucketAt(s', p) == Some(BucketSpec.Allow(Met(s, p, r.now), r.now).0))
      && (!Consults(s, r, p) ==>
            || Kept(s, s', p)
            || (p == Tier(r.key, C.DEFAULT_TIER) && r.key !in s.clients && BucketAt(s', p) == Some(Met(s, p, r.now))))
  {
    E.AtClientSame(s, r);
    AtClientAt(s, r, p);
    TargetAtClient(s, r);
    ClientGateAt(E.AtClient(s, r), r, p);
    if p.Tier? {
      MetAtClient(s, r, p);
    } else {
      GlobalGateAt(s, r, p);
    }
  }

  lemma MetAtClient(s: StoreState, r: Request, p: Owner)
    requires p.Tier?
    ensures Met(E.AtClient(s, r), p, r.now) == Met(s, p, r.now)
  {
    AtClientAt(s, r, p);
    E.GatesLeaveClients(s, r);
    E.GatesLeaveClients(GlobalGate(s, r).0, r);
  }

  lemma DeniedRequestAt(s: StoreState, r: Request, p: Owner)
    requires !E.Reaches(s, r)
    ensures var s' := AllowRequest(s, r).0;
      && (Consults(s, r, p) ==> BucketAt(s', p) == Some(BucketSpec.Allow(Met(s, p, r.now), r.now).0))
      && (!Consults(s, r, p) ==> Kept(s, s', p))
  {
    GlobalGateAt(s, r, p);
    AtClientAt(s, r, p);
    if !GlobalGrants(s, r) {
      assert AllowRequest(s, r).0 == GlobalGate(s, r).0;
    } else {
      assert AllowRequest(s, r).0 == E.AtClient(s, r);
    }
  }

  /** An allowed request debits the tier bucket that answers and each active outer gate by that bucket's own
      cost, and no other bucket; another client still there is as it was. */
  lemma GrantDebits(s: StoreState, r: Request, p: Owner)
    requires Unambiguous(r.key) && r.key != "" && ClientFits(s, r.key) && AllowRequest(s, r).1.allowed
    ensures Consults(s, r, p)
       <==> (p == Global && s.global.Some?) || (p == Ip(r.ip) && Addressed(s, r)) || p == Target(s, r)
    ensures var s', b := AllowRequest(s, r).0, Met(s, p, r.now);
      && (Consults(s, r, p) ==>
            BucketAt(s', p).Some? && BucketAt(s', p).value.tokens == Refill(b, r.now).tokens - Cost(b.cfg))
      && (!Consults(s, r, p) && BucketAt(s, p).Some? ==> Kept(s, s', p))
      && (p.Tier? && p.key != r.key && p.key in s'.clients ==> BucketAt(s', p) == BucketAt(s, p))
  {
    AllowedExactlyWhen(s, r);
    RequestAt(s, r, p);
    CallDebitsOnGrantOnly(Met(s, p, r.now), r.now);
    OtherClientsKept(s, r, p);
  }

  lemma OtherClientsKept(s: StoreState, r: Request, p: Owner)
    requires Unambiguous(r.key) && r.key != "" && ClientFits(s, r.key)
    ensures p.Tier? && p.key != r.key && p.key in AllowRequest(s, r).0.clients ==>
              BucketAt(AllowRequest(s, r).0, p) == BucketAt(s, p)
  {
    E.AtClientSame(s, r);
    if p.Tier? && p.key != r.key && E.Reaches(s, r) {
      OtherClientKept(E.AtClient(s, r), r, p.key);
    }
  }

  lemma OtherClientKept(s: StoreState, r: Request, key: string)
    requires key != r.key && Unambiguous(r.key) && r.key != "" && ClientFits(s, r.key)
    ensures key in ClientGate(s, r).0.clients ==> key in s.clients && ClientGate(s, r).0.clients[key] == s.clients[key]
  {
    var s1 := GetOrCreateClient(s, r.key, r.now, r.victim);
    NewClientOK(s, r.key, r.now, r.victim);
    CreateKeepsOther(s, r, key);
    ServeKeepsOther(EnsureTier(s1, r.key, r.tier, r.now), r, key);
  }

  lemma CreateKeepsOther(s: StoreState, r: Request, key: string)
    requires key != r.key
    ensures var s1 := GetOrCreateClient(s, r.key, r.now, r.victim);
      && (key in s1.clients ==> key in s.clients && s1.clients[key] == s.clients[key])
      && EnsureTier(s1, r.key, r.tier, r.now).clients.Keys == s1.clients.Keys
      && (key in s1.clients ==> EnsureTier(s1, r.key, r.tier, r.now).clients[key] == s1.clients[key])
  {
    if r.key !in s.clients {
      O.CreateIs(s, r.key, r.now, r.victim);
    }
    E.TierKeepsMembers(GetOrCreateClient(s, r.key, r.now, r.victim), r);
  }

  lemma ServeKeepsOther(s: StoreState, r: Request, key: string)
    requires key != r.key
    ensures Serve(s, r).0.clients.Keys == s.clients.Keys
    ensures key in s.clients ==> Serve(s, r).0.clients[key] == s.clients[key]
  {
    E.ServeKeepsMembers(s, r);
  }

  // ---- a bucket's life inside the store ---------------------------------------------------------------------

  /** What an operation does to the bucket at p, as an event of that bucket's own life. */
  function EventsAt(s: StoreState, op: Op, p: Owner, t: int): seq<R.Event> {
    match op
    case Ask(r) => if Consults(s, r, p) then [R.Event(R.Call, r.now)] else []
    case Pass(due, now) => if IdOf(p) in due then [R.Event(R.Scheduled, now)] else []
    case BlockClient(key, now, _) => if p.Tier? && p.key == key then [R.Event(R.Block, now)] else []
    case UnblockClient(key) => if p.Tier? && p.key == key then [R.Event(R.Unblock, t)] else []
    case _ => []
  }

  /** The operation drops the bucket at p or puts a new one in its place. */
  predicate Ends(s: StoreState, op: Op, p: Owner) {
    || BucketAt(Step(s, op), p).None?
    || (op.Configure? && p == Tier(op.key, C.TierName(op.tier)))
    || (op.SetGlobal? && p == Global)
  }

  /** The events a request makes. */
  lemma AskLives(s: StoreState, r: Request, p: Owner)
    requires Unambiguous(r.key) && r.key != "" && ClientFits(s, r.key)
    requires BucketAt(s, p).Some? && BucketAt(AllowRequest(s, r).0, p).Some?
    ensures BucketAt(AllowRequest(s, r).0, p) == Some(R.Final(BucketAt(s, p).value, EventsAt(s, Ask(r), p, r.now)))
  {
    RequestAt(s, r, p);
    var b := BucketAt(s, p).value;
    var e := R.Event(R.Call, r.now);
    assert R.Final(b, [e]) == R.Step(b, e);
  }

  lemma Round(s: StoreState, p: Owner)
    requires Shaped(s) && BucketAt(s, p).Some?
    ensures OwnerOf(IdOf(p)) == Some(p)
  {
    DispatchRoundTrip(p);
  }

  lemma {:induction false} AnswerAllAt(s: StoreState, due: seq<string>, now: int, p: Owner)
    requires Shaped(s) && AllLive(s, due) && BucketAt(s, p).Some? && Sane(BucketAt(s, p).value.cfg)
    ensures Shaped(AnswerAll(s, due, now))
    ensures forall k :: Live(AnswerAll(s, due, now), k) <==> Live(s, k)
    ensures BucketAt(AnswerAll(s, due, now), p)
         == Some(if IdOf(p) in due then Refill(BucketAt(s, p).value, now) else BucketAt(s, p).value)
  {
    if due != [] {
      var front, last := due[..|due| - 1], due[|due| - 1];
      assert due == front + [last];
      assert AllLive(s, front);
      AnswerAllAt(s, front, now, p);
      AnswerOneAt(AnswerAll(s, front, now), last, now, p);
      RefillTwice(BucketAt(s, p).value, now, now);
    }
  }

  lemma AnswerOneAt(s: StoreState, id: string, now: int, p: Owner)
    requires Shaped(s) && Live(s, id) && BucketAt(s, p).Some?
    ensures Shaped(AnswerDue(s, id, now))
    ensures forall k :: Live(AnswerDue(s, id, now), k) <==> Live(s, k)
    ensures BucketAt(AnswerDue(s, id, now), p)
         == Some(if id == IdOf(p) then Refill(BucketAt(s, p).value, now) else BucketAt(s, p).value)
  {
    AnswerDueIs(s, id, now);
    var o := OwnerOf(id).value;
    Round(s, p);
    O.PutAt(s, o, Refill(BucketAt(s, o).value, now), p);
    PutShaped(s, o, Refill(BucketAt(s, o).value, now));
    PlanIsNoShape(Put(s, o, Refill(BucketAt(s, o).value, now)), AnswerDue(s, id, now));
    forall k ensures Live(AnswerDue(s, id, now), k) <==> Live(s, k) {
      AnswerLive(s, id, now, k);
    }
  }

  lemma AnswerLive(s: StoreState, id: string, now: int, k: string)
    requires Shaped(s) && Live(s, id)
    ensures Live(AnswerDue(s, id, now), k) <==> Live(s, k)
  {
    AnswerDueIs(s, id, now);
    var o := OwnerOf(id).value;
    PutFound(s, o, Refill(BucketAt(s, o).value, now), k);
    assert Found(AnswerDue(s, id, now), k) == Found(Put(s, o, Refill(BucketAt(s, o).value, now)), k);
  }

  lemma BlockAt(s: StoreState, key: string, now: int, victim: string, p: Owner)
    requires BucketAt(s, p).Some? && BucketAt(Block(s, key, now, victim), p).Some?
    ensures BucketAt(Block(s, key, now, victim), p)
         == Some(R.Final(BucketAt(s, p).value, EventsAt(s, BlockClient(key, now, victim), p, now)))
  {
    var b, e := BucketAt(s, p).value, R.Event(R.Block, now);
    CreateAt(s, key, now, victim, p);
    O.SetBlockedAt(GetOrCreateClient(s, key, now, victim), key, true, p);
    assert R.Final(b, [e]) == R.Step(b, e);
  }

  lemma UnblockAt(s: StoreState, key: string, t: int, p: Owner)
    requires BucketAt(s, p).Some?
    ensures BucketAt(Unblock(s, key), p) == Some(R.Final(BucketAt(s, p).value, EventsAt(s, UnblockClient(key), p, t)))
  {
    var b, e := BucketAt(s, p).value, R.Event(R.Unblock, t);
    O.SetBlockedAt(s, key, false, p);
    assert R.Final(b, [e]) == R.Step(b, e);
  }

  lemma PassAt(s: StoreState, due: seq<string>, now: int, t: int, p: Owner)
    requires Shaped(s) && Agrees(s) && P.Drains(s.plan, now, due)
    requires BucketAt(s, p).Some? && Sane(BucketAt(s, p).value.cfg)
    ensures BucketAt(ProcessDue(s, due, now), p)
         == Some(R.Final(BucketAt(s, p).value, EventsAt(s, Pass(due, now), p, t)))
  {
    var b, e := BucketAt(s, p).value, R.Event(R.Scheduled, now);
    var s0 := s.(plan := P.Without(s.plan, due));
    DrainLeavesMidway(s, due, now);
    assert AllLive(s0, due) by {
      forall i | 0 <= i < |due| ensures Live(s0, due[i]) {
        assert Found(s0, due[i]) == Found(s, due[i]);
      }
    }
    AnswerAllAt(s0, due, now, p);
    assert R.Final(b, [e]) == R.Step(b, e);
  }

  lemma ConfigureAt(s: StoreState, op: Op, p: Owner)
    requires op.Configure? && BucketAt(s, p).Some? && !Ends(s, op, p)
    ensures BucketAt(Step(s, op), p) == BucketAt(s, p)
  {
    var o, s1 := Tier(op.key, C.TierName(op.tier)), GetOrCreateClient(s, op.key, op.now, op.victim);
    CreateAt(s, op.key, op.now, op.victim, p);
    InstallAt(Unschedule(s1, o), o, op.cfg, op.now, p);
  }

  lemma SetGlobalAt(s: StoreState, cfg: Config, now: int, p: Owner)
    ensures BucketAt(SetGlobalConfig(s, cfg, now), p)
         == if p == Global then Some(BucketSpec.New(cfg, now)) else BucketAt(s, p)
  {
    InstallAt(Unschedule(s, Global), Global, cfg, now, p);
  }

  /** One operation on the store is, for each bucket it does not replace or drop, that bucket's own events. */
  lemma StepIsOwnEvents(s: StoreState, op: Op, p: Owner, t: int)
    requires Shaped(s) && Agrees(s) && KeyOK(op) && PassOK(s, op) && t == O.Later(t, op)
    requires BucketAt(s, p).Some? && Sane(BucketAt(s, p).value.cfg) && !Ends(s, op, p)
    ensures BucketAt(Step(s, op), p) == Some(R.Final(BucketAt(s, p).value, EventsAt(s, op, p, t)))
  {
    match op {
      case Ask(r) => AskLives(s, r, p);
      case Configure(_, _, _, _, _) => ConfigureAt(s, op, p);
      case BlockClient(key, now, victim) => BlockAt(s, key, now, victim, p);
      case UnblockClient(key) => UnblockAt(s, key, t, p);
      case SetGlobal(cfg, now) => SetGlobalAt(s, cfg, now, p);
      case Pass(due, now) => PassAt(s, due, now, t, p);
      case _ =>
    }
  }

  // ---- administration ------------------------------------------------------------------------------------------

  /** A blocked client's request is denied, as blocked once the outer gates let it through, and changes no client. */
  lemma BlockedRequest(s: StoreState, r: Request)
    requires Unambiguous(r.key) && r.key != "" && ClientFits(s, r.key) && ClientBlocked(s, r.key)
    ensures !AllowRequest(s, r).1.allowed && AllowRequest(s, r).0.clients == s.clients
    ensures GlobalGrants(s, r) && IpGrants(s, r) ==> AllowRequest(s, r).1 == AllowResult(false, 0, SECOND, Blocked)
  {
    AllowedExactlyWhen(s, r);
    AtClientAt(s, r, Global);
    E.AtClientSame(s, r);
    if E.Reaches(s, r) {
      TargetAtClient(s, r);
      ClientGateAt(E.AtClient(s, r), r, Global);
    }
  }

  /** The operation evicts key's client. */
  predicate Evicts(s: StoreState, op: Op, key: string) {
    E.Creates(s, op).Some? && Full(s) && E.VictimOf(op) == key
  }

  /** What ends a block of key: lifting it, evicting the client, or replacing its last blocked tier. */
  predicate Lifts(s: StoreState, op: Op, key: string)
    requires key in s.clients
  {
    || op == UnblockClient(key)
    || Evicts(s, op, key)
    || (op.Configure? && op.key == key
        && forall t :: t in s.clients[key].buckets && s.clients[key].buckets[t].blocked ==> t == C.TierName(op.tier))
  }

  lemma EvictsExactlyWhen(s: StoreState, op: Op, key: string)
    requires key in s.clients && key != ""
    ensures key in Step(s, op).clients <==> !Evicts(s, op, key)
  {
    E.StepMembership(s, op);
    if E.Creates(s, op).Some? {
      E.CreatedIsTouched(s, op);
    }
  }

  lemma OtherCreateKeeps(s: StoreState, key: string, now: int, victim: string, k: string)
    requires k in s.clients && k in GetOrCreateClient(s, key, now, victim).clients
    ensures GetOrCreateClient(s, key, now, victim).clients[k] == s.clients[k]
  {
    if key !in s.clients {
      O.CreateIs(s, key, now, victim);
    }
  }

  lemma AskKeepsBlocked(s: StoreState, r: Request, key: string)
    requires Unambiguous(r.key) && r.key != "" && ClientFits(s, r.key) && ClientBlocked(s, key)
    requires key in AllowRequest(s, r).0.clients
    ensures AllowRequest(s, r).0.clients[key] == s.clients[key]
  {
    if r.key == key {
      BlockedRequest(s, r);
    } else {
      E.AtClientSame(s, r);
      if E.Reaches(s, r) {
        OtherClientKept(E.AtClient(s, r), r, key);
      }
    }
  }

  lemma ConfigureBlocked(s: StoreState, op: Op, key: string)
    requires op.Configure? && ClientBlocked(s, key) && key in Step(s, op).clients
    ensures ClientBlocked(Step(s, op), key)
       <==> op.key != key
            || exists t :: t in s.clients[key].buckets && s.clients[key].buckets[t].blocked && t != C.TierName(op.tier)
  {
    var s1 := GetOrCreateClient(s, op.key, op.now, op.victim);
    var o := Tier(op.key, C.TierName(op.tier));
    E.CreatedKey(s, op.key, op.now, op.victim);
    E.InstallMembers(Unschedule(s1, o), o, op.cfg, op.now);
    OtherCreateKeeps(s, op.key, op.now, op.victim, key);
    var m, m' := s.clients[key].buckets, Step(s, op).clients[key].buckets;
    if op.key == key {
      assert m' == m[C.TierName(op.tier) := BucketSpec.New(op.cfg, op.now)];
      assert forall t :: t in m' && m'[t].blocked <==> t in m && m[t].blocked && t != C.TierName(op.tier);
    }
  }

  lemma BlockOpBlocked(s: StoreState, op: Op, key: string)
    requires op.BlockClient? && ClientBlocked(s, key) && ClientFits(s, key) && key in Step(s, op).clients
    ensures ClientBlocked(Step(s, op), key)
  {
    var s1 := GetOrCreateClient(s, op.key, op.now, op.victim);
    OtherCreateKeeps(s, op.key, op.now, op.victim, key);
    if op.key == key {
      BlockedClient(s1, key);
    }
  }

  /** So blocking a client that has only its default tier and then reconfiguring that tier leaves it open. */
  lemma ReconfiguringLifts(s: StoreState, key: string, now: int, victim: string, cfg: Config, later: int)
    requires Unambiguous(key) && key != "" && key !in s.clients
    ensures var s' := Block(s, key, now, victim);
            ClientBlocked(s', key) && !ClientBlocked(UpdateClientConfig(s', key, "", cfg, later, ""), key)
  {
    var s' := Block(s, key, now, victim);
    var op := Configure(key, "", cfg, later, "");
    O.CreateIs(s, key, now, victim);
    NewClientOK(s, key, now, victim);
    BlockedClient(GetOrCreateClient(s, key, now, victim), key);
    E.StepMembership(s', op);
    ConfigureBlocked(s', op, key);
  }

  predicate SameBlocks(s: StoreState, s': StoreState, key: string) {
    && key in s.clients && key in s'.clients && s'.clients[key].buckets.Keys == s.clients[key].buckets.Keys
    && forall t :: t in s.clients[key].buckets ==>
         s'.clients[key].buckets[t].blocked == s.clients[key].buckets[t].blocked
  }

  lemma SameBlocked(s: StoreState, s': StoreState, key: string)
    requires SameBlocks(s, s', key)
    ensures ClientBlocked(s', key) <==> ClientBlocked(s, key)
  {
  }

  lemma PutSameBlocks(s: StoreState, o: Owner, b: BucketState, key: string)
    requires key in s.clients && BucketAt(s, o).Some? && b.blocked == BucketAt(s, o).value.blocked
    ensures SameBlocks(s, Put(s, o, b), key)
  {
  }

  lemma AnswerSameBlocks(s: StoreState, id: string, now: int, key: string)
    requires key in s.clients
    ensures SameBlocks(s, AnswerDue(s, id, now), key)
  {
    if OnDue(s, id, now).1.Some? {
      var o := Named(OwnerOf(id).value);
      var b := Refill(BucketAt(s, o).value, now);
      PutSameBlocks(s, o, b, key);
      hide BucketAt;
      hide Put;
      assert AnswerDue(s, id, now).clients == Put(s, o, b).clients;
    }
  }

  lemma {:induction false} PassSameBlocks(s: StoreState, due: seq<string>, now: int, key: string)
    requires key in s.clients
    ensures SameBlocks(s, AnswerAll(s, due, now), key)
  {
    if due != [] {
      PassSameBlocks(s, due[..|due| - 1], now, key);
      AnswerSameBlocks(AnswerAll(s, due[..|due| - 1], now), due[|due| - 1], now, key);
    }
  }

  /** A blocked client stays blocked exactly unless the operation lifts the block. */
  lemma BlockedExactlyUnless(s: StoreState, op: Op, key: string)
    requires Shaped(s) && KeyOK(op) && ClientBlocked(s, key)
    ensures ClientBlocked(Step(s, op), key) <==> !Lifts(s, op, key)
  {
    assert ClientOK(key, s.clients[key]);
    EvictsExactlyWhen(s, op, key);
    if key in Step(s, op).clients {
      match op {
        case Ask(r) => AskKeepsBlocked(s, r, key);
        case Configure(_, _, _, _, _) => ConfigureBlocked(s, op, key);
        case BlockClient(_, _, _) => BlockOpBlocked(s, op, key);
        case UnblockClient(k) =>
          if k == key { UnblockedClient(s, key); }
        case Pass(due, now) =>
          var s0 := s.(plan := P.Without(s.plan, due));
          PassSameBlocks(s0, due, now, key);
          SameBlocked(s0, Step(s, op), key);
        case _ =>
      }
    }
  }

  lemma UnblockedClient(s: StoreState, key: string)
    ensures !ClientBlocked(Unblock(s, key), key)
  {
  }

  /** No operation of the run lifts the block. */
  predicate NoneLifts(s: StoreState, ops: seq<Op>, key: string) {
    ops == []
    || (NoneLifts(s, ops[..|ops| - 1], key)
        && key in Final(s, ops[..|ops| - 1]).clients && !Lifts(Final(s, ops[..|ops| - 1]), ops[|ops| - 1], key))
  }

  /** The client is blocked at every point of the run. */
  predicate BlockedAllAlong(s: StoreState, ops: seq<Op>, key: string) {
    ClientBlocked(Final(s, ops), key) && (ops == [] || BlockedAllAlong(s, ops[..|ops| - 1], key))
  }

  lemma {:induction false} RunKeepsAgreement(s: StoreState, ops: seq<Op>)
    requires Agrees(s) && Shaped(s) && E.Run(s, ops)
    ensures Agrees(Final(s, ops)) && Shaped(Final(s, ops))
    decreases |ops|
  {
    if ops != [] {
      RunKeepsAgreement(s, ops[..|ops| - 1]);
      StepAgrees(Final(s, ops[..|ops| - 1]), ops[|ops| - 1]);
    }
  }

  /** A blocked client is blocked all along a run exactly when no operation of it lifts the block. */
  lemma {:induction false} BlockedAllAlongExactlyWhen(s: StoreState, ops: seq<Op>, key: string)
    requires Agrees(s) && Shaped(s) && E.Run(s, ops) && ClientBlocked(s, key)
    ensures BlockedAllAlong(s, ops, key) <==> NoneLifts(s, ops, key)
    decreases |ops|
  {
    if ops != [] {
      var front, op := ops[..|ops| - 1], ops[|ops| - 1];
      BlockedAllAlongExactlyWhen(s, front, key);
      RunKeepsAgreement(s, front);
      if BlockedAllAlong(s, front, key) {
        BlockedExactlyUnless(Final(s, front), op, key);
      }
    }
  }

  /** From a block on, through any run in which nothing lifts it, every request of the client is denied, as
      blocked once the outer gates let it through. */
  lemma BlockHolds(s: StoreState, key: string, now: int, victim: string, ops: seq<Op>, r: Request)
    requires Agrees(s) && Shaped(s) && Unambiguous(key) && key != "" && r.key == key
    requires var s' := Block(s, key, now, victim); E.Run(s', ops) && NoneLifts(s', ops, key)
    ensures var t := Final(Block(s, key, now, victim), ops);
      && ClientBlocked(t, key) && !AllowRequest(t, r).1.allowed
      && (GlobalGrants(t, r) && IpGrants(t, r) ==> AllowRequest(t, r).1 == AllowResult(false, 0, SECOND, Blocked))
  {
    var s' := Block(s, key, now, victim);
    StepAgrees(s, BlockClient(key, now, victim));
    NewClientOK(s, key, now, victim);
    BlockedClient(GetOrCreateClient(s, key, now, victim), key);
    BlockedAllAlongExactlyWhen(s', ops, key);
    RunKeepsAgreement(s', ops);
    BlockedRequest(Final(s', ops), r);
  }

  lemma BlockedClient(s: StoreState, key: string)
    requires key in s.clients && ClientOK(key, s.clients[key])
    ensures var s' := SetBlocked(s, key, true);
      && ClientOK(key, s'.clients[key]) && ClientBlocked(s', key)
  {
    assert C.DEFAULT_TIER in SetBlocked(s, key, true).clients[key].buckets;
    assert SetBlocked(s, key, true).clients[key].buckets[C.DEFAULT_TIER].blocked;
  }

  /** Reconfiguring a tier puts a fresh bucket in its place, unblocked and full, and replaces no other. */
  lemma ConfigureReplacesOne(s: StoreState, key: string, tier: string, cfg: Config, now: int, victim: string, p: Owner)
    ensures var o, s' := Tier(key, C.TierName(tier)), UpdateClientConfig(s, key, tier, cfg, now, victim);
      && BucketAt(s', o) == Some(BucketSpec.New(cfg, now))
      && (p != o && BucketAt(s, p).Some? ==> Kept(s, s', p))
  {
    var o, s1 := Tier(key, C.TierName(tier)), GetOrCreateClient(s, key, now, victim);
    CreateAt(s, key, now, victim, p);
    InstallAt(Unschedule(s1, o), o, cfg, now, p);
    InstallAt(Unschedule(s1, o), o, cfg, now, o);
  }

  // ---- runs -----------------------------------------------------------------------------------------------------

  /** No operation of the run drops or replaces the bucket at p. */
  predicate Lives(s: StoreState, ops: seq<Op>, p: Owner)
    decreases ops
  {
    BucketAt(s, p).Some? && (ops == [] || (!Ends(s, ops[0], p) && Lives(Step(s, ops[0]), ops[1..], p)))
  }

  /** The events of the bucket at p over a run. */
  function OwnLife(s: StoreState, ops: seq<Op>, p: Owner, t: int): seq<R.Event>
    decreases ops
  {
    if ops == [] then []
    else EventsAt(s, ops[0], p, O.Later(t, ops[0])) + OwnLife(Step(s, ops[0]), ops[1..], p, O.Later(t, ops[0]))
  }

  /** A request allowed through the bucket at p, at a time in [lo, hi]. */
  predicate AllowedHere(s: StoreState, op: Op, p: Owner, lo: int, hi: int) {
    op.Ask? && AllowRequest(s, op.r).1.allowed && Consults(s, op.r, p) && lo <= op.r.now <= hi
  }

  function AllowedThrough(s: StoreState, ops: seq<Op>, p: Owner, lo: int, hi: int): nat
    decreases ops
  {
    if ops == [] then 0
    else (if AllowedHere(s, ops[0], p, lo, hi) then 1 else 0) + AllowedThrough(Step(s, ops[0]), ops[1..], p, lo, hi)
  }

  lemma AllowedIsGranted(s: StoreState, op: Op, p: Owner, t: int, lo: int, hi: int)
    requires Shaped(s) && KeyOK(op) && BucketAt(s, p).Some? && AllowedHere(s, op, p, lo, hi)
    ensures |EventsAt(s, op, p, t)| == 1 && R.Grants(BucketAt(s, p).value, EventsAt(s, op, p, t)[0])
    ensures EventsAt(s, op, p, t)[0].at == op.r.now
  {
    AllowedExactlyWhen(s, op.r);
  }

  lemma OneEvent(b: BucketState, es: seq<R.Event>, rest: seq<R.Event>, t: int, lo: int, hi: int)
    requires |es| <= 1 && (es != [] ==> t <= es[0].at)
    ensures R.Final(b, es + rest) == R.Final(R.Final(b, es), rest)
    ensures R.GrantsWithin(b, es + rest, lo, hi)
         == (if es != [] && R.Grants(b, es[0]) && lo <= es[0].at <= hi then 1 else 0)
            + R.GrantsWithin(R.Final(b, es), rest, lo, hi)
    ensures R.Ordered(if es == [] then t else es[0].at, rest) ==> R.Ordered(t, es + rest)
  {
    if es == [] {
      assert es + rest == rest;
    } else {
      var e := es[0];
      assert es == [e] && (es + rest)[0] == e && (es + rest)[1..] == rest;
      assert R.Final(b, es) == R.Step(b, e);
      R.CountHead(if R.Grants(b, e) then [e.at] else [], R.GrantTimes(R.Step(b, e), rest), lo - 1, hi);
    }
  }

  lemma OrderedEarlier(es: seq<R.Event>, t: int, t': int)
    requires R.Ordered(t', es) && t <= t'
    ensures R.Ordered(t, es)
  {
  }

  lemma StepKeepsCfg(b: BucketState, es: seq<R.Event>)
    requires |es| <= 1
    ensures R.Final(b, es).cfg == b.cfg
    ensures R.InRange(b) ==> R.InRange(R.Final(b, es))
  {
    if es != [] {
      assert R.Final(b, es) == R.Step(b, es[0]);
      if R.InRange(b) { R.StepInRange(b, es[0]); }
    }
  }

  /** One operation, for the bucket at p: at most one event of its own, which is a grant if a request is allowed
      through it. */
  lemma OpIsOwnEvents(s: StoreState, op: Op, p: Owner, t: int, lo: int, hi: int)
    requires Shaped(s) && Agrees(s) && KeyOK(op) && PassOK(s, op) && t == O.Later(t, op)
    requires BucketAt(s, p).Some? && Sane(BucketAt(s, p).value.cfg) && !Ends(s, op, p)
    ensures var b, es := BucketAt(s, p).value, EventsAt(s, op, p, t);
      && |es| <= 1 && (es != [] ==> es[0].at == t)
      && BucketAt(Step(s, op), p) == Some(R.Final(b, es)) && R.Final(b, es).cfg == b.cfg
      && (AllowedHere(s, op, p, lo, hi) ==> es != [] && R.Grants(b, es[0]) && lo <= es[0].at <= hi)
    ensures Shaped(Step(s, op)) && Agrees(Step(s, op))
  {
    var b, es := BucketAt(s, p).value, EventsAt(s, op, p, t);
    StepIsOwnEvents(s, op, p, t);
    StepAgrees(s, op);
    hide Shaped;
    hide Agrees;
    StepKeepsCfg(b, es);
    if AllowedHere(s, op, p, lo, hi) {
      AllowedIsGranted(s, op, p, t, lo, hi);
    }
  }

  /** Over any run that neither drops nor replaces it, the bucket at p goes through exactly its own life:
      its calls, scheduled refills, blocks and unblocks, in time order. Every request the store allows through
      it is one of that life's grants. */
  lemma {:induction false} StoreLifeIsOwnLife(s: StoreState, ops: seq<Op>, p: Owner, t: int, lo: int, hi: int)
    requires Shaped(s) && Agrees(s) && E.Run(s, ops) && Lives(s, ops, p) && O.Ordered(t, ops)
    requires Sane(BucketAt(s, p).value.cfg)
    ensures R.Ordered(t, OwnLife(s, ops, p, t))
    ensures BucketAt(Final(s, ops), p) == Some(R.Final(BucketAt(s, p).value, OwnLife(s, ops, p, t)))
    ensures AllowedThrough(s, ops, p, lo, hi) <= R.GrantsWithin(BucketAt(s, p).value, OwnLife(s, ops, p, t), lo, hi)
    decreases ops
  {
    if ops != [] {
      var op, t', b := ops[0], O.Later(t, ops[0]), BucketAt(s, p).value;
      var es, later := EventsAt(s, op, p, t'), OwnLife(Step(s, op), ops[1..], p, t');
      E.RunHead(s, ops);
      FinalHead(s, ops);
      OpIsOwnEvents(s, op, p, t', lo, hi);
      hide EventsAt;
      hide BucketAt;
      hide AllowedHere;
      StoreLifeIsOwnLife(Step(s, op), ops[1..], p, t', lo, hi);
      OrderedEarlier(later, t, t');
      OneEvent(b, es, later, t, lo, hi);
    }
  }

  /** On every interval [lo, hi] of a bucket's life in the store, the requests allowed through it cost at most
      one full bucket plus what accrues in the interval. */
  lemma StoreBurstBound(s: StoreState, ops: seq<Op>, p: Owner, t: int, lo: int, hi: int)
    requires Shaped(s) && Agrees(s) && E.Run(s, ops) && Lives(s, ops, p) && O.Ordered(t, ops)
    requires R.InRange(BucketAt(s, p).value) && lo <= hi
    ensures var cfg := BucketAt(s, p).value.cfg;
            Cost(cfg) * AllowedThrough(s, ops, p, lo, hi) <= cfg.maxTokens + R.AccruedAtMost(cfg, hi - lo)
  {
    var b, es := BucketAt(s, p).value, OwnLife(s, ops, p, t);
    StoreLifeIsOwnLife(s, ops, p, t, lo, hi);
    R.BurstBound(b, es, t, lo, hi);
    MulMonotone(AllowedThrough(s, ops, p, lo, hi), R.GrantsWithin(b, es, lo, hi), Cost(b.cfg));
  }

  /** The same bucket with a window: no interval (a, a + W] of its life lets more than maxRequests through. */
  lemma StoreWindowBound(s: StoreState, ops: seq<Op>, p: Owner, cfg: Config, t: int, a: int)
    requires Shaped(s) && Agrees(s) && E.Run(s, ops) && Lives(s, ops, p) && O.Ordered(t, ops) && Sane(cfg)
    requires BucketAt(s, p) == Some(BucketSpec.New(cfg, t))
    requires cfg.slidingWindow.Some? && cfg.slidingWindow.value.enabled
    ensures var wc := cfg.slidingWindow.value;
            AllowedThrough(s, ops, p, a + 1, a + wc.duration) <= Max(wc.maxRequests, 0)
  {
    hide R.GrantsWithin;
    hide AllowedThrough;
    hide OwnLife;
    var wc := cfg.slidingWindow.value;
    StoreLifeIsOwnLife(s, ops, p, t, a + 1, a + wc.duration);
    R.WindowedBurstBound(cfg, OwnLife(s, ops, p, t), t, a);
  }

  // ---- every balance stays within its cap -------------------------------------------------------------------------

  predicate FitsAt(s: StoreState, p: Owner) {
    BucketAt(s, p).Some? ==> R.InRange(BucketAt(s, p).value)
  }

  ghost predicate AllFit(s: StoreState) {
    forall p :: FitsAt(s, p)
  }

  lemma FreshFits(cfg: Config, now: int)
    requires Sane(cfg)
    ensures R.InRange(BucketSpec.New(cfg, now))
  {
  }

  lemma MetFits(s: StoreState, p: Owner, now: int)
    requires FitsAt(s, p) && O.Healthy(s)
    ensures R.InRange(Met(s, p, now))
  {
    FreshFits(Fresh(s, p), now);
  }

  lemma AskFitsAt(s: StoreState, r: Request, p: Owner)
    requires Unambiguous(r.key) && r.key != "" && ClientFits(s, r.key) && FitsAt(s, p) && O.Healthy(s)
    ensures FitsAt(AllowRequest(s, r).0, p)
  {
    RequestAt(s, r, p);
    MetFits(s, p, r.now);
    BalanceWithinCap(Met(s, p, r.now), r.now);
  }

  lemma CreateFitsAt(s: StoreState, key: string, now: int, victim: string, p: Owner)
    requires FitsAt(s, p) && O.Healthy(s)
    ensures FitsAt(GetOrCreateClient(s, key, now, victim), p)
  {
    CreateAt(s, key, now, victim, p);
    MetFits(s, p, now);
  }

  lemma ConfigureFitsAt(s: StoreState, key: string, tier: string, cfg: Config, now: int, victim: string, p: Owner)
    requires FitsAt(s, p) && O.Healthy(s) && Sane(cfg)
    ensures FitsAt(UpdateClientConfig(s, key, tier, cfg, now, victim), p)
  {
    var o, s1 := Tier(key, C.TierName(tier)), GetOrCreateClient(s, key, now, victim);
    CreateFitsAt(s, key, now, victim, p);
    CreateAt(s, key, now, victim, p);
    InstallAt(Unschedule(s1, o), o, cfg, now, p);
    FreshFits(cfg, now);
  }

  lemma BlockFitsAt(s: StoreState, key: string, on: bool, p: Owner)
    requires FitsAt(s, p)
    ensures FitsAt(SetBlocked(s, key, on), p)
  {
    O.SetBlockedAt(s, key, on, p);
  }

  lemma {:induction false} AnswerFitsAt(s: StoreState, due: seq<string>, now: int)
    requires AllFit(s)
    ensures AllFit(AnswerAll(s, due, now))
  {
    if due != [] {
      var t, id := AnswerAll(s, due[..|due| - 1], now), due[|due| - 1];
      AnswerFitsAt(s, due[..|due| - 1], now);
      forall p ensures FitsAt(AnswerDue(t, id, now), p) {
        assert FitsAt(t, p);
        AnswerDueFitsAt(t, id, now, p);
      }
    }
  }

  lemma AnswerDueFitsAt(s: StoreState, id: string, now: int, p: Owner)
    requires FitsAt(s, p)
    ensures FitsAt(AnswerDue(s, id, now), p)
  {
    if OnDue(s, id, now).1.Some? {
      var o := Named(OwnerOf(id).value);
      var b := BucketAt(s, o).value;
      O.PutAt(s, o, Refill(b, now), p);
      if p == o { BalanceWithinCap(b, now); }
    }
  }

  lemma PassFits(s: StoreState, due: seq<string>, now: int)
    requires AllFit(s)
    ensures AllFit(ProcessDue(s, due, now))
  {
    var s0 := s.(plan := P.Without(s.plan, due));
    forall p ensures FitsAt(s0, p) {
      assert FitsAt(s, p);
    }
    AnswerFitsAt(s0, due, now);
  }

  lemma StepFitsAt(s: StoreState, op: Op, p: Owner)
    requires KeyOK(op) && O.SaneOp(op) && O.Healthy(s) && Shaped(s) && FitsAt(s, p) && !op.Pass?
    ensures FitsAt(Step(s, op), p)
  {
    match op {
      case Ask(r) => AskFitsAt(s, r, p);
      case Configure(key, tier, cfg, now, victim) => ConfigureFitsAt(s, key, tier, cfg, now, victim, p);
      case BlockClient(key, now, victim) =>
        CreateFitsAt(s, key, now, victim, p);
        BlockFitsAt(GetOrCreateClient(s, key, now, victim), key, true, p);
      case UnblockClient(key) => BlockFitsAt(s, key, false, p);
      case SetGlobal(cfg, now) =>
        SetGlobalAt(s, cfg, now, p);
        FreshFits(cfg, now);
      case _ =>
    }
  }

  lemma StepHealthy(s: StoreState, op: Op)
    requires O.Healthy(s) && O.SaneOp(op)
    ensures O.Healthy(Step(s, op))
  {
    var t := O.Later(0, op);
    assert O.Sim(s, s, t);
    if op.Pass? {
      O.SimPass(s, s, op.due, t);
    } else {
      O.SimStep(s, s, op, t);
    }
  }

  /** In every state a run can reach, every balance in the store, whoever's it is, lies between zero and its
      bucket's capacity. */
  lemma {:induction false} BalancesWithinCaps(maxClients: int, tiers: map<string, Config>, ops: seq<Op>)
    requires E.Run(NewStore(maxClients, tiers), ops)
    requires forall t :: t in tiers ==> Sane(tiers[t])
    requires forall i :: 0 <= i < |ops| ==> O.SaneOp(ops[i])
    ensures var s := Final(NewStore(maxClients, tiers), ops); O.Healthy(s) && AllFit(s)
    decreases |ops|
  {
    var s := NewStore(maxClients, tiers);
    if ops == [] {
      assert forall p :: BucketAt(s, p).None?;
    } else {
      var front, op := ops[..|ops| - 1], ops[|ops| - 1];
      BalancesWithinCaps(maxClients, tiers, front);
      RunAgrees(maxClients, tiers, front);
      var t := Final(s, front);
      StepHealthy(t, op);
      if op.Pass? {
        PassFits(t, op.due, op.now);
      } else {
        forall p ensures FitsAt(Step(t, op), p) {
          assert FitsAt(t, p);
          StepFitsAt(t, op, p);
        }
      }
    }
  }

  // ---- the global cap ------------------------------------------------------------------------------------------

  /** Requests allowed in the run, whoever asked. */
  function Allowed(s: StoreState, ops: seq<Op>): nat
    decreases ops
  {
    if ops == [] then 0
    else (if ops[0].Ask? && AllowRequest(s, ops[0].r).1.allowed then 1 else 0) + Allowed(Step(s, ops[0]), ops[1..])
  }

  lemma {:induction false} AllPassTheGlobalBucket(s: StoreState, ops: seq<Op>, t: int, end: int)
    requires Lives(s, ops, Global) && O.Ordered(t, ops) && (forall i :: 0 <= i < |ops| ==> O.Later(end, ops[i]) <= end)
    ensures AllowedThrough(s, ops, Global, t, end) == Allowed(s, ops)
    decreases ops
  {
    if ops != [] {
      var t' := O.Later(t, ops[0]);
      AllPassTheGlobalBucket(Step(s, ops[0]), ops[1..], t', end);
      EarlierStart(Step(s, ops[0]), ops[1..], t, t', end);
      assert ops[0].Ask? ==> O.Later(end, ops[0]) == ops[0].r.now == t';
    }
  }

  /** Nothing is asked before t', so the count may start at t. */
  lemma {:induction false} EarlierStart(s: StoreState, ops: seq<Op>, t: int, t': int, end: int)
    requires t <= t' && O.Ordered(t', ops)
    ensures AllowedThrough(s, ops, Global, t, end) == AllowedThrough(s, ops, Global, t', end)
    decreases ops
  {
    if ops != [] {
      var t'' := O.Later(t', ops[0]);
      EarlierStart(Step(s, ops[0]), ops[1..], t, t'', end);
      EarlierStart(Step(s, ops[0]), ops[1..], t', t'', end);
    }
  }

  /** During one life of the global bucket, from its configuration at t to `end`, the requests allowed over all
      clients cost at most its capacity plus its rate for each whole interval elapsed. */
  lemma GlobalCap(s: StoreState, cfg: Config, ops: seq<Op>, t: int, end: int)
    requires Shaped(s) && Agrees(s) && Sane(cfg) && t <= end
    requires var s0 := SetGlobalConfig(s, cfg, t);
             E.Run(s0, ops) && Lives(s0, ops, Global) && O.Ordered(t, ops)
    requires forall i :: 0 <= i < |ops| ==> O.Later(end, ops[i]) <= end
    ensures Cost(cfg) * Allowed(SetGlobalConfig(s, cfg, t), ops)
         <= cfg.maxTokens + cfg.refillRate * Elapsed(cfg, t, end)
  {
    var s0 := SetGlobalConfig(s, cfg, t);
    SetGlobalAt(s, cfg, t, Global);
    StepAgrees(s, SetGlobal(cfg, t));
    var b, es := BucketSpec.New(cfg, t), OwnLife(s0, ops, Global, t);
    StoreLifeIsOwnLife(s0, ops, Global, t, t, end);
    R.GrantsWithinPotential(b, es, t, t, end);
    AllPassTheGlobalBucket(s0, ops, t, end);
    MulMonotone(Allowed(s0, ops), R.GrantsWithin(b, es, t, end), Cost(b.cfg));
    FreshPotential(cfg, t, end);
  }

  lemma FreshPotential(cfg: Config, t: int, end: int)
    requires t <= end
    ensures R.Potential(BucketSpec.New(cfg, t), end) == cfg.maxTokens + cfg.refillRate * Elapsed(cfg, t, end)
  {
    if cfg.refillInterval > 0 {
      FloorMonotone(0, end - t, cfg.refillInterval);
    }
  }

  /** Whole refill intervals from t to end. */
  function Elapsed(cfg: Config, t: int, end: int): int {
    if cfg.refillInterval <= 0 then 0 else (end - t) / cfg.refillInterval
  }
}
