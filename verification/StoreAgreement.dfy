/** The schedule and the live buckets agree after every operation of the store and every pass over due ids. */
module StoreAgreement {
  import opened Wrappers
  import opened BucketSpec
  import opened StoreIds
  import opened StoreSpec
  import C = ClientSpec
  import P = SchedulerSpec

  /** The bucket OnDue would find for an id. */
  function Found(s: StoreState, id: string): Option<BucketState> {
    if OwnerOf(id).None? then None else BucketAt(s, OwnerOf(id).value)
  }

  /** id names a bucket that refills. */
  predicate Live(s: StoreState, id: string) {
    Found(s, id).Some? && Found(s, id).value.cfg.refillInterval > 0
  }

  /** What every client map in a run satisfies: keys are unambiguous and non-empty, each client has its
      default tier and none without a name. */
  predicate Shaped(s: StoreState) {
    && (forall k :: k in s.clients ==> ClientOK(k, s.clients[k]))
    && "" !in s.ipBuckets
  }

  predicate ClientOK(k: string, c: C.ClientState) {
    Unambiguous(k) && k != "" && c.key == k && C.DEFAULT_TIER in c.buckets && "" !in c.buckets
  }

  /** Apart from the pending ids, exactly the refillable buckets are scheduled, each no later than its next
      refill, and those not pending refill after `after`. */
  ghost predicate AgreesAt(s: StoreState, id: string, pending: set<string>, after: Option<int>) {
    && (id in s.plan <==> Live(s, id) && id !in pending)
    && (id in s.plan ==> s.plan[id] <= NextRefillTime(Found(s, id).value))
    && (id in s.plan && after.Some? ==> NextRefillTime(Found(s, id).value) > after.value)
  }

  ghost predicate Agrees(s: StoreState) {
    forall id :: AgreesAt(s, id, {}, None)
  }

  // ---- one bucket changes -------------------------------------------------------------------------------

  predicate Places(s: StoreState, o: Owner) {
    OwnerOf(IdOf(o)) == Some(o) && (o.Tier? ==> o.key in s.clients)
  }

  lemma PutFound(s: StoreState, o: Owner, b: BucketState, id: string)
    requires Places(s, o)
    ensures Found(Put(s, o, b), id) == if id == IdOf(o) then Some(b) else Found(s, id)
  {
    if id != IdOf(o) && OwnerOf(id).Some? {
      IdOfOwner(id);
    }
  }

  lemma PutShaped(s: StoreState, o: Owner, b: BucketState)
    requires Shaped(s) && (o.Tier? ==> o.key in s.clients && o.tier != "") && (o.Ip? ==> o.ip != "")
    ensures Shaped(Put(s, o, b))
  {
  }

  lemma InstallFound(s: StoreState, o: Owner, cfg: Config, now: int, id: string)
    requires Places(s, o)
    ensures Found(Install(s, o, cfg, now), id) == if id == IdOf(o) then Some(BucketSpec.New(cfg, now)) else Found(s, id)
  {
    PutFound(s, o, BucketSpec.New(cfg, now), id);
  }

  /** Agreement everywhere but at o. */
  ghost predicate AgreesBut(s: StoreState, o: Owner) {
    forall id :: id != IdOf(o) ==> AgreesAt(s, id, {}, None)
  }

  lemma InstallAgreesAt(s: StoreState, o: Owner, cfg: Config, now: int, id: string)
    requires Places(s, o) && IdOf(o) !in s.plan
    requires id != IdOf(o) ==> AgreesAt(s, id, {}, None)
    ensures AgreesAt(Install(s, o, cfg, now), id, {}, None)
  {
    InstallFound(s, o, cfg, now, id);
  }

  lemma InstallAgrees(s: StoreState, o: Owner, cfg: Config, now: int)
    requires Places(s, o) && IdOf(o) !in s.plan && AgreesBut(s, o)
    ensures Agrees(Install(s, o, cfg, now))
  {
    forall id ensures AgreesAt(Install(s, o, cfg, now), id, {}, None) {
      InstallAgreesAt(s, o, cfg, now, id);
    }
  }

  /** A bucket that keeps its configuration and whose next refill does not move back. */
  lemma PutLaterAgrees(s: StoreState, o: Owner, b: BucketState)
    requires Agrees(s) && Places(s, o) && BucketAt(s, o).Some?
    requires b.cfg == BucketAt(s, o).value.cfg
    requires NextRefillTime(BucketAt(s, o).value) <= NextRefillTime(b)
    ensures Agrees(Put(s, o, b))
  {
    forall id ensures AgreesAt(Put(s, o, b), id, {}, None) {
      PutFound(s, o, b, id);
      assert AgreesAt(s, id, {}, None);
    }
  }

  lemma RefillsForward(b: BucketState, now: int)
    ensures Refill(b, now).cfg == b.cfg && NextRefillTime(b) <= NextRefillTime(Refill(b, now))
    ensures BucketSpec.Allow(b, now).0.cfg == b.cfg
    ensures NextRefillTime(b) <= NextRefillTime(BucketSpec.Allow(b, now).0)
  {
    assert Intervals(b, now) > 0 ==> b.cfg.refillInterval * Intervals(b, now) >= 0;
  }

  lemma AllowAtAgrees(s: StoreState, o: Owner, now: int)
    requires Agrees(s) && Shaped(s) && Places(s, o) && (o.Tier? ==> o.tier != "") && (o.Ip? ==> o.ip != "")
    ensures Agrees(AllowAt(s, o, now).0) && Shaped(AllowAt(s, o, now).0)
  {
    if BucketAt(s, o).Some? {
      var b := BucketAt(s, o).value;
      RefillsForward(b, now);
      PutLaterAgrees(s, o, BucketSpec.Allow(b, now).0);
      PutShaped(s, o, BucketSpec.Allow(b, now).0);
    }
  }

  // ---- clients ------------------------------------------------------------------------------------------

  lemma EvictAgrees(s: StoreState, victim: string)
    requires Agrees(s) && Shaped(s)
    ensures Agrees(EvictLRU(s, victim)) && Shaped(EvictLRU(s, victim))
  {
    var s' := EvictLRU(s, victim);
    if s' != s {
      forall id ensures AgreesAt(s', id, {}, None) {
        assert AgreesAt(s, id, {}, None);
        EvictedIds(s, victim, id);
      }
    }
  }

  /** The ids an eviction unschedules are those of the client's own buckets. */
  lemma EvictedIds(s: StoreState, victim: string, id: string)
    requires Shaped(s) && victim in s.clients
    ensures id in TierIds(victim, s.clients[victim])
       <==> OwnerOf(id).Some? && OwnerOf(id).value.Tier? && OwnerOf(id).value.key == victim && Found(s, id).Some?
  {
    var c := s.clients[victim];
    if id in TierIds(victim, c) {
      var t :| t in c.buckets && id == EncodeID(victim, t);
      DispatchRoundTrip(Tier(victim, t));
    } else if OwnerOf(id).Some? {
      IdOfOwner(id);
    }
  }

  function WithClient(s: StoreState, key: string): StoreState {
    s.(clients := s.clients[key := C.New(key)])
  }

  lemma NewClientAgrees(s: StoreState, key: string)
    requires Agrees(s) && key !in s.clients && Unambiguous(key)
    ensures AgreesBut(WithClient(s, key), Tier(key, C.DEFAULT_TIER))
    ensures IdOf(Tier(key, C.DEFAULT_TIER)) !in s.plan
  {
    var s' := WithClient(s, key);
    forall id ensures AgreesAt(s', id, {}, None) {
      assert AgreesAt(s, id, {}, None);
      assert Found(s', id) == Found(s, id);
    }
    DispatchRoundTrip(Tier(key, C.DEFAULT_TIER));
    assert AgreesAt(s, IdOf(Tier(key, C.DEFAULT_TIER)), {}, None);
  }

  lemma AddClientAgrees(s: StoreState, key: string, cfg: Config, now: int)
    requires Agrees(s) && Shaped(s) && key !in s.clients && Unambiguous(key) && key != ""
    ensures Agrees(Install(WithClient(s, key), Tier(key, C.DEFAULT_TIER), cfg, now))
    ensures Shaped(Install(WithClient(s, key), Tier(key, C.DEFAULT_TIER), cfg, now))
  {
    NewClientAgrees(s, key);
    DispatchRoundTrip(Tier(key, C.DEFAULT_TIER));
    InstallAgrees(WithClient(s, key), Tier(key, C.DEFAULT_TIER), cfg, now);
    NewClientShaped(s, key, cfg, now);
  }

  lemma NewClientShaped(s: StoreState, key: string, cfg: Config, now: int)
    requires Shaped(s) && Unambiguous(key) && key != ""
    ensures Shaped(Install(WithClient(s, key), Tier(key, C.DEFAULT_TIER), cfg, now))
  {
  }

  lemma CreateAgrees(s: StoreState, key: string, now: int, victim: string)
    requires Agrees(s) && Shaped(s) && Unambiguous(key) && key != ""
    ensures Agrees(GetOrCreateClient(s, key, now, victim)) && Shaped(GetOrCreateClient(s, key, now, victim))
    ensures key in GetOrCreateClient(s, key, now, victim).clients
  {
    if key !in s.clients {
      var s1 := if Full(s) then EvictLRU(s, victim) else s;
      EvictAgrees(s, victim);
      AddClientAgrees(s1, key, DefaultConfig(s), now);
      assert GetOrCreateClient(s, key, now, victim)
          == Install(WithClient(s1, key), Tier(key, C.DEFAULT_TIER), DefaultConfig(s), now);
    }
  }

  lemma EnsureTierAgrees(s: StoreState, key: string, tier: string, now: int)
    requires Agrees(s) && Shaped(s) && key in s.clients
    ensures Agrees(EnsureTier(s, key, tier, now)) && Shaped(EnsureTier(s, key, tier, now))
    ensures EnsureTier(s, key, tier, now).clients.Keys == s.clients.Keys
  {
    var o := Tier(key, tier);
    if EnsureTier(s, key, tier, now) != s {
      DispatchRoundTrip(o);
      assert AgreesAt(s, IdOf(o), {}, None);
      InstallAgrees(s, o, s.tierDefaults[tier], now);
    }
  }

  lemma UnscheduleThenInstallAgrees(s: StoreState, o: Owner, cfg: Config, now: int)
    requires Agrees(s) && Places(s, o)
    ensures Agrees(Install(Unschedule(s, o), o, cfg, now))
  {
    var s1 := Unschedule(s, o);
    forall id | id != IdOf(o) ensures AgreesAt(s1, id, {}, None) {
      assert AgreesAt(s, id, {}, None);
      assert Found(s1, id) == Found(s, id);
    }
    InstallAgrees(s1, o, cfg, now);
  }

  lemma BlockAgrees(s: StoreState, key: string, on: bool)
    requires Agrees(s) && Shaped(s)
    ensures Agrees(SetBlocked(s, key, on)) && Shaped(SetBlocked(s, key, on))
  {
    var s' := SetBlocked(s, key, on);
    forall id ensures AgreesAt(s', id, {}, None) {
      assert AgreesAt(s, id, {}, None);
    }
  }

  // ---- addresses and the global bucket ---------------------------------------------------------------------

  lemma EvictIpAgrees(s: StoreState, victim: string)
    requires Agrees(s) && Shaped(s)
    ensures Agrees(EvictIp(s, victim)) && Shaped(EvictIp(s, victim))
  {
    var s' := EvictIp(s, victim);
    if s' != s {
      DispatchRoundTrip(Ip(victim));
      forall id ensures AgreesAt(s', id, {}, None) {
        assert AgreesAt(s, id, {}, None);
        if OwnerOf(id).Some? { IdOfOwner(id); }
      }
    }
  }

  lemma CreateIpAgrees(s: StoreState, ip: string, now: int, victim: string)
    requires Agrees(s) && Shaped(s) && ip != ""
    ensures Agrees(GetOrCreateIp(s, ip, now, victim)) && Shaped(GetOrCreateIp(s, ip, now, victim))
  {
    if ip !in s.ipBuckets {
      var s1 := if |s.ipBuckets| >= s.ipCap then EvictIp(s, victim) else s;
      EvictIpAgrees(s, victim);
      DispatchRoundTrip(Ip(ip));
      assert AgreesAt(s1, IdOf(Ip(ip)), {}, None);
      InstallAgrees(s1, Ip(ip), IpConfig(s), now);
    }
  }

  lemma ClearIpsAgrees(s: StoreState, enabled: bool, cfg: Config)
    requires Agrees(s) && Shaped(s)
    ensures Agrees(SetIPLimit(s, enabled, cfg)) && Shaped(SetIPLimit(s, enabled, cfg))
  {
    var s' := SetIPLimit(s, enabled, cfg);
    forall id ensures AgreesAt(s', id, {}, None) {
      assert AgreesAt(s, id, {}, None);
      if !enabled {
        ClearedIds(s, id);
      }
    }
  }

  lemma ClearedIds(s: StoreState, id: string)
    ensures id in (set ip | ip in s.ipBuckets :: IdOf(Ip(ip)))
       <==> OwnerOf(id).Some? && OwnerOf(id).value.Ip? && Found(s, id).Some?
  {
    if id in (set ip | ip in s.ipBuckets :: IdOf(Ip(ip))) {
      var ip :| ip in s.ipBuckets && id == IdOf(Ip(ip));
      DispatchRoundTrip(Ip(ip));
    } else if OwnerOf(id).Some? {
      IdOfOwner(id);
    }
  }

  lemma NoGlobalAgrees(s: StoreState)
    requires Agrees(s)
    ensures Agrees(DisableGlobal(s))
  {
    var s' := DisableGlobal(s);
    forall id ensures AgreesAt(s', id, {}, None) {
      assert AgreesAt(s, id, {}, None);
      if OwnerOf(id).Some? { IdOfOwner(id); }
    }
  }

  // ---- requests ---------------------------------------------------------------------------------------------

  lemma ClientGateAgrees(s: StoreState, r: Request)
    requires Agrees(s) && Shaped(s) && Unambiguous(r.key) && r.key != ""
    ensures Agrees(ClientGate(s, r).0) && Shaped(ClientGate(s, r).0)
  {
    CreateAgrees(s, r.key, r.now, r.victim);
    var s1 := GetOrCreateClient(s, r.key, r.now, r.victim);
    if !C.IsBlocked(s1.clients[r.key]) {
      EnsureTierAgrees(s1, r.key, r.tier, r.now);
      var s2 := EnsureTier(s1, r.key, r.tier, r.now);
      var o := Serving(s2, r);
      DispatchRoundTrip(o);
      AllowAtAgrees(s2, o, r.now);
    }
  }

  lemma AllowAgrees(s: StoreState, r: Request)
    requires Agrees(s) && Shaped(s) && Unambiguous(r.key) && r.key != ""
    ensures Agrees(AllowRequest(s, r).0) && Shaped(AllowRequest(s, r).0)
  {
    DispatchRoundTrip(Global);
    AllowAtAgrees(s, Global, r.now);
    var (s1, g) := GlobalGate(s, r);
    if g.allowed {
      if IpGated(s1, r) {
        CreateIpAgrees(s1, r.ip, r.now, r.ipVictim);
        DispatchRoundTrip(Ip(r.ip));
        AllowAtAgrees(GetOrCreateIp(s1, r.ip, r.now, r.ipVictim), Ip(r.ip), r.now);
      }
      var (s2, i) := IpGate(s1, r);
      if i.allowed {
        ClientGateAgrees(s2, r);
      }
    }
  }

  // ---- a pass -------------------------------------------------------------------------------------------------

  /** Midway through a pass at now: the ids still pending are out of the schedule, and everything else
      refills after now. */
  ghost predicate Midway(s: StoreState, pending: set<string>, now: int) {
    forall id :: AgreesAt(s, id, pending, Some(now))
  }

  lemma AnswerDueIs(s: StoreState, id: string, now: int)
    requires Shaped(s) && Live(s, id)
    ensures var o := OwnerOf(id).value; var b := BucketAt(s, o).value;
      && IdOf(o) == id && Places(s, o) && (o.Tier? ==> o.tier != "") && (o.Ip? ==> o.ip != "")
      && AnswerDue(s, id, now)
         == Put(s, o, Refill(b, now)).(plan := s.plan[id := NextRefillTime(Refill(b, now))])
  {
    IdOfOwner(id);
    var o := OwnerOf(id).value;
    assert Named(o) == o;
  }

  lemma AnswerDueAgreesAt(s: StoreState, pending: set<string>, id: string, now: int, k: string)
    requires Shaped(s) && Live(s, id)
    requires AgreesAt(s, k, pending, Some(now))
    ensures AgreesAt(AnswerDue(s, id, now), k, pending - {id}, Some(now))
    ensures Live(AnswerDue(s, id, now), k) <==> Live(s, k)
  {
    AnswerDueIs(s, id, now);
    var o := OwnerOf(id).value;
    var b := BucketAt(s, o).value;
    RefillIsCurrent(b, now);
    PutFound(s, o, Refill(b, now), k);
    assert Found(AnswerDue(s, id, now), k) == Found(Put(s, o, Refill(b, now)), k);
  }

  lemma AnswerMidway(s: StoreState, pending: set<string>, id: string, now: int)
    requires Shaped(s) && Midway(s, pending, now) && Live(s, id)
    ensures Shaped(AnswerDue(s, id, now)) && Midway(AnswerDue(s, id, now), pending - {id}, now)
    ensures forall k :: Live(AnswerDue(s, id, now), k) <==> Live(s, k)
  {
    AnswerDueIs(s, id, now);
    PutShaped(s, OwnerOf(id).value, Refill(BucketAt(s, OwnerOf(id).value).value, now));
    forall k ensures AgreesAt(AnswerDue(s, id, now), k, pending - {id}, Some(now))
                  && (Live(AnswerDue(s, id, now), k) <==> Live(s, k)) {
      assert AgreesAt(s, k, pending, Some(now));
      AnswerDueAgreesAt(s, pending, id, now, k);
    }
  }

  lemma IdsFront(due: seq<string>)
    requires due != []
    ensures P.Ids(due) == P.Ids(due[..|due| - 1]) + {due[|due| - 1]}
  {
    assert due == due[..|due| - 1] + [due[|due| - 1]];
  }

  ghost predicate AllLive(s: StoreState, due: seq<string>) {
    forall i :: 0 <= i < |due| ==> Live(s, due[i])
  }

  lemma {:induction false} AnswerAllMidway(s: StoreState, pending: set<string>, due: seq<string>, now: int)
    requires Shaped(s) && Midway(s, pending, now) && AllLive(s, due)
    ensures Shaped(AnswerAll(s, due, now))
    ensures Midway(AnswerAll(s, due, now), pending - P.Ids(due), now)
    ensures forall k :: Live(AnswerAll(s, due, now), k) <==> Live(s, k)
  {
    if due == [] {
      assert pending - P.Ids(due) == pending;
    } else {
      var front, last := due[..|due| - 1], due[|due| - 1];
      assert AllLive(s, front);
      AnswerAllMidway(s, pending, front, now);
      AnswerMidway(AnswerAll(s, front, now), pending - P.Ids(front), last, now);
      IdsFront(due);
      assert pending - P.Ids(front) - {last} == pending - P.Ids(due);
    }
  }

  lemma DrainLeavesMidway(s: StoreState, due: seq<string>, now: int)
    requires Agrees(s) && P.Drains(s.plan, now, due)
    ensures Midway(s.(plan := P.Without(s.plan, due)), P.Ids(due), now)
    ensures AllLive(s, due)
  {
    var s0 := s.(plan := P.Without(s.plan, due));
    forall id ensures AgreesAt(s0, id, P.Ids(due), Some(now)) {
      assert AgreesAt(s, id, {}, None);
      assert Found(s0, id) == Found(s, id);
    }
    forall i | 0 <= i < |due| ensures Live(s, due[i]) {
      assert AgreesAt(s, due[i], {}, None);
    }
  }

  /** After a complete pass the schedule agrees again and every refillable bucket is due after now. */
  lemma PassAgrees(s: StoreState, due: seq<string>, now: int)
    requires Agrees(s) && Shaped(s) && P.Drains(s.plan, now, due)
    ensures Agrees(ProcessDue(s, due, now)) && Shaped(ProcessDue(s, due, now))
    ensures forall id :: Live(ProcessDue(s, due, now), id) ==>
              NextRefillTime(Found(ProcessDue(s, due, now), id).value) > now
  {
    var s0 := s.(plan := P.Without(s.plan, due));
    DrainLeavesMidway(s, due, now);
    assert AllLive(s0, due) by {
      forall i | 0 <= i < |due| ensures Live(s0, due[i]) {
        assert Found(s0, due[i]) == Found(s, due[i]);
      }
    }
    AnswerAllMidway(s0, P.Ids(due), due, now);
    var s' := ProcessDue(s, due, now);
    forall id ensures AgreesAt(s', id, {}, None) {
      assert AgreesAt(s', id, P.Ids(due) - P.Ids(due), Some(now));
    }
    forall id | Live(s', id) ensures NextRefillTime(Found(s', id).value) > now {
      assert AgreesAt(s', id, P.Ids(due) - P.Ids(due), Some(now));
    }
  }

  // ---- runs -----------------------------------------------------------------------------------------------------

  /** Client keys the model's ids are meant for. */
  predicate KeyOK(op: Op) {
    match op
    case Ask(r) => Unambiguous(r.key) && r.key != ""
    case Configure(key, _, _, _, _) => Unambiguous(key) && key != ""
    case BlockClient(key, _, _) => Unambiguous(key) && key != ""
    case _ => true
  }

  ghost predicate PassOK(s: StoreState, op: Op) {
    op.Pass? ==> P.Drains(s.plan, op.now, op.due)
  }

  lemma ConfigureAgrees(s: StoreState, key: string, tier: string, cfg: Config, now: int, victim: string)
    requires Agrees(s) && Shaped(s) && Unambiguous(key) && key != ""
    ensures Agrees(UpdateClientConfig(s, key, tier, cfg, now, victim))
    ensures Shaped(UpdateClientConfig(s, key, tier, cfg, now, victim))
  {
    CreateAgrees(s, key, now, victim);
    var o, s1 := Tier(key, C.TierName(tier)), GetOrCreateClient(s, key, now, victim);
    DispatchRoundTrip(o);
    UnscheduleThenInstallAgrees(s1, o, cfg, now);
    InstallShaped(Unschedule(s1, o), o, cfg, now);
  }

  lemma InstallShaped(s: StoreState, o: Owner, cfg: Config, now: int)
    requires Shaped(s) && (o.Tier? ==> o.key in s.clients && o.tier != "") && (o.Ip? ==> o.ip != "")
    ensures Shaped(Install(s, o, cfg, now))
  {
    PutShaped(s, o, BucketSpec.New(cfg, now));
    PlanIsNoShape(Put(s, o, BucketSpec.New(cfg, now)), Install(s, o, cfg, now));
  }

  lemma PlanIsNoShape(s: StoreState, s': StoreState)
    requires Shaped(s) && s'.clients == s.clients && s'.ipBuckets == s.ipBuckets
    ensures Shaped(s')
  {
  }

  lemma StepAgrees(s: StoreState, op: Op)
    requires Agrees(s) && Shaped(s) && KeyOK(op) && PassOK(s, op)
    ensures Agrees(Step(s, op)) && Shaped(Step(s, op))
  {
    match op {
      case Ask(r) => AllowAgrees(s, r);
      case Configure(key, tier, cfg, now, victim) => ConfigureAgrees(s, key, tier, cfg, now, victim);
      case BlockClient(key, now, victim) =>
        CreateAgrees(s, key, now, victim);
        BlockAgrees(GetOrCreateClient(s, key, now, victim), key, true);
      case UnblockClient(key) => BlockAgrees(s, key, false);
      case SetGlobal(cfg, now) =>
        DispatchRoundTrip(Global);
        UnscheduleThenInstallAgrees(s, Global, cfg, now);
      case NoGlobal => NoGlobalAgrees(s);
      case SetIp(enabled, cfg) => ClearIpsAgrees(s, enabled, cfg);
      case Pass(due, now) => PassAgrees(s, due, now);
    }
  }

  function Final(s: StoreState, ops: seq<Op>): StoreState {
    if ops == [] then s else Step(Final(s, ops[..|ops| - 1]), ops[|ops| - 1])
  }

  /** Each pass in the run drains what is due when it runs. */
  ghost predicate PassesOK(s: StoreState, ops: seq<Op>) {
    ops == [] || (PassesOK(s, ops[..|ops| - 1]) && PassOK(Final(s, ops[..|ops| - 1]), ops[|ops| - 1]))
  }

  /** A run may be followed from its first operation as well as from its last. */
  lemma {:induction false} FinalHead(s: StoreState, ops: seq<Op>)
    requires ops != []
    ensures Final(s, ops) == Final(Step(s, ops[0]), ops[1..])
    decreases |ops|
  {
    if |ops| > 1 {
      assert ops[..|ops| - 1][1..] == ops[1..][..|ops| - 2];
      FinalHead(s, ops[..|ops| - 1]);
    }
  }

  lemma {:induction false} PassesHead(s: StoreState, ops: seq<Op>)
    requires ops != [] && PassesOK(s, ops)
    ensures PassOK(s, ops[0]) && PassesOK(Step(s, ops[0]), ops[1..])
    decreases |ops|
  {
    if |ops| > 1 {
      var front := ops[..|ops| - 1];
      assert front[1..] == ops[1..][..|ops| - 2];
      PassesHead(s, front);
      FinalHead(s, front);
    }
  }

  lemma {:induction false} RunAgrees(maxClients: int, tiers: map<string, Config>, ops: seq<Op>)
    requires forall i :: 0 <= i < |ops| ==> KeyOK(ops[i])
    requires PassesOK(NewStore(maxClients, tiers), ops)
    ensures Agrees(Final(NewStore(maxClients, tiers), ops)) && Shaped(Final(NewStore(maxClients, tiers), ops))
    decreases |ops|
  {
    var s := NewStore(maxClients, tiers);
    if ops == [] {
      forall id ensures AgreesAt(s, id, {}, None) {
        assert Found(s, id).None?;
      }
    } else {
      RunAgrees(maxClients, tiers, ops[..|ops| - 1]);
      StepAgrees(Final(s, ops[..|ops| - 1]), ops[|ops| - 1]);
    }
  }

  /** After any run the scheduled ids are exactly those of the live global, address and client-tier buckets
      with a refill interval; each is dispatched back to the bucket it was scheduled for, and no later than
      that bucket's next refill. */
  lemma ScheduleMatchesBuckets(maxClients: int, tiers: map<string, Config>, ops: seq<Op>)
    requires forall i :: 0 <= i < |ops| ==> KeyOK(ops[i])
    requires PassesOK(NewStore(maxClients, tiers), ops)
    ensures var s := Final(NewStore(maxClients, tiers), ops);
      && (forall o :: BucketAt(s, o).Some? && BucketAt(s, o).value.cfg.refillInterval > 0 ==>
            && IdOf(o) in s.plan && OwnerOf(IdOf(o)) == Some(o)
            && s.plan[IdOf(o)] <= NextRefillTime(BucketAt(s, o).value))
      && (forall id :: id in s.plan ==>
            && OwnerOf(id).Some? && IdOf(OwnerOf(id).value) == id && BucketAt(s, OwnerOf(id).value).Some?
            && BucketAt(s, OwnerOf(id).value).value.cfg.refillInterval > 0)
  {
    RunAgrees(maxClients, tiers, ops);
    var s := Final(NewStore(maxClients, tiers), ops);
    forall o | BucketAt(s, o).Some? && BucketAt(s, o).value.cfg.refillInterval > 0
      ensures IdOf(o) in s.plan && OwnerOf(IdOf(o)) == Some(o)
           && s.plan[IdOf(o)] <= NextRefillTime(BucketAt(s, o).value)
    {
      DispatchRoundTrip(o);
      assert AgreesAt(s, IdOf(o), {}, None);
    }
    forall id | id in s.plan
      ensures OwnerOf(id).Some? && IdOf(OwnerOf(id).value) == id && BucketAt(s, OwnerOf(id).value).Some?
           && BucketAt(s, OwnerOf(id).value).value.cfg.refillInterval > 0
    {
      assert AgreesAt(s, id, {}, None);
      IdOfOwner(id);
    }
  }

  /** The convention on keys is needed: a new client's default bucket is found again under the id it was
      scheduled with exactly when its key has no bar and is not the literal __ip__. */
  lemma NewClientFoundAgain(s: StoreState, key: string, cfg: Config, now: int)
    ensures OwnerOf(IdOf(Tier(key, C.DEFAULT_TIER))) == Some(Tier(key, C.DEFAULT_TIER)) <==> Unambiguous(key)
    ensures key == IP_KEY && C.DEFAULT_TIER !in s.ipBuckets ==>
              Found(Install(WithClient(s, key), Tier(key, C.DEFAULT_TIER), cfg, now),
                    EncodeID(key, C.DEFAULT_TIER)).None?
  {
    DispatchRoundTrip(Tier(key, C.DEFAULT_TIER));
    if key == IP_KEY {
      assert EncodeID(key, C.DEFAULT_TIER) == IdOf(Ip(C.DEFAULT_TIER));
      DispatchRoundTrip(Ip(C.DEFAULT_TIER));
    }
  }
}
