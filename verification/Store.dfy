/** The bucket store as an object: its tables of clients and addresses, the global bucket and the scheduler,
    changed in place by each operation. */
module Store {
  import opened Wrappers
  import opened BucketSpec
  import opened StoreIds
  import opened StoreSpec
  import opened StoreAgreement
  import C = ClientSpec
  import P = SchedulerSpec
  import B = Bucket
  import T = BucketTable
  import K = ClientTable
  import S = Scheduler
  import O = StoreOptimisation
  import E = StoreEviction

  class BucketStore {
    const clients: K.ClientTable
    const maxClients: int
    const tierDefaults: map<string, Config>
    const scheduler: S.Scheduler
    var globalBucket: B.Bucket?
    var evictions: int
    const ips: T.BucketTable
    const ipBucketCap: int
    var ipLimitEnabled: bool
    var ipConfig: Option<Config>

    ghost function GlobalRepr(): set<object>
      reads this, globalBucket
    {
      if globalBucket == null then {} else globalBucket.Repr()
    }

    ghost function Repr(): set<object>
      reads this, globalBucket, clients, ips, scheduler
    {
      {this} + GlobalRepr() + clients.Repr() + ips.Repr() + scheduler.Repr()
    }

    /** No part of the global bucket is in parts. */
    ghost predicate GlobalOutside(parts: set<object>)
      reads this, globalBucket
    {
      globalBucket != null ==>
        && globalBucket !in parts
        && (globalBucket.window != null ==> globalBucket.window !in parts && globalBucket.window.timestamps !in parts)
    }

    /** The four parts and the store itself share nothing. */
    ghost predicate Apart()
      reads this, globalBucket, clients, ips, scheduler
    {
      && this !in clients.Repr() && this !in ips.Repr() && this !in scheduler.Repr()
      && GlobalOutside(clients.Repr()) && GlobalOutside(ips.Repr()) && GlobalOutside(scheduler.Repr())
      && clients.Repr() !! ips.Repr() && clients.Repr() !! scheduler.Repr() && ips.Repr() !! scheduler.Repr()
    }

    ghost predicate Valid()
      reads this, globalBucket, GlobalRepr(), clients, clients.homes.Keys, ips, ips.homes.Keys
      reads scheduler, scheduler.entries.Values
    {
      && ipBucketCap > 0 && Apart() && (globalBucket != null ==> globalBucket.Valid())
      && clients.Valid() && ips.Valid() && scheduler.Valid()
    }

    ghost function Value(): StoreState
      reads this, globalBucket, clients, ips, scheduler
    {
      StoreState(clients.value, maxClients, tierDefaults,
                 if globalBucket == null then None else Some(globalBucket.state), evictions,
                 ips.value, ipBucketCap, ipLimitEnabled, ipConfig, scheduler.plan)
    }

    /** A store with its scheduler attached. */
    constructor (maxClients: int, tiers: map<string, Config>, scheduler: S.Scheduler)
      requires scheduler.Valid() && scheduler.plan == map[]
      ensures Valid() && fresh(Repr() - scheduler.Repr())
      ensures Value() == NewStore(maxClients, tiers)
    {
      this.clients := new K.ClientTable();
      this.maxClients := maxClients;
      this.tierDefaults := if C.DEFAULT_TIER in tiers then tiers else tiers[C.DEFAULT_TIER := BUILTIN_DEFAULT];
      this.scheduler := scheduler;
      this.globalBucket := null;
      this.evictions := 0;
      this.ips := new T.BucketTable();
      this.ipBucketCap := if maxClients * 4 <= 0 then 200000 else maxClients * 4;
      this.ipLimitEnabled := false;
      this.ipConfig := None;
    }

    twostate predicate SameIps()
      reads this, ips, ips.homes.Keys
    {
      unchanged(ips) && forall x: object {:trigger x in old(ips.homes)} :: x in old(ips.homes) ==> unchanged(x)
    }

    twostate predicate SameClients()
      reads this, clients, clients.homes.Keys
    {
      && unchanged(clients)
      && forall x: object {:trigger x in old(clients.homes)} :: x in old(clients.homes) ==> unchanged(x)
    }

    twostate predicate SameGlobal()
      reads this, globalBucket, GlobalRepr()
    {
      && globalBucket == old(globalBucket)
      && (globalBucket != null ==>
            && unchanged(globalBucket)
            && (globalBucket.window != null ==>
                  unchanged(globalBucket.window) && unchanged(globalBucket.window.timestamps)))
    }

    twostate predicate SameSchedule()
      reads this, scheduler, scheduler.entries.Values
    {
      unchanged(scheduler)
      && forall x: S.Entry {:trigger x in old(scheduler.entries.Values)} ::
           x in old(scheduler.entries.Values) ==> unchanged(x)
    }

    /** A fresh global bucket, or none, shares nothing with the other parts. */
    twostate lemma GlobalMoved()
      requires old(Valid()) && SameClients() && SameIps() && SameSchedule()
      requires globalBucket != null ==>
        && globalBucket.Valid() && fresh(globalBucket)
        && (globalBucket.window != null ==> fresh(globalBucket.window) && fresh(globalBucket.window.timestamps))
      ensures Valid()
    {
      assert clients.Repr() == old(clients.Repr()) && ips.Repr() == old(ips.Repr());
      assert scheduler.Repr() == old(scheduler.Repr());
      assert old(clients.Repr() !! ips.Repr() && clients.Repr() !! scheduler.Repr() && ips.Repr() !! scheduler.Repr());
      assert GlobalOutside(clients.Repr()) && GlobalOutside(ips.Repr()) && GlobalOutside(scheduler.Repr());
    }

    twostate lemma IpsMoved()
      requires old(Valid()) && unchanged(this) && SameClients() && SameGlobal() && SameSchedule()
      requires ips.Valid() && fresh(ips.Repr() - old(ips.Repr()))
      ensures Value() == old(Value()).(ipBuckets := ips.value)
      ensures Valid()
    {
      assert clients.Repr() == old(clients.Repr()) && scheduler.Repr() == old(scheduler.Repr());
      forall x: object | x in ips.Repr() ensures x in old(ips.Repr()) || fresh(x) {
        assert x !in old(ips.Repr()) ==> x in ips.Repr() - old(ips.Repr());
      }
    }

    twostate lemma ClientsMoved()
      requires old(Valid()) && unchanged(this) && SameIps() && SameGlobal() && SameSchedule()
      requires clients.Valid() && fresh(clients.Repr() - old(clients.Repr()))
      ensures Value() == old(Value()).(clients := clients.value)
      ensures Valid()
    {
      assert ips.Repr() == old(ips.Repr()) && scheduler.Repr() == old(scheduler.Repr());
      forall x: object | x in clients.Repr() ensures x in old(clients.Repr()) || fresh(x) {
        assert x !in old(clients.Repr()) ==> x in clients.Repr() - old(clients.Repr());
      }
    }

    // ---- the gates ---------------------------------------------------------------------------------

    method GlobalGate(now: int) returns (allowed: bool, retryAfter: int)
      requires Valid()
      modifies GlobalRepr()
      ensures Valid() && GlobalRepr() == old(GlobalRepr())
      ensures (Value(), Reply(allowed, retryAfter)) == AllowAt(old(Value()), Global, now)
    {
      hide S.Scheduler.Valid;
      hide K.ClientTable.Valid;
      hide T.BucketTable.Valid;
      hide B.Bucket.Valid;
      allowed, retryAfter := true, 0;
      if globalBucket != null {
        allowed, retryAfter := globalBucket.Allow(now);
      }
    }

    method IpGateAt(ip: string, now: int) returns (allowed: bool, retryAfter: int)
      requires Valid() && ip in ips.value
      modifies ips.Repr()
      ensures Valid() && fresh(ips.Repr() - old(ips.Repr()))
      ensures (Value(), Reply(allowed, retryAfter)) == AllowAt(old(Value()), Ip(ip), now)
    {
      allowed, retryAfter := CallIp(ip, now);
    }

    method CallIp(ip: string, now: int) returns (allowed: bool, retryAfter: int)
      requires Valid() && ip in ips.value
      modifies ips`value, ips.homes.Keys
      ensures Valid()
      ensures ips.value == old(ips.value)[ip := BucketSpec.Allow(old(ips.value)[ip], now).0]
      ensures Reply(allowed, retryAfter) == BucketSpec.Allow(old(ips.value)[ip], now).1
    {
      allowed, retryAfter := ips.AllowFrom(ip, now);
    }

    // ---- the schedule ------------------------------------------------------------------------------

    method Plan(id: string, next: int)
      requires Valid()
      modifies scheduler.Repr()
      ensures Valid() && fresh(scheduler.Repr() - old(scheduler.Repr()))
      ensures Value() == old(Value()).(plan := old(Value()).plan[id := next])
    {
      hide T.BucketTable.Valid;
      hide K.ClientTable.Valid;
      hide S.Scheduler.Valid;
      scheduler.Schedule(id, next);
    }

    method Unplan(id: string)
      requires Valid()
      modifies scheduler.Repr()
      ensures Valid() && scheduler.Repr() <= old(scheduler.Repr())
      ensures Value() == old(Value()).(plan := old(Value()).plan - {id})
    {
      scheduler.Remove(id);
    }

    /** Schedules a fresh bucket, when it has an interval to refill at. */
    method PlanTimed(id: string, cfg: Config, next: int)
      requires Valid()
      modifies scheduler.Repr()
      ensures Valid() && fresh(scheduler.Repr() - old(scheduler.Repr()))
      ensures Value() == Timed(old(Value()), id, cfg, next)
    {
      if cfg.refillInterval > 0 {
        Plan(id, next);
      }
    }

    ghost static function Timed(s: StoreState, id: string, cfg: Config, next: int): StoreState {
      if cfg.refillInterval > 0 then s.(plan := s.plan[id := next]) else s
    }

    static lemma InstallIs(s: StoreState, o: Owner, cfg: Config, now: int)
      ensures Install(s, o, cfg, now)
           == Timed(Put(s, o, BucketSpec.New(cfg, now)), IdOf(o), cfg, NextRefillTime(BucketSpec.New(cfg, now)))
    {
    }

    // ---- addresses ---------------------------------------------------------------------------------

    /** A fresh bucket for an address, scheduled when it has an interval to refill at. */
    method InstallIp(ip: string, cfg: Config, now: int)
      requires Valid()
      modifies ips.Repr(), scheduler.Repr()
      ensures Valid() && fresh(ips.Repr() - old(ips.Repr())) && fresh(scheduler.Repr() - old(scheduler.Repr()))
      ensures Value() == Install(old(Value()), Ip(ip), cfg, now)
    {
      hide T.BucketTable.Valid;
      hide K.ClientTable.Valid;
      hide S.Scheduler.Valid;
      var next := NewIp(ip, cfg, now);
      if cfg.refillInterval > 0 {
        Plan(IP_ID_PREFIX + ip, next);
      }
    }

    method NewIp(ip: string, cfg: Config, now: int) returns (next: int)
      requires Valid()
      modifies ips
      ensures Valid() && fresh(ips.Repr() - old(ips.Repr()))
      ensures Value() == Put(old(Value()), Ip(ip), BucketSpec.New(cfg, now))
      ensures next == NextRefillTime(BucketSpec.New(cfg, now))
    {
      next := ips.InstallTimed(ip, cfg, now);
      IpsMoved();
    }

    method DropIp(ip: string)
      requires Valid()
      modifies ips`buckets, ips`value, scheduler.Repr()
      ensures Valid() && scheduler.Repr() <= old(scheduler.Repr()) && ips.Repr() == old(ips.Repr())
      ensures Value() == old(Value()).(ipBuckets := old(Value()).ipBuckets - {ip},
                                       plan := old(Value()).plan - {IdOf(Ip(ip))})
    {
      hide S.Scheduler.Valid;
      ips.Drop(ip);
      Unplan(IP_ID_PREFIX + ip);
    }

    // ---- clients -----------------------------------------------------------------------------------

    /** A new client with its default tier, scheduled when that has an interval to refill at. */
    method AddClient(key: string, cfg: Config, now: int)
      requires Valid() && key !in clients.value
      modifies clients.Repr(), scheduler.Repr()
      ensures Valid() && fresh(clients.Repr() - old(clients.Repr())) && fresh(scheduler.Repr() - old(scheduler.Repr()))
      ensures Value() == Install(WithClient(old(Value()), key), Tier(key, C.DEFAULT_TIER), cfg, now)
    {
      hide S.Scheduler.Valid;
      hide K.ClientTable.Valid;
      hide T.BucketTable.Valid;
      hide B.Bucket.Valid;
      var next := PutClient(key, cfg, now);
      if cfg.refillInterval > 0 {
        Plan(EncodeID(key, C.DEFAULT_TIER), next);
      }
    }

    method PutClient(key: string, cfg: Config, now: int) returns (next: int)
      requires Valid() && key !in clients.value
      modifies clients
      ensures Valid() && fresh(clients.Repr() - old(clients.Repr()))
      ensures Value() == Put(WithClient(old(Value()), key), Tier(key, C.DEFAULT_TIER), BucketSpec.New(cfg, now))
      ensures next == NextRefillTime(BucketSpec.New(cfg, now))
    {
      NewIsPut(Value(), key, cfg, now);
      next := NewClient(key, cfg, now);
    }

    static lemma NewIsPut(s: StoreState, key: string, cfg: Config, now: int)
      ensures Put(WithClient(s, key), Tier(key, C.DEFAULT_TIER), BucketSpec.New(cfg, now))
           == s.(clients := s.clients[key := C.Configure(C.New(key), C.DEFAULT_TIER, cfg, now)])
    {
    }

    method NewClient(key: string, cfg: Config, now: int) returns (next: int)
      requires Valid() && key !in clients.value
      modifies clients
      ensures Valid() && fresh(clients.Repr() - old(clients.Repr()))
      ensures Value() == old(Value()).(clients := clients.value)
      ensures clients.value == old(clients.value)[key := C.Configure(C.New(key), C.DEFAULT_TIER, cfg, now)]
      ensures next == NextRefillTime(BucketSpec.New(cfg, now))
    {
      hide S.Scheduler.Valid;
      hide K.ClientTable.Valid;
      hide T.BucketTable.Valid;
      hide B.Bucket.Valid;
      next := clients.AdmitTimed(key, cfg, now);
      ClientsMoved();
    }

    /** A fresh bucket for a client's tier, scheduled when it has an interval to refill at. */
    method InstallTier(key: string, tier: string, cfg: Config, now: int)
      requires Valid() && key in clients.value && tier != ""
      modifies clients.Repr(), scheduler.Repr()
      ensures Valid() && fresh(clients.Repr() - old(clients.Repr())) && fresh(scheduler.Repr() - old(scheduler.Repr()))
      ensures Value() == Install(old(Value()), Tier(key, tier), cfg, now)
    {
      hide S.Scheduler.Valid;
      hide K.ClientTable.Valid;
      hide T.BucketTable.Valid;
      hide B.Bucket.Valid;
      InstallIs(Value(), Tier(key, tier), cfg, now);
      ConfigureIsPut(Value(), key, tier, cfg, now);
      ConfigureTier(key, tier, cfg, now);
    }

    method ConfigureTier(key: string, tier: string, cfg: Config, now: int)
      requires Valid() && key in clients.value
      modifies clients.Repr(), scheduler.Repr()
      ensures Valid() && fresh(clients.Repr() - old(clients.Repr())) && fresh(scheduler.Repr() - old(scheduler.Repr()))
      ensures clients.value == old(clients.value)[key := C.Configure(old(clients.value)[key], tier, cfg, now)]
      ensures Value() == Timed(old(Value()).(clients := clients.value), EncodeID(key, tier), cfg,
                               NextRefillTime(BucketSpec.New(cfg, now)))
    {
      hide S.Scheduler.Valid;
      hide K.ClientTable.Valid;
      hide T.BucketTable.Valid;
      hide B.Bucket.Valid;
      var next := PutTier(key, tier, cfg, now);
      PlanTimed(EncodeID(key, tier), cfg, next);
    }

    method PutTier(key: string, tier: string, cfg: Config, now: int) returns (next: int)
      requires Valid() && key in clients.value
      modifies clients.Repr()
      ensures Valid() && fresh(clients.Repr() - old(clients.Repr())) && scheduler.Repr() == old(scheduler.Repr())
      ensures clients.value == old(clients.value)[key := C.Configure(old(clients.value)[key], tier, cfg, now)]
      ensures Value() == old(Value()).(clients := clients.value)
      ensures next == NextRefillTime(BucketSpec.New(cfg, now))
    {
      next := NewTier(key, tier, cfg, now);
      ClientsMoved();
    }

    static lemma ConfigureIsPut(s: StoreState, key: string, tier: string, cfg: Config, now: int)
      requires key in s.clients && tier != ""
      ensures Put(s, Tier(key, tier), BucketSpec.New(cfg, now))
           == s.(clients := s.clients[key := C.Configure(s.clients[key], tier, cfg, now)])
    {
    }

    method NewTier(key: string, tier: string, cfg: Config, now: int) returns (next: int)
      requires Apart() && clients.Valid() && key in clients.value
      modifies clients.Repr()
      ensures unchanged(this) && SameIps() && SameGlobal() && SameSchedule()
      ensures clients.Valid() && fresh(clients.Repr() - old(clients.Repr()))
      ensures clients.value == old(clients.value)[key := C.Configure(old(clients.value)[key], tier, cfg, now)]
      ensures next == NextRefillTime(BucketSpec.New(cfg, now))
    {
      hide S.Scheduler.Valid;
      hide K.ClientTable.Valid;
      hide T.BucketTable.Valid;
      hide B.Bucket.Valid;
      next := clients.ConfigureTimed(key, tier, cfg, now);
    }

    /** Evicts the client used least recently, if any. */
    method EvictLRU() returns (victim: string)
      requires Valid()
      modifies this`evictions, clients`clients, clients`value, scheduler.Repr()
      ensures Valid() && scheduler.Repr() <= old(scheduler.Repr())
      ensures Value() == StoreSpec.EvictLRU(old(Value()), victim)
      ensures old(Value()).clients != map[] ==> IsLeastRecent(old(Value()).clients, victim)
    {
      hide S.Scheduler.Valid;
      victim := LeastRecent();
      if victim != "" {
        EvictNamed(victim);
      }
    }

    method EvictNamed(victim: string)
      requires Valid() && victim in clients.value && victim != ""
      modifies this`evictions, clients`clients, clients`value, scheduler.Repr()
      ensures Valid() && scheduler.Repr() <= old(scheduler.Repr())
      ensures Value() == StoreSpec.EvictLRU(old(Value()), victim)
    {
      hide K.ClientTable.Valid;
      hide T.BucketTable.Valid;
      hide StoreSpec.EvictLRU;
      var tiers := TiersToDrop(victim);
      EvictClient(victim, tiers);
    }

    /** The tiers an eviction unschedules. */
    method TiersToDrop(victim: string) returns (tiers: seq<string>)
      requires Valid() && victim in clients.value && victim != ""
      ensures StoreSpec.EvictLRU(Value(), victim)
           == WithoutClient(Value(), victim).(plan := Value().plan - TierIdsOf(victim, tiers))
    {
      tiers := clients.TiersOf(victim);
      EvictIs(Value(), victim, tiers);
    }

    /** The client used least recently, or no name when there is none. */
    method LeastRecent() returns (oldest: string)
      requires Valid()
      ensures if Value().clients == map[] then oldest == "" else IsLeastRecent(Value().clients, oldest)
    {
      hide K.ClientTable.Valid;
      hide T.BucketTable.Valid;
      hide S.Scheduler.Valid;
      var n := clients.Count();
      if n == 0 {
        return "";
      }
      oldest := clients.Oldest();
    }

    method EvictClient(victim: string, tiers: seq<string>)
      requires Valid()
      modifies this`evictions, clients`clients, clients`value, scheduler.Repr()
      ensures Valid() && scheduler.Repr() <= old(scheduler.Repr())
      ensures Value() == WithoutClient(old(Value()), victim).(plan := old(Value()).plan - TierIdsOf(victim, tiers))
    {
      hide S.Scheduler.Valid;
      DropClient(victim);
      UnplanTiers(victim, tiers);
    }

    static lemma EvictIs(s: StoreState, victim: string, tiers: seq<string>)
      requires victim in s.clients && victim != "" && forall t :: t in tiers <==> t in s.clients[victim].buckets
      ensures StoreSpec.EvictLRU(s, victim) == WithoutClient(s, victim).(plan := s.plan - TierIdsOf(victim, tiers))
    {
      assert TierIdsOf(victim, tiers) == TierIds(victim, s.clients[victim]);
    }

    ghost static function WithoutClient(s: StoreState, key: string): StoreState {
      s.(clients := s.clients - {key}, evictions := s.evictions + 1)
    }

    method DropClient(key: string)
      requires Valid()
      modifies this`evictions, clients`clients, clients`value
      ensures Valid()
      ensures Value() == WithoutClient(old(Value()), key)
    {
      hide S.Scheduler.Valid;
      hide K.ClientTable.Valid;
      hide T.BucketTable.Valid;
      ForgetClient(key);
      evictions := evictions + 1;
    }

    method ForgetClient(key: string)
      requires Valid()
      modifies clients`clients, clients`value
      ensures Valid()
      ensures Value() == old(Value()).(clients := old(Value()).clients - {key})
    {
      clients.Drop(key);
      ClientsMoved();
    }

    method UnplanTiers(key: string, tiers: seq<string>)
      requires Valid()
      modifies scheduler.Repr()
      ensures Valid() && scheduler.Repr() <= old(scheduler.Repr())
      ensures Value() == old(Value()).(plan := old(Value()).plan - TierIdsOf(key, tiers))
    {
      RemoveTiers(scheduler, key, tiers);
    }

    static method RemoveTiers(scheduler: S.Scheduler, key: string, tiers: seq<string>)
      requires scheduler.Valid()
      modifies scheduler.Repr()
      ensures scheduler.Valid() && scheduler.Repr() <= old(scheduler.Repr())
      ensures scheduler.plan == old(scheduler.plan) - TierIdsOf(key, tiers)
    {
      ghost var plan := scheduler.plan;
      for i := 0 to |tiers|
        invariant scheduler.Valid() && scheduler.Repr() <= old(scheduler.Repr())
        invariant scheduler.plan == plan - TierIdsOf(key, tiers[..i])
      {
        scheduler.Remove(EncodeID(key, tiers[i]));
        OneMoreTier(plan, key, tiers, i);
      }
      assert tiers[..|tiers|] == tiers;
    }

    ghost static function TierIdsOf(key: string, tiers: seq<string>): set<string> {
      set t | t in tiers :: EncodeID(key, t)
    }

    static lemma OneMoreTier(plan: P.Plan, key: string, tiers: seq<string>, i: nat)
      requires i < |tiers|
      ensures plan - TierIdsOf(key, tiers[..i]) - {EncodeID(key, tiers[i])} == plan - TierIdsOf(key, tiers[..i + 1])
    {
      assert tiers[..i + 1] == tiers[..i] + [tiers[i]];
      assert TierIdsOf(key, tiers[..i + 1]) == TierIdsOf(key, tiers[..i]) + {EncodeID(key, tiers[i])};
    }

    // ---- finding or making ---------------------------------------------------------------------------

    /** Room for one more client; the victim is whom an eviction took, if one was needed. */
    method MakeRoom() returns (victim: string)
      requires Valid()
      modifies this`evictions, clients`clients, clients`value, scheduler.Repr()
      ensures Valid() && scheduler.Repr() <= old(scheduler.Repr())
      ensures Value() == O.Room(old(Value()), victim)
      ensures Full(old(Value())) ==> IsLeastRecent(old(Value()).clients, victim)
    {
      hide StoreSpec.EvictLRU;
      hide K.ClientTable.Valid;
      hide T.BucketTable.Valid;
      victim := "";
      var n := clients.Count();
      if maxClients > 0 && n >= maxClients {
        victim := EvictLRU();
      }
    }

    /** The client of a key, made with its default tier when it is not there. */
    method GetOrCreateClient(key: string, now: int) returns (victim: string)
      requires Valid()
      modifies this`evictions, clients.Repr(), scheduler.Repr()
      ensures Valid() && fresh(clients.Repr() - old(clients.Repr())) && fresh(scheduler.Repr() - old(scheduler.Repr()))
      ensures Value() == StoreSpec.GetOrCreateClient(old(Value()), key, now, victim)
      ensures VictimOK(old(Value()), key, victim)
    {
      hide StoreSpec.Install;
      hide StoreSpec.EvictLRU;
      hide K.ClientTable.Valid;
      hide T.BucketTable.Valid;
      var there := clients.Has(key);
      if there {
        return "";
      }
      victim := CreateClient(key, now);
    }

    method CreateClient(key: string, now: int) returns (victim: string)
      requires Valid() && key !in clients.value
      modifies this`evictions, clients.Repr(), scheduler.Repr()
      ensures Valid() && fresh(clients.Repr() - old(clients.Repr())) && fresh(scheduler.Repr() - old(scheduler.Repr()))
      ensures Value() == StoreSpec.GetOrCreateClient(old(Value()), key, now, victim)
      ensures VictimOK(old(Value()), key, victim)
    {
      hide StoreSpec.GetOrCreateClient;
      hide K.ClientTable.Valid;
      hide T.BucketTable.Valid;
      hide S.Scheduler.Valid;
      victim := MakeRoom();
      O.CreateIs(old(Value()), key, now, victim);
      var cfg := if C.DEFAULT_TIER in tierDefaults then tierDefaults[C.DEFAULT_TIER] else ZERO_CONFIG;
      AddClient(key, cfg, now);
    }

    /** The tier's bucket, made from its defaults when there are any. */
    method EnsureTier(key: string, tier: string, now: int)
      requires Valid() && key in clients.value
      modifies clients.Repr(), scheduler.Repr()
      ensures Valid() && fresh(clients.Repr() - old(clients.Repr())) && fresh(scheduler.Repr() - old(scheduler.Repr()))
      ensures Value() == StoreSpec.EnsureTier(old(Value()), key, tier, now)
    {
      hide StoreSpec.Install;
      hide K.ClientTable.Valid;
      hide T.BucketTable.Valid;
      if tier == "" || tier == C.DEFAULT_TIER {
        return;
      }
      var there := clients.HasTier(key, tier);
      if there || tier !in tierDefaults {
        return;
      }
      InstallTier(key, tier, tierDefaults[tier], now);
    }

    /** The address used least recently, or no name when there is none. */
    method LeastRecentIp() returns (oldest: string)
      requires Valid()
      ensures if Value().ipBuckets == map[] then oldest == "" else IsLeastRecentIp(Value().ipBuckets, oldest)
    {
      var n := ips.Count();
      if n == 0 {
        return "";
      }
      oldest := ips.Oldest();
    }

    /** The address used least recently loses its bucket, if any has one. */
    method EvictOldestIp() returns (victim: string)
      requires Valid()
      modifies ips`buckets, ips`value, scheduler.Repr()
      ensures Valid() && scheduler.Repr() <= old(scheduler.Repr()) && ips.Repr() == old(ips.Repr())
      ensures Value() == StoreSpec.EvictIp(old(Value()), victim)
      ensures old(Value()).ipBuckets != map[] ==> IsLeastRecentIp(old(Value()).ipBuckets, victim)
    {
      hide K.ClientTable.Valid;
      hide T.BucketTable.Valid;
      victim := LeastRecentIp();
      if victim != "" {
        DropIp(victim);
      }
    }

    method MakeRoomForIp() returns (victim: string)
      requires Valid()
      modifies ips`buckets, ips`value, scheduler.Repr()
      ensures Valid() && scheduler.Repr() <= old(scheduler.Repr()) && ips.Repr() == old(ips.Repr())
      ensures Value() == O.IpRoom(old(Value()), victim)
      ensures |old(Value()).ipBuckets| >= ipBucketCap ==> IsLeastRecentIp(old(Value()).ipBuckets, victim)
    {
      hide StoreSpec.EvictIp;
      hide K.ClientTable.Valid;
      hide T.BucketTable.Valid;
      victim := "";
      var n := ips.Count();
      if n >= ipBucketCap {
        victim := EvictOldestIp();
      }
    }

    /** The bucket of an address, made when it is not there. */
    method GetOrCreateIp(ip: string, now: int) returns (victim: string)
      requires Valid()
      modifies ips.Repr(), scheduler.Repr()
      ensures Valid() && fresh(ips.Repr() - old(ips.Repr())) && fresh(scheduler.Repr() - old(scheduler.Repr()))
      ensures Value() == StoreSpec.GetOrCreateIp(old(Value()), ip, now, victim)
      ensures IpVictimOK(old(Value()), ip, victim)
    {
      hide StoreSpec.Install;
      hide StoreSpec.EvictIp;
      hide K.ClientTable.Valid;
      hide T.BucketTable.Valid;
      var there := ips.Has(ip);
      if there {
        return "";
      }
      victim := CreateIp(ip, now);
    }

    method CreateIp(ip: string, now: int) returns (victim: string)
      requires Valid() && ip !in ips.value
      modifies ips.Repr(), scheduler.Repr()
      ensures Valid() && fresh(ips.Repr() - old(ips.Repr())) && fresh(scheduler.Repr() - old(scheduler.Repr()))
      ensures Value() == StoreSpec.GetOrCreateIp(old(Value()), ip, now, victim)
      ensures IpVictimOK(old(Value()), ip, victim)
    {
      hide StoreSpec.IsLeastRecentIp;
      hide StoreSpec.Install;
      hide O.IpRoom;
      hide StoreSpec.GetOrCreateIp;
      hide Valid;
      var cfg := if ipConfig.Some? then ipConfig.value else FALLBACK_IP_CONFIG;
      victim := MakeRoomForIp();
      CreateIpIs(old(Value()), ip, now, victim);
      InstallIp(ip, cfg, now);
    }

    static lemma CreateIpIs(s: StoreState, ip: string, now: int, victim: string)
      requires ip !in s.ipBuckets
      ensures StoreSpec.GetOrCreateIp(s, ip, now, victim) == Install(O.IpRoom(s, victim), Ip(ip), IpConfig(s), now)
    {
    }

    // ---- the decision ----------------------------------------------------------------------------------

    /** The client's own decision, once its tier is in place. */
    method Serve(key: string, tier: string, now: int, ghost r: Request) returns (result: AllowResult)
      requires Valid() && key in clients.value && r.key == key && r.tier == tier && r.now == now
      modifies clients.Repr()
      ensures Valid() && clients.Repr() == old(clients.Repr())
      ensures (Value(), result) == StoreSpec.Serve(old(Value()), r)
    {
      hide StoreSpec.Serve;
      hide K.ClientTable.Valid;
      hide T.BucketTable.Valid;
      ServeIs(Value(), r);
      var allowed, retryAfter := CallClient(key, tier, now);
      result := Answer(key, tier, allowed, retryAfter);
    }

    method Answer(key: string, tier: string, allowed: bool, retryAfter: int) returns (result: AllowResult)
      requires Valid() && key in clients.value
      ensures Valid()
      ensures result == if allowed then AllowResult(true, K.ClientTable.BalanceOf(clients.value[key], tier), 0, Ok)
                        else AllowResult(false, 0, retryAfter, ClientLimit)
    {
      hide S.Scheduler.Valid;
      hide K.ClientTable.Holds;
      if !allowed {
        return AllowResult(false, 0, retryAfter, ClientLimit);
      }
      var remaining := clients.BalanceIn(key, tier);
      return AllowResult(true, remaining, 0, Ok);
    }

    /** Serving a request is the client's Allow and then a look at the balance that answered. */
    static lemma ServeIs(s: StoreState, r: Request)
      requires r.key in s.clients
      ensures var (c, reply) := C.Allow(s.clients[r.key], r.tier, r.now);
              StoreSpec.Serve(s, r) == (s.(clients := s.clients[r.key := c]),
                if reply.allowed then AllowResult(true, K.ClientTable.BalanceOf(c, r.tier), 0, Ok)
                else AllowResult(false, 0, reply.retryAfter, ClientLimit))
    {
      var c := C.Allow(s.clients[r.key], r.tier, r.now).0;
      if C.ServingTier(s.clients[r.key], r.tier).None? {
        assert s.clients[r.key := c] == s.clients;
      }
    }

    method CallClient(key: string, tier: string, now: int) returns (allowed: bool, retryAfter: int)
      requires Valid() && key in clients.value
      modifies clients.Repr()
      ensures Valid() && clients.Repr() == old(clients.Repr())
      ensures var (c, reply) := C.Allow(old(Value()).clients[key], tier, now);
        Value() == old(Value()).(clients := old(Value()).clients[key := c]) && Reply(allowed, retryAfter) == reply
    {
      allowed, retryAfter := clients.AllowIn(key, tier, now);
      ClientsMoved();
    }

    /** The last gate: the client's tier. */
    method ClientGate(key: string, tier: string, now: int, ghost ip: string, ghost ipVictim: string)
      returns (result: AllowResult, victim: string)
      requires Valid()
      modifies this`evictions, clients.Repr(), scheduler.Repr()
      ensures Valid() && fresh(clients.Repr() - old(clients.Repr())) && fresh(scheduler.Repr() - old(scheduler.Repr()))
      ensures (Value(), result) == StoreSpec.ClientGate(old(Value()), Request(key, ip, tier, now, victim, ipVictim))
      ensures VictimOK(old(Value()), key, victim)
    {
      hide StoreSpec.GetOrCreateClient;
      hide StoreSpec.EnsureTier;
      hide StoreSpec.Serve;
      hide K.ClientTable.Valid;
      hide T.BucketTable.Valid;
      victim := GetOrCreateClient(key, now);
      Created(old(Value()), key, now, victim);
      ghost var r := Request(key, ip, tier, now, victim, ipVictim);
      result := AfterCreate(key, tier, now, r);
    }

    static lemma Created(s: StoreState, key: string, now: int, victim: string)
      ensures key in StoreSpec.GetOrCreateClient(s, key, now, victim).clients
    {
    }

    /** What ClientGate does with the client in place. */
    ghost static function Decided(s: StoreState, r: Request): (StoreState, AllowResult)
      requires r.key in s.clients
    {
      if C.IsBlocked(s.clients[r.key]) then (s, AllowResult(false, 0, SECOND, Blocked))
      else StoreSpec.Serve(StoreSpec.EnsureTier(s, r.key, r.tier, r.now), r)
    }

    method AfterCreate(key: string, tier: string, now: int, ghost r: Request) returns (result: AllowResult)
      requires Valid() && key in clients.value && r.key == key && r.tier == tier && r.now == now
      modifies clients.Repr(), scheduler.Repr()
      ensures Valid() && fresh(clients.Repr() - old(clients.Repr())) && fresh(scheduler.Repr() - old(scheduler.Repr()))
      ensures (Value(), result) == Decided(old(Value()), r)
    {
      hide StoreSpec.EnsureTier;
      hide StoreSpec.Serve;
      hide K.ClientTable.Valid;
      hide T.BucketTable.Valid;
      var blocked := clients.IsBlocked(key);
      if blocked {
        return AllowResult(false, 0, SECOND, Blocked);
      }
      TierKeepsClient(Value(), key, tier, now);
      EnsureTier(key, tier, now);
      result := Serve(key, tier, now, r);
    }

    static lemma TierKeepsClient(s: StoreState, key: string, tier: string, now: int)
      ensures key in s.clients ==> key in StoreSpec.EnsureTier(s, key, tier, now).clients
    {
    }

    /** The gate of the source address, when there is one and the limit is on. */
    method IpGate(ip: string, now: int) returns (allowed: bool, retryAfter: int, victim: string)
      requires Valid()
      modifies ips.Repr(), scheduler.Repr()
      ensures Valid() && fresh(ips.Repr() - old(ips.Repr())) && fresh(scheduler.Repr() - old(scheduler.Repr()))
      ensures (Value(), Reply(allowed, retryAfter)) == GateOfIp(old(Value()), ip, now, victim)
      ensures ipLimitEnabled && ip != "" ==> IpVictimOK(old(Value()), ip, victim)
    {
      hide StoreSpec.GetOrCreateIp;
      hide StoreSpec.AllowAt;
      hide K.ClientTable.Valid;
      hide T.BucketTable.Valid;
      allowed, retryAfter, victim := true, 0, "";
      if ipLimitEnabled && ip != "" {
        victim := GetOrCreateIp(ip, now);
        IpCreated(old(Value()), ip, now, victim);
        allowed, retryAfter := IpGateAt(ip, now);
      }
    }

    ghost static function GateOfIp(s: StoreState, ip: string, now: int, victim: string): (StoreState, Reply) {
      if s.ipEnabled && ip != "" then AllowAt(StoreSpec.GetOrCreateIp(s, ip, now, victim), Ip(ip), now)
      else (s, Reply(true, 0))
    }

    static lemma IpCreated(s: StoreState, ip: string, now: int, victim: string)
      ensures ip in StoreSpec.GetOrCreateIp(s, ip, now, victim).ipBuckets
    {
    }

    /** What is left to decide once the global gate has let a request through. */
    ghost static function AfterGlobal(s: StoreState, r: Request): (StoreState, AllowResult) {
      var (s2, i) := StoreSpec.IpGate(s, r);
      if !i.allowed then (s2, AllowResult(false, 0, i.retryAfter, IpLimit)) else StoreSpec.ClientGate(s2, r)
    }

    static lemma GateOfIpIs(s: StoreState, r: Request)
      ensures StoreSpec.IpGate(s, r) == GateOfIp(s, r.ip, r.now, r.ipVictim)
      ensures VictimOK(StoreSpec.IpGate(s, r).0, r.key, r.victim) <==> VictimOK(s, r.key, r.victim)
    {
      E.GatesLeaveClients(s, r);
    }

    method DecideAfterGlobal(key: string, ip: string, tier: string, now: int)
      returns (result: AllowResult, ghost victim: string, ghost ipVictim: string)
      requires Valid()
      modifies this`evictions, clients.Repr(), ips.Repr(), scheduler.Repr()
      ensures Valid() && fresh(clients.Repr() - old(clients.Repr())) && fresh(ips.Repr() - old(ips.Repr()))
           && fresh(scheduler.Repr() - old(scheduler.Repr()))
      ensures (Value(), result) == AfterGlobal(old(Value()), Request(key, ip, tier, now, victim, ipVictim))
      ensures VictimOK(old(Value()), key, victim)
      ensures ipLimitEnabled && ip != "" ==> IpVictimOK(old(Value()), ip, ipVictim)
    {
      hide StoreSpec.ClientGate;
      hide StoreSpec.IpGate;
      hide StoreSpec.VictimOK;
      hide GateOfIp;
      hide K.ClientTable.Valid;
      hide T.BucketTable.Valid;
      ghost var s := Value();
      var allowed, retryAfter, ipVictim' := IpGate(ip, now);
      ipVictim := ipVictim';
      if !allowed {
        E.SomeVictim(s, key);
        victim :| VictimOK(s, key, victim);
        GateOfIpIs(s, Request(key, ip, tier, now, victim, ipVictim));
        return AllowResult(false, 0, retryAfter, IpLimit), victim, ipVictim;
      }
      var victim';
      result, victim' := ClientGate(key, tier, now, ip, ipVictim);
      victim := victim';
      GateOfIpIs(s, Request(key, ip, tier, now, victim, ipVictim));
    }

    /** One request, through the global gate, the gate of its address and its client's, in that order. The
        ghost results name the evictions made on the way; both are ones the specification allows. */
    method Allow(key: string, ip: string, tier: string, now: int)
      returns (result: AllowResult, ghost victim: string, ghost ipVictim: string)
      requires Valid()
      modifies Repr()
      ensures Valid() && fresh(Repr() - old(Repr()))
      ensures (Value(), result) == AllowRequest(old(Value()), Request(key, ip, tier, now, victim, ipVictim))
      ensures Possible(old(Value()), Ask(Request(key, ip, tier, now, victim, ipVictim)))
    {
      hide StoreSpec.AllowRequest;
      hide StoreSpec.Possible;
      hide Valid;
      hide Value;
      result, victim, ipVictim := Decide(key, ip, tier, now);
    }

    method Decide(key: string, ip: string, tier: string, now: int)
      returns (result: AllowResult, ghost victim: string, ghost ipVictim: string)
      requires Valid()
      modifies this`evictions, GlobalRepr(), clients.Repr(), ips.Repr(), scheduler.Repr()
      ensures Valid() && fresh(clients.Repr() - old(clients.Repr())) && fresh(ips.Repr() - old(ips.Repr()))
           && fresh(scheduler.Repr() - old(scheduler.Repr())) && GlobalRepr() == old(GlobalRepr())
      ensures (Value(), result) == AllowRequest(old(Value()), Request(key, ip, tier, now, victim, ipVictim))
      ensures Possible(old(Value()), Ask(Request(key, ip, tier, now, victim, ipVictim)))
    {
      hide S.Scheduler.Valid;
      hide StoreSpec.AllowAt;
      hide StoreSpec.AllowRequest;
      hide AfterGlobal;
      hide StoreSpec.VictimOK;
      hide StoreSpec.IpVictimOK;
      hide StoreSpec.Possible;
      hide K.ClientTable.Valid;
      hide T.BucketTable.Valid;
      ghost var s := Value();
      var allowed, retryAfter := GlobalGate(now);
      if !allowed {
        victim, ipVictim := AnyVictims(s, key, ip);
        result := AllowResult(false, 0, retryAfter, GlobalLimit);
      } else {
        result, victim, ipVictim := DecideAfterGlobal(key, ip, tier, now);
      }
      RequestIs(s, Request(key, ip, tier, now, victim, ipVictim));
    }

    /** Victims for evictions that are not made. */
    static lemma AnyVictims(s: StoreState, key: string, ip: string) returns (victim: string, ipVictim: string)
      requires s.ipCap > 0
      ensures VictimOK(s, key, victim) && IpVictimOK(s, ip, ipVictim)
    {
      E.SomeVictim(s, key);
      E.SomeIpVictim(s, ip);
      victim :| VictimOK(s, key, victim);
      ipVictim :| IpVictimOK(s, ip, ipVictim);
    }

    static lemma RequestIs(s: StoreState, r: Request)
      ensures var (s1, g) := AllowAt(s, Global, r.now);
        && AllowRequest(s, r) == (if g.allowed then AfterGlobal(s1, r)
                                  else (s1, AllowResult(false, 0, g.retryAfter, GlobalLimit)))
        && (Possible(s, Ask(r))
            <==> VictimOK(s1, r.key, r.victim) && (IpGated(s1, r) ==> IpVictimOK(s1, r.ip, r.ipVictim)))
        && (Possible(s, Ask(r))
            <==> VictimOK(s, r.key, r.victim) && (IpGated(s, r) ==> IpVictimOK(s, r.ip, r.ipVictim)))
    {
      E.GatesLeaveClients(s, r);
      E.GlobalGateLeavesGating(s, r);
    }

    // ---- the scheduler's callback ------------------------------------------------------------------------

    /** The bucket at o refilled, and when it refills next; nothing when there is none. */
    ghost static function RefillAt(s: StoreState, o: Owner, now: int): (StoreState, Option<int>) {
      match BucketAt(s, o)
      case None => (s, None)
      case Some(b) => (Put(s, o, Refill(b, now)), Some(NextRefillTime(Refill(b, now))))
    }

    method RefillGlobal(now: int) returns (next: Option<int>)
      requires Valid()
      modifies GlobalRepr()
      ensures Valid() && GlobalRepr() == old(GlobalRepr())
      ensures (Value(), next) == RefillAt(old(Value()), Global, now)
    {
      hide K.ClientTable.Valid;
      hide T.BucketTable.Valid;
      if globalBucket == null {
        return None;
      }
      CallGlobal(now);
      var at := NextOfGlobal();
      return Some(at);
    }

    method CallGlobal(now: int)
      requires Valid() && globalBucket != null
      modifies GlobalRepr()
      ensures Valid() && GlobalRepr() == old(GlobalRepr())
      ensures Value() == old(Value()).(global := Some(Refill(old(globalBucket.state), now)))
    {
      globalBucket.ScheduledRefill(now);
    }

    method NextOfGlobal() returns (next: int)
      requires Valid() && globalBucket != null
      ensures Valid() && next == NextRefillTime(globalBucket.state)
    {
      next := globalBucket.NextRefillTime();
    }

    method RefillIp(ip: string, now: int) returns (next: Option<int>)
      requires Valid()
      modifies ips.Repr()
      ensures Valid() && ips.Repr() == old(ips.Repr())
      ensures (Value(), next) == RefillAt(old(Value()), Ip(ip), now)
    {
      var there := ips.Has(ip);
      if !there {
        return None;
      }
      var at := RefillKnownIp(ip, now);
      return Some(at);
    }

    method RefillKnownIp(ip: string, now: int) returns (next: int)
      requires Valid() && ip in ips.value
      modifies ips.Repr()
      ensures Valid() && ips.Repr() == old(ips.Repr())
      ensures (Value(), Some(next)) == RefillAt(old(Value()), Ip(ip), now)
    {
      next := ips.RefillIn(ip, now);
      IpsMoved();
    }

    /** The bucket of a client's tier, the empty name being the default's. */
    method RefillTier(key: string, tier: string, now: int) returns (next: Option<int>)
      requires Valid()
      modifies clients.Repr()
      ensures Valid() && clients.Repr() == old(clients.Repr())
      ensures (Value(), next) == RefillAt(old(Value()), Tier(key, C.TierName(tier)), now)
    {
      hide K.ClientTable.Valid;
      hide T.BucketTable.Valid;
      var there := clients.Has(key);
      if !there {
        return None;
      }
      there := clients.HasTier(key, tier);
      if !there {
        return None;
      }
      RefillTierIs(Value(), key, tier, now);
      var at := CallRefill(key, tier, now);
      return Some(at);
    }

    static lemma RefillTierIs(s: StoreState, key: string, tier: string, now: int)
      requires key in s.clients && C.BucketOf(s.clients[key], tier).Some?
      ensures RefillAt(s, Tier(key, C.TierName(tier)), now)
           == (s.(clients := s.clients[key := C.Refilled(s.clients[key], tier, now)]),
               Some(C.NextAfter(s.clients[key], tier, now)))
    {
    }

    method CallRefill(key: string, tier: string, now: int) returns (next: int)
      requires Valid() && key in clients.value && C.BucketOf(clients.value[key], tier).Some?
      modifies clients.Repr()
      ensures Valid() && clients.Repr() == old(clients.Repr())
      ensures var s := old(Value());
              && Value() == s.(clients := s.clients[key := C.Refilled(s.clients[key], tier, now)])
              && next == C.NextAfter(s.clients[key], tier, now)
    {
      hide K.ClientTable.Valid;
      hide T.BucketTable.Valid;
      hide S.Scheduler.Valid;
      hide C.Refilled;
      hide C.NextAfter;
      next := clients.RefillIn(key, tier, now);
      ClientsMoved();
    }

    /** The scheduler's callback: finds the bucket an id names, refills it and says when to come back. */
    method OnDue(id: string, now: int) returns (next: Option<int>)
      requires Valid()
      modifies GlobalRepr(), clients.Repr(), ips.Repr()
      ensures Valid() && GlobalRepr() == old(GlobalRepr())
      ensures clients.Repr() == old(clients.Repr()) && ips.Repr() == old(ips.Repr())
      ensures (Value(), next) == StoreSpec.OnDue(old(Value()), id, now)
    {
      hide S.Scheduler.Valid;
      hide RefillAt;
      hide StoreSpec.OnDue;
      hide K.ClientTable.Valid;
      hide T.BucketTable.Valid;
      OnDueIs(Value(), id, now);
      if id == GLOBAL_BUCKET_ID {
        next := RefillGlobal(now);
      } else if IP_ID_PREFIX <= id {
        next := RefillIp(id[|IP_ID_PREFIX|..], now);
      } else {
        var parts := DecodeID(id);
        if parts.None? {
          return None;
        }
        next := RefillTier(parts.value.0, parts.value.1, now);
      }
    }

    static lemma OnDueIs(s: StoreState, id: string, now: int)
      ensures StoreSpec.OnDue(s, id, now)
           == if OwnerOf(id).None? then (s, None) else RefillAt(s, Named(OwnerOf(id).value), now)
    {
    }

    /** One drained id: its callback, and its next place in the schedule. */
    method AnswerDue(id: string, now: int)
      requires Valid()
      modifies GlobalRepr(), clients.Repr(), ips.Repr(), scheduler.Repr()
      ensures Valid() && GlobalRepr() == old(GlobalRepr()) && clients.Repr() == old(clients.Repr())
           && ips.Repr() == old(ips.Repr()) && fresh(scheduler.Repr() - old(scheduler.Repr()))
      ensures Value() == StoreSpec.AnswerDue(old(Value()), id, now)
    {
      hide StoreSpec.OnDue;
      hide K.ClientTable.Valid;
      hide T.BucketTable.Valid;
      var next := OnDue(id, now);
      if next.Some? {
        Plan(id, next.value);
      }
    }

    /** One pass of the scheduler: drains what is due and answers each id in turn. */
    method ProcessDue(now: int) returns (due: seq<string>)
      requires Valid()
      modifies GlobalRepr(), clients.Repr(), ips.Repr(), scheduler.Repr()
      ensures Valid() && GlobalRepr() == old(GlobalRepr()) && clients.Repr() == old(clients.Repr())
           && ips.Repr() == old(ips.Repr()) && fresh(scheduler.Repr() - old(scheduler.Repr()))
      ensures Value() == StoreSpec.ProcessDue(old(Value()), due, now)
      ensures Possible(old(Value()), Pass(due, now))
    {
      hide S.Scheduler.Valid;
      hide StoreSpec.AnswerDue;
      hide Valid;
      due := Drain(now);
      AnswerAll(due, now);
    }

    method Drain(now: int) returns (due: seq<string>)
      requires Valid()
      modifies scheduler.Repr()
      ensures Valid() && scheduler.Repr() <= old(scheduler.Repr())
      ensures Value() == old(Value()).(plan := P.Without(old(Value()).plan, due))
      ensures P.Drains(old(Value()).plan, now, due)
    {
      due := scheduler.DrainDue(now);
    }

    method AnswerAll(due: seq<string>, now: int)
      requires Valid()
      modifies GlobalRepr(), clients.Repr(), ips.Repr(), scheduler.Repr()
      ensures Valid() && GlobalRepr() == old(GlobalRepr()) && clients.Repr() == old(clients.Repr())
           && ips.Repr() == old(ips.Repr()) && fresh(scheduler.Repr() - old(scheduler.Repr()))
      ensures Value() == StoreSpec.AnswerAll(old(Value()), due, now)
    {
      hide StoreSpec.AnswerDue;
      hide StoreSpec.AnswerAll;
      hide Valid;
      ghost var s := Value();
      AnswerNone(s, due, now);
      for i := 0 to |due|
        invariant Valid() && GlobalRepr() == old(GlobalRepr()) && clients.Repr() == old(clients.Repr())
        invariant ips.Repr() == old(ips.Repr()) && fresh(scheduler.Repr() - old(scheduler.Repr()))
        invariant Value() == StoreSpec.AnswerAll(s, due[..i], now)
      {
        AnswerDue(due[i], now);
        AnswerMore(s, due, i, now);
      }
      assert due[..|due|] == due;
    }

    static lemma AnswerNone(s: StoreState, due: seq<string>, now: int)
      ensures StoreSpec.AnswerAll(s, due[..0], now) == s
    {
    }

    static lemma AnswerMore(s: StoreState, due: seq<string>, i: nat, now: int)
      requires i < |due|
      ensures StoreSpec.AnswerAll(s, due[..i + 1], now)
           == StoreSpec.AnswerDue(StoreSpec.AnswerAll(s, due[..i], now), due[i], now)
    {
      assert due[..i + 1][..i] == due[..i];
    }

    // ---- administration -----------------------------------------------------------------------------------

    /** Sets or replaces the configuration of a client's tier, making the client if need be. */
    method UpdateClientConfig(key: string, tier: string, cfg: Config, now: int) returns (victim: string)
      requires Valid()
      modifies this`evictions, clients.Repr(), scheduler.Repr()
      ensures Valid() && fresh(clients.Repr() - old(clients.Repr())) && fresh(scheduler.Repr() - old(scheduler.Repr()))
      ensures Value() == StoreSpec.UpdateClientConfig(old(Value()), key, tier, cfg, now, victim)
      ensures Possible(old(Value()), Configure(key, tier, cfg, now, victim))
    {
      hide StoreSpec.GetOrCreateClient;
      hide StoreSpec.Install;
      hide StoreSpec.VictimOK;
      hide K.ClientTable.Valid;
      hide T.BucketTable.Valid;
      victim := GetOrCreateClient(key, now);
      Created(old(Value()), key, now, victim);
      Reinstall(key, if tier == "" then C.DEFAULT_TIER else tier, cfg, now);
    }

    method Reinstall(key: string, tier: string, cfg: Config, now: int)
      requires Valid() && key in clients.value && tier != ""
      modifies clients.Repr(), scheduler.Repr()
      ensures Valid() && fresh(clients.Repr() - old(clients.Repr())) && fresh(scheduler.Repr() - old(scheduler.Repr()))
      ensures Value() == Install(Unschedule(old(Value()), Tier(key, tier)), Tier(key, tier), cfg, now)
    {
      hide StoreSpec.Install;
      hide StoreSpec.Unschedule;
      hide K.ClientTable.Valid;
      hide T.BucketTable.Valid;
      UnplanTier(key, tier);
      InstallTier(key, tier, cfg, now);
    }

    method UnplanTier(key: string, tier: string)
      requires Valid()
      modifies scheduler.Repr()
      ensures Valid() && scheduler.Repr() <= old(scheduler.Repr()) && clients.value == old(clients.value)
      ensures Value() == Unschedule(old(Value()), Tier(key, tier))
    {
      hide S.Scheduler.Valid;
      hide K.ClientTable.Valid;
      hide T.BucketTable.Valid;
      Unplan(EncodeID(key, tier));
    }

    method SetBlocked(key: string, on: bool)
      requires Valid() && key in clients.value
      modifies clients.Repr()
      ensures Valid() && clients.Repr() == old(clients.Repr())
      ensures Value() == StoreSpec.SetBlocked(old(Value()), key, on)
    {
      clients.BlockIn(key, on);
      ClientsMoved();
    }

    method Block(key: string, now: int) returns (victim: string)
      requires Valid()
      modifies this`evictions, clients.Repr(), scheduler.Repr()
      ensures Valid() && fresh(clients.Repr() - old(clients.Repr())) && fresh(scheduler.Repr() - old(scheduler.Repr()))
      ensures Value() == StoreSpec.Block(old(Value()), key, now, victim)
      ensures Possible(old(Value()), BlockClient(key, now, victim))
    {
      hide StoreSpec.GetOrCreateClient;
      hide StoreSpec.SetBlocked;
      hide StoreSpec.VictimOK;
      hide K.ClientTable.Valid;
      hide T.BucketTable.Valid;
      victim := GetOrCreateClient(key, now);
      Created(old(Value()), key, now, victim);
      SetBlocked(key, true);
    }

    /** Clears a block; nothing to do for a key not tracked. */
    method Unblock(key: string)
      requires Valid()
      modifies clients.Repr()
      ensures Valid() && clients.Repr() == old(clients.Repr())
      ensures Value() == StoreSpec.Unblock(old(Value()), key)
    {
      var there := clients.Has(key);
      if there {
        SetBlocked(key, false);
      }
    }

    /** A fresh global bucket in place of the one there was. */
    method SetGlobalConfig(cfg: Config, now: int)
      requires Valid()
      modifies this`globalBucket, scheduler.Repr()
      ensures Valid() && fresh(GlobalRepr()) && fresh(scheduler.Repr() - old(scheduler.Repr()))
      ensures Value() == StoreSpec.SetGlobalConfig(old(Value()), cfg, now)
    {
      hide K.ClientTable.Valid;
      hide T.BucketTable.Valid;
      hide S.Scheduler.Valid;
      var next := NewGlobal(cfg, now);
      Unplan(GLOBAL_BUCKET_ID);
      PlanTimed(GLOBAL_BUCKET_ID, cfg, next);
    }

    method NewGlobal(cfg: Config, now: int) returns (next: int)
      requires Valid()
      modifies this`globalBucket
      ensures Valid() && fresh(GlobalRepr())
      ensures Value() == old(Value()).(global := Some(BucketSpec.New(cfg, now)))
      ensures next == NextRefillTime(BucketSpec.New(cfg, now))
    {
      var b := new B.Bucket(cfg, now);
      next := b.NextRefillTime();
      globalBucket := b;
      GlobalMoved();
    }

    method DisableGlobal()
      requires Valid()
      modifies this`globalBucket, scheduler.Repr()
      ensures Valid() && GlobalRepr() == {} && scheduler.Repr() <= old(scheduler.Repr())
      ensures Value() == StoreSpec.DisableGlobal(old(Value()))
    {
      hide K.ClientTable.Valid;
      hide T.BucketTable.Valid;
      globalBucket := null;
      Unplan(GLOBAL_BUCKET_ID);
    }

    /** Turns the limit by address on or off; turning it off forgets every address. */
    method SetIPLimit(enabled: bool, cfg: Config)
      requires Valid()
      modifies this`ipLimitEnabled, this`ipConfig, ips`buckets, ips`value, scheduler.Repr()
      ensures Valid() && scheduler.Repr() <= old(scheduler.Repr()) && ips.Repr() == old(ips.Repr())
      ensures Value() == StoreSpec.SetIPLimit(old(Value()), enabled, cfg)
    {
      hide K.ClientTable.Valid;
      hide T.BucketTable.Valid;
      ipLimitEnabled := enabled;
      ipConfig := Some(cfg);
      if !enabled {
        ForgetIps();
      }
    }

    method ForgetIps()
      requires Valid()
      modifies ips`buckets, ips`value, scheduler.Repr()
      ensures Valid() && scheduler.Repr() <= old(scheduler.Repr()) && ips.Repr() == old(ips.Repr())
      ensures Value() == Forgotten(old(Value()), old(Value()).ipBuckets.Keys)
      ensures ips.value == map[]
    {
      hide Forgotten;
      hide K.ClientTable.Valid;
      hide T.BucketTable.Valid;
      ghost var s := Value();
      ForgetEnds(s);
      var left := ips.Names();
      ghost var gone := {};
      while left != {}
        invariant Valid() && scheduler.Repr() <= old(scheduler.Repr()) && ips.Repr() == old(ips.Repr())
        invariant gone + left == s.ipBuckets.Keys
        invariant Value() == Forgotten(s, gone)
        decreases left
      {
        var ip :| ip in left;
        ForgetIp(ip, s, gone);
        left, gone := left - {ip}, gone + {ip};
      }
      assert gone == s.ipBuckets.Keys;
    }

    method ForgetIp(ip: string, ghost s: StoreState, ghost gone: set<string>)
      requires Valid() && Value() == Forgotten(s, gone)
      modifies ips`buckets, ips`value, scheduler.Repr()
      ensures Valid() && scheduler.Repr() <= old(scheduler.Repr()) && ips.Repr() == old(ips.Repr())
      ensures Value() == Forgotten(s, gone + {ip})
    {
      hide Forgotten;
      hide K.ClientTable.Valid;
      hide T.BucketTable.Valid;
      ForgetOne(s, gone, ip);
      DropIp(ip);
    }

    /** The state with some addresses forgotten. */
    ghost static function Forgotten(s: StoreState, gone: set<string>): StoreState {
      s.(ipBuckets := s.ipBuckets - gone, plan := s.plan - set ip | ip in gone :: IdOf(Ip(ip)))
    }

    static lemma ForgetEnds(s: StoreState)
      ensures Forgotten(s, {}) == s && Forgotten(s, s.ipBuckets.Keys).ipBuckets == map[]
    {
      assert s.plan - (set ip | ip in {} :: IdOf(Ip(ip))) == s.plan;
    }

    static lemma ForgetOne(s: StoreState, gone: set<string>, ip: string)
      ensures Forgotten(s, gone + {ip})
           == Forgotten(s, gone).(ipBuckets := Forgotten(s, gone).ipBuckets - {ip},
                                  plan := Forgotten(s, gone).plan - {IdOf(Ip(ip))})
    {
      assert (set i | i in gone + {ip} :: IdOf(Ip(i))) == (set i | i in gone :: IdOf(Ip(i))) + {IdOf(Ip(ip))};
    }
  }
}
