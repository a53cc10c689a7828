/** Least-recently-used eviction over whole runs, and the counts it keeps. */
module StoreEviction {
  import opened Wrappers
  import opened BucketSpec
  import opened StoreIds
  import opened StoreSpec
  import opened StoreAgreement
  import C = ClientSpec
  import P = SchedulerSpec
  import O = StoreOptimisation

  // ---- access times ------------------------------------------------------------------------------------

  lemma LatestIs(buckets: map<string, BucketState>, latest: int)
    requires C.IsLatest(buckets, latest)
    ensures C.LatestOf(buckets) == latest
  {
    C.LatestUnique(buckets, latest, C.LatestOf(buckets));
  }

  /** Setting one bucket's access time to a new maximum makes it the client's. */
  lemma TouchIsLatest(buckets: map<string, BucketState>, tier: string, b: BucketState)
    requires C.LatestOf(buckets) <= b.lastAccess && b.lastAccess > ZERO_TIME
    ensures C.LatestOf(buckets[tier := b]) == b.lastAccess
  {
    var m := buckets[tier := b];
    assert tier in m && m[tier].lastAccess == b.lastAccess;
    LatestIs(m, b.lastAccess);
  }

  /** k's last access, as eviction reads it. */
  ghost function Access(s: StoreState, k: string): int
    requires k in s.clients
  {
    C.LastAccess(s.clients[k])
  }

  /** The key whose access time an operation sets: a new client's, a reconfigured one's, or that of a
      request that reaches an unblocked client. */
  function Touch(s: StoreState, op: Op): seq<string> {
    match op
    case Ask(r) => if Reaches(s, r) && !(r.key in s.clients && C.IsBlocked(s.clients[r.key])) then [r.key] else []
    case Configure(key, _, _, _, _) => [key]
    case BlockClient(key, _, _) => if key in s.clients then [] else [key]
    case _ => []
  }

  /** Both outer gates let the request through to its client. */
  predicate Reaches(s: StoreState, r: Request) {
    GlobalGate(s, r).1.allowed && IpGate(GlobalGate(s, r).0, r).1.allowed
  }

  lemma GatesLeaveClients(s: StoreState, r: Request)
    ensures GlobalGate(s, r).0.clients == s.clients && GlobalGate(s, r).0.evictions == s.evictions
    ensures GlobalGate(s, r).0.maxClients == s.maxClients && GlobalGate(s, r).0.tierDefaults == s.tierDefaults
    ensures IpGate(s, r).0.clients == s.clients && IpGate(s, r).0.evictions == s.evictions
    ensures IpGate(s, r).0.maxClients == s.maxClients && IpGate(s, r).0.tierDefaults == s.tierDefaults
  {
    hide AllowAt;
    hide GetOrCreateIp;
    var t := GetOrCreateIp(s, r.ip, r.now, r.ipVictim);
    OuterAllow(s, Global, r.now);
    OuterAllow(t, Ip(r.ip), r.now);
    NewIpLeavesClients(s, r.ip, r.now, r.ipVictim);
  }

  /** The outer gates' own buckets are not the clients'. */
  lemma OuterAllow(s: StoreState, o: Owner, now: int)
    requires !o.Tier?
    ensures var t := AllowAt(s, o, now).0;
      && t.clients == s.clients && t.evictions == s.evictions
      && t.maxClients == s.maxClients && t.tierDefaults == s.tierDefaults
  {
    hide BucketSpec.Allow;
  }

  lemma NewIpLeavesClients(s: StoreState, ip: string, now: int, victim: string)
    ensures var t := GetOrCreateIp(s, ip, now, victim);
      && t.clients == s.clients && t.evictions == s.evictions
      && t.maxClients == s.maxClients && t.tierDefaults == s.tierDefaults
  {
    hide EvictIp;
    hide Install;
    EvictIpLeavesClients(s, victim);
    InstallLeavesClients(s, Ip(ip), IpConfig(s), now);
    InstallLeavesClients(EvictIp(s, victim), Ip(ip), IpConfig(s), now);
  }

  lemma EvictIpLeavesClients(s: StoreState, victim: string)
    ensures var t := EvictIp(s, victim);
      && t.clients == s.clients && t.evictions == s.evictions
      && t.maxClients == s.maxClients && t.tierDefaults == s.tierDefaults
  {
  }

  lemma InstallLeavesClients(s: StoreState, o: Owner, cfg: Config, now: int)
    requires !o.Tier?
    ensures var t := Install(s, o, cfg, now);
      && t.clients == s.clients && t.evictions == s.evictions
      && t.maxClients == s.maxClients && t.tierDefaults == s.tierDefaults
  {
    hide IdOf;
    hide BucketSpec.New;
  }

  /** The state in which a request that passed both gates meets its client. */
  function AtClient(s: StoreState, r: Request): StoreState {
    IpGate(GlobalGate(s, r).0, r).0
  }

  lemma AtClientSame(s: StoreState, r: Request)
    ensures AtClient(s, r).clients == s.clients && AtClient(s, r).evictions == s.evictions
    ensures AtClient(s, r).maxClients == s.maxClients
    ensures Reaches(s, r) ==> AllowRequest(s, r) == ClientGate(AtClient(s, r), r)
    ensures !Reaches(s, r) ==>
              AllowRequest(s, r).0.clients == s.clients && AllowRequest(s, r).0.evictions == s.evictions
  {
    GatesLeaveClients(s, r);
    GatesLeaveClients(GlobalGate(s, r).0, r);
  }

  // ---- what an operation does to the map of clients ------------------------------------------------------

  /** The client an operation makes room for, when it makes one. */
  function Creates(s: StoreState, op: Op): Option<string> {
    match op
    case Ask(r) => if Reaches(s, r) && r.key !in s.clients then Some(r.key) else None
    case Configure(key, _, _, _, _) => if key in s.clients then None else Some(key)
    case BlockClient(key, _, _) => if key in s.clients then None else Some(key)
    case _ => None
  }

  function VictimOf(op: Op): string {
    match op
    case Ask(r) => r.victim
    case Configure(_, _, _, _, victim) => victim
    case BlockClient(_, _, victim) => victim
    case _ => ""
  }

  /** An operation's effect on who is tracked: nothing, or one creation and at most one eviction. */
  ghost predicate Membership(s: StoreState, s': StoreState, created: Option<string>, victim: string) {
    match created
    case None => s'.clients.Keys == s.clients.Keys && s'.evictions == s.evictions
    case Some(key) =>
      var gone := if Full(s) && victim != "" && victim in s.clients then {victim} else {};
      && s'.clients.Keys == s.clients.Keys - gone + {key}
      && s'.evictions == s.evictions + |gone|
  }

  lemma CreateMembership(s: StoreState, key: string, now: int, victim: string)
    ensures Membership(s, GetOrCreateClient(s, key, now, victim), if key in s.clients then None else Some(key), victim)
  {
    if key !in s.clients {
      O.CreateIs(s, key, now, victim);
    }
  }

  lemma SameMembership(s: StoreState, s': StoreState, s'': StoreState, created: Option<string>, victim: string)
    requires Membership(s, s', created, victim)
    requires SameMembers(s', s'')
    ensures Membership(s, s'', created, victim)
  {
  }

  predicate SameMembers(s: StoreState, s': StoreState) {
    s'.clients.Keys == s.clients.Keys && s'.evictions == s.evictions
  }

  lemma PutMembers(s: StoreState, o: Owner, b: BucketState)
    ensures SameMembers(s, Put(s, o, b))
  {
  }

  lemma AfterCreateKeepsMembers(s: StoreState, r: Request)
    ensures SameMembers(s, EnsureTier(s, r.key, r.tier, r.now)) && SameMembers(s, Serve(s, r).0)
  {
    TierKeepsMembers(s, r);
    ServeKeepsMembers(s, r);
  }

  lemma TierKeepsMembers(s: StoreState, r: Request)
    ensures SameMembers(s, EnsureTier(s, r.key, r.tier, r.now))
  {
    if EnsureTier(s, r.key, r.tier, r.now) != s {
      InstallMembers(s, Tier(r.key, r.tier), s.tierDefaults[r.tier], r.now);
    }
  }

  lemma ServeKeepsMembers(s: StoreState, r: Request)
    ensures SameMembers(s, Serve(s, r).0)
  {
    var o := Serving(s, r);
    if BucketAt(s, o).Some? {
      PutMembers(s, o, BucketSpec.Allow(BucketAt(s, o).value, r.now).0);
    }
  }

  lemma CreatedKey(s: StoreState, key: string, now: int, victim: string)
    ensures key in GetOrCreateClient(s, key, now, victim).clients
  {
  }

  lemma RequestMembership(s: StoreState, r: Request)
    ensures Membership(s, AllowRequest(s, r).0, Creates(s, Ask(r)), r.victim)
  {
    AtClientSame(s, r);
    if Reaches(s, r) {
      var a := AtClient(s, r);
      var s1 := GetOrCreateClient(a, r.key, r.now, r.victim);
      CreateMembership(a, r.key, r.now, r.victim);
      CreatedKey(a, r.key, r.now, r.victim);
      AfterCreateKeepsMembers(s1, r);
      AfterCreateKeepsMembers(EnsureTier(s1, r.key, r.tier, r.now), r);
      SameMembership(a, s1, AllowRequest(s, r).0, Creates(s, Ask(r)), r.victim);
    }
  }

  lemma InstallMembers(s: StoreState, o: Owner, cfg: Config, now: int)
    ensures SameMembers(s, Install(s, o, cfg, now))
  {
    PutMembers(s, o, BucketSpec.New(cfg, now));
  }

  lemma {:induction false} AnswerMembers(s: StoreState, due: seq<string>, now: int)
    ensures SameMembers(s, AnswerAll(s, due, now))
  {
    if due != [] {
      AnswerMembers(s, due[..|due| - 1], now);
      AnswerDueMembers(AnswerAll(s, due[..|due| - 1], now), due[|due| - 1], now);
    }
  }

  lemma AnswerDueMembers(s: StoreState, id: string, now: int)
    ensures SameMembers(s, AnswerDue(s, id, now))
  {
    if OnDue(s, id, now).1.Some? {
      var o := Named(OwnerOf(id).value);
      PutMembers(s, o, Refill(BucketAt(s, o).value, now));
    }
  }

  lemma StepMembership(s: StoreState, op: Op)
    ensures Membership(s, Step(s, op), Creates(s, op), VictimOf(op))
  {
    match op {
      case Ask(r) => RequestMembership(s, r);
      case Configure(key, tier, cfg, now, victim) =>
        CreateMembership(s, key, now, victim);
        CreatedKey(s, key, now, victim);
        var s1 := GetOrCreateClient(s, key, now, victim);
        var o := Tier(key, C.TierName(tier));
        InstallMembers(Unschedule(s1, o), o, cfg, now);
        SameMembership(s, s1, Step(s, op), Creates(s, op), victim);
      case BlockClient(key, now, victim) =>
        CreateMembership(s, key, now, victim);
        SameMembership(s, GetOrCreateClient(s, key, now, victim), Step(s, op), Creates(s, op), victim);
      case SetGlobal(cfg, now) => InstallMembers(Unschedule(s, Global), Global, cfg, now);
      case Pass(due, now) => AnswerMembers(s.(plan := P.Without(s.plan, due)), due, now);
      case _ =>
    }
  }

  // ---- what an operation does to access times ---------------------------------------------------------------

  /** Every client but key is as it was. */
  predicate OthersKept(s: StoreState, s': StoreState, key: string) {
    forall k :: k in s'.clients && k != key ==> k in s.clients && s'.clients[k] == s.clients[k]
  }

  lemma OthersKeptTwice(s: StoreState, s1: StoreState, s2: StoreState, key: string)
    requires OthersKept(s, s1, key) && OthersKept(s1, s2, key)
    ensures OthersKept(s, s2, key)
  {
  }

  /** key's access time is now, or will be as soon as it is touched: nothing of it is later. */
  ghost predicate NotLater(s: StoreState, key: string, now: int) {
    key in s.clients && Access(s, key) <= now
  }

  lemma InstallTouches(s: StoreState, key: string, tier: string, cfg: Config, now: int)
    requires NotLater(s, key, now) && now > ZERO_TIME
    ensures var s' := Install(s, Tier(key, tier), cfg, now);
            NotLater(s', key, now) && Access(s', key) == now && OthersKept(s, s', key)
  {
    TouchIsLatest(s.clients[key].buckets, tier, BucketSpec.New(cfg, now));
  }

  lemma CreateTouches(s: StoreState, key: string, now: int, victim: string)
    requires now > ZERO_TIME && key !in s.clients
    ensures var s' := GetOrCreateClient(s, key, now, victim);
            NotLater(s', key, now) && Access(s', key) == now && OthersKept(s, s', key)
  {
    O.CreateIs(s, key, now, victim);
    var s1 := O.Room(s, victim);
    assert OthersKept(s, WithClient(s1, key), key);
    LatestIs(map[], ZERO_TIME);
    InstallTouches(WithClient(s1, key), key, C.DEFAULT_TIER, DefaultConfig(s), now);
    OthersKeptTwice(s, WithClient(s1, key), GetOrCreateClient(s, key, now, victim), key);
  }

  lemma GetTouches(s: StoreState, key: string, now: int, victim: string)
    requires now > ZERO_TIME && (key in s.clients ==> Access(s, key) <= now)
    ensures var s' := GetOrCreateClient(s, key, now, victim);
            NotLater(s', key, now) && OthersKept(s, s', key)
  {
    if key !in s.clients {
      CreateTouches(s, key, now, victim);
    }
  }

  lemma AllowTouches(s: StoreState, key: string, tier: string, now: int)
    requires NotLater(s, key, now) && now > ZERO_TIME
    requires tier in s.clients[key].buckets && !s.clients[key].buckets[tier].blocked
    ensures var s' := AllowAt(s, Tier(key, tier), now).0;
            NotLater(s', key, now) && Access(s', key) == now && OthersKept(s, s', key)
  {
    var b := s.clients[key].buckets[tier];
    assert BucketSpec.Allow(b, now).0.lastAccess == now;
    TouchIsLatest(s.clients[key].buckets, tier, BucketSpec.Allow(b, now).0);
  }

  lemma EnsureTierTouches(s: StoreState, r: Request)
    requires NotLater(s, r.key, r.now) && r.now > ZERO_TIME
    requires !C.IsBlocked(s.clients[r.key]) && C.DEFAULT_TIER in s.clients[r.key].buckets
    ensures var s' := EnsureTier(s, r.key, r.tier, r.now);
            && NotLater(s', r.key, r.now) && OthersKept(s, s', r.key)
            && !C.IsBlocked(s'.clients[r.key]) && C.DEFAULT_TIER in s'.clients[r.key].buckets
  {
    if EnsureTier(s, r.key, r.tier, r.now) != s {
      InstallTouches(s, r.key, r.tier, s.tierDefaults[r.tier], r.now);
    }
  }

  lemma ServeTouches(s: StoreState, r: Request)
    requires NotLater(s, r.key, r.now) && r.now > ZERO_TIME
    requires !C.IsBlocked(s.clients[r.key]) && C.DEFAULT_TIER in s.clients[r.key].buckets
    ensures var s' := Serve(s, r).0;
            r.key in s'.clients && Access(s', r.key) == r.now && OthersKept(s, s', r.key)
  {
    var o := Serving(s, r);
    AllowTouches(s, o.key, o.tier, r.now);
  }

  lemma NewClientIsOpen(s: StoreState, key: string, now: int, victim: string)
    requires key !in s.clients
    ensures var c := GetOrCreateClient(s, key, now, victim).clients[key];
            !C.IsBlocked(c) && C.DEFAULT_TIER in c.buckets
  {
    O.CreateIs(s, key, now, victim);
  }

  lemma ClientGateTouches(s: StoreState, r: Request)
    requires r.key in s.clients ==> ClientOK(r.key, s.clients[r.key]) && Access(s, r.key) <= r.now
    requires r.now > ZERO_TIME
    ensures var s' := ClientGate(s, r).0;
      && OthersKept(s, s', r.key) && r.key in s'.clients
      && (if r.key in s.clients && C.IsBlocked(s.clients[r.key]) then s' == s else Access(s', r.key) == r.now)
  {
    var s1 := GetOrCreateClient(s, r.key, r.now, r.victim);
    GetTouches(s, r.key, r.now, r.victim);
    if r.key !in s.clients {
      NewClientIsOpen(s, r.key, r.now, r.victim);
    }
    if !C.IsBlocked(s1.clients[r.key]) {
      EnsureTierTouches(s1, r);
      var s2 := EnsureTier(s1, r.key, r.tier, r.now);
      ServeTouches(s2, r);
      OthersKeptTwice(s, s1, s2, r.key);
      OthersKeptTwice(s, s2, Serve(s2, r).0, r.key);
    }
  }

  /** Same clients, same access times. */
  ghost predicate SameAccess(s: StoreState, s': StoreState) {
    s'.clients.Keys == s.clients.Keys && forall k :: k in s.clients ==> Access(s', k) == Access(s, k)
  }

  lemma BlockSameAccess(s: StoreState, key: string, on: bool)
    ensures SameAccess(s, SetBlocked(s, key, on))
  {
    if key in s.clients {
      O.SameLatest(s.clients[key].buckets, SetBlocked(s, key, on).clients[key].buckets);
    }
  }

  lemma RefillSameAccess(s: StoreState, o: Owner, now: int)
    requires BucketAt(s, o).Some?
    ensures SameAccess(s, Put(s, o, Refill(BucketAt(s, o).value, now)))
  {
    if o.Tier? {
      O.SameLatest(s.clients[o.key].buckets, Put(s, o, Refill(BucketAt(s, o).value, now)).clients[o.key].buckets);
    }
  }

  lemma AnswerSameAccess(s: StoreState, id: string, now: int)
    ensures SameAccess(s, AnswerDue(s, id, now))
  {
    if OnDue(s, id, now).1.Some? {
      var o := Named(OwnerOf(id).value);
      RefillSameAccess(s, o, now);
    }
  }

  lemma {:induction false} AnswerAllSameAccess(s: StoreState, due: seq<string>, now: int)
    ensures SameAccess(s, AnswerAll(s, due, now))
  {
    if due != [] {
      AnswerAllSameAccess(s, due[..|due| - 1], now);
      AnswerSameAccess(AnswerAll(s, due[..|due| - 1], now), due[|due| - 1], now);
    }
  }

  /** Operations that read the clock and may touch a client. */
  function TouchTime(op: Op): Option<int> {
    match op
    case Ask(r) => Some(r.now)
    case Configure(_, _, _, now, _) => Some(now)
    case BlockClient(_, now, _) => Some(now)
    case _ => None
  }

  /** After an operation, the touched client's access time is the operation's, and the others' are theirs. */
  ghost predicate Touched(s: StoreState, s': StoreState, touch: seq<string>, now: int) {
    forall k :: k in s'.clients ==>
      if k in touch then Access(s', k) == now else k in s.clients && Access(s', k) == Access(s, k)
  }

  lemma OthersTouched(s: StoreState, s': StoreState, key: string, now: int)
    requires OthersKept(s, s', key) && (key in s'.clients ==> Access(s', key) == now)
    ensures Touched(s, s', [key], now)
  {
  }

  lemma SameTouched(s: StoreState, s': StoreState, now: int)
    requires SameAccess(s, s')
    ensures Touched(s, s', [], now)
  {
  }

  /** No client of s was touched at or after now. */
  ghost predicate Before(s: StoreState, now: int) {
    now > ZERO_TIME && forall k :: k in s.clients ==> Access(s, k) < now
  }

  lemma AskTouches(s: StoreState, r: Request)
    requires Shaped(s) && Before(s, r.now)
    ensures Touched(s, AllowRequest(s, r).0, Touch(s, Ask(r)), r.now)
  {
    AtClientSame(s, r);
    if Reaches(s, r) {
      var a := AtClient(s, r);
      ClientGateTouches(a, r);
      if r.key in s.clients && C.IsBlocked(s.clients[r.key]) {
        SameTouched(s, a, r.now);
      } else {
        OthersTouched(s, AllowRequest(s, r).0, r.key, r.now);
      }
    }
  }

  lemma ConfigureTouches(s: StoreState, key: string, tier: string, cfg: Config, now: int, victim: string)
    requires Before(s, now)
    ensures Touched(s, UpdateClientConfig(s, key, tier, cfg, now, victim), [key], now)
  {
    GetTouches(s, key, now, victim);
    var s1 := Unschedule(GetOrCreateClient(s, key, now, victim), Tier(key, C.TierName(tier)));
    InstallTouches(s1, key, C.TierName(tier), cfg, now);
    OthersKeptTwice(s, s1, UpdateClientConfig(s, key, tier, cfg, now, victim), key);
    OthersTouched(s, UpdateClientConfig(s, key, tier, cfg, now, victim), key, now);
  }

  lemma BlockTouches(s: StoreState, key: string, now: int, victim: string)
    requires Before(s, now)
    ensures Touched(s, Block(s, key, now, victim), Touch(s, BlockClient(key, now, victim)), now)
  {
    var s1 := GetOrCreateClient(s, key, now, victim);
    BlockSameAccess(s1, key, true);
    if key !in s.clients {
      CreateTouches(s, key, now, victim);
      OthersTouched(s, s1, key, now);
    }
  }

  lemma StepTouches(s: StoreState, op: Op, now: int)
    requires Shaped(s) && (TouchTime(op).Some? ==> TouchTime(op).value == now && Before(s, now))
    ensures Touched(s, Step(s, op), Touch(s, op), now)
  {
    match op {
      case Ask(r) => AskTouches(s, r);
      case Configure(key, tier, cfg, _, victim) => ConfigureTouches(s, key, tier, cfg, now, victim);
      case BlockClient(key, _, victim) => BlockTouches(s, key, now, victim);
      case UnblockClient(key) => BlockSameAccess(s, key, false);
      case Pass(due, at) => AnswerAllSameAccess(s.(plan := P.Without(s.plan, due)), due, at);
      case _ =>
    }
  }

  // ---- survival over runs -------------------------------------------------------------------------------------

  /** Everyone touched in a run, in order. */
  function History(s: StoreState, ops: seq<Op>): seq<string> {
    if ops == [] then []
    else History(s, ops[..|ops| - 1]) + Touch(Final(s, ops[..|ops| - 1]), ops[|ops| - 1])
  }

  /** The keys other than v touched since v last was. */
  function Others(history: seq<string>, v: string): set<string> {
    if history == [] || history[|history| - 1] == v then {}
    else Others(history[..|history| - 1], v) + {history[|history| - 1]}
  }

  function LastTime(ops: seq<Op>): int {
    if ops == [] then ZERO_TIME
    else if TouchTime(ops[|ops| - 1]).Some? then TouchTime(ops[|ops| - 1]).value
    else LastTime(ops[..|ops| - 1])
  }

  predicate After(op: Op, t: int) {
    TouchTime(op).Some? ==> TouchTime(op).value > t
  }

  /** Calls that may touch a client come at strictly increasing times. */
  predicate Increasing(ops: seq<Op>) {
    ops == [] || (Increasing(ops[..|ops| - 1]) && After(ops[|ops| - 1], LastTime(ops[..|ops| - 1])))
  }

  /** A client at least as recent as v was touched since v was. */
  ghost predicate Newer(s: StoreState, history: seq<string>, k: string, v: string) {
    k in s.clients && v in s.clients && k != v && Access(s, k) >= Access(s, v) ==> k in Others(history, v)
  }

  ghost predicate Recency(s: StoreState, history: seq<string>, t: int) {
    && (forall k :: k in s.clients ==> Access(s, k) <= t)
    && (forall k, v :: Newer(s, history, k, v))
  }

  lemma OthersAfter(history: seq<string>, x: string, v: string)
    ensures Others(history + [x], v) == if x == v then {} else Others(history, v) + {x}
  {
    assert (history + [x])[..|history|] == history;
  }

  lemma NewerAfter(s: StoreState, s': StoreState, history: seq<string>, touch: seq<string>, now: int, k: string,
                   v: string)
    requires Newer(s, history, k, v) && Touched(s, s', touch, now) && |touch| <= 1
    requires touch != [] ==> Before(s, now)
    ensures Newer(s', history + touch, k, v)
  {
    if touch == [] {
      assert history + touch == history;
    } else {
      OthersAfter(history, touch[0], v);
      assert touch == [touch[0]];
    }
  }

  lemma TouchHasTime(s: StoreState, op: Op)
    ensures |Touch(s, op)| <= 1 && (Touch(s, op) != [] ==> TouchTime(op).Some?)
  {
  }

  lemma RecencyStep(s: StoreState, op: Op, history: seq<string>, t: int)
    requires Shaped(s) && Recency(s, history, t) && t >= ZERO_TIME && After(op, t)
    ensures Recency(Step(s, op), history + Touch(s, op), if TouchTime(op).Some? then TouchTime(op).value else t)
  {
    var now := if TouchTime(op).Some? then TouchTime(op).value else t;
    StepTouches(s, op, now);
    TouchHasTime(s, op);
    forall k, v ensures Newer(Step(s, op), history + Touch(s, op), k, v) {
      assert Newer(s, history, k, v);
      NewerAfter(s, Step(s, op), history, Touch(s, op), now, k, v);
    }
  }

  ghost predicate Run(s: StoreState, ops: seq<Op>) {
    && (forall i :: 0 <= i < |ops| ==> KeyOK(ops[i]))
    && PassesOK(s, ops)
  }

  lemma RunHead(s: StoreState, ops: seq<Op>)
    requires ops != [] && Run(s, ops)
    ensures KeyOK(ops[0]) && PassOK(s, ops[0]) && Run(Step(s, ops[0]), ops[1..])
  {
    PassesHead(s, ops);
  }

  lemma {:induction false} RunRecency(maxClients: int, tiers: map<string, Config>, ops: seq<Op>)
    requires Run(NewStore(maxClients, tiers), ops) && Increasing(ops)
    ensures Recency(Final(NewStore(maxClients, tiers), ops), History(NewStore(maxClients, tiers), ops), LastTime(ops))
    ensures LastTime(ops) >= ZERO_TIME
    decreases |ops|
  {
    var s := NewStore(maxClients, tiers);
    if ops != [] {
      var front := ops[..|ops| - 1];
      RunRecency(maxClients, tiers, front);
      RunAgrees(maxClients, tiers, front);
      RecencyStep(Final(s, front), ops[|ops| - 1], History(s, front), LastTime(front));
    }
  }

  /** The limits, and whatever concerns addresses, are as they were. */
  predicate SameLimits(s: StoreState, s': StoreState) {
    s'.maxClients == s.maxClients && s'.ipCap == s.ipCap && s'.ipBuckets == s.ipBuckets
  }

  lemma PutLimits(s: StoreState, o: Owner, b: BucketState)
    requires !o.Ip?
    ensures SameLimits(s, Put(s, o, b))
  {
  }

  lemma InstallLimits(s: StoreState, o: Owner, cfg: Config, now: int)
    requires !o.Ip?
    ensures SameLimits(s, Install(s, o, cfg, now))
  {
    PutLimits(s, o, BucketSpec.New(cfg, now));
  }

  lemma CreateLimits(s: StoreState, key: string, now: int, victim: string)
    ensures SameLimits(s, GetOrCreateClient(s, key, now, victim))
  {
    if key !in s.clients {
      O.CreateIs(s, key, now, victim);
      InstallLimits(WithClient(O.Room(s, victim), key), Tier(key, C.DEFAULT_TIER), DefaultConfig(s), now);
    }
  }

  lemma TierLimits(s: StoreState, r: Request)
    ensures SameLimits(s, EnsureTier(s, r.key, r.tier, r.now))
  {
    if EnsureTier(s, r.key, r.tier, r.now) != s {
      InstallLimits(s, Tier(r.key, r.tier), s.tierDefaults[r.tier], r.now);
    }
  }

  lemma ServeLimits(s: StoreState, r: Request)
    ensures SameLimits(s, Serve(s, r).0)
  {
    var o := Serving(s, r);
    if BucketAt(s, o).Some? {
      PutLimits(s, o, BucketSpec.Allow(BucketAt(s, o).value, r.now).0);
    }
  }

  lemma ClientGateLimits(s: StoreState, r: Request)
    ensures SameLimits(s, ClientGate(s, r).0)
  {
    CreateLimits(s, r.key, r.now, r.victim);
    CreatedKey(s, r.key, r.now, r.victim);
    var s1 := GetOrCreateClient(s, r.key, r.now, r.victim);
    TierLimits(s1, r);
    ServeLimits(EnsureTier(s1, r.key, r.tier, r.now), r);
  }

  lemma BlockLimits(s: StoreState, key: string, on: bool)
    ensures SameLimits(s, SetBlocked(s, key, on))
  {
  }

  lemma StepKeepsLimits(s: StoreState, op: Op)
    ensures Step(s, op).maxClients == s.maxClients && Step(s, op).ipCap == s.ipCap
  {
    match op {
      case Ask(r) => AskKeepsLimits(s, r);
      case Pass(due, now) => AnswerKeepsLimits(s.(plan := P.Without(s.plan, due)), due, now);
      case SetIp(_, _) =>
      case _ => OthersLeaveIps(s, op);
    }
  }

  /** Operations that do not concern addresses. */
  lemma OthersLeaveIps(s: StoreState, op: Op)
    requires !op.Ask? && !op.Pass? && !op.SetIp?
    ensures SameLimits(s, Step(s, op))
  {
    match op {
      case Configure(key, tier, cfg, now, victim) =>
        CreateLimits(s, key, now, victim);
        var o := Tier(key, C.TierName(tier));
        InstallLimits(Unschedule(GetOrCreateClient(s, key, now, victim), o), o, cfg, now);
      case BlockClient(key, now, victim) =>
        CreateLimits(s, key, now, victim);
        BlockLimits(GetOrCreateClient(s, key, now, victim), key, true);
      case UnblockClient(key) => BlockLimits(s, key, false);
      case SetGlobal(cfg, now) => InstallLimits(Unschedule(s, Global), Global, cfg, now);
      case _ =>
    }
  }

  lemma AskKeepsLimits(s: StoreState, r: Request)
    ensures AllowRequest(s, r).0.maxClients == s.maxClients && AllowRequest(s, r).0.ipCap == s.ipCap
  {
    IpGateKeepsLimits(s, r);
    IpGateKeepsLimits(GlobalGate(s, r).0, r);
    AtClientSame(s, r);
    ClientGateLimits(AtClient(s, r), r);
  }

  lemma IpGateKeepsLimits(s: StoreState, r: Request)
    ensures GlobalGate(s, r).0.maxClients == s.maxClients && GlobalGate(s, r).0.ipCap == s.ipCap
    ensures IpGate(s, r).0.maxClients == s.maxClients && IpGate(s, r).0.ipCap == s.ipCap
  {
  }

  lemma {:induction false} AnswerKeepsLimits(s: StoreState, due: seq<string>, now: int)
    ensures AnswerAll(s, due, now).maxClients == s.maxClients && AnswerAll(s, due, now).ipCap == s.ipCap
  {
    if due != [] {
      AnswerKeepsLimits(s, due[..|due| - 1], now);
    }
  }

  lemma CreatedIsTouched(s: StoreState, op: Op)
    requires Creates(s, op).Some?
    ensures Touch(s, op) == [Creates(s, op).value] && Creates(s, op).value !in s.clients
  {
  }

  /** Whoever an operation drops was the least recent of a full map, and room was made for someone new. */
  lemma Dropped(s: StoreState, op: Op, v: string)
    requires Possible(s, op) && v in s.clients && v !in Step(s, op).clients
    ensures Creates(s, op).Some? && Full(s) && IsLeastRecent(s.clients, v)
  {
    StepMembership(s, op);
  }

  lemma SubsetSize(a: set<string>, b: set<string>)
    requires a <= b
    ensures |a| <= |b|
  {
    assert b == a + (b - a);
  }

  lemma DroppedAfter(s: StoreState, op: Op, v: string, history: seq<string>, t: int)
    requires Recency(s, history, t) && Possible(s, op) && v in s.clients && v !in Step(s, op).clients
    ensures |Others(history + Touch(s, op), v)| >= s.maxClients > 0
  {
    Dropped(s, op, v);
    CreatedIsTouched(s, op);
    var key := Creates(s, op).value;
    OthersAfter(history, key, v);
    forall k | k in s.clients.Keys - {v} ensures k in Others(history, v) {
      assert Newer(s, history, k, v);
      assert Access(s, v) <= Access(s, k);
    }
    SubsetSize(s.clients.Keys - {v} + {key}, Others(history + [key], v));
    assert |s.clients.Keys - {v} + {key}| == |s.clients.Keys| == |s.clients|;
  }

  /** A client is evicted only after at least maxClients other keys have been touched since its own last touch,
      counting the newcomer; so it survives as long as at most maxClients - 1 have. */
  lemma LeastRecentSurvival(maxClients: int, tiers: map<string, Config>, ops: seq<Op>, op: Op, v: string)
    requires Run(NewStore(maxClients, tiers), ops) && Increasing(ops)
    requires var s := Final(NewStore(maxClients, tiers), ops);
             Possible(s, op) && v in s.clients && v !in Step(s, op).clients
    ensures |Others(History(NewStore(maxClients, tiers), ops + [op]), v)| >= maxClients > 0
  {
    var s := NewStore(maxClients, tiers);
    RunRecency(maxClients, tiers, ops);
    RunKeepsLimits(s, ops);
    DroppedAfter(Final(s, ops), op, v, History(s, ops), LastTime(ops));
    assert (ops + [op])[..|ops|] == ops;
  }

  lemma {:induction false} RunKeepsLimits(s: StoreState, ops: seq<Op>)
    ensures Final(s, ops).maxClients == s.maxClients && Final(s, ops).ipCap == s.ipCap
    decreases |ops|
  {
    if ops != [] {
      RunKeepsLimits(s, ops[..|ops| - 1]);
      StepKeepsLimits(Final(s, ops[..|ops| - 1]), ops[|ops| - 1]);
    }
  }

  // ---- a victim to take -----------------------------------------------------------------------------------------

  lemma {:induction false} SomeLeastRecent(clients: map<string, C.ClientState>)
    requires clients != map[]
    ensures exists k :: IsLeastRecent(clients, k)
    decreases |clients|
  {
    hide C.LastAccess;
    var k :| k in clients;
    var rest := clients - {k};
    assert clients.Keys == rest.Keys + {k};
    assert |clients| == |clients.Keys| && |rest| == |rest.Keys|;
    if rest == map[] {
      assert IsLeastRecent(clients, k);
    } else {
      SomeLeastRecent(rest);
      var j :| IsLeastRecent(rest, j);
      assert IsLeastRecent(clients, if C.LastAccess(clients[k]) < C.LastAccess(clients[j]) then k else j);
    }
  }

  lemma {:induction false} SomeLeastRecentIp(ipBuckets: map<string, BucketState>)
    requires ipBuckets != map[]
    ensures exists ip :: IsLeastRecentIp(ipBuckets, ip)
    decreases |ipBuckets|
  {
    var ip :| ip in ipBuckets;
    var rest := ipBuckets - {ip};
    assert ipBuckets.Keys == rest.Keys + {ip};
    assert |ipBuckets| == |ipBuckets.Keys| && |rest| == |rest.Keys|;
    if rest == map[] {
      assert IsLeastRecentIp(ipBuckets, ip);
    } else {
      SomeLeastRecentIp(rest);
      var j :| IsLeastRecentIp(rest, j);
      assert IsLeastRecentIp(ipBuckets, if ipBuckets[ip].lastAccess < ipBuckets[j].lastAccess then ip else j);
    }
  }

  /** In every state there is a client an eviction for key may take. */
  lemma SomeVictim(s: StoreState, key: string)
    ensures exists victim :: VictimOK(s, key, victim)
  {
    if Full(s) {
      SomeLeastRecent(s.clients);
      var k :| IsLeastRecent(s.clients, k);
      assert VictimOK(s, key, k);
    } else {
      assert VictimOK(s, key, "");
    }
  }

  lemma SomeIpVictim(s: StoreState, ip: string)
    requires s.ipCap > 0
    ensures exists victim :: IpVictimOK(s, ip, victim)
  {
    if s.ipBuckets != map[] {
      SomeLeastRecentIp(s.ipBuckets);
      var k :| IsLeastRecentIp(s.ipBuckets, k);
      assert IpVictimOK(s, ip, k);
    } else {
      assert IpVictimOK(s, ip, "");
    }
  }

  // ---- counts ---------------------------------------------------------------------------------------------------

  /** How many clients a run has created. */
  function Created(s: StoreState, ops: seq<Op>): nat {
    if ops == [] then 0
    else Created(s, ops[..|ops| - 1]) + if Creates(Final(s, ops[..|ops| - 1]), ops[|ops| - 1]).Some? then 1 else 0
  }

  lemma {:induction false} PossibleFront(s: StoreState, ops: seq<Op>)
    requires ops != [] && O.PossibleRun(s, ops)
    ensures O.PossibleRun(s, ops[..|ops| - 1]) && Possible(Final(s, ops[..|ops| - 1]), ops[|ops| - 1])
    decreases |ops|
  {
    if |ops| > 1 {
      var front := ops[..|ops| - 1];
      assert front[1..] == ops[1..][..|ops| - 2];
      PossibleFront(Step(s, ops[0]), ops[1..]);
      FinalHead(s, front);
    }
  }

  lemma StepCounts(s: StoreState, op: Op)
    requires Shaped(s) && Possible(s, op)
    ensures |Step(s, op).clients| + Step(s, op).evictions
         == |s.clients| + s.evictions + if Creates(s, op).Some? then 1 else 0
    ensures s.maxClients > 0 && |s.clients| <= s.maxClients ==> |Step(s, op).clients| <= s.maxClients
  {
    StepMembership(s, op);
    var s' := Step(s, op);
    assert |s.clients| == |s.clients.Keys| && |s'.clients| == |s'.clients.Keys|;
    if Creates(s, op).Some? {
      CreatedIsTouched(s, op);
      var key, v := Creates(s, op).value, VictimOf(op);
      var gone := if Full(s) && v != "" && v in s.clients then {v} else {};
      assert |s.clients.Keys - gone + {key}| == |s.clients.Keys| - |gone| + 1;
      assert Full(s) ==> gone == {v};
    }
  }

  /** The key that keeps a full map from growing must not be empty: making room for a newcomer evicts the least
      recent client exactly when that client's key is not the empty one; otherwise the map grows past its cap. */
  lemma EvictsExactlyNamed(s: StoreState, key: string, now: int, victim: string)
    requires key !in s.clients && Full(s) && IsLeastRecent(s.clients, victim)
    ensures var s' := GetOrCreateClient(s, key, now, victim);
      && (s'.evictions == s.evictions + 1 <==> victim != "")
      && |s'.clients| == |s.clients| + if victim == "" then 1 else 0
  {
    var s' := GetOrCreateClient(s, key, now, victim);
    CreateMembership(s, key, now, victim);
    assert |s.clients| == |s.clients.Keys| && |s'.clients| == |s'.clients.Keys|;
    var gone := if victim != "" then {victim} else {};
    assert |s.clients.Keys - gone + {key}| == |s.clients.Keys| - |gone| + 1;
  }

  lemma EvictIpSize(s: StoreState, victim: string)
    requires victim != "" && victim in s.ipBuckets
    ensures |EvictIp(s, victim).ipBuckets| == |s.ipBuckets| - 1
  {
    var m := s.ipBuckets - {victim};
    assert m.Keys == s.ipBuckets.Keys - {victim};
    assert |m| == |m.Keys| && |s.ipBuckets| == |s.ipBuckets.Keys|;
  }

  lemma PutIpSize(m: map<string, BucketState>, ip: string, b: BucketState)
    ensures |m[ip := b]| == |m| + if ip in m then 0 else 1
  {
    assert m[ip := b].Keys == m.Keys + {ip};
    assert |m[ip := b]| == |m[ip := b].Keys| && |m| == |m.Keys|;
  }

  ghost predicate IpsFit(s: StoreState) {
    |s.ipBuckets| <= s.ipCap && s.ipCap > 0
  }

  lemma CreateIpFits(s: StoreState, ip: string, now: int, victim: string)
    requires IpsFit(s) && "" !in s.ipBuckets && IpVictimOK(s, ip, victim)
    ensures IpsFit(GetOrCreateIp(s, ip, now, victim)) && ip in GetOrCreateIp(s, ip, now, victim).ipBuckets
  {
    if ip !in s.ipBuckets {
      var s1 := O.IpRoom(s, victim);
      if |s.ipBuckets| >= s.ipCap {
        EvictIpSize(s, victim);
      }
      PutIpSize(s1.ipBuckets, ip, BucketSpec.New(IpConfig(s), now));
    }
  }

  lemma AllowAtIps(s: StoreState, o: Owner, now: int)
    ensures |AllowAt(s, o, now).0.ipBuckets| == |s.ipBuckets| && AllowAt(s, o, now).0.ipCap == s.ipCap
    ensures !o.Ip? ==> AllowAt(s, o, now).0.ipBuckets == s.ipBuckets
  {
    if o.Ip? && o.ip in s.ipBuckets {
      PutIpSize(s.ipBuckets, o.ip, BucketSpec.Allow(s.ipBuckets[o.ip], now).0);
    }
  }

  lemma IpGateFits(s: StoreState, r: Request)
    requires IpsFit(s) && "" !in s.ipBuckets && (IpGated(s, r) ==> IpVictimOK(s, r.ip, r.ipVictim))
    ensures IpsFit(IpGate(s, r).0)
  {
    if IpGated(s, r) {
      CreateIpFits(s, r.ip, r.now, r.ipVictim);
      AllowAtIps(GetOrCreateIp(s, r.ip, r.now, r.ipVictim), Ip(r.ip), r.now);
    }
  }

  lemma AskFits(s: StoreState, r: Request)
    requires IpsFit(s) && "" !in s.ipBuckets && Possible(s, Ask(r))
    ensures IpsFit(AllowRequest(s, r).0)
  {
    AskKeepsLimits(s, r);
    var s1 := GlobalGate(s, r).0;
    AllowAtIps(s, Global, r.now);
    GlobalGateLeavesGating(s, r);
    IpGateFits(s1, r);
    ClientGateLimits(IpGate(s1, r).0, r);
  }

  lemma GlobalGateLeavesGating(s: StoreState, r: Request)
    ensures GlobalGate(s, r).0.ipBuckets == s.ipBuckets && GlobalGate(s, r).0.ipCap == s.ipCap
    ensures IpGated(GlobalGate(s, r).0, r) == IpGated(s, r)
  {
  }

  lemma {:induction false} AnswerIpSize(s: StoreState, due: seq<string>, now: int)
    ensures |AnswerAll(s, due, now).ipBuckets| == |s.ipBuckets|
  {
    if due != [] {
      AnswerIpSize(s, due[..|due| - 1], now);
      AnswerDueIpSize(AnswerAll(s, due[..|due| - 1], now), due[|due| - 1], now);
    }
  }

  lemma AnswerDueIpSize(s: StoreState, id: string, now: int)
    ensures |AnswerDue(s, id, now).ipBuckets| == |s.ipBuckets|
  {
    if OnDue(s, id, now).1.Some? {
      var o := Named(OwnerOf(id).value);
      if o.Ip? {
        PutIpSize(s.ipBuckets, o.ip, Refill(s.ipBuckets[o.ip], now));
      }
    }
  }

  lemma StepFits(s: StoreState, op: Op)
    requires IpsFit(s) && "" !in s.ipBuckets && Possible(s, op)
    ensures IpsFit(Step(s, op))
  {
    StepKeepsLimits(s, op);
    match op {
      case Ask(r) => AskFits(s, r);
      case Pass(due, now) => AnswerIpSize(s.(plan := P.Without(s.plan, due)), due, now);
      case SetIp(_, _) =>
      case _ => OthersLeaveIps(s, op);
    }
  }

  /** Throughout a run the maps stay within their caps, and every client ever created is either still there
      or counted as evicted. */
  lemma {:induction false} CapsHold(maxClients: int, tiers: map<string, Config>, ops: seq<Op>)
    requires Run(NewStore(maxClients, tiers), ops) && O.PossibleRun(NewStore(maxClients, tiers), ops)
    ensures var s := Final(NewStore(maxClients, tiers), ops);
      && (maxClients > 0 ==> |s.clients| <= maxClients)
      && IpsFit(s)
      && Created(NewStore(maxClients, tiers), ops) == |s.clients| + s.evictions
    decreases |ops|
  {
    var s := NewStore(maxClients, tiers);
    if ops != [] {
      var front := ops[..|ops| - 1];
      PossibleFront(s, ops);
      CapsHold(maxClients, tiers, front);
      RunAgrees(maxClients, tiers, front);
      RunKeepsLimits(s, front);
      StepCounts(Final(s, front), ops[|ops| - 1]);
      StepFits(Final(s, front), ops[|ops| - 1]);
    }
  }
}
