/** The bucket store and its schedule on values, one operation at a time. Go iterates a map in any order, so
    where an eviction has ties the victim taken is a parameter; so is the order of a pass over due ids. */
module StoreSpec {
  import opened Wrappers
  import opened BucketSpec
  import opened StoreIds
  import C = ClientSpec
  import P = SchedulerSpec

  datatype StoreState = StoreState(
    clients: map<string, C.ClientState>,
    maxClients: int,
    tierDefaults: map<string, Config>,
    global: Option<BucketState>,
    evictions: int,
    ipBuckets: map<string, BucketState>,
    ipCap: int,
    ipEnabled: bool,
    ipConfig: Option<Config>,
    plan: P.Plan)

  datatype Reason = Ok | Blocked | ClientLimit | IpLimit | GlobalLimit

  datatype AllowResult = AllowResult(allowed: bool, remaining: int, retryAfter: int, reason: Reason)

  const BUILTIN_DEFAULT := Config(100, 10, SECOND, 1, None)
  const ZERO_CONFIG := Config(0, 0, 0, 0, None)
  const FALLBACK_IP_CONFIG := Config(1000, 1000, SECOND, 0, None)

  function NewStore(maxClients: int, tierDefaults: map<string, Config>): StoreState {
    StoreState(map[], maxClients,
               if C.DEFAULT_TIER in tierDefaults then tierDefaults else tierDefaults[C.DEFAULT_TIER := BUILTIN_DEFAULT],
               None, 0, map[], if maxClients * 4 <= 0 then 200000 else maxClients * 4, false, None, map[])
  }

  // ---- buckets by owner ----------------------------------------------------------------------------

  function BucketAt(s: StoreState, o: Owner): Option<BucketState> {
    match o
    case Global => s.global
    case Ip(ip) => if ip in s.ipBuckets then Some(s.ipBuckets[ip]) else None
    case Tier(key, tier) =>
      if key in s.clients && tier in s.clients[key].buckets then Some(s.clients[key].buckets[tier]) else None
  }

  function Put(s: StoreState, o: Owner, b: BucketState): StoreState {
    match o
    case Global => s.(global := Some(b))
    case Ip(ip) => s.(ipBuckets := s.ipBuckets[ip := b])
    case Tier(key, tier) =>
      if key !in s.clients then s
      else
        var c := s.clients[key];
        s.(clients := s.clients[key := c.(buckets := c.buckets[tier := b])])
  }

  /** A fresh bucket for o, scheduled when it has an interval to refill at. */
  function Install(s: StoreState, o: Owner, cfg: Config, now: int): StoreState {
    var b := BucketSpec.New(cfg, now);
    var s1 := Put(s, o, b);
    if cfg.refillInterval > 0 then s1.(plan := s1.plan[IdOf(o) := NextRefillTime(b)]) else s1
  }

  function Unschedule(s: StoreState, o: Owner): StoreState {
    s.(plan := s.plan - {IdOf(o)})
  }

  // ---- clients ---------------------------------------------------------------------------------------

  ghost predicate IsLeastRecent(clients: map<string, C.ClientState>, k: string) {
    k in clients && forall j :: j in clients ==> C.LastAccess(clients[k]) <= C.LastAccess(clients[j])
  }

  function TierIds(key: string, c: C.ClientState): set<string> {
    set t | t in c.buckets :: EncodeID(key, t)
  }

  function EvictLRU(s: StoreState, victim: string): StoreState {
    if victim == "" || victim !in s.clients then s
    else s.(clients := s.clients - {victim},
            evictions := s.evictions + 1,
            plan := s.plan - TierIds(victim, s.clients[victim]))
  }

  predicate Full(s: StoreState) {
    s.maxClients > 0 && |s.clients| >= s.maxClients
  }

  function DefaultConfig(s: StoreState): Config {
    if C.DEFAULT_TIER in s.tierDefaults then s.tierDefaults[C.DEFAULT_TIER] else ZERO_CONFIG
  }

  function GetOrCreateClient(s: StoreState, key: string, now: int, victim: string): StoreState {
    if key in s.clients then s
    else
      var s1 := if Full(s) then EvictLRU(s, victim) else s;
      var s2 := s1.(clients := s1.clients[key := C.New(key)]);
      Install(s2, Tier(key, C.DEFAULT_TIER), DefaultConfig(s), now)
  }

  function EnsureTier(s: StoreState, key: string, tier: string, now: int): StoreState {
    if tier == "" || tier == C.DEFAULT_TIER || BucketAt(s, Tier(key, tier)).Some? || tier !in s.tierDefaults then s
    else Install(s, Tier(key, tier), s.tierDefaults[tier], now)
  }

  // ---- addresses --------------------------------------------------------------------------------------

  predicate IsLeastRecentIp(ipBuckets: map<string, BucketState>, ip: string) {
    ip in ipBuckets && forall j :: j in ipBuckets ==> ipBuckets[ip].lastAccess <= ipBuckets[j].lastAccess
  }

  function EvictIp(s: StoreState, victim: string): StoreState {
    if victim == "" || victim !in s.ipBuckets then s
    else s.(ipBuckets := s.ipBuckets - {victim}, plan := s.plan - {IdOf(Ip(victim))})
  }

  function IpConfig(s: StoreState): Config {
    if s.ipConfig.Some? then s.ipConfig.value else FALLBACK_IP_CONFIG
  }

  function GetOrCreateIp(s: StoreState, ip: string, now: int, victim: string): StoreState {
    if ip in s.ipBuckets then s
    else
      var s1 := if |s.ipBuckets| >= s.ipCap then EvictIp(s, victim) else s;
      Install(s1, Ip(ip), IpConfig(s), now)
  }

  // ---- the decision -----------------------------------------------------------------------------------

  /** One request; victim and ipVictim are the clients and addresses its evictions take, if any. */
  datatype Request = Request(key: string, ip: string, tier: string, now: int, victim: string, ipVictim: string)

  /** Allow on the bucket at o, if there is one. */
  function AllowAt(s: StoreState, o: Owner, now: int): (StoreState, Reply) {
    match BucketAt(s, o)
    case None => (s, Reply(true, 0))
    case Some(b) => (Put(s, o, BucketSpec.Allow(b, now).0), BucketSpec.Allow(b, now).1)
  }

  function GlobalGate(s: StoreState, r: Request): (StoreState, Reply) {
    AllowAt(s, Global, r.now)
  }

  function IpGated(s: StoreState, r: Request): bool {
    s.ipEnabled && r.ip != ""
  }

  function IpGate(s: StoreState, r: Request): (StoreState, Reply) {
    if IpGated(s, r) then AllowAt(GetOrCreateIp(s, r.ip, r.now, r.ipVictim), Ip(r.ip), r.now)
    else (s, Reply(true, 0))
  }

  /** The bucket that answers the request: the tier's, else the default's. */
  function Serving(s: StoreState, r: Request): Owner {
    if BucketAt(s, Tier(r.key, C.TierName(r.tier))).Some? then Tier(r.key, C.TierName(r.tier))
    else Tier(r.key, C.DEFAULT_TIER)
  }

  function Balance(s: StoreState, o: Owner): int {
    if BucketAt(s, o).Some? then BucketAt(s, o).value.tokens else 0
  }

  /** The client's own decision, once its tier is in place. */
  function Serve(s: StoreState, r: Request): (StoreState, AllowResult) {
    if BucketAt(s, Serving(s, r)).None? then (s, AllowResult(false, 0, SECOND, ClientLimit))
    else
      var (s1, reply) := AllowAt(s, Serving(s, r), r.now);
      if reply.allowed then (s1, AllowResult(true, Balance(s1, Serving(s1, r)), 0, Ok))
      else (s1, AllowResult(false, 0, reply.retryAfter, ClientLimit))
  }

  function ClientGate(s: StoreState, r: Request): (StoreState, AllowResult) {
    var s1 := GetOrCreateClient(s, r.key, r.now, r.victim);
    if C.IsBlocked(s1.clients[r.key]) then (s1, AllowResult(false, 0, SECOND, Blocked))
    else Serve(EnsureTier(s1, r.key, r.tier, r.now), r)
  }

  function AllowRequest(s: StoreState, r: Request): (StoreState, AllowResult) {
    var (s1, g) := GlobalGate(s, r);
    if !g.allowed then (s1, AllowResult(false, 0, g.retryAfter, GlobalLimit))
    else
      var (s2, i) := IpGate(s1, r);
      if !i.allowed then (s2, AllowResult(false, 0, i.retryAfter, IpLimit))
      else ClientGate(s2, r)
  }

  // ---- the scheduler's side ---------------------------------------------------------------------------

  /** Bucket lookup by tier takes the empty name for the default. */
  function Named(o: Owner): Owner {
    match o
    case Tier(key, tier) => Tier(key, C.TierName(tier))
    case _ => o
  }

  function OnDue(s: StoreState, id: string, now: int): (StoreState, Option<int>) {
    match OwnerOf(id)
    case None => (s, None)
    case Some(o) =>
      match BucketAt(s, Named(o))
      case None => (s, None)
      case Some(b) => (Put(s, Named(o), Refill(b, now)), Some(NextRefillTime(Refill(b, now))))
  }

  function AnswerDue(s: StoreState, id: string, now: int): StoreState {
    var (s1, next) := OnDue(s, id, now);
    s1.(plan := P.Answer(s1.plan, id, next))
  }

  function AnswerAll(s: StoreState, due: seq<string>, now: int): StoreState {
    if due == [] then s else AnswerDue(AnswerAll(s, due[..|due| - 1], now), due[|due| - 1], now)
  }

  /** One pass: the due ids leave the schedule, then each is answered. */
  function ProcessDue(s: StoreState, due: seq<string>, now: int): StoreState {
    AnswerAll(s.(plan := P.Without(s.plan, due)), due, now)
  }

  // ---- administration ---------------------------------------------------------------------------------

  function UpdateClientConfig(s: StoreState, key: string, tier: string, cfg: Config, now: int,
                              victim: string): StoreState
  {
    var o := Tier(key, C.TierName(tier));
    Install(Unschedule(GetOrCreateClient(s, key, now, victim), o), o, cfg, now)
  }

  function SetBlocked(s: StoreState, key: string, on: bool): StoreState {
    if key !in s.clients then s else s.(clients := s.clients[key := C.SetBlocked(s.clients[key], on)])
  }

  function Block(s: StoreState, key: string, now: int, victim: string): StoreState {
    SetBlocked(GetOrCreateClient(s, key, now, victim), key, true)
  }

  function Unblock(s: StoreState, key: string): StoreState {
    SetBlocked(s, key, false)
  }

  function SetGlobalConfig(s: StoreState, cfg: Config, now: int): StoreState {
    Install(Unschedule(s, Global), Global, cfg, now)
  }

  function DisableGlobal(s: StoreState): StoreState {
    Unschedule(s.(global := None), Global)
  }

  function SetIPLimit(s: StoreState, enabled: bool, cfg: Config): StoreState {
    var s1 := s.(ipEnabled := enabled, ipConfig := Some(cfg));
    if enabled then s1
    else s1.(ipBuckets := map[], plan := s1.plan - set ip | ip in s1.ipBuckets :: IdOf(Ip(ip)))
  }

  // ---- operations as data -------------------------------------------------------------------------------

  datatype Op =
    | Ask(r: Request)
    | Configure(key: string, tier: string, cfg: Config, now: int, victim: string)
    | BlockClient(key: string, now: int, victim: string)
    | UnblockClient(key: string)
    | SetGlobal(cfg: Config, now: int)
    | NoGlobal
    | SetIp(enabled: bool, cfg: Config)
    | Pass(due: seq<string>, now: int)

  function Step(s: StoreState, op: Op): StoreState {
    match op
    case Ask(r) => AllowRequest(s, r).0
    case Configure(key, tier, cfg, now, victim) => UpdateClientConfig(s, key, tier, cfg, now, victim)
    case BlockClient(key, now, victim) => Block(s, key, now, victim)
    case UnblockClient(key) => Unblock(s, key)
    case SetGlobal(cfg, now) => SetGlobalConfig(s, cfg, now)
    case NoGlobal => DisableGlobal(s)
    case SetIp(enabled, cfg) => SetIPLimit(s, enabled, cfg)
    case Pass(due, now) => ProcessDue(s, due, now)
  }

  /** The evictions an operation makes take a least recently used client and address. */
  ghost predicate VictimOK(s: StoreState, key: string, victim: string) {
    key !in s.clients && Full(s) ==> IsLeastRecent(s.clients, victim)
  }

  ghost predicate IpVictimOK(s: StoreState, ip: string, victim: string) {
    ip !in s.ipBuckets && |s.ipBuckets| >= s.ipCap ==> IsLeastRecentIp(s.ipBuckets, victim)
  }

  /** Choices the code could make in this state. */
  ghost predicate Possible(s: StoreState, op: Op) {
    match op
    case Ask(r) => VictimOK(s, r.key, r.victim) && (IpGated(s, r) ==> IpVictimOK(s, r.ip, r.ipVictim))
    case Configure(key, _, _, _, victim) => VictimOK(s, key, victim)
    case BlockClient(key, _, victim) => VictimOK(s, key, victim)
    case Pass(due, now) => P.Drains(s.plan, now, due)
    case _ => true
  }
}
