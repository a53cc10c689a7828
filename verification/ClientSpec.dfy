/** One client's buckets on values: a map from tier name to bucket. */
module ClientSpec {
  import opened Wrappers
  import B = BucketSpec

  const DEFAULT_TIER := "default"

  datatype ClientState = ClientState(key: string, buckets: map<string, B.BucketState>)

  function TierName(tier: string): string {
    if tier == "" then DEFAULT_TIER else tier
  }

  function New(key: string): ClientState {
    ClientState(key, map[])
  }

  function Configure(c: ClientState, tier: string, cfg: B.Config, now: int): ClientState {
    c.(buckets := c.buckets[TierName(tier) := B.New(cfg, now)])
  }

  function BucketOf(c: ClientState, tier: string): Option<B.BucketState> {
    if TierName(tier) in c.buckets then Some(c.buckets[TierName(tier)]) else None
  }

  lemma ConfiguredAnswers(c: ClientState, tier: string, cfg: B.Config, now: int)
    ensures BucketOf(Configure(c, tier, cfg, now), tier) == Some(B.New(cfg, now))
  {
  }

  /** The tier whose bucket answers a request: the one asked for, else the default, else none. */
  function ServingTier(c: ClientState, tier: string): Option<string> {
    if TierName(tier) in c.buckets then Some(TierName(tier))
    else if DEFAULT_TIER in c.buckets then Some(DEFAULT_TIER)
    else None
  }

  function Allow(c: ClientState, tier: string, now: int): (ClientState, B.Reply) {
    match ServingTier(c, tier)
    case None => (c, B.Reply(false, B.SECOND))
    case Some(t) =>
      var (b, reply) := B.Allow(c.buckets[t], now);
      (c.(buckets := c.buckets[t := b]), reply)
  }

  /** A call is answered by the bucket of the tier it names, the empty name being the default's, else by the default's,
      and changes that bucket alone; a client with neither is refused for a second. */
  lemma AnsweredBy(c: ClientState, tier: string, now: int)
    ensures var name := if tier == "" then DEFAULT_TIER else tier;
      var t := if name in c.buckets then name else DEFAULT_TIER;
      if t in c.buckets then
        && Allow(c, tier, now).1 == B.Allow(c.buckets[t], now).1 && Allow(c, tier, now).0.key == c.key
        && Allow(c, tier, now).0.buckets == c.buckets[t := B.Allow(c.buckets[t], now).0]
      else Allow(c, tier, now) == (c, B.Reply(false, 1_000_000_000))
  {
  }

  /** A configured tier refilled. */
  function Refilled(c: ClientState, tier: string, now: int): ClientState
    requires BucketOf(c, tier).Some?
  {
    c.(buckets := c.buckets[TierName(tier) := B.Refill(c.buckets[TierName(tier)], now)])
  }

  /** When a configured tier refills next, once refilled at now. */
  function NextAfter(c: ClientState, tier: string, now: int): int
    requires BucketOf(c, tier).Some?
  {
    B.NextRefillTime(B.Refill(c.buckets[TierName(tier)], now))
  }

  function SetBlocked(c: ClientState, on: bool): ClientState {
    c.(buckets := map t | t in c.buckets :: c.buckets[t].(blocked := on))
  }

  predicate IsBlocked(c: ClientState) {
    exists t :: t in c.buckets && c.buckets[t].blocked
  }

  /** The latest access over a client's buckets, or the zero time. */
  ghost predicate IsLatest(buckets: map<string, B.BucketState>, latest: int) {
    && latest >= B.ZERO_TIME
    && (forall t :: t in buckets ==> buckets[t].lastAccess <= latest)
    && (latest > B.ZERO_TIME ==> exists t :: t in buckets && buckets[t].lastAccess == latest)
  }

  ghost function LatestOf(buckets: map<string, B.BucketState>): (latest: int)
    ensures IsLatest(buckets, latest)
    decreases |buckets|
  {
    if buckets == map[] then B.ZERO_TIME
    else
      var t :| t in buckets;
      var rest := LatestOf(buckets - {t});
      assert buckets.Keys == (buckets - {t}).Keys + {t};
      if buckets[t].lastAccess > rest then
        buckets[t].lastAccess
      else
        assert rest > B.ZERO_TIME ==> exists u :: u in buckets - {t} && (buckets - {t})[u].lastAccess == rest;
        rest
  }

  ghost function LastAccess(c: ClientState): int {
    LatestOf(c.buckets)
  }

  lemma LatestUnique(buckets: map<string, B.BucketState>, a: int, b: int)
    requires IsLatest(buckets, a) && IsLatest(buckets, b)
    ensures a == b
  {
  }
}
