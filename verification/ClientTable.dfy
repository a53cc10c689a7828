/** The store's map of clients, no two of which share anything. */
module ClientTable {
  import opened BucketSpec
  import C = ClientSpec
  import opened StoreSpec
  import BucketTable
  import opened MultiBucket

  class ClientTable {
    var clients: map<string, ClientBuckets>
    ghost var value: map<string, C.ClientState> // the clients on values
    ghost var homes: map<object, string>        // the key each owned object belongs to

    ghost function Repr(): set<object>
      reads this
    {
      {this} + homes.Keys
    }

    ghost predicate OwnedBy(parts: set<object>, key: string)
      reads this
    {
      forall x {:trigger x in parts} {:trigger homes[x]} :: x in parts ==> x in homes && homes[x] == key
    }

    ghost predicate Holds(key: string)
      requires key in clients
      reads this, homes.Keys
    {
      && clients[key] in homes && clients[key].table in homes && OwnedBy(clients[key].Repr(), key)
      && clients[key].Valid() && key in value && clients[key].Value() == value[key]
    }

    ghost predicate Valid()
      reads this, homes.Keys
    {
      && this !in homes && value.Keys == clients.Keys
      && (forall k {:trigger clients[k]} :: k in clients ==> Holds(k))
    }

    constructor ()
      ensures Valid() && fresh(Repr())
      ensures value == map[]
    {
      clients := map[];
      value := map[];
      homes := map[];
    }

    /** Whatever belongs to key is there as it was. */
    twostate predicate Untouched(key: string)
      reads this, homes.Keys
    {
      forall x: object {:trigger x in old(homes)} :: x in old(homes) && old(homes)[x] == key ==>
        x in homes && homes[x] == key && unchanged(x)
    }

    twostate lemma StillHolds(k: string)
      requires k in old(clients) && old(Holds(k)) && Untouched(k)
      requires k in clients && clients[k] == old(clients)[k] && k in value && value[k] == old(value)[k]
      ensures Holds(k)
    {
    }

    /** What is not key's has not changed. */
    twostate predicate OnlyIn(key: string)
      reads this, homes.Keys
    {
      && this !in homes
      && (forall x: object {:trigger x in old(homes)} :: x in old(homes) ==>
            x in homes && homes[x] == old(homes)[x] && (homes[x] != key ==> unchanged(x)))
    }

    twostate lemma Kept(key: string)
      requires old(Valid()) && OnlyIn(key) && key in clients && Holds(key)
      requires value == old(value)[key := value[key]] && clients == old(clients)[key := clients[key]]
      ensures Valid()
    {
      forall k | k in clients && k != key ensures Holds(k) {
        StillHolds(k);
      }
    }

    twostate lemma Dropped(key: string)
      requires old(Valid()) && OnlyIn(key)
      requires value == old(value) - {key} && clients == old(clients) - {key}
      ensures Valid()
    {
      forall k | k in clients ensures Holds(k) {
        StillHolds(k);
      }
    }

    /** Allow on a client's tier. */
    method AllowIn(key: string, tier: string, now: int) returns (allowed: bool, retryAfter: int)
      requires Valid() && key in value
      modifies this`value, homes.Keys
      ensures Valid()
      ensures value == old(value)[key := C.Allow(old(value)[key], tier, now).0]
      ensures Reply(allowed, retryAfter) == C.Allow(old(value)[key], tier, now).1
    {
      allowed, retryAfter := CallAllow(key, tier, now);
      Kept(key);
    }

    method CallAllow(key: string, tier: string, now: int) returns (allowed: bool, retryAfter: int)
      requires key in clients && Holds(key) && this !in homes
      modifies this`value, homes.Keys
      ensures OnlyIn(key) && Holds(key)
      ensures value == old(value)[key := C.Allow(old(value)[key], tier, now).0]
      ensures Reply(allowed, retryAfter) == C.Allow(old(value)[key], tier, now).1
    {
      allowed, retryAfter := clients[key].Allow(tier, now);
      value := value[key := clients[key].Value()];
    }

    /** Configure on a client's tier. */
    method ConfigureIn(key: string, tier: string, cfg: Config, now: int)
      requires Valid() && key in value
      modifies this`value, this`homes, homes.Keys
      ensures Valid() && fresh(Repr() - old(Repr()))
      ensures value == old(value)[key := C.Configure(old(value)[key], tier, cfg, now)]
    {
      CallConfigure(key, tier, cfg, now);
      Kept(key);
    }

    method CallConfigure(key: string, tier: string, cfg: Config, now: int)
      requires key in clients && Holds(key) && this !in homes
      modifies this`value, this`homes, homes.Keys
      ensures OnlyIn(key) && Holds(key) && fresh(Repr() - old(Repr()))
      ensures value == old(value)[key := C.Configure(old(value)[key], tier, cfg, now)]
    {
      hide BucketTable.BucketTable.Valid;
      hide BucketTable.Rehomed;
      var b := clients[key].Configure(tier, cfg, now);
      Rehome(key);
    }

    /** The parts a client has gained become its own here too. */
    method Rehome(key: string)
      requires key in clients && clients[key].Valid() && this !in clients[key].Repr() && this !in homes
      modifies this`value, this`homes
      ensures Holds(key) && value == old(value)[key := clients[key].Value()]
      ensures homes == BucketTable.Rehomed(old(homes), clients[key].Repr(), key)
    {
      hide BucketTable.BucketTable.Valid;
      value := value[key := clients[key].Value()];
      homes := BucketTable.Rehomed(homes, clients[key].Repr(), key);
    }

    /** When a client's tier refills next. */
    method NextOf(key: string, tier: string) returns (next: int)
      requires Valid() && key in value && C.BucketOf(value[key], tier).Some?
      ensures next == NextRefillTime(C.BucketOf(value[key], tier).value)
    {
      assert Holds(key);
      next := clients[key].NextOf(tier);
    }

    /** BlockAll or UnblockAll on a client. */
    method BlockIn(key: string, on: bool)
      requires Valid() && key in value
      modifies this`value, homes.Keys
      ensures Valid()
      ensures value == old(value)[key := C.SetBlocked(old(value)[key], on)]
    {
      CallBlock(key, on);
      Kept(key);
    }

    method CallBlock(key: string, on: bool)
      requires key in clients && Holds(key) && this !in homes
      modifies this`value, homes.Keys
      ensures OnlyIn(key) && Holds(key)
      ensures value == old(value)[key := C.SetBlocked(old(value)[key], on)]
    {
      hide BucketTable.BucketTable.Valid;
      if on {
        clients[key].BlockAll();
      } else {
        clients[key].UnblockAll();
      }
      value := value[key := clients[key].Value()];
    }

    /** Refills a client's tier, and says when it refills next. */
    method RefillIn(key: string, tier: string, now: int) returns (next: int)
      requires Valid() && key in value && C.BucketOf(value[key], tier).Some?
      modifies this`value, this`homes, homes.Keys
      ensures Valid() && Repr() == old(Repr())
      ensures value == old(value)[key := C.Refilled(old(value)[key], tier, now)]
      ensures next == C.NextAfter(old(value)[key], tier, now)
    {
      hide Holds;
      hide OnlyIn;
      hide C.BucketOf;
      hide C.Refilled;
      next := CallRefill(key, tier, now);
      Kept(key);
    }

    method CallRefill(key: string, tier: string, now: int) returns (next: int)
      requires key in clients && Holds(key) && this !in homes && C.BucketOf(value[key], tier).Some?
      modifies this`value, this`homes, homes.Keys
      ensures OnlyIn(key) && Holds(key) && homes.Keys == old(homes).Keys
      ensures value == old(value)[key := C.Refilled(old(value)[key], tier, now)]
      ensures next == C.NextAfter(old(value)[key], tier, now)
    {
      hide BucketTable.BucketTable.Valid;
      hide C.Refilled;
      hide C.NextAfter;
      next := clients[key].Refill(tier, now);
      Rehome(key);
    }

    /** Configures, and says when the fresh bucket refills next. */
    method ConfigureTimed(key: string, tier: string, cfg: Config, now: int) returns (next: int)
      requires Valid() && key in value
      modifies this`value, this`homes, homes.Keys
      ensures Valid() && fresh(Repr() - old(Repr()))
      ensures value == old(value)[key := C.Configure(old(value)[key], tier, cfg, now)]
      ensures next == NextRefillTime(BucketSpec.New(cfg, now))
    {
      hide C.Configure;
      hide C.BucketOf;
      hide Holds;
      ConfigureIn(key, tier, cfg, now);
      C.ConfiguredAnswers(old(value)[key], tier, cfg, now);
      next := NextOf(key, tier);
    }

    /** Admits, and says when the default bucket refills next. */
    method AdmitTimed(key: string, cfg: Config, now: int) returns (next: int)
      requires Valid() && key !in value
      modifies this
      ensures Valid() && fresh(Repr() - old(Repr()))
      ensures value == old(value)[key := C.Configure(C.New(key), C.DEFAULT_TIER, cfg, now)]
      ensures next == NextRefillTime(BucketSpec.New(cfg, now))
    {
      hide C.Configure;
      hide C.BucketOf;
      hide Holds;
      Admit(key, cfg, now);
      C.ConfiguredAnswers(C.New(key), C.DEFAULT_TIER, cfg, now);
      next := NextOf(key, C.DEFAULT_TIER);
    }

    /** A new client with its default tier. */
    method Admit(key: string, cfg: Config, now: int)
      requires Valid() && key !in value
      modifies this
      ensures Valid() && fresh(Repr() - old(Repr()))
      ensures value == old(value)[key := C.Configure(C.New(key), C.DEFAULT_TIER, cfg, now)]
    {
      var cb := NewClient(key, cfg, now);
      Adopt(key, cb);
    }

    static method NewClient(key: string, cfg: Config, now: int) returns (cb: ClientBuckets)
      ensures cb.Valid() && fresh(cb.Repr())
      ensures cb.Value() == C.Configure(C.New(key), C.DEFAULT_TIER, cfg, now)
    {
      cb := new ClientBuckets(key);
      var b := cb.Configure(C.DEFAULT_TIER, cfg, now);
    }

    method Adopt(key: string, cb: ClientBuckets)
      requires Valid() && key !in value && cb.Valid() && this !in cb.Repr() && cb.Repr() !! homes.Keys
      modifies this
      ensures Valid() && homes.Keys == old(homes).Keys + cb.Repr()
      ensures value == old(value)[key := cb.Value()]
    {
      Take(key, cb);
      Kept(key);
    }

    method Take(key: string, cb: ClientBuckets)
      requires cb.Valid() && this !in cb.Repr() && cb.Repr() !! homes.Keys && this !in homes
      modifies this
      ensures OnlyIn(key) && key in clients && Holds(key) && homes.Keys == old(homes).Keys + cb.Repr()
      ensures value == old(value)[key := cb.Value()] && clients == old(clients)[key := cb]
    {
      hide BucketTable.BucketTable.Valid;
      hide BucketTable.Rehomed;
      clients := clients[key := cb];
      value := value[key := cb.Value()];
      homes := BucketTable.Rehomed(homes, cb.Repr(), key);
    }

    /** The client leaves the map. */
    method Drop(key: string)
      requires Valid()
      modifies this`clients, this`value
      ensures Valid()
      ensures value == old(value) - {key} && clients == old(clients) - {key} && homes == old(homes)
    {
      clients := clients - {key};
      value := value - {key};
      assert OnlyIn(key);
      Dropped(key);
    }

    method TiersOf(key: string) returns (tiers: seq<string>)
      requires Valid() && key in value
      ensures key in value && forall t :: t in tiers <==> t in value[key].buckets
    {
      assert Holds(key);
      tiers := clients[key].Tiers();
    }

    method Has(key: string) returns (there: bool)
      requires Valid()
      ensures there <==> key in value
    {
      there := key in clients;
    }

    method HasTier(key: string, tier: string) returns (there: bool)
      requires Valid() && key in value
      ensures there <==> C.BucketOf(value[key], tier).Some?
    {
      assert Holds(key);
      var b := clients[key].BucketOf(tier);
      there := b != null;
    }

    /** What is left in the bucket that answers for a tier: its own, else the default's. */
    method BalanceIn(key: string, tier: string) returns (tokens: int)
      requires Valid() && key in value
      ensures tokens == BalanceOf(value[key], tier)
    {
      assert Holds(key);
      var b := clients[key].BucketOf(tier);
      if b == null {
        b := clients[key].BucketOf(C.DEFAULT_TIER);
      }
      if b == null {
        return 0;
      }
      clients[key].table.Reads(if C.TierName(tier) in clients[key].table.value then C.TierName(tier)
                               else C.DEFAULT_TIER);
      tokens := b.tokens;
    }

    static ghost function BalanceOf(c: C.ClientState, tier: string): int {
      match C.ServingTier(c, tier)
      case None => 0
      case Some(t) => c.buckets[t].tokens
    }

    method Count() returns (n: nat)
      requires Valid()
      ensures n == |value|
    {
      n := |clients|;
      assert |clients| == |clients.Keys| && |value| == |value.Keys|;
    }

    method IsBlocked(key: string) returns (blocked: bool)
      requires Valid() && key in value
      ensures blocked <==> C.IsBlocked(value[key])
    {
      assert Holds(key);
      blocked := clients[key].IsBlocked();
    }

    /** The key of the client used least recently, by a scan over all of them. */
    method Oldest() returns (oldest: string)
      requires Valid() && value != map[]
      ensures IsLeastRecent(value, oldest)
    {
      var left := clients.Keys;
      var first, oldestTime, k0 := true, ZERO_TIME, "";
      ghost var seen := {};
      while left != {}
        invariant seen + left == clients.Keys
        invariant Scanned(value, seen, first, k0, oldestTime)
        decreases left
      {
        var k :| k in left;
        k0, oldestTime := Older(k, first, k0, oldestTime, seen);
        MoveOne(seen, left, k);
        first, left, seen := false, left - {k}, seen + {k};
      }
      assert seen == clients.Keys;
      return k0;
    }

    /** The body of the scan: the older of k and the oldest so far. */
    method Older(k: string, first: bool, k0: string, t0: int, ghost seen: set<string>) returns (k1: string, t1: int)
      requires Valid() && k in clients
      requires Scanned(value, seen, first, k0, t0)
      ensures Scanned(value, seen + {k}, false, k1, t1)
    {
      hide C.LastAccess;
      var la := AccessOf(k);
      if first || la < t0 {
        return k, la;
      }
      return k0, t0;
    }

    /** Of the keys seen, if any, k was used least recently, at t. */
    ghost static predicate Scanned(clients: map<string, C.ClientState>, seen: set<string>, first: bool, k: string,
                                   t: int)
    {
      if first then seen == {}
      else
        && k in seen && k in clients && t == C.LastAccess(clients[k])
        && forall j :: j in seen && j in clients ==> t <= C.LastAccess(clients[j])
    }

    static lemma MoveOne(seen: set<string>, left: set<string>, k: string)
      requires k in left
      ensures seen + {k} + (left - {k}) == seen + left
    {
    }

    method AccessOf(key: string) returns (t: int)
      requires Valid() && key in value
      ensures key in value && t == C.LastAccess(value[key])
    {
      assert Holds(key);
      t := clients[key].LastAccess();
    }
  }
}
