/** One client's buckets as an object: a table of bucket objects by tier name. */
module MultiBucket {
  import opened Arithmetic
  import opened BucketSpec
  import C = ClientSpec
  import Bucket
  import opened BucketTable

  class ClientBuckets {
    const clientKey: string
    const table: BucketTable

    ghost function Repr(): set<object>
      reads this, table
    {
      {this} + table.Repr()
    }

    ghost predicate Valid()
      reads this, table, table.homes.Keys
    {
      table.Valid() && this !in table.Repr()
    }

    ghost function Value(): C.ClientState
      reads this, table
    {
      C.ClientState(clientKey, table.value)
    }

    constructor (key: string)
      ensures Valid() && fresh(Repr())
      ensures Value() == C.New(key)
    {
      clientKey := key;
      table := new BucketTable();
    }

    static method Named(tier: string) returns (name: string)
      ensures name == C.TierName(tier)
    {
      name := tier;
      if name == "" {
        name := C.DEFAULT_TIER;
      }
    }

    /** Creates or replaces the bucket of a tier. */
    method Configure(tier: string, cfg: Config, now: int) returns (b: Bucket.Bucket)
      requires Valid()
      modifies table
      ensures Valid() && fresh(Repr() - old(Repr())) && Repr() >= old(Repr())
      ensures Value() == C.Configure(old(Value()), tier, cfg, now)
      ensures C.TierName(tier) in table.buckets && b == table.buckets[C.TierName(tier)]
    {
      var name := Named(tier);
      b := table.Install(name, cfg, now);
    }

    method BucketOf(tier: string) returns (b: Bucket.Bucket?)
      requires Valid()
      ensures b == if C.TierName(tier) in table.buckets then table.buckets[C.TierName(tier)] else null
      ensures b == null <==> C.BucketOf(Value(), tier).None?
    {
      var name := Named(tier);
      b := if name in table.buckets then table.buckets[name] else null;
    }

    /** When a configured tier refills next. */
    method NextOf(tier: string) returns (next: int)
      requires Valid() && C.BucketOf(Value(), tier).Some?
      ensures next == NextRefillTime(C.BucketOf(Value(), tier).value)
    {
      var b := BucketOf(tier);
      table.Reads(C.TierName(tier));
      next := b.NextRefillTime();
    }

    /** Refills a configured tier, and says when it refills next. */
    method Refill(tier: string, now: int) returns (next: int)
      requires Valid() && C.BucketOf(Value(), tier).Some?
      modifies Repr() - {this}
      ensures Valid() && Repr() == old(Repr())
      ensures Value() == C.Refilled(old(Value()), tier, now) && next == C.NextAfter(old(Value()), tier, now)
    {
      var name := Named(tier);
      next := table.RefillIn(name, now);
    }

    /** Consumes from the tier's bucket, else the default's; refuses when there is neither. */
    method Allow(tier: string, now: int) returns (allowed: bool, retryAfter: int)
      requires Valid()
      modifies Repr() - {this}
      ensures Valid() && Repr() == old(Repr())
      ensures (Value(), Reply(allowed, retryAfter)) == C.Allow(old(Value()), tier, now)
    {
      var name := Named(tier);
      if name !in table.buckets {
        name := C.DEFAULT_TIER;
      }
      if name !in table.buckets {
        return false, SECOND;
      }
      allowed, retryAfter := table.AllowFrom(name, now);
    }

    /** The configured tiers, each once. */
    method Tiers() returns (tiers: seq<string>)
      ensures forall t :: t in tiers <==> t in table.buckets
      ensures forall i, j :: 0 <= i < j < |tiers| ==> tiers[i] != tiers[j]
    {
      tiers := [];
      var left := table.buckets.Keys;
      while left != {}
        invariant left <= table.buckets.Keys
        invariant forall t :: t in tiers <==> t in table.buckets && t !in left
        invariant forall i, j :: 0 <= i < j < |tiers| ==> tiers[i] != tiers[j]
        decreases left
      {
        var t :| t in left;
        tiers := tiers + [t];
        left := left - {t};
      }
    }

    /** Blocks every tier. */
    method BlockAll()
      requires Valid()
      modifies Repr() - {this}
      ensures Valid() && Repr() == old(Repr())
      ensures Value() == C.SetBlocked(old(Value()), true)
    {
      table.MarkAll(true);
    }

    method UnblockAll()
      requires Valid()
      modifies Repr() - {this}
      ensures Valid() && Repr() == old(Repr())
      ensures Value() == C.SetBlocked(old(Value()), false)
    {
      table.MarkAll(false);
    }

    method IsBlocked() returns (blocked: bool)
      requires Valid()
      ensures blocked <==> C.IsBlocked(Value())
    {
      var left := table.buckets.Keys;
      while left != {}
        invariant left <= table.buckets.Keys
        invariant forall t :: t in table.buckets && t !in left ==> !table.value[t].blocked
        decreases left
      {
        var t :| t in left;
        table.Reads(t);
        if table.buckets[t].blocked {
          return true;
        }
        left := left - {t};
      }
      return false;
    }

    /** The latest access over all tiers. */
    method LastAccess() returns (latest: int)
      requires Valid()
      ensures latest == C.LastAccess(Value())
    {
      latest := ZERO_TIME;
      var left := table.buckets.Keys;
      while left != {}
        invariant left <= table.buckets.Keys
        invariant C.IsLatest(table.value - left, latest)
        decreases left
      {
        var t :| t in left;
        table.Reads(t);
        ghost var seen := table.value - left;
        if table.buckets[t].lastAccessTime > latest {
          latest := table.buckets[t].lastAccessTime;
        }
        left := left - {t};
        SeeOne(seen, table.value - left, t, latest);
      }
      assert table.value - left == table.value;
      C.LatestUnique(table.value, latest, C.LatestOf(table.value));
    }

    static lemma SeeOne(seen: map<string, BucketState>, more: map<string, BucketState>, t: string, latest: int)
      requires t !in seen && t in more && more == seen[t := more[t]]
      requires exists before :: C.IsLatest(seen, before) && latest == Max(before, more[t].lastAccess)
      ensures C.IsLatest(more, latest)
    {
      var before :| C.IsLatest(seen, before) && latest == Max(before, more[t].lastAccess);
      if latest == more[t].lastAccess {
        assert t in more;
      } else if latest > ZERO_TIME {
        var u :| u in seen && seen[u].lastAccess == before;
        assert u in more && more[u].lastAccess == latest;
      }
    }
  }
}
