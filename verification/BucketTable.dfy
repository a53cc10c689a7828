/** A map from names to bucket objects, no two of which share anything: a client's buckets by tier, and the
    store's buckets by address. */
module BucketTable {
  import opened BucketSpec
  import opened Bucket

  /** Every part moves in with name; the other objects stay where they are. */
  ghost function Rehomed(homes: map<object, string>, parts: set<object>, name: string): (r: map<object, string>)
    ensures r.Keys == homes.Keys + parts
    ensures forall x :: x in r ==> r[x] == if x in parts then name else homes[x]
  {
    homes + map x | x in parts :: name
  }

  class BucketTable {
    var buckets: map<string, Bucket>
    ghost var value: map<string, BucketState> // the buckets on values
    ghost var homes: map<object, string>      // the name each owned object belongs to

    ghost function Repr(): set<object>
      reads this
    {
      {this} + homes.Keys
    }

    /** Every part of b is at home with name. */
    ghost predicate OwnedBy(b: Bucket, name: string)
      reads this, b
    {
      && b in homes && homes[b] == name
      && (b.window != null ==>
            && b.window in homes && homes[b.window] == name
            && b.window.timestamps in homes && homes[b.window.timestamps] == name)
    }

    /** The bucket under name is there, and is what `value` says. */
    ghost predicate Holds(name: string)
      requires name in buckets
      reads this, homes.Keys
    {
      && buckets[name] in homes && OwnedBy(buckets[name], name)
      && buckets[name].Valid() && name in value && buckets[name].state == value[name]
    }

    ghost predicate Valid()
      reads this, homes.Keys
    {
      && this !in homes && value.Keys == buckets.Keys
      && (forall name {:trigger buckets[name]} :: name in buckets ==> Holds(name))
    }

    constructor ()
      ensures Valid() && fresh(Repr())
      ensures value == map[]
    {
      buckets := map[];
      value := map[];
      homes := map[];
    }

    /** A bucket nobody owns yet takes the name, in place of the one that had it. */
    method Adopt(name: string, b: Bucket)
      requires Valid() && b.Valid() && this !in b.Repr() && b.Repr() !! homes.Keys
      modifies this
      ensures Valid() && homes.Keys == old(homes).Keys + b.Repr()
      ensures buckets == old(buckets)[name := b]
      ensures value == old(value)[name := b.state]
    {
      hide Bucket.Valid;
      hide Rehomed;
      buckets := buckets[name := b];
      value := value[name := b.state];
      homes := Rehomed(homes, b.Repr(), name);
      forall n | n in buckets && n != name ensures Holds(n) {
        StillHolds(n);
      }
    }

    /** A fresh bucket takes the name. */
    method Install(name: string, cfg: Config, now: int) returns (b: Bucket)
      requires Valid()
      modifies this
      ensures Valid() && fresh(Repr() - old(Repr())) && homes.Keys >= old(homes).Keys
      ensures name in buckets && b == buckets[name]
      ensures value == old(value)[name := New(cfg, now)]
    {
      b := new Bucket(cfg, now);
      Adopt(name, b);
    }

    method Drop(name: string)
      requires Valid()
      modifies this`buckets, this`value
      ensures Valid()
      ensures value == old(value) - {name} && buckets == old(buckets) - {name}
    {
      buckets := buckets - {name};
      value := value - {name};
      assert forall n :: n in buckets ==> old(Holds(n));
    }

    method Has(name: string) returns (there: bool)
      requires Valid()
      ensures there <==> name in value
    {
      there := name in buckets;
    }

    method Names() returns (names: set<string>)
      requires Valid()
      ensures names == value.Keys
    {
      names := buckets.Keys;
    }

    method Count() returns (n: nat)
      requires Valid()
      ensures n == |value|
    {
      n := |buckets|;
      assert |buckets| == |buckets.Keys| && |value| == |value.Keys|;
    }

    /** Allow on the bucket under name. */
    method AllowFrom(name: string, now: int) returns (allowed: bool, retryAfter: int)
      requires Valid() && name in value
      modifies this`value, homes.Keys
      ensures Valid()
      ensures value == old(value)[name := BucketSpec.Allow(old(value)[name], now).0]
      ensures Reply(allowed, retryAfter) == BucketSpec.Allow(old(value)[name], now).1
    {
      hide Bucket.Valid;
      hide BucketSpec.Allow;
      assert Holds(name);
      allowed, retryAfter := buckets[name].Allow(now);
      value := value[name := buckets[name].state];
      forall n | n in buckets && n != name ensures Holds(n) {
        StillHolds(n);
      }
    }

    /** Refills the bucket under name, and says when it refills next. */
    method RefillIn(name: string, now: int) returns (next: int)
      requires Valid() && name in value
      modifies this`value, homes.Keys
      ensures Valid()
      ensures value == old(value)[name := Refill(old(value)[name], now)]
      ensures next == NextRefillTime(Refill(old(value)[name], now))
    {
      assert Holds(name);
      buckets[name].ScheduledRefill(now);
      value := value[name := buckets[name].state];
      next := buckets[name].NextRefillTime();
      forall n | n in buckets && n != name ensures Holds(n) {
        StillHolds(n);
      }
    }

    /** When the bucket under name refills next. */
    method NextOf(name: string) returns (next: int)
      requires Valid() && name in value
      ensures name in value && next == NextRefillTime(value[name])
    {
      assert Holds(name);
      next := buckets[name].NextRefillTime();
    }

    /** Installs, and says when the fresh bucket refills next. */
    method InstallTimed(name: string, cfg: Config, now: int) returns (next: int)
      requires Valid()
      modifies this
      ensures Valid() && fresh(Repr() - old(Repr()))
      ensures value == old(value)[name := New(cfg, now)]
      ensures next == NextRefillTime(New(cfg, now))
    {
      var b := Install(name, cfg, now);
      next := NextOf(name);
    }

    /** Blocks or unblocks the bucket under name. */
    method Mark(name: string, on: bool)
      requires Valid() && name in value
      modifies this`value, homes.Keys
      ensures Valid()
      ensures value == old(value)[name := old(value)[name].(blocked := on)]
    {
      assert Holds(name);
      if on {
        buckets[name].Block();
      } else {
        buckets[name].Unblock();
      }
      value := value[name := buckets[name].state];
      forall n | n in buckets && n != name ensures Holds(n) {
        StillHolds(n);
      }
    }

    /** The name of the bucket used least recently, by a scan over all of them. */
    method Oldest() returns (oldest: string)
      requires Valid() && value != map[]
      ensures oldest in value && forall n :: n in value ==> value[oldest].lastAccess <= value[n].lastAccess
    {
      var left := buckets.Keys;
      var first, oldestTime, n0 := true, ZERO_TIME, "";
      ghost var seen := {};
      while left != {}
        invariant seen + left == buckets.Keys
        invariant Scanned(value, seen, first, n0, oldestTime)
        decreases left
      {
        var n :| n in left;
        Reads(n);
        var la := buckets[n].lastAccessTime;
        if first || la < oldestTime {
          n0, oldestTime := n, la;
        }
        first, left, seen := false, left - {n}, seen + {n};
      }
      assert seen == buckets.Keys;
      return n0;
    }

    /** Of the names seen, if any, n was used least recently, at t. */
    ghost static predicate Scanned(value: map<string, BucketState>, seen: set<string>, first: bool, n: string, t: int) {
      if first then seen == {}
      else
        && n in seen && n in value && t == value[n].lastAccess
        && forall j :: j in seen && j in value ==> t <= value[j].lastAccess
    }

    ghost predicate Marked(was: map<string, BucketState>, left: set<string>, on: bool)
      reads this
    {
      && value.Keys == was.Keys
      && forall n :: n in was ==> value[n] == if n in left then was[n] else was[n].(blocked := on)
    }

    /** Blocks or unblocks every bucket. */
    method MarkAll(on: bool)
      requires Valid()
      modifies this`value, homes.Keys
      ensures Valid()
      ensures value == map n | n in old(value) :: old(value)[n].(blocked := on)
    {
      ghost var was := value;
      var left := buckets.Keys;
      while left != {}
        invariant Valid() && left <= buckets.Keys && Marked(was, left, on)
        decreases left
      {
        var n :| n in left;
        Mark(n, on);
        left := left - {n};
      }
    }

    twostate lemma StillHolds(name: string)
      requires name in old(buckets) && old(Holds(name)) && name in buckets && buckets[name] == old(buckets)[name]
      requires name in value && value[name] == old(value)[name]
      requires OwnedBy(buckets[name], name)
      requires unchanged(buckets[name])
      requires buckets[name].window != null ==>
        unchanged(buckets[name].window) && unchanged(buckets[name].window.timestamps)
      ensures Holds(name)
    {
    }

    /** The bucket under name reads as `value` says. */
    lemma Reads(name: string)
      requires Valid() && name in value
      ensures name in value && buckets[name].Valid()
      ensures buckets[name].tokens == value[name].tokens && buckets[name].lastAccessTime == value[name].lastAccess
      ensures buckets[name].blocked == value[name].blocked && buckets[name].cfg == value[name].cfg
      ensures buckets[name].lastRefillTime == value[name].lastRefill
    {
      assert Holds(name);
    }
  }
}
