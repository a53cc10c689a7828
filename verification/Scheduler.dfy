/** The refill scheduler's indexed min-heap: a slice of entries that know their own position, and a map
    from id to entry. The sift, Push, Pop, Fix and Remove procedures of Go's container/heap, which the
    source calls, are written out over the source's own Less, Swap, Push and Pop. */
module Scheduler {
  import opened HeapOrder
  import opened SchedulerSpec

  class Entry {
    const id: string
    var nextRefillTime: int
    var heapIndex: int

    constructor (id: string, next: int)
      ensures this.id == id && nextRefillTime == next
    {
      this.id := id;
      nextRefillTime := next;
      heapIndex := 0;
    }
  }

  class Scheduler {
    var h: seq<Entry>
    var entries: map<string, Entry>
    var wakeup: bool
    ghost var keys: seq<int>  // the times in the slice, by position
    ghost var plan: Plan  // what is scheduled: each id's time

    ghost function Repr(): set<object>
      reads this
    {
      {this as object} + entries.Values
    }

    /** Every entry knows its index, and map m holds exactly the entries of the slice by id. */
    ghost predicate LinkedBy(m: map<string, Entry>)
      reads this, h, m.Values
    {
      && |keys| == |h|
      && (forall i {:trigger h[i]} :: 0 <= i < |h| ==>
            && h[i].heapIndex == i && h[i].nextRefillTime == keys[i]
            && h[i].id in m && m[h[i].id] == h[i])
      && (forall id {:trigger m[id]} :: id in m ==> InSlot(m[id], id))
    }

    ghost predicate InSlot(e: Entry, id: string)
      reads this, e
    {
      e.id == id && 0 <= e.heapIndex < |h| && h[e.heapIndex] == e
    }

    /** plan gives the time of every scheduled entry. */
    ghost predicate Timed()
      reads this, entries.Values
    {
      && plan.Keys == entries.Keys
      && (forall id {:trigger entries[id]} :: id in entries ==> plan[id] == entries[id].nextRefillTime)
    }

    ghost predicate Valid()
      reads this, entries.Values
    {
      Within() && LinkedBy(entries) && Heap(keys, |h|) && Timed()
    }

    /** The slice holds entries of the map only. */
    ghost predicate Within()
      reads this
    {
      forall i {:trigger h[i]} :: 0 <= i < |h| ==> h[i] in entries.Values
    }

    constructor ()
      ensures Valid() && fresh(Repr())
      ensures plan == map[] && !wakeup
    {
      h := [];
      entries := map[];
      wakeup := false;
      keys := [];
      plan := map[];
    }

    // ---- the heap's own procedures ---------------------------------------------------------

    predicate Less(i: nat, j: nat)
      requires i < |h| && j < |h|
      reads this, h
    {
      h[i].nextRefillTime < h[j].nextRefillTime
    }

    method Swap(i: nat, j: nat, ghost m: map<string, Entry>)
      requires i < |h| && j < |h| && LinkedBy(m)
      modifies this`h, this`keys, m.Values`heapIndex
      ensures LinkedBy(m)
      ensures h == old(h)[i := old(h[j])][j := old(h[i])]
      ensures keys == Swapped(old(keys), i, j)
    {
      h := h[i := h[j]][j := h[i]];
      keys := Swapped(keys, i, j);
      h[i].heapIndex := i;
      h[j].heapIndex := j;
    }

    method Up(j0: nat, ghost n: nat, ghost m: map<string, Entry>)
      requires j0 < n <= |h| && LinkedBy(m)
      requires Broken(keys, n, j0, true) && ChildrenOK(keys, n, j0)
      modifies this`h, this`keys, m.Values`heapIndex
      ensures LinkedBy(m) && |h| == |old(h)| && (n < |h| ==> h[n] == old(h)[n])
      ensures Heap(keys, n)
    {
      var j: nat := j0;
      while j > 0 && Less(j, Parent(j))
        invariant j < n <= |h| == |old(h)| && LinkedBy(m)
        invariant (n < |h| ==> h[n] == old(h)[n])
        invariant Broken(keys, n, j, true) && ChildrenOK(keys, n, j)
        decreases j
      {
        UpStep(keys, n, j);
        var i := Parent(j);
        Swap(i, j, m);
        j := i;
      }
      UpDone(keys, n, j);
    }

    method SmallerChild(i: nat, n: nat, ghost m: map<string, Entry>) returns (j: nat)
      requires 2 * i + 1 < n <= |h| && LinkedBy(m)
      ensures LesserChild(keys, n, i, j)
    {
      j := 2 * i + 1;
      if j + 1 < n && Less(j + 1, j) {
        j := j + 1;
      }
    }

    /** One turn of the sift-down loop: the place to continue from, or i itself when done. */
    method DownOnce(i: nat, n: nat, ghost up: bool, ghost m: map<string, Entry>) returns (j: nat)
      requires 2 * i + 1 < n <= |h| && LinkedBy(m)
      requires Broken(keys, n, i, up)
      modifies this`h, this`keys, m.Values`heapIndex
      ensures LinkedBy(m) && |h| == |old(h)| && (n < |h| ==> h[n] == old(h)[n])
      ensures i <= j < n
      ensures j == i ==> h == old(h) && keys == old(keys) && ChildrenOK(keys, n, i)
      ensures j > i ==> Broken(keys, n, j, false)
    {
      j := SmallerChild(i, n, m);
      if Less(j, i) {
        DownStep(keys, n, i, j, up);
        Swap(i, j, m);
      } else {
        j := i;
      }
    }

    method Down(i0: nat, n: nat, ghost m: map<string, Entry>) returns (moved: bool)
      requires i0 < n <= |h| && LinkedBy(m)
      requires Broken(keys, n, i0, true)
      modifies this`h, this`keys, m.Values`heapIndex
      ensures LinkedBy(m) && |h| == |old(h)| && (n < |h| ==> h[n] == old(h)[n])
      ensures moved ==> Heap(keys, n)
      ensures !moved ==> Broken(keys, n, i0, true) && ChildrenOK(keys, n, i0)
    {
      var i: nat := i0;
      while 2 * i + 1 < n
        invariant i0 <= i < n <= |h| == |old(h)| && LinkedBy(m)
        invariant (n < |h| ==> h[n] == old(h)[n])
        invariant if i == i0 then Broken(keys, n, i, true) else Broken(keys, n, i, false)
        decreases n - i
      {
        var j := DownOnce(i, n, i == i0, m);
        if j == i {
          break;
        }
        i := j;
      }
      assert ChildrenOK(keys, n, i);
      moved := i > i0;
      if moved {
        DownDone(keys, n, i);
      }
    }

    /** container/heap's Push: append, then sift up. The id map does not know the entry yet. */
    method HeapPush(e: Entry)
      requires LinkedBy(entries) && Heap(keys, |h|) && e.id !in entries && e !in entries.Values
      modifies this`h, this`keys, entries.Values`heapIndex, e`heapIndex
      ensures LinkedBy(entries[e.id := e]) && Heap(keys, |h|)
    {
      hide Heap;
      hide HeapOrder.Broken;
      PushBreaks(keys, e.nextRefillTime);
      e.heapIndex := |h|;
      h := h + [e];
      keys := keys + [e.nextRefillTime];
      ghost var m := entries[e.id := e];
      assert forall x :: x in m.Values ==> x == e || x in entries.Values;
      assert LinkedBy(m);
      Up(|h| - 1, |h|, m);
    }

    /** container/heap's Pop: the root leaves the slice; the id map still knows it. */
    method HeapPop() returns (e: Entry)
      requires LinkedBy(entries) && Heap(keys, |h|) && |h| > 0
      modifies this`h, this`keys, entries.Values`heapIndex
      ensures e == old(h)[0] && e.id in entries && entries[e.id] == e
      ensures LinkedBy(entries - {e.id}) && Heap(keys, |h|) && |h| == |old(h)| - 1
    {
      LeastLast();
      e := Pop(entries);
    }

    /** The root goes last, and order is restored before it. */
    method LeastLast()
      requires LinkedBy(entries) && Heap(keys, |h|) && |h| > 0
      modifies this`h, this`keys, entries.Values`heapIndex
      ensures LinkedBy(entries) && |h| == |old(h)| && h[|h| - 1] == old(h)[0]
      ensures Heap(keys, |h| - 1)
    {
      hide HeapOrder.Swapped;
      hide HeapOrder.Broken;
      var n := |h| - 1;
      ghost var ks := keys;
      Swap(0, n, entries);
      if n > 0 {
        SwapBreaks(ks, 0, n);
        Sink(n);
      }
    }

    method Sink(n: nat)
      requires LinkedBy(entries) && 0 < n < |h| && Broken(keys, n, 0, true)
      modifies this`h, this`keys, entries.Values`heapIndex
      ensures LinkedBy(entries) && |h| == |old(h)| && h[n] == old(h)[n]
      ensures Heap(keys, n)
    {
      var moved := Down(0, n, entries);
      if !moved {
        UpDone(keys, n, 0);
      }
    }

    /** Sift down or else up, as container/heap's Fix and Remove both do, within the first n entries. */
    method Settle(i: nat, n: nat)
      requires LinkedBy(entries) && i < n <= |h| && Broken(keys, n, i, true)
      modifies this`h, this`keys, entries.Values`heapIndex
      ensures LinkedBy(entries) && |h| == |old(h)| && (n < |h| ==> h[n] == old(h)[n])
      ensures Heap(keys, n)
    {
      var moved := Down(i, n, entries);
      if !moved {
        Up(i, n, entries);
      }
    }

    /** container/heap's Fix: the time of the entry at i has changed. */
    method HeapFix(i: nat)
      requires LinkedBy(entries) && i < |h| && Broken(keys, |h|, i, true)
      modifies this`h, this`keys, entries.Values`heapIndex
      ensures LinkedBy(entries) && Heap(keys, |h|)
    {
      Settle(i, |h|);
    }

    /** container/heap's Remove: the entry at i leaves the slice. */
    method HeapRemove(i: nat)
      requires LinkedBy(entries) && Heap(keys, |h|) && i < |h|
      modifies this`h, this`keys, entries.Values`heapIndex
      ensures LinkedBy(entries - {old(h)[i].id}) && Heap(keys, |h|)
    {
      MoveToEnd(i);
      var e := Pop(entries);
    }

    method MoveToEnd(i: nat)
      requires LinkedBy(entries) && Heap(keys, |h|) && i < |h|
      modifies this`h, this`keys, entries.Values`heapIndex
      ensures LinkedBy(entries) && |h| == |old(h)| && h[|h| - 1] == old(h)[i]
      ensures Heap(keys, |h| - 1)
    {
      var n := |h| - 1;
      if n != i {
        SwapAway(i);
      }
    }

    /** Exchanges the entry at i with the last and restores order before it. */
    method SwapAway(i: nat)
      requires LinkedBy(entries) && Heap(keys, |h|) && i < |h| - 1
      modifies this`h, this`keys, entries.Values`heapIndex
      ensures LinkedBy(entries) && |h| == |old(h)| && h[|h| - 1] == old(h)[i]
      ensures Heap(keys, |h| - 1)
    {
      hide HeapOrder.Swapped;
      hide HeapOrder.Broken;
      var n := |h| - 1;
      ghost var ks := keys;
      Swap(i, n, entries);
      SwapBreaks(ks, i, n);
      Settle(i, n);
    }

    /** refillHeap's own Pop: the last entry leaves the slice. */
    method Pop(ghost m: map<string, Entry>) returns (e: Entry)
      requires |h| > 0 && LinkedBy(m) && Heap(keys, |h| - 1)
      modifies this`h, this`keys, m.Values`heapIndex
      ensures e == old(h)[|old(h)| - 1] && e.id in m && m[e.id] == e
      ensures LinkedBy(m - {e.id}) && Heap(keys, |h|) && |h| == |old(h)| - 1
    {
      var n := |h|;
      e := h[n - 1];
      e.heapIndex := -1;
      h := h[..n - 1];
      HeapOfFewer(keys, keys[..n - 1], n - 1);
      keys := keys[..n - 1];
    }

    // ---- the scheduler's operations ------------------------------------------------------------

    /** Schedules id at next, whether or not it was scheduled before, and leaves a wakeup token. */
    method Schedule(id: string, next: int)
      requires Valid()
      modifies this`h, this`keys, this`entries, this`plan, this`wakeup, entries.Values
      ensures Valid() && fresh(Repr() - old(Repr()))
      ensures plan == old(plan)[id := next] && wakeup
    {
      hide Valid;
      if id in entries {
        Move(id, next);
      } else {
        var e := new Entry(id, next);
        Insert(e);
      }
      Signal();
    }

    /** Schedule's branch for an id not scheduled. */
    method Insert(e: Entry)
      requires Valid() && e.id !in entries && e !in entries.Values
      modifies this`h, this`keys, this`entries, this`plan, entries.Values`heapIndex, e`heapIndex
      ensures Valid() && entries == old(entries)[e.id := e]
      ensures plan == old(plan)[e.id := e.nextRefillTime]
    {
      HeapPush(e);
      Learn(e);
    }

    /** The entry e is in the slice; it enters the map. */
    method Learn(e: Entry)
      requires LinkedBy(entries[e.id := e]) && Heap(keys, |h|) && Timed()
      modifies this`entries, this`plan
      ensures Valid() && entries == old(entries)[e.id := e]
      ensures plan == old(plan)[e.id := e.nextRefillTime]
    {
      entries := entries[e.id := e];
      plan := plan[e.id := e.nextRefillTime];
    }

    /** Schedule's branch for an id already scheduled. */
    method Move(id: string, next: int)
      requires Valid() && id in entries
      modifies this`h, this`keys, this`plan, entries.Values
      ensures Valid()
      ensures plan == old(plan)[id := next]
    {
      hide Heap;
      hide HeapOrder.Broken;
      hide LinkedBy;
      var e := entries[id];
      SetTime(e, id, next);
      HeapFix(e.heapIndex);
    }

    method SetTime(e: Entry, ghost id: string, next: int)
      requires Valid() && id in entries && entries[id] == e
      modifies this`keys, this`plan, e`nextRefillTime
      ensures InSlot(e, id) && LinkedBy(entries) && Broken(keys, |h|, e.heapIndex, true)
      ensures Timed() && plan == old(plan)[id := next]
    {
      hide HeapOrder.Broken;
      hide Within;
      hide Heap;
      assert InSlot(e, id);
      ghost var ks := keys;
      e.nextRefillTime := next;
      keys := keys[e.heapIndex := next];
      plan := plan[id := next];
      ChangeBreaks(ks, keys, |h|, e.heapIndex);
    }

    /** Removes id's schedule, if any. */
    method Remove(id: string)
      requires Valid()
      modifies this`h, this`keys, this`entries, this`plan, entries.Values`heapIndex
      ensures Valid() && Repr() <= old(Repr())
      ensures plan == old(plan) - {id}
    {
      if id !in entries {
        return;
      }
      var e := entries[id];
      assert InSlot(e, id);
      HeapRemove(e.heapIndex);
      Forget(id);
    }

    /** The entry of id has left the slice; it leaves the map. */
    method Forget(id: string)
      requires LinkedBy(entries - {id}) && Heap(keys, |h|) && Timed()
      modifies this`entries, this`plan
      ensures Valid() && entries == old(entries) - {id} && Repr() <= old(Repr())
      ensures plan == old(plan) - {id}
    {
      entries := entries - {id};
      plan := plan - {id};
    }

    /** Leaves a token in the one-place channel, or nothing when one is there already. */
    method Signal()
      requires Valid()
      modifies this`wakeup
      ensures Valid() && plan == old(plan) && wakeup
    {
      if !wakeup {
        wakeup := true;
      }
    }

    /** How long Run sleeps when it looks at `now`. */
    method NextWait(now: int) returns (wait: int)
      requires Valid()
      ensures plan == map[] ==> wait == HOUR
      ensures plan != map[] ==>
        && wait >= 0
        && (forall id :: id in plan ==> wait <= (if plan[id] > now then plan[id] - now else 0))
        && (exists id :: id in plan && wait == (if plan[id] > now then plan[id] - now else 0))
    {
      if |h| == 0 {
        NothingLeft();
        return HOUR;
      }
      LeastIsRoot();
      assert h[0].id in plan;
      wait := h[0].nextRefillTime - now;
      if wait < 0 {
        wait := 0;
      }
    }

    lemma LeastIsRoot()
      requires Valid() && |h| > 0
      ensures h[0].id in plan && plan[h[0].id] == h[0].nextRefillTime
      ensures forall id :: id in plan ==> h[0].nextRefillTime <= plan[id]
    {
      forall id | id in plan ensures h[0].nextRefillTime <= plan[id] {
        assert InSlot(entries[id], id);
        RootLeast(keys, |h|, entries[id].heapIndex);
        assert h[entries[id].heapIndex].nextRefillTime == keys[entries[id].heapIndex];
      }
    }

    // ---- one pass over what is due --------------------------------------------------------------

    /** Takes the earliest entry out of the heap and the map. */
    method PopEarliest() returns (id: string)
      requires Valid() && |h| > 0
      modifies this`h, this`keys, this`entries, this`plan, entries.Values`heapIndex
      ensures Valid() && Repr() <= old(Repr()) && |h| == |old(h)| - 1
      ensures id == old(h)[0].id && id in old(plan) && plan == old(plan) - {id}
    {
      var e := HeapPop();
      id := e.id;
      Forget(id);
    }

    /** processDue's locked part: pops everything whose time has come. */
    method DrainDue(now: int) returns (due: seq<string>)
      requires Valid()
      modifies this`h, this`keys, this`entries, this`plan, entries.Values`heapIndex
      ensures Valid() && Repr() <= old(Repr())
      ensures Drains(old(plan), now, due) && plan == Without(old(plan), due)
    {
      var ids := [];
      ghost var all := plan;
      while HasDue(now)
        invariant Valid() && Repr() <= old(Repr())
        invariant Draining(all, now, ids) && plan == Without(all, ids)
        decreases |h|
      {
        ids := PopDue(all, now, ids);
      }
      NothingDue(now);
      DrainEnds(all, now, ids);
      return ids;
    }

    predicate HasDue(now: int)
      reads this, h
    {
      |h| > 0 && h[0].nextRefillTime <= now
    }

    /** The drain loop's body. */
    method PopDue(ghost all: Plan, ghost now: int, due: seq<string>) returns (due': seq<string>)
      requires Valid() && HasDue(now)
      requires Draining(all, now, due) && plan == Without(all, due)
      modifies this`h, this`keys, this`entries, this`plan, entries.Values`heapIndex
      ensures Valid() && Repr() <= old(Repr()) && |h| < |old(h)|
      ensures Draining(all, now, due') && plan == Without(all, due')
    {
      LeastIsRoot();
      DrainOne(all, now, due, h[0].id);
      var id := PopEarliest();
      due' := due + [id];
    }

    lemma NothingDue(now: int)
      requires Valid() && !HasDue(now)
      ensures forall id :: id in plan ==> plan[id] > now
    {
      if |h| > 0 {
        LeastIsRoot();
      } else {
        NothingLeft();
      }
    }

    lemma NothingLeft()
      requires Valid() && |h| == 0
      ensures plan == map[]
    {
      assert forall id :: id in entries ==> InSlot(entries[id], id);
    }

    /** One pass: drains what is due, calls onDue once for each drained id, and schedules again those it
        answers for. */
    method ProcessDue(now: int, onDue: OnDue) returns (due: seq<string>)
      requires Valid()
      modifies Repr()
      ensures Valid() && fresh(Repr() - old(Repr()))
      ensures Drains(old(plan), now, due)
      ensures plan == Reschedule(Without(old(plan), due), due, now, onDue)
    {
      var ids := DrainDue(now);
      ghost var kept := plan;
      for i := 0 to |ids|
        invariant Valid() && fresh(Repr() - old(Repr()))
        invariant plan == Reschedule(kept, ids[..i], now, onDue)
      {
        assert ids[..i + 1][..i] == ids[..i];
        AnswerDue(ids[i], now, onDue);
      }
      assert ids[..|ids|] == ids;
      return ids;
    }

    /** The body of processDue's second loop. */
    method AnswerDue(id: string, now: int, onDue: OnDue)
      requires Valid()
      modifies Repr()
      ensures Valid() && fresh(Repr() - old(Repr()))
      ensures plan == Answer(old(plan), id, onDue(id, now))
    {
      var next := onDue(id, now);
      if next.Some? {
        Schedule(id, next.value);
      }
    }
  }
}
