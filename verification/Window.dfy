/** The ring buffer of timestamps, updated in place. */
module Window {
  import opened WindowSpec

  lemma WrapOnce(x: int, n: int)
    requires 0 <= x < 2 * n
    ensures x % n == if x < n then x else x - n
  {
    if x >= n {
      assert x == n * 1 + (x - n);
    }
  }

  /** The count slots that end just before head, oldest first, wrapping round the end of the ring. */
  function LiveSlots(ring: seq<int>, head: nat, count: nat): (s: seq<int>)
    requires head < |ring| && count <= |ring|
    ensures |s| == count
  {
    if count <= head then ring[head - count..head] else ring[head + |ring| - count..] + ring[..head]
  }

  class SlidingWindow {
    const windowSize: int
    const maxRequests: int
    const timestamps: array<int>
    var head: nat
    var count: nat

    /** Capacity exceeds the limit, so a push never overwrites a live slot. */
    ghost predicate Valid()
      reads this, timestamps
    {
      && head < timestamps.Length
      && count < timestamps.Length
      && (count == 0 || count <= maxRequests)
      && maxRequests < timestamps.Length
    }

    ghost function Live(): (s: seq<int>)
      requires Valid()
      reads this, timestamps
      ensures |s| == count
    {
      LiveSlots(timestamps[..], head, count)
    }

    ghost function Value(): WindowState
      requires Valid()
      reads this, timestamps
    {
      WindowState(windowSize, maxRequests, Live())
    }

    constructor (cfg: WindowConfig)
      ensures Valid() && fresh(timestamps)
      ensures Value() == New(cfg)
      ensures timestamps.Length >= cfg.maxRequests + 1 && timestamps.Length >= cfg.bufferSize
    {
      var minSize := cfg.maxRequests + 1;
      var bufSize := cfg.bufferSize;
      if bufSize < minSize {
        bufSize := minSize;
      }
      if bufSize < 1 {
        bufSize := 1;
      }
      windowSize := cfg.duration;
      maxRequests := cfg.maxRequests;
      timestamps := new int[bufSize];
      head := 0;
      count := 0;
    }

    method Allow(now: int) returns (ok: bool)
      requires Valid()
      modifies this, timestamps
      ensures Valid()
      ensures ok == Admits(old(Value()), now)
      ensures Value() == WindowSpec.Allow(old(Value()), now)
    {
      CompactLocked(now - windowSize);
      if count >= maxRequests {
        return false;
      }
      PushLocked(now);
      return true;
    }

    method Cleanup(now: int)
      requires Valid()
      modifies this, timestamps
      ensures Valid()
      ensures Value() == WindowSpec.Cleanup(old(Value()), now)
    {
      CompactLocked(now - windowSize);
    }

    method CompactLocked(cutoff: int)
      requires Valid()
      modifies this`count
      ensures Valid() && head == old(head) && count <= old(count)
      ensures Live() == Compact(old(Live()), cutoff)
    {
      var n := timestamps.Length;
      if n == 0 || count == 0 {
        return;
      }
      WrapOnce(head - count + n, n);
      var start := (head - count + n) % n;
      while count > 0 && timestamps[start] <= cutoff
        invariant Valid() && head == old(head) && count <= old(count)
        invariant start < n && start == if count <= head then head - count else head - count + n
        invariant Compact(Live(), cutoff) == Compact(old(Live()), cutoff)
        decreases count
      {
        ghost var before := Live();
        WrapOnce(start + 1, n);
        start := (start + 1) % n;
        count := count - 1;
        assert Live() == before[1..];
      }
    }

    method PushLocked(ts: int)
      requires Valid() && count < maxRequests
      modifies this, timestamps
      ensures Valid()
      ensures Live() == old(Live()) + [ts]
    {
      var n := timestamps.Length;
      ghost var before := Live();
      timestamps[head] := ts;
      WrapOnce(head + 1, n);
      head := (head + 1) % n;
      if count < n {
        count := count + 1;
      }
      assert Live()[..count - 1] == before;
    }
  }
}
