/** Binary-heap order on a sequence of keys, and what one sift step does to it. */
module HeapOrder {

  function Parent(i: nat): nat
    requires i > 0
  {
    (i - 1) / 2
  }

  /** Heap order among the first n keys. */
  predicate Heap(ks: seq<int>, n: nat)
    requires n <= |ks|
  {
    forall c :: 0 < c < n ==> ks[Parent(c)] <= ks[c]
  }

  /** Heap order but for position i, which may be too large for its children and, when up is set, too
      small for its parent; its children still respect its parent. */
  predicate Broken(ks: seq<int>, n: nat, i: nat, up: bool)
    requires n <= |ks| && i < n
  {
    && (forall c :: 0 < c < n && Parent(c) != i && (up ==> c != i) ==> ks[Parent(c)] <= ks[c])
    && (i > 0 ==> forall c :: 0 < c < n && Parent(c) == i ==> ks[Parent(i)] <= ks[c])
  }

  predicate ChildrenOK(ks: seq<int>, n: nat, i: nat)
    requires n <= |ks| && i < n
  {
    && (2 * i + 1 < n ==> ks[i] <= ks[2 * i + 1])
    && (2 * i + 2 < n ==> ks[i] <= ks[2 * i + 2])
  }

  function Swapped(ks: seq<int>, i: nat, j: nat): seq<int>
    requires i < |ks| && j < |ks|
  {
    ks[i := ks[j]][j := ks[i]]
  }

  lemma ParentBelow(c: nat)
    requires c > 0
    ensures Parent(c) < c
  {
  }

  lemma ChildIs(c: nat, i: nat)
    requires c > 0 && Parent(c) == i
    ensures c == 2 * i + 1 || c == 2 * i + 2
  {
  }

  /** A key smaller than its parent moves up; only its new place can then be wrong. */
  lemma UpStep(ks: seq<int>, n: nat, j: nat)
    requires n <= |ks| && 0 < j < n
    requires Broken(ks, n, j, true) && ChildrenOK(ks, n, j)
    requires ks[j] < ks[Parent(j)]
    ensures Broken(Swapped(ks, Parent(j), j), n, Parent(j), true)
    ensures ChildrenOK(Swapped(ks, Parent(j), j), n, Parent(j))
  {
    var p := Parent(j);
    var s := Swapped(ks, p, j);
    forall c | 0 < c < n && Parent(c) != p && c != p ensures s[Parent(c)] <= s[c] {
      if Parent(c) == j { ChildIs(c, j); }
    }
    if p > 0 {
      forall c | 0 < c < n && Parent(c) == p ensures s[Parent(p)] <= s[c] {
        assert ks[Parent(p)] <= ks[p];
        if c != j { assert ks[p] <= ks[c]; }
      }
    }
    forall c | 0 < c < n && Parent(c) == p ensures s[p] <= s[c] {
      if c != j { assert ks[p] <= ks[c]; }
    }
  }

  lemma UpDone(ks: seq<int>, n: nat, j: nat)
    requires n <= |ks| && j < n
    requires Broken(ks, n, j, true) && ChildrenOK(ks, n, j)
    requires j > 0 ==> ks[Parent(j)] <= ks[j]
    ensures Heap(ks, n)
  {
    forall c | 0 < c < n ensures ks[Parent(c)] <= ks[c] {
      if Parent(c) == j { ChildIs(c, j); }
    }
  }

  /** j is a child of i, and none of i's children is smaller. */
  predicate LesserChild(ks: seq<int>, n: nat, i: nat, j: nat)
    requires n <= |ks|
  {
    && j < n && (j == 2 * i + 1 || j == 2 * i + 2)
    && ks[j] <= ks[2 * i + 1]
    && (2 * i + 2 < n ==> ks[j] <= ks[2 * i + 2])
  }

  /** A key larger than its smaller child j moves down; its new place can be wrong only below. */
  lemma DownStep(ks: seq<int>, n: nat, i: nat, j: nat, up: bool)
    requires n <= |ks| && i < n && LesserChild(ks, n, i, j)
    requires Broken(ks, n, i, up)
    requires ks[j] < ks[i]
    ensures Broken(Swapped(ks, i, j), n, j, false)
  {
    var s := Swapped(ks, i, j);
    assert Parent(j) == i;
    hide Parent;
    forall c | 0 < c < n && Parent(c) != j ensures s[Parent(c)] <= s[c] {
      ParentBelow(c);
      if c == i {
        assert ks[Parent(i)] <= ks[j];
      } else if Parent(c) == i {
        ChildIs(c, i);
        assert ks[j] <= ks[c];
      } else {
        assert ks[Parent(c)] <= ks[c];
      }
    }
    forall c | 0 < c < n && Parent(c) == j ensures s[i] <= s[c] {
      ParentBelow(c);
      assert ks[Parent(c)] <= ks[c];
    }
  }

  lemma DownDone(ks: seq<int>, n: nat, i: nat)
    requires n <= |ks| && i < n
    requires Broken(ks, n, i, false) && ChildrenOK(ks, n, i)
    ensures Heap(ks, n)
  {
    forall c | 0 < c < n ensures ks[Parent(c)] <= ks[c] {
      if Parent(c) == i { ChildIs(c, i); }
    }
  }

  /** Changing one key breaks the order only there. */
  lemma ChangeBreaks(ks: seq<int>, ks': seq<int>, n: nat, i: nat)
    requires n <= |ks| && n <= |ks'| && i < n && Heap(ks, n)
    requires forall c :: 0 <= c < n && c != i ==> ks'[c] == ks[c]
    ensures Broken(ks', n, i, true)
  {
    forall c | 0 < c < n && Parent(c) != i && c != i ensures ks'[Parent(c)] <= ks'[c] {
      assert ks[Parent(c)] <= ks[c];
    }
    if i > 0 {
      forall c | 0 < c < n && Parent(c) == i ensures ks'[Parent(i)] <= ks'[c] {
        assert ks[Parent(i)] <= ks[i] <= ks[c];
      }
    }
  }

  lemma PushBreaks(ks: seq<int>, k: int)
    requires Heap(ks, |ks|)
    ensures Broken(ks + [k], |ks| + 1, |ks|, true) && ChildrenOK(ks + [k], |ks| + 1, |ks|)
  {
    forall c | 0 < c < |ks| ensures (ks + [k])[Parent(c)] <= (ks + [k])[c] {
      assert ks[Parent(c)] <= ks[c];
    }
  }

  lemma HeapOfFewer(ks: seq<int>, ks': seq<int>, n: nat)
    requires n <= |ks| && n <= |ks'| && Heap(ks, n)
    requires ks'[..n] == ks[..n]
    ensures Heap(ks', n)
  {
    forall c | 0 < c < n ensures ks'[Parent(c)] <= ks'[c] {
      assert ks'[c] == ks'[..n][c] && ks'[Parent(c)] == ks'[..n][Parent(c)];
    }
  }

  /** The root is a minimum. */
  lemma {:induction false} RootLeast(ks: seq<int>, n: nat, i: nat)
    requires n <= |ks| && i < n && Heap(ks, n)
    ensures ks[0] <= ks[i]
    decreases i
  {
    if i > 0 {
      RootLeast(ks, n, Parent(i));
    }
  }

  /** The last key takes the place of another and that one goes last: only its old place can be out of order. */
  lemma SwapBreaks(ks: seq<int>, i: nat, n: nat)
    requires i < n < |ks| && Heap(ks, n + 1)
    ensures Broken(Swapped(ks, i, n), n, i, true)
  {
    ChangeBreaks(ks, Swapped(ks, i, n), n, i);
  }
}
