/** Integer division facts about the refill grid. Every divisor here is positive, so Dafny's
    Euclidean quotient is the floor. */
module Arithmetic {

  function Min(a: int, b: int): int { if a <= b then a else b }

  function Max(a: int, b: int): int { if a <= b then b else a }

  /** Least integer k with x <= k * d. */
  function CeilDiv(x: int, d: int): int
    requires d > 0
  {
    (x + d - 1) / d
  }

  lemma FloorBounds(x: int, d: int)
    requires d > 0
    ensures d * (x / d) <= x < d * (x / d) + d
  {
  }

  lemma MulMonotone(a: int, b: int, d: int)
    requires a <= b && d >= 0
    ensures a * d <= b * d
    ensures d * a <= d * b
  {
  }

  lemma MulCancel(a: int, b: int, d: int)
    requires d > 0
    ensures d * a < d * b <==> a < b
  {
    if a < b {
      MulMonotone(1, b - a, d);
      assert d * (b - a) == d * b - d * a;
    } else {
      MulMonotone(b, a, d);
    }
  }

  lemma FloorUnique(x: int, d: int, q: int)
    requires d > 0
    requires d * q <= x < d * q + d
    ensures x / d == q
  {
    FloorBounds(x, d);
    assert d * (q + 1) == d * q + d;
    assert d * (x / d + 1) == d * (x / d) + d;
    MulCancel(q, x / d + 1, d);
    MulCancel(x / d, q + 1, d);
  }

  lemma FloorShift(x: int, d: int, k: int)
    requires d > 0
    ensures (x + d * k) / d == x / d + k
  {
    FloorBounds(x, d);
    assert d * (x / d + k) == d * (x / d) + d * k;
    FloorUnique(x + d * k, d, x / d + k);
  }

  lemma FloorMonotone(x: int, y: int, d: int)
    requires d > 0 && x <= y
    ensures x / d <= y / d
  {
    FloorBounds(x, d);
    FloorBounds(y, d);
    assert d * (y / d + 1) == d * (y / d) + d;
    MulCancel(x / d, y / d + 1, d);
  }

  /** x / d is at least k exactly when x has reached k * d. */
  lemma FloorReaches(x: int, d: int, k: int)
    requires d > 0
    ensures x / d >= k <==> x >= d * k
  {
    FloorBounds(x, d);
    MulCancel(k, x / d + 1, d);
    assert d * (x / d + 1) == d * (x / d) + d;
    if x / d >= k {
      MulMonotone(k, x / d, d);
    }
  }

  lemma CeilBounds(x: int, d: int)
    requires d > 0
    ensures d * (CeilDiv(x, d) - 1) < x <= d * CeilDiv(x, d)
  {
    FloorBounds(x + d - 1, d);
    assert d * (CeilDiv(x, d) - 1) == d * CeilDiv(x, d) - d;
  }

  /** A whole number k of intervals shorter than x + d fits into the rounded-up quotient. */
  lemma CeilCovers(k: int, x: int, d: int)
    requires d > 0
    requires d * k < x + d
    ensures k <= CeilDiv(x, d)
  {
    FloorReaches(x + d - 1, d, k);
  }

  lemma Distribute(d: int, a: int, b: int)
    ensures d * (a + b) == d * a + d * b
    ensures (a + b) * d == a * d + b * d
  {
  }
}
