/** The few facts about products and rounding down that the solver is not left to find by itself. */
module Arith {
  lemma FloorBounds(a: int, d: int)
    requires d > 0
    ensures d * (a / d) <= a < d * (a / d) + d
  {
    assert a == d * (a / d) + a % d;
  }

  lemma FloorAtLeast(a: int, d: int, k: int)
    requires d > 0
    ensures k * d <= a <==> k <= a / d
  {
    FloorBounds(a, d);
    if k <= a / d {
      MulMono(k, a / d, d);
    } else {
      MulMono(a / d + 1, k, d);
      assert (a / d + 1) * d == d * (a / d) + d;
    }
  }

  /** q is a / d, rounded down. */
  predicate IsFloor(q: int, a: int, d: int) {
    d * q <= a < d * (q + 1)
  }

  lemma FloorIs(a: int, d: int)
    requires d > 0
    ensures IsFloor(a / d, a, d)
  {
    FloorBounds(a, d);
    assert d * (a / d + 1) == d * (a / d) + d;
  }

  lemma FloorUnique(q: int, a: int, d: int)
    requires d > 0 && IsFloor(q, a, d)
    ensures q == a / d
  {
    FloorAtLeast(a, d, q);
    FloorAtLeast(a, d, q + 1);
    assert q * d == d * q && (q + 1) * d == d * (q + 1);
  }

  lemma MulMono(x: int, y: int, z: int)
    requires x <= y && z >= 0
    ensures x * z <= y * z
  {
  }

  lemma Cancel(x: int, y: int, z: int)
    requires z > 0 && x * z <= y * z
    ensures x <= y
  {
    assert (y + 1) * z == y * z + z;
    if x > y {
      MulMono(y + 1, x, z);
      assert false;
    }
  }

  lemma SquareOfSum(a: int, b: int)
    ensures (a + b) * (a + b) == a * a + 2 * (a * b) + b * b
  {
  }

  lemma MulMonoBoth(x: int, y: int, x': int, y': int)
    requires 0 <= x <= x' && 0 <= y <= y'
    ensures x * y <= x' * y'
  {
    MulMono(x, x', y);
    MulMono(y, y', x');
  }

  lemma DivMonotone(a: int, b: int, d: int)
    requires a <= b && d > 0
    ensures a / d <= b / d
  {
    FloorAtLeast(a, d, a / d);
    FloorAtLeast(b, d, a / d);
  }

  lemma QuotientIs(x: int, d: int, q: int, r: int)
    requires d > 0 && x == q * d + r && 0 <= r < d
    ensures x / d == q && x % d == r
  {
    FloorAtLeast(x, d, q);
    FloorAtLeast(x, d, q + 1);
    assert (q + 1) * d == q * d + d;
    assert x == d * (x / d) + x % d;
  }
}
