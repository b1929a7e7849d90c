/** The integer square root of the square-root curation curve: a linear interpolation between the
    powers of two, computed with shifts and masks. */
module ApproxSqrt {
  import opened Arith

  const TWO_64: int := 0x1_0000_0000_0000_0000

  function Pow2(n: nat): (r: nat)
    ensures r >= 1
  {
    if n == 0 then 1 else 2 * Pow2(n - 1)
  }

  lemma {:induction false} Pow2Adds(m: nat, n: nat)
    ensures Pow2(m + n) == Pow2(m) * Pow2(n)
    decreases m
  {
    if m > 0 {
      Pow2Adds(m - 1, n);
      assert 2 * Pow2(m - 1) * Pow2(n) == 2 * (Pow2(m - 1) * Pow2(n));
    }
  }

  lemma {:induction false} Pow2Grows(m: nat, n: nat)
    requires m < n
    ensures 2 * Pow2(m) <= Pow2(n)
    decreases n
  {
    if m < n - 1 {
      Pow2Grows(m, n - 1);
    }
  }

  /** Position of the most significant bit, by halving. */
  function Msb(x: nat): nat
    requires x > 0
  {
    if x == 1 then 0 else 1 + Msb(x / 2)
  }

  lemma {:induction false} MsbBrackets(x: nat)
    requires x > 0
    ensures Pow2(Msb(x)) <= x < 2 * Pow2(Msb(x))
  {
    if x > 1 {
      MsbBrackets(x / 2);
    }
  }

  lemma MsbUnique(x: nat, m: nat)
    requires x > 0 && Pow2(m) <= x < 2 * Pow2(m)
    ensures Msb(x) == m
  {
    MsbBrackets(x);
    if Msb(x) < m {
      Pow2Grows(Msb(x), m);
    } else if m < Msb(x) {
      Pow2Grows(m, Msb(x));
    }
  }

  lemma {:induction false} MsbMonotone(x: nat, y: nat)
    requires 0 < x <= y
    ensures Msb(x) <= Msb(y)
    decreases y
  {
    if x > 1 {
      MsbMonotone(x / 2, y / 2);
    }
  }

  /** find_msb on a 128-bit value given as two 64-bit words: look at the high word if it is not zero,
      otherwise at the low word (or at 1 if that is zero too). */
  function FindMsb(hi: nat, lo: nat): nat {
    var word := if lo != 0 then lo else 1;
    if hi != 0 then Msb(hi) + 64 else Msb(word)
  }

  lemma FindMsbIsMsb(hi: nat, lo: nat)
    requires lo < TWO_64 && hi * TWO_64 + lo > 0
    ensures FindMsb(hi, lo) == Msb(hi * TWO_64 + lo)
  {
    if hi != 0 {
      var x := hi * TWO_64 + lo;
      MsbBrackets(hi);
      Pow2Adds(Msb(hi), 64);
      Pow2Of64();
      assert Pow2(Msb(hi) + 64) == Pow2(Msb(hi)) * TWO_64;
      MsbUnique(x, Msb(hi) + 64);
    }
  }

  lemma Pow2Of64()
    ensures Pow2(64) == TWO_64
  {
    Doubling(1, 2);
    Doubling(2, 4);
    Doubling(4, 16);
    Doubling(8, 256);
    Doubling(16, 65536);
    Doubling(32, 0x1_0000_0000);
  }

  lemma Doubling(n: nat, v: nat)
    requires Pow2(n) == v
    ensures Pow2(2 * n) == v * v
  {
    Pow2Adds(n, n);
  }

  /** approx_sqrt. The two bitwise ors of the source join disjoint bits, so they are sums here. */
  function Approx(x: nat): nat {
    if x == 0 then 0
    else
      var msbX := FindMsb(x / TWO_64, x % TWO_64);
      var msbZ := msbX / 2;
      var mantissaX := x % Pow2(msbX);
      var mantissaZHi := if msbX % 2 == 1 then Pow2(msbZ) else 0;
      var mantissaZLo := mantissaX / Pow2(msbX - msbZ);
      Pow2(msbZ) + (mantissaZHi + mantissaZLo) / 2
  }

  /** The same value in terms of P = 2^k and the remainder f above the leading bit of x. */
  function OnEven(p: nat, f: nat): nat
    requires p > 0
  {
    p + f / p / 2
  }

  function OnOdd(p: nat, f: nat): nat
    requires p > 0
  {
    p + (p + f / (2 * p)) / 2
  }

  lemma Decompose(x: nat) returns (k: nat, f: nat)
    requires x > 0
    ensures k == Msb(x) / 2
    ensures if Msb(x) % 2 == 0
            then x == Pow2(k) * Pow2(k) + f && f < Pow2(k) * Pow2(k) && Approx(x) == OnEven(Pow2(k), f)
            else x == 2 * (Pow2(k) * Pow2(k)) + f && f < 2 * (Pow2(k) * Pow2(k)) && Approx(x) == OnOdd(Pow2(k), f)
  {
    var m := Msb(x);
    k := m / 2;
    MsbBrackets(x);
    FindMsbIsMsb(x / TWO_64, x % TWO_64);
    f := x - Pow2(m);
    LeadingBitOff(x, Pow2(m));
    Pow2Adds(k, k);
    if m % 2 == 1 {
      assert m == 2 * k + 1 && m - k == k + 1;
      assert Pow2(m) == 2 * Pow2(k + k);
      assert Pow2(k + 1) == 2 * Pow2(k);
    } else {
      assert m == k + k;
    }
  }

  lemma LeadingBitOff(x: nat, p: nat)
    requires 0 < p <= x < 2 * p
    ensures x % p == x - p
  {
    QuotientIs(x, p, 1, x - p);
  }

  // ----- how good the approximation is -----

  lemma EvenBounds(p: nat, f: nat)
    requires p > 0 && f < p * p
    ensures var r := OnEven(p, f);
            && 8 * (r * r) <= 9 * (p * p + f) && p * p + f < (r + 1) * (r + 1)
            && p <= r && 2 * r < 3 * p
  {
    var lo := f / p;
    var q := lo / 2;
    FloorBounds(f, p);
    SmallQuotient(f, p, p);
    MulMono(2 * q, lo, p);
    MulMono(lo + 1, 2 * q + 2, p);
    EvenAlgebra(p, q, f);
  }

  lemma SmallQuotient(f: int, d: int, p: int)
    requires d > 0 && f < d * p
    ensures f / d < p
  {
    FloorAtLeast(f, d, p);
  }

  lemma EvenAlgebra(p: int, q: int, f: int)
    requires 0 <= q && 2 * q < p && 2 * q * p <= f < (2 * q + 2) * p
    ensures var r := p + q; 8 * (r * r) <= 9 * (p * p + f) && p * p + f < (r + 1) * (r + 1)
  {
    SquareOfSum(p, q);
    SquareOfSum(p, q + 1);
    MulMono(2 * q, p, q);
    MulMono(2 * q, p, p);
    assert 2 * q * q == 2 * (q * q) && 2 * q * p == 2 * (p * q);
    assert (2 * q + 2) * p == 2 * (p * (q + 1));
    assert (q + 1) * (q + 1) >= 0;
  }

  lemma OddBounds(p: nat, f: nat)
    requires p > 0 && f < 2 * (p * p)
    ensures var r := OnOdd(p, f);
            && 8 * (r * r) <= 9 * (2 * (p * p) + f) && 2 * (p * p) + f < (r + 1) * (r + 1)
            && 3 * p <= 2 * r + 1 && r < 2 * p
  {
    var lo := f / (2 * p);
    OddFloor(p, f, 2 * p, lo);
    OddQuotient(p, f, lo);
    OddFrom(p, lo, p + (p + lo) / 2, f);
  }

  lemma OddFloor(p: int, f: int, d: int, lo: int)
    requires p > 0 && f >= 0 && d == 2 * p && lo == f / d
    ensures 0 <= lo && 2 * (p * lo) <= f < 2 * (p * lo) + 2 * p
  {
    var x := FloorProduct(f, d, lo);
    Doubled(p, lo, d);
  }

  lemma FloorProduct(f: int, d: int, lo: int) returns (x: int)
    requires f >= 0 && d > 0 && lo == f / d
    ensures x == d * lo && x <= f < x + d && 0 <= lo
  {
    FloorBounds(f, d);
    FloorAtLeast(f, d, 0);
    x := d * lo;
  }

  lemma OddQuotient(p: int, f: int, lo: int)
    requires p > 0 && f < 2 * (p * p) && 2 * (p * lo) <= f
    ensures lo < p
  {
    if lo >= p {
      MulMono(p, lo, p);
    }
  }

  lemma Doubled(p: int, x: int, d: int)
    requires d == 2 * p
    ensures d * x == 2 * (p * x)
  {
  }

  lemma OddFrom(p: int, lo: int, r: int, f: int)
    requires 0 <= lo < p && 2 * (p * lo) <= f < 2 * (p * lo) + 2 * p
    requires 2 * r <= 3 * p + lo <= 2 * r + 1
    ensures 8 * (r * r) <= 9 * (2 * (p * p) + f) && 2 * (p * p) + f < (r + 1) * (r + 1)
    ensures 3 * p <= 2 * r + 1 && r < 2 * p
  {
    OddUpper(p, lo, r, f);
    OddLower(p, lo, r, f);
  }

  lemma Regroup(p: int, x: int)
    ensures p * (x + 1) == p * x + p
  {
  }

  lemma TripleSquare(p: int, x: int)
    ensures (3 * p + x) * (3 * p + x) == 9 * (p * p) + 6 * (p * x) + x * x
  {
    SquareOfSum(3 * p, x);
    assert 3 * p * (3 * p) == 9 * (p * p);
    assert 3 * p * x == 3 * (p * x);
  }

  lemma GapSquare(p: int, x: int)
    ensures p * p - 2 * (p * x) + x * x >= 0
  {
    SquareOfSum(p - x, x);
    assert (p - x) * x == p * x - x * x;
    assert (p - x) * (p - x) >= 0;
  }

  lemma OddUpper(p: int, lo: int, r: int, f: int)
    requires 0 <= lo < p && 2 * (p * lo) <= f && 0 <= r && 2 * r <= 3 * p + lo
    ensures 8 * (r * r) <= 9 * (2 * (p * p) + f)
  {
    MulMonoBoth(2 * r, 2 * r, 3 * p + lo, 3 * p + lo);
    DoubleSquare(r);
    TripleSquare(p, lo);
    MulMono(lo, p, lo);
  }

  lemma OddLower(p: int, lo: int, r: int, f: int)
    requires 0 <= lo < p && f < 2 * (p * lo) + 2 * p && 3 * p + lo <= 2 * r + 1
    ensures 2 * (p * p) + f < (r + 1) * (r + 1)
  {
    MulMonoBoth(3 * p + (lo + 1), 3 * p + (lo + 1), 2 * (r + 1), 2 * (r + 1));
    DoubleSquare(r + 1);
    TripleSquare(p, lo + 1);
    GapSquare(p, lo + 1);
    Regroup(p, lo);
  }

  lemma DoubleSquare(r: int)
    ensures 2 * r * (2 * r) == 4 * (r * r)
  {
  }

  /** The result is within 1/8 of the square above, and never a whole unit too small. */
  lemma ApproxBounds(x: nat)
    requires x > 0
    ensures var r := Approx(x); 8 * (r * r) <= 9 * x && x < (r + 1) * (r + 1)
  {
    var k, f := Decompose(x);
    if Msb(x) % 2 == 0 {
      EvenBounds(Pow2(k), f);
    } else {
      OddBounds(Pow2(k), f);
    }
  }

  // ----- monotonicity -----

  /** Between two powers of two the approximation interpolates upwards. */
  lemma SameOctave(x: nat, y: nat)
    requires 0 < x <= y && Msb(x) == Msb(y)
    ensures Approx(x) <= Approx(y)
  {
    var k, f := Decompose(x);
    var k', g := Decompose(y);
    var p := Pow2(k);
    if Msb(x) % 2 == 0 {
      DivMonotone(f, g, p);
    } else {
      DivMonotone(f, g, 2 * p);
    }
  }

  /** Where the values of an octave lie, in terms of its power of two. */
  lemma OctaveRange(x: nat) returns (k: nat)
    requires x > 0
    ensures k == Msb(x) / 2
    ensures if Msb(x) % 2 == 0 then Pow2(k) <= Approx(x) && 2 * Approx(x) < 3 * Pow2(k)
            else 3 * Pow2(k) <= 2 * Approx(x) + 1 && Approx(x) < 2 * Pow2(k)
  {
    var f;
    k, f := Decompose(x);
    if Msb(x) % 2 == 0 {
      EvenBounds(Pow2(k), f);
    } else {
      OddBounds(Pow2(k), f);
    }
  }

  /** Every value of a higher octave is at least every value of a lower one. */
  lemma HigherOctave(x: nat, y: nat)
    requires 0 < x && 0 < y && Msb(x) < Msb(y)
    ensures Approx(x) <= Approx(y)
  {
    hide Approx, Msb, Pow2;
    var k := OctaveRange(x);
    var j := OctaveRange(y);
    if k < j {
      Pow2Grows(k, j);
    }
  }

  /** Monotone on its whole domain. */
  lemma ApproxMonotone(x: nat, y: nat)
    requires x <= y
    ensures Approx(x) <= Approx(y)
  {
    if x > 0 {
      MsbMonotone(x, y);
      if Msb(x) == Msb(y) {
        SameOctave(x, y);
      } else {
        HigherOctave(x, y);
      }
    }
  }

  /** The square root of a 128-bit value fits in 64 bits. */
  lemma ApproxFits(x: nat)
    requires x < TWO_64 * TWO_64
    ensures Approx(x) < TWO_64
  {
    if x > 0 {
      var k, f := Decompose(x);
      Pow2Of64();
      if k >= 64 {
        if k > 64 { Pow2Grows(64, k); }
        MulMonoBoth(TWO_64, TWO_64, Pow2(k), Pow2(k));
        assert false;
      } else {
        Pow2Grows(k, 64);
        if Msb(x) % 2 == 0 { EvenBounds(Pow2(k), f); } else { OddBounds(Pow2(k), f); }
      }
    }
  }
}
