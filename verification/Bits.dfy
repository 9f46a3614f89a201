// Two's-complement integers of any width, with the machine operations written bit by bit.
module Bits {
  function Pow2(n: nat): (p: nat)
    ensures p > 0
  {
    if n == 0 then 1 else 2 * Pow2(n - 1)
  }

  predicate Signed(v: int, width: nat)
    requires width > 0
  {
    0 <= v + Pow2(width - 1) && v < Pow2(width - 1)
  }

  predicate Unsigned(v: int, width: nat) {
    0 <= v < Pow2(width)
  }

  // Arithmetic `>>`: drops one bit at a time and keeps the sign.
  function ShiftRight(v: int, n: nat): int
    decreases n
  {
    if n == 0 then v else ShiftRight(v / 2, n - 1)
  }

  function ShiftLeft(v: int, n: nat): int
    decreases n
  {
    if n == 0 then v else ShiftLeft(2 * v, n - 1)
  }

  // An unsigned cast: the low bits of the two's-complement form.
  function LowBits(v: int, n: nat): int
    decreases n
  {
    if n == 0 then 0 else v % 2 + 2 * LowBits(v / 2, n - 1)
  }

  function Size(v: int): nat {
    if v >= 0 then v else -1 - v
  }

  // Bitwise `|` on two's-complement integers.
  function Or(x: int, y: int): int
    decreases Size(x) + Size(y)
  {
    if x in {0, -1} && y in {0, -1} then
      if x == 0 && y == 0 then 0 else -1
    else
      (if x % 2 == 1 || y % 2 == 1 then 1 else 0) + 2 * Or(x / 2, y / 2)
  }

  // ---------- What the bit operations are in arithmetic ----------

  lemma MulStep(d: int, x: int, y: int)
    requires d >= 0 && x < y
    ensures d * x + d <= d * y
  {
    var gap := y - x - 1;
    assert d * gap >= 0;
    assert d * (x + gap + 1) == d * x + d * gap + d;
  }

  lemma DivModUnique(v: int, d: int, q: int, r: int)
    requires d > 0 && v == d * q + r && 0 <= r < d
    ensures v / d == q && v % d == r
  {
    if v / d < q {
      MulStep(d, v / d, q);
    } else if q < v / d {
      MulStep(d, q, v / d);
    }
  }

  lemma SumParts(q: int, d: int, r: int)
    requires 0 <= r < d
    ensures (q * d + r) / d == q && (q * d + r) % d == r
  {
    DivModUnique(q * d + r, d, q, r);
  }

  lemma Halving(v: int, d: int)
    requires d > 0
    ensures v / (2 * d) == v / 2 / d && v % (2 * d) == v % 2 + 2 * (v / 2 % d)
  {
    var q, r := v / 2 / d, v / 2 % d;
    assert v / 2 == d * q + r;
    assert 2 * (d * q) == 2 * d * q;
    DivModUnique(v, 2 * d, q, v % 2 + 2 * r);
  }

  lemma {:induction false} ShiftRightIsDiv(v: int, n: nat)
    ensures ShiftRight(v, n) == v / Pow2(n)
    decreases n
  {
    if n > 0 {
      ShiftRightIsDiv(v / 2, n - 1);
      Halving(v, Pow2(n - 1));
    }
  }

  lemma {:induction false} LowBitsIsMod(v: int, n: nat)
    ensures LowBits(v, n) == v % Pow2(n)
    decreases n
  {
    if n > 0 {
      LowBitsIsMod(v / 2, n - 1);
      Halving(v, Pow2(n - 1));
    }
  }

  lemma {:induction false} ShiftLeftIsMul(v: int, n: nat)
    ensures ShiftLeft(v, n) == v * Pow2(n)
    decreases n
  {
    if n > 0 {
      ShiftLeftIsMul(2 * v, n - 1);
      assert 2 * v * Pow2(n - 1) == v * (2 * Pow2(n - 1));
    }
  }

  lemma {:induction false} OrZero(x: int)
    ensures Or(x, 0) == x
    decreases Size(x)
  {
    if x !in {0, -1} {
      OrZero(x / 2);
    }
  }

  // Bits that do not overlap: `|` is addition.
  lemma {:induction false} OrDisjoint(hi: int, lo: int, n: nat)
    requires Unsigned(lo, n)
    ensures Or(hi * Pow2(n), lo) == hi * Pow2(n) + lo
    decreases n
  {
    if n == 0 {
      OrZero(hi);
    } else {
      var high := hi * Pow2(n - 1);
      assert hi * Pow2(n) == 2 * high;
      OrDisjoint(hi, lo / 2, n - 1);
      assert 2 * high / 2 == high && 2 * high % 2 == 0;
      if 2 * high in {0, -1} && lo in {0, -1} {
      } else {
        assert Or(2 * high, lo) == lo % 2 + 2 * Or(high, lo / 2);
      }
    }
  }

  lemma MulAssoc(x: int, y: int, z: int)
    ensures x * (y * z) == x * y * z
  {
  }

  lemma {:induction false} Pow2Add(m: nat, n: nat)
    ensures Pow2(m + n) == Pow2(m) * Pow2(n)
    decreases m
  {
    if m > 0 {
      Pow2Add(m - 1, n);
      assert Pow2(m + n) == 2 * Pow2(m - 1 + n);
      MulAssoc(2, Pow2(m - 1), Pow2(n));
    }
  }

  // Shifting and casting take a sum of disjoint parts apart.
  lemma SplitOfSum(hi: int, lo: int, n: nat)
    requires Unsigned(lo, n)
    ensures ShiftRight(hi * Pow2(n) + lo, n) == hi && LowBits(hi * Pow2(n) + lo, n) == lo
  {
    ShiftRightIsDiv(hi * Pow2(n) + lo, n);
    LowBitsIsMod(hi * Pow2(n) + lo, n);
    SumParts(hi, Pow2(n), lo);
  }

  lemma DoubleWidth(n: nat, p: nat)
    requires Pow2(n) == p
    ensures Pow2(n + n) == p * p
  {
    Pow2Add(n, n);
  }

  lemma Pow2Of64()
    ensures Pow2(64) == 0x1_0000_0000_0000_0000
    ensures Pow2(128) == 0x1_0000_0000_0000_0000_0000_0000_0000_0000
  {
    assert Pow2(8) == 0x100;
    DoubleWidth(8, 0x100);
    DoubleWidth(16, 0x1_0000);
    DoubleWidth(32, 0x1_0000_0000);
    DoubleWidth(64, 0x1_0000_0000_0000_0000);
  }

  lemma HalfOf(n: nat)
    requires n > 0
    ensures Pow2(n) == 2 * Pow2(n - 1)
  {
  }

  // The widths in use are the machine's.
  lemma MachineWidths(v: int)
    ensures Unsigned(v, 64) <==> 0 <= v <= 0xFFFF_FFFF_FFFF_FFFF
    ensures Signed(v, 64) <==> -0x8000_0000_0000_0000 <= v <= 0x7FFF_FFFF_FFFF_FFFF
    ensures Signed(v, 128) <==> -0x8000_0000_0000_0000_0000_0000_0000_0000 <= v
                                && v <= 0x7FFF_FFFF_FFFF_FFFF_FFFF_FFFF_FFFF_FFFF
  {
    Pow2Of64();
    HalfOf(64);
    HalfOf(128);
  }
}
