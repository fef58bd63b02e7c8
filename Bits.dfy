/**
 * Powers of two and the bitwise operators of fixed-width integers, on
 * non-negative mathematical integers.  The lemmas connect masks and shifts
 * with division and remainder, which is how the rest of the model uses them.
 */
module Bits {

  function Pow2(n: nat): (r: nat)
    ensures r >= 1
  {
    if n == 0 then 1 else 2 * Pow2(n - 1)
  }

  lemma {:induction false} Pow2Add(a: nat, b: nat)
    ensures Pow2(a + b) == Pow2(a) * Pow2(b)
  {
    if b > 0 {
      Pow2Add(a, b - 1);
      calc {
        Pow2(a + b);
        2 * Pow2(a + b - 1);
        2 * (Pow2(a) * Pow2(b - 1));
        Pow2(a) * (2 * Pow2(b - 1));
      }
    }
  }

  lemma Pow2Monotonic(a: nat, b: nat)
    requires a <= b
    ensures Pow2(a) <= Pow2(b)
  {
    Pow2Add(a, b - a);
  }

  /** `a == q * m + r` with `0 <= r < m` determines the quotient and the remainder. */
  lemma DivModUnique(a: int, m: int, q: int, r: int)
    requires 0 < m && 0 <= r < m && a == q * m + r
    ensures a / m == q && a % m == r
  {
    var q0, r0 := a / m, a % m;
    assert q0 * m + r0 == q * m + r;
    MulDistribute(q - q0, q0, m);
    SmallMultipleIsZero(q - q0, m, r0 - r);
  }

  lemma MulDistribute(p: int, q: int, a: int)
    ensures (p + q) * a == p * a + q * a
  {
  }

  lemma MulAssociate(p: int, b: int, a: int)
    ensures (p * b) * a == p * (b * a)
  {
  }

  lemma MulMonotonic(p: int, q: int, a: int)
    requires p <= q && a >= 0
    ensures p * a <= q * a
  {
    MulDistribute(q - p, p, a);
    assert (q - p) * a >= 0;
  }

  lemma SmallMultipleIsZero(k: int, m: int, d: int)
    requires 0 < m && k * m == d && -m < d < m
    ensures k == 0
  {
    if k >= 1 {
      MulMonotonic(1, k, m);
      assert false;
    } else if k <= -1 {
      MulMonotonic(k, -1, m);
      assert false;
    }
  }

  lemma ModBound(x: int, m: int)
    requires m > 0
    ensures 0 <= x % m < m
  {
  }

  lemma DivAtMost(x: nat, m: nat)
    requires m > 0
    ensures x / m <= x
  {
    assert x == (x / m) * m + x % m;
    MulMonotonic(1, m, x / m);
    assert m * (x / m) == (x / m) * m;
  }

  /** A value below the modulus is its own remainder. */
  lemma ModOfSmall(x: int, m: int)
    requires m > 0
    ensures 0 <= x < m ==> x % m == x && x / m == 0
  {
    if 0 <= x < m {
      DivModUnique(x, m, 0, x);
    }
  }

  /** The remainder differs from the dividend by a multiple of the modulus. */
  lemma ModCongruent(x: int, m: int)
    requires m > 0
    ensures (x % m - x) % m == 0
  {
    assert x == (x / m) * m + x % m;
    assert x % m - x == (-(x / m)) * m;
    DivModUnique(x % m - x, m, -(x / m), 0);
  }

  /** A multiple divided by its factor gives the other factor back. */
  lemma DivOfMultiple(a: int, m: int)
    requires m > 0
    ensures (a * m) / m == a && (a * m) % m == 0
  {
    DivModUnique(a * m, m, a, 0);
  }

  /** Dividing by `a` and then by `b` is dividing by `a * b`. */
  lemma DivDiv(x: nat, a: nat, b: nat)
    requires a > 0 && b > 0
    ensures x / a / b == x / (a * b)
    ensures x % (a * b) == (x / a) % b * a + x % a
  {
    var q1, r1 := x / a, x % a;
    var q2, r2 := q1 / b, q1 % b;
    var r := r2 * a + r1;
    assert x == q1 * a + r1;
    assert q1 == q2 * b + r2;
    MulDistribute(q2 * b, r2, a);
    MulAssociate(q2, b, a);
    assert x == q2 * (b * a) + r;
    MulMonotonic(r2, b - 1, a);
    MulDistribute(b, -1, a);
    assert r < b * a;
    assert a * b == b * a;
    DivModUnique(x, b * a, q2, r);
  }

  /** Bitwise AND, bit by bit from the least significant. */
  function And(a: nat, b: nat): (r: nat)
    ensures r <= a && r <= b
    decreases a
  {
    if a == 0 || b == 0 then 0
    else 2 * And(a / 2, b / 2) + (if a % 2 == 1 && b % 2 == 1 then 1 else 0)
  }

  /** Bitwise OR, bit by bit from the least significant. */
  function Or(a: nat, b: nat): (r: nat)
    ensures r >= a && r >= b
    decreases a + b
  {
    if a == 0 then b
    else if b == 0 then a
    else 2 * Or(a / 2, b / 2) + (if a % 2 == 1 || b % 2 == 1 then 1 else 0)
  }

  /** A mask of the low `k` bits keeps the remainder modulo `2^k`. */
  lemma {:induction false} AndLowMask(a: nat, k: nat)
    ensures And(a, Pow2(k) - 1) == a % Pow2(k)
  {
    if k == 0 {
    } else if a == 0 {
      DivModUnique(0, Pow2(k), 0, 0);
    } else {
      var p := Pow2(k - 1);
      assert Pow2(k) == 2 * p;
      var m := Pow2(k) - 1;
      assert m == 2 * (p - 1) + 1;
      DivModUnique(m, 2, p - 1, 1);
      AndLowMask(a / 2, k - 1);
      assert And(a, m) == 2 * ((a / 2) % p) + a % 2;
      DivDiv(a, 2, p);
      assert a % (2 * p) == (a / 2) % p * 2 + a % 2;
    }
  }

  /** `m << j`: `m` moved up by `j` bit positions. */
  function ShiftedLeft(m: nat, j: nat): (r: nat)
    ensures r == m * Pow2(j)
  {
    if j == 0 then m
    else
      MulAssociate(m, 2, Pow2(j - 1));
      2 * ShiftedLeft(m, j - 1)
  }

  /** `a >> j`: the bits of `a` from bit `j` up. */
  function ShiftedRight(a: nat, j: nat): (r: nat)
    ensures r == a / Pow2(j)
  {
    if j == 0 then a
    else
      DivDiv(a, 2, Pow2(j - 1));
      ShiftedRight(a / 2, j - 1)
  }

  /** A mask shifted left by `j` bits selects the same bits of `a` shifted right by `j`. */
  lemma {:induction false} AndShifted(a: nat, m: nat, j: nat)
    ensures And(a, ShiftedLeft(m, j)) == And(ShiftedRight(a, j), m) * Pow2(j)
  {
    if j == 0 {
    } else if a == 0 {
      assert ShiftedRight(a, j) == 0;
    } else if m == 0 {
    } else {
      var p := Pow2(j - 1);
      var h := ShiftedLeft(m, j - 1);
      var s := ShiftedRight(a / 2, j - 1);
      var v := And(s, m);
      assert And(a, ShiftedLeft(m, j)) == 2 * And(a / 2, h) by {
        assert ShiftedLeft(m, j) == 2 * h;
        AndOfEven(a, h);
      }
      assert And(a / 2, h) == v * p by {
        AndShifted(a / 2, m, j - 1);
      }
      assert ShiftedRight(a, j) == s;
      assert 2 * (v * p) == v * Pow2(j) by {
        MulAssociate(v, p, 2);
      }
    }
  }

  /** A mask of `k` bits starting at bit `j` keeps exactly that field of `a`. */
  lemma AndFieldMask(a: nat, j: nat, k: nat)
    ensures And(a, ShiftedLeft(Pow2(k) - 1, j)) == (a / Pow2(j)) % Pow2(k) * Pow2(j)
  {
    AndShifted(a, Pow2(k) - 1, j);
    AndLowMask(a / Pow2(j), k);
  }

  /** The two 7-bit halves of a 14-bit value, as masks select them. */
  lemma SevenBitHalves(x: nat)
    requires x < 0x4000
    ensures And(x, 0x3F80) / 128 == x / 128
    ensures And(x, 0x7F) == x % 128
  {
    assert Pow2(7) == 128;
    assert ShiftedLeft(127, 7) == 0x3F80;
    AndShifted(x, 127, 7);
    var high := ShiftedRight(x, 7);
    AndLowMask(high, 7);
    ModOfSmall(high, 128);
    DivOfMultiple(high, 128);
    AndLowMask(x, 7);
  }

  lemma AndOfEven(a: nat, h: nat)
    requires a > 0 && h > 0
    ensures And(a, 2 * h) == 2 * And(a / 2, h)
  {
  }

  /** Setting a bit that is still clear in `m` adds its value. */
  lemma {:induction false} OrFreshBit(m: nat, i: nat)
    requires m < Pow2(i)
    ensures Or(m, Pow2(i)) == m + Pow2(i)
  {
    if m == 0 {
    } else if i == 0 {
    } else {
      assert Pow2(i) % 2 == 0 && Pow2(i) / 2 == Pow2(i - 1);
      OrFreshBit(m / 2, i - 1);
    }
  }

  /** Swift's `/` on signed integers: the quotient truncated toward zero. */
  function TruncDiv(a: int, b: int): (q: int)
    requires b != 0
    ensures a >= 0 && b > 0 ==> q == a / b
  {
    if (a >= 0) == (b > 0) then Abs(a) / Abs(b) else -(Abs(a) / Abs(b))
  }

  /** Swift's `%` on signed integers: the remainder takes the dividend's sign. */
  function TruncRem(a: int, b: int): (r: int)
    requires b != 0
    ensures a >= 0 && b > 0 ==> r == a % b
  {
    if a >= 0 then Abs(a) % Abs(b) else -(Abs(a) % Abs(b))
  }

  lemma TruncDivRem(a: int, b: int)
    requires b != 0
    ensures TruncDiv(a, b) * b + TruncRem(a, b) == a
    ensures Abs(TruncRem(a, b)) < Abs(b)
  {
    var q, r := Abs(a) / Abs(b), Abs(a) % Abs(b);
    assert Abs(a) == q * Abs(b) + r;
  }

  function Abs(a: int): nat
  {
    if a < 0 then -a else a
  }
}
