/**
 * Two's-complement 32-bit integers as C# `int` has them, and the bit
 * operations (`<<`, `|`, `&`) written out over unbounded integers so that
 * wrap-around and overlapping bits are explicit.
 */
module Bits {

  const TWO_31: int := 0x8000_0000
  const TWO_32: int := 0x1_0000_0000

  /** The values of a C# `int`. */
  type Int32 = x: int | -TWO_31 <= x < TWO_31

  function Pow2(k: nat): (r: nat)
    ensures r >= 1
  {
    if k == 0 then 1 else 2 * Pow2(k - 1)
  }

  lemma Pow2Small()
    ensures Pow2(5) == 32 && Pow2(10) == 1024
  {
    assert Pow2(1) == 2; assert Pow2(2) == 4; assert Pow2(3) == 8; assert Pow2(4) == 16;
    assert Pow2(5) == 32; assert Pow2(6) == 64; assert Pow2(7) == 128; assert Pow2(8) == 256;
    assert Pow2(9) == 512;
  }

  lemma Pow2Values()
    ensures Pow2(5) == 32 && Pow2(10) == 1024 && Pow2(32) == TWO_32
  {
    Pow2Small();
    assert Pow2(11) == 2048; assert Pow2(12) == 4096;
    assert Pow2(13) == 8192; assert Pow2(14) == 16384; assert Pow2(15) == 32768; assert Pow2(16) == 65536;
    assert Pow2(17) == 0x2_0000; assert Pow2(18) == 0x4_0000; assert Pow2(19) == 0x8_0000;
    assert Pow2(20) == 0x10_0000; assert Pow2(21) == 0x20_0000; assert Pow2(22) == 0x40_0000;
    assert Pow2(23) == 0x80_0000; assert Pow2(24) == 0x100_0000; assert Pow2(25) == 0x200_0000;
    assert Pow2(26) == 0x400_0000; assert Pow2(27) == 0x800_0000; assert Pow2(28) == 0x1000_0000;
    assert Pow2(29) == 0x2000_0000; assert Pow2(30) == 0x4000_0000; assert Pow2(31) == 0x8000_0000;
  }

  /** The bit pattern of a C# `int`, read as an unsigned number. */
  function ToUnsigned32(x: Int32): (u: nat)
    ensures u < TWO_32
    ensures u % 32 == x % 32
  {
    if x < 0 then x + TWO_32 else x
  }

  /** A 32-bit pattern read back as a C# `int`. */
  function ToSigned32(u: nat): (x: Int32)
    requires u < TWO_32
    ensures ToUnsigned32(x) == u
  {
    if u < TWO_31 then u else u - TWO_32
  }

  /** Bitwise or of two non-negative numbers, bit by bit from the lowest. */
  function BitOr(a: nat, b: nat): nat
    decreases a + b
  {
    if a == 0 then b
    else if b == 0 then a
    else 2 * BitOr(a / 2, b / 2) + (if a % 2 == 1 || b % 2 == 1 then 1 else 0)
  }

  /** Bitwise and of two non-negative numbers, bit by bit from the lowest. */
  function BitAnd(a: nat, b: nat): nat
    decreases a + b
  {
    if a == 0 || b == 0 then 0
    else 2 * BitAnd(a / 2, b / 2) + (if a % 2 == 1 && b % 2 == 1 then 1 else 0)
  }

  /** C# `x << 1` on an `int`: the bit shifted out at the top is lost. */
  function Double32(x: Int32): Int32
  {
    var d := 2 * x;
    if d >= TWO_31 then d - TWO_32 else if d < -TWO_31 then d + TWO_32 else d
  }

  /** Doubling keeps the low 32 bits of twice the bit pattern. */
  lemma Double32Unsigned(x: Int32)
    ensures ToUnsigned32(Double32(x)) == 2 * ToUnsigned32(x) % TWO_32
  {
    var u := ToUnsigned32(x);
    if 2 * u < TWO_32 {
      DivModUnique(2 * u, TWO_32, 0, 2 * u);
    } else {
      DivModUnique(2 * u, TWO_32, 1, 2 * u - TWO_32);
    }
  }

  /** C# `x << k` on an `int`: k single-bit shifts, each losing the bit shifted out at the top. */
  function ShiftLeft32(x: Int32, k: nat): Int32
    requires k < 32
  {
    if k == 0 then x else Double32(ShiftLeft32(x, k - 1))
  }

  /** The shift keeps the bit pattern of x times 2^k modulo 2^32, as C# defines `<<`. */
  lemma {:induction false} ShiftLeftIsModPow(x: Int32, k: nat)
    requires k < 32
    ensures ToUnsigned32(ShiftLeft32(x, k)) == ToUnsigned32(x) * Pow2(k) % TWO_32
  {
    var u := ToUnsigned32(x);
    if k == 0 {
      DivModUnique(u, TWO_32, 0, u);
    } else {
      ShiftLeftIsModPow(x, k - 1);
      Double32Unsigned(ShiftLeft32(x, k - 1));
      var p := Pow2(k - 1);
      assert Pow2(k) == 2 * p;
      MulTwice(u, p);
      DoubleMod(u * p, TWO_32);
    }
  }

  lemma MulTwice(u: nat, p: nat)
    ensures u * (2 * p) == 2 * (u * p) && 0 <= u * p
  {
  }

  /** Doubling commutes with taking the remainder. */
  lemma DoubleMod(a: nat, m: int)
    requires m > 0
    ensures 2 * (a % m) % m == 2 * a % m
  {
    var q, r := a / m, a % m;
    var q2, r2 := 2 * r / m, 2 * r % m;
    assert 2 * r == m * q2 + r2;
    assert 2 * a == m * (2 * q + q2) + r2;
    DivModUnique(2 * a, m, 2 * q + q2, r2);
  }

  /** C# `x | y` on `int`s. */
  function Or32(x: Int32, y: Int32): Int32
  {
    Pow2Values();
    BitOrBound(ToUnsigned32(x), ToUnsigned32(y), 32);
    ToSigned32(BitOr(ToUnsigned32(x), ToUnsigned32(y)))
  }

  /** C# `x & y` on `int`s. */
  function And32(x: Int32, y: Int32): Int32
  {
    BitAndAtMost(ToUnsigned32(x), ToUnsigned32(y));
    ToSigned32(BitAnd(ToUnsigned32(x), ToUnsigned32(y)))
  }

  lemma {:induction false} BitOrBound(a: nat, b: nat, k: nat)
    requires a < Pow2(k) && b < Pow2(k)
    ensures BitOr(a, b) < Pow2(k)
    decreases a + b
  {
    if a != 0 && b != 0 {
      assert k > 0;
      BitOrBound(a / 2, b / 2, k - 1);
    }
  }

  /** Or-ing a number into bits that are all zero adds it. */
  lemma {:induction false} BitOrDisjoint(a: nat, b: nat, k: nat)
    requires b < Pow2(k)
    ensures BitOr(a * Pow2(k), b) == a * Pow2(k) + b
  {
    if k == 0 {
    } else if a == 0 || b == 0 {
    } else {
      var A := a * Pow2(k);
      assert A == 2 * (a * Pow2(k - 1));
      assert A / 2 == a * Pow2(k - 1) && A % 2 == 0;
      BitOrDisjoint(a, b / 2, k - 1);
    }
  }

  /** A shift that keeps every bit below the sign bit is a multiplication. */
  lemma {:induction false} ShiftLeftNoOverflow(x: Int32, k: nat, p: nat)
    requires k < 32 && p == Pow2(k) && 0 <= x && x * p < TWO_31
    ensures ShiftLeft32(x, k) == x * p
  {
    if k > 0 {
      var p' := Pow2(k - 1);
      var h := x * p';
      assert x * p == 2 * h by {
        assert p == 2 * p';
      }
      assert 0 <= h;
      ShiftLeftNoOverflow(x, k - 1, p');
      assert ShiftLeft32(x, k) == Double32(h);
    }
  }

  /** Or-ing a small non-negative number into the zero low bits of a shifted one adds them. */
  lemma Or32Disjoint(a: nat, b: nat, k: nat, p: nat, high: nat)
    requires p == Pow2(k) && high == a * p && b < p && high + b < TWO_31
    ensures Or32(high, b) == high + b
  {
    assert ToUnsigned32(high) == high && ToUnsigned32(b) == b;
    BitOrDisjoint(a, b, k);
  }

  lemma {:induction false} BitAndAtMost(a: nat, b: nat)
    ensures BitAnd(a, b) <= a
    decreases a + b
  {
    if a != 0 && b != 0 {
      BitAndAtMost(a / 2, b / 2);
    }
  }

  /** And-ing with a mask of k one bits keeps the remainder modulo 2^k. */
  lemma {:induction false} BitAndLowMask(a: nat, k: nat)
    ensures BitAnd(a, Pow2(k) - 1) == a % Pow2(k)
  {
    if k == 0 {
      assert Pow2(k) - 1 == 0;
    } else if a == 0 {
    } else {
      var p := Pow2(k - 1);
      assert Pow2(k) == 2 * p;
      BitAndOddMask(a, p);
      BitAndLowMask(a / 2, k - 1);
      ModOfDouble(a, p);
    }
  }

  /** One step of and-ing with 2p - 1: the low bit of a survives, the rest is and-ed with p - 1. */
  lemma BitAndOddMask(a: nat, p: nat)
    requires a > 0 && p >= 1
    ensures BitAnd(a, 2 * p - 1) == 2 * BitAnd(a / 2, p - 1) + a % 2
  {
    var m := 2 * p - 1;
    assert m / 2 == p - 1 && m % 2 == 1;
  }

  lemma MulAtLeast(d: int, k: int)
    requires d > 0 && k >= 1
    ensures d * k >= d
  {
    if k > 1 {
      MulAtLeast(d, k - 1);
      assert d * k == d * (k - 1) + d;
    }
  }

  /** Quotient and remainder are determined by any decomposition with a remainder in range. */
  lemma DivModUnique(a: int, d: int, q: int, r: int)
    requires d > 0 && a == d * q + r && 0 <= r < d
    ensures a / d == q && a % d == r
  {
    var q', r' := a / d, a % d;
    assert a == d * q' + r';
    var k := q' - q;
    assert d * q' == d * q + d * k;
    assert d * k == r - r';
    if k >= 1 {
      MulAtLeast(d, k);
    } else if k <= -1 {
      assert d * (-k) == -(d * k);
      MulAtLeast(d, -k);
    }
  }

  lemma ModOfDouble(a: nat, p: nat)
    requires p >= 1
    ensures a % (2 * p) == 2 * ((a / 2) % p) + a % 2
  {
    var q, r := a / 2, a % 2;
    var s, t := q / p, q % p;
    assert q == p * s + t;
    assert a == (2 * p) * s + (2 * t + r);
    DivModUnique(a, 2 * p, s, 2 * t + r);
  }

  /** `x & 31` on a C# `int` is the non-negative remainder of x modulo 32, negative x included. */
  lemma And31IsMod32(x: Int32)
    ensures And32(x, 31) == x % 32
    ensures 0 <= And32(x, 31) < 32
  {
    Pow2Small();
    BitAndLowMask(ToUnsigned32(x), 5);
  }

  /** C# integer division (and a float-to-int cast of a quotient): rounds toward zero. */
  function TruncDiv(a: int, d: int): (q: int)
    requires d > 0
    ensures a >= 0 ==> 0 <= a - d * q < d
    ensures a < 0 ==> -d < a - d * q <= 0
  {
    if a >= 0 then a / d else -((-a) / d)
  }
}
