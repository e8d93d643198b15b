/**
 * Fixed-width unsigned integers and the handful of bit operations the
 * version-token layout uses, modelled on unbounded naturals.  The bitwise
 * or is defined bit by bit, so that the fact that it coincides with
 * addition on disjoint bit ranges is proved rather than assumed.
 */
module Bits {

  const TWO_32: nat := 0x1_0000_0000
  const TWO_64: nat := 0x1_0000_0000_0000_0000

  type uint32 = x: int | 0 <= x < 0x1_0000_0000
  type uint64 = x: int | 0 <= x < 0x1_0000_0000_0000_0000

  function Pow2(k: nat): (r: nat)
    ensures r >= 1
  {
    if k == 0 then 1 else 2 * Pow2(k - 1)
  }

  lemma {:induction false} Pow2Add(i: nat, j: nat)
    ensures Pow2(i + j) == Pow2(i) * Pow2(j)
  {
    if i > 0 {
      Pow2Add(i - 1, j);
    }
  }

  lemma Pow2Widths()
    ensures Pow2(32) == TWO_32 && Pow2(64) == TWO_64
  {
    assert Pow2(8) == 256;
    Pow2Add(8, 8);
    Pow2Add(16, 16);
    Pow2Add(32, 32);
  }

  /** Bitwise or of two naturals: bit i of the result is set iff bit i is set in a or in b. */
  function BitOr(a: nat, b: nat): (r: nat)
    ensures a <= r && b <= r && r <= a + b
    decreases a + b
  {
    if a == 0 then b
    else if b == 0 then a
    else 2 * BitOr(a / 2, b / 2) + (if a % 2 == 1 || b % 2 == 1 then 1 else 0)
  }

  /** Or-ing two values below 2^k stays below 2^k: the or of two uint64 is a uint64. */
  lemma {:induction false} BitOrBelow(a: nat, b: nat, k: nat)
    requires a < Pow2(k) && b < Pow2(k)
    ensures BitOr(a, b) < Pow2(k)
    decreases a + b
  {
    if a != 0 && b != 0 {
      assert k > 0;
      BitOrBelow(a / 2, b / 2, k - 1);
    }
  }

  /** When c fits below bit k, or-ing it onto a value shifted left by k is addition. */
  lemma {:induction false} BitOrDisjoint(a: nat, k: nat, c: nat)
    requires c < Pow2(k)
    ensures BitOr(a * Pow2(k), c) == a * Pow2(k) + c
  {
    if k > 0 && a != 0 && c != 0 {
      var m := Pow2(k - 1);
      assert a * Pow2(k) == 2 * (a * m);
      BitOrDisjoint(a, k - 1, c / 2);
    }
  }

  /** The C++ conversion of an unsigned value to uint64_t (reduction modulo 2^64). */
  function ToUint64(n: nat): (r: uint64)
    ensures n < TWO_64 ==> r == n
  {
    n % TWO_64
  }

  /** x << 32 on a uint64. */
  function ShiftLeft32(x: uint64): (r: uint64)
    ensures x < TWO_32 ==> r == x * TWO_32
  {
    assert x < TWO_32 ==> x * TWO_32 <= (TWO_32 - 1) * TWO_32;
    (x * TWO_32) % TWO_64
  }

  /** x >> 32 on a uint64. */
  function ShiftRight32(x: uint64): uint64
  {
    x / TWO_32
  }

  /** x & 0xFFFFFFFF on a uint64. */
  function Low32(x: uint64): uint32
  {
    x % TWO_32
  }

  /** x | y on two uint64 values. */
  function Or64(x: uint64, y: uint64): (r: uint64)
    ensures x <= r && y <= r
  {
    Pow2Widths();
    BitOrBelow(x, y, 64);
    BitOr(x, y)
  }
}
