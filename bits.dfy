/** Bit-level operations of C (`&`, bit tests) stated over unbounded naturals. */
module Bits {

  function Pow2(k: nat): (p: nat)
    ensures p >= 1
  {
    if k == 0 then 1 else 2 * Pow2(k - 1)
  }

  /** Reference meaning of "bit k of m is set": the k-th binary digit of m is 1. */
  predicate Bit(m: nat, k: nat)
  {
    if k == 0 then m % 2 == 1 else Bit(m / 2, k - 1)
  }

  /** C's `a & b` on non-negative operands, computed one binary digit at a time. */
  function BitAnd(a: nat, b: nat): (r: nat)
    ensures r <= a && r <= b
    decreases a
  {
    if a == 0 || b == 0 then 0
    else 2 * BitAnd(a / 2, b / 2) + (if a % 2 == 1 && b % 2 == 1 then 1 else 0)
  }

  /** Testing m against the single-bit mask 2^k keeps exactly bit k. */
  lemma {:induction false} BitAndSingleBit(m: nat, k: nat)
    ensures BitAnd(m, Pow2(k)) == if Bit(m, k) then Pow2(k) else 0
    ensures BitAnd(m, Pow2(k)) != 0 <==> Bit(m, k)
  {
    if k == 0 {
      if m != 0 {
        assert BitAnd(m / 2, 0) == 0;
      }
    } else {
      var p := Pow2(k - 1);
      assert Pow2(k) / 2 == p && Pow2(k) % 2 == 0;
      if m == 0 {
        ZeroHasNoBits(k);
      } else {
        BitAndSingleBit(m / 2, k - 1);
      }
    }
  }

  lemma {:induction false} ZeroHasNoBits(k: nat)
    ensures !Bit(0, k)
  {
    if k > 0 {
      ZeroHasNoBits(k - 1);
    }
  }

  /** Masking with 2^k - 1 keeps the low k bits: `a & (2^k - 1) == a % 2^k`. */
  lemma {:induction false} BitAndLowMask(a: nat, k: nat, mask: nat)
    requires mask + 1 == Pow2(k)
    ensures BitAnd(a, mask) == a % Pow2(k)
  {
    if k == 0 {
      assert mask == 0;
    } else if a != 0 {
      var p := Pow2(k - 1);
      assert Pow2(k) == 2 * p;
      assert mask % 2 == 1 && mask / 2 == p - 1;
      BitAndOddMask(a, mask);
      var high := BitAnd(a / 2, p - 1);
      assert BitAnd(a, mask) == 2 * high + a % 2;
      BitAndLowMask(a / 2, k - 1, p - 1);
      assert high == (a / 2) % p;
      ModDouble(a, p);
    }
  }

  /** One digit of `a & mask` when the mask's low bit is set. */
  lemma BitAndOddMask(a: nat, mask: nat)
    requires a != 0 && mask % 2 == 1
    ensures BitAnd(a, mask) == 2 * BitAnd(a / 2, mask / 2) + a % 2
  {
  }

  /** a % 2p is the low bit of a above twice (a / 2) % p. */
  lemma ModDouble(a: nat, p: nat)
    requires p >= 1
    ensures a % (2 * p) == 2 * ((a / 2) % p) + a % 2
  {
    var q, r := a / 2, a % 2;
    var s, t := q / p, q % p;
    assert a == (2 * p) * s + (2 * t + r) by {
      assert q == p * s + t;
      assert a == 2 * q + r;
    }
    ModUnique(a, 2 * p, s, 2 * t + r);
  }

  lemma ModUnique(a: int, d: int, q: int, r: int)
    requires d > 0 && 0 <= r < d && a == d * q + r
    ensures a % d == r
  {
    var q0, r0 := a / d, a % d;
    assert d * (q - q0) == r0 - r;
    if q > q0 {
      MulAtLeast(d, q - q0);
    } else if q < q0 {
      MulAtLeast(d, q0 - q);
    }
  }

  lemma MulAtLeast(d: int, x: int)
    requires d > 0 && x >= 1
    ensures d * x >= d
  {
  }
}
