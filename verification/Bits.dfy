/** Bytes, powers of two and the bitwise exclusive or, over unbounded naturals. */
module Bits {

  type byte = x: nat | x < 256

  function Pow2(n: nat): (r: nat)
    ensures r > 0
  {
    if n == 0 then 1 else 2 * Pow2(n - 1)
  }

  /** Bitwise exclusive or. */
  function Xor(a: nat, b: nat): nat
    decreases a + b
  {
    if a == 0 && b == 0 then 0
    else 2 * Xor(a / 2, b / 2) + (a + b) % 2
  }

  /** The number of bits needed to write n; 0 for n == 0. */
  function BitLen(n: nat): nat {
    if n == 0 then 0 else 1 + BitLen(n / 2)
  }

  lemma {:induction false} Pow2Add(m: nat, n: nat)
    ensures Pow2(m + n) == Pow2(m) * Pow2(n)
  {
    if m > 0 {
      Pow2Add(m - 1, n);
      assert Pow2(m + n) == 2 * Pow2(m - 1 + n);
    }
  }

  lemma {:induction false} Pow2Monotone(m: nat, n: nat)
    requires m <= n
    ensures Pow2(m) <= Pow2(n)
    decreases n
  {
    if m < n {
      Pow2Monotone(m, n - 1);
    }
  }

  lemma {:induction false} XorComm(a: nat, b: nat)
    ensures Xor(a, b) == Xor(b, a)
    decreases a + b
  {
    if a != 0 || b != 0 {
      XorComm(a / 2, b / 2);
    }
  }

  /** Exclusive or with the same value twice changes nothing. */
  lemma {:induction false} XorCancel(a: nat, b: nat)
    ensures Xor(Xor(a, b), b) == a
    decreases a + b
  {
    if a == 0 && b == 0 {
      XorZero(0);
    } else {
      XorCancel(a / 2, b / 2);
      hide Xor;
      XorUnfold(a, b);
      XorUnfold(Xor(a, b), b);
      CancelBit(a, b, Xor(a / 2, b / 2), Xor(a, b));
    }
  }

  lemma CancelBit(a: nat, b: nat, h: nat, x: nat)
    requires x == 2 * h + (a + b) % 2
    ensures x / 2 == h && (x + b) % 2 == a % 2
  {
  }

  lemma {:induction false} XorZero(a: nat)
    ensures Xor(a, 0) == a
  {
    if a != 0 {
      XorZero(a / 2);
    }
  }

  lemma {:induction false} XorSelf(a: nat)
    ensures Xor(a, a) == 0
  {
    if a != 0 {
      XorSelf(a / 2);
    }
  }

  lemma {:induction false} XorBound(a: nat, b: nat, k: nat)
    requires a < Pow2(k) && b < Pow2(k)
    ensures Xor(a, b) < Pow2(k)
    decreases k
  {
    if a != 0 || b != 0 {
      XorBound(a / 2, b / 2, k - 1);
    }
  }

  /** Exclusive or works on the high and the low part of a number separately. */
  lemma {:induction false} XorSplit(k: nat, a: nat, x: nat, b: nat, y: nat, m: nat, n: nat)
    requires x < Pow2(k) && y < Pow2(k)
    requires m == Pow2(k) * a + x && n == Pow2(k) * b + y
    ensures Xor(m, n) == Pow2(k) * Xor(a, b) + Xor(x, y)
    decreases k, 1
  {
    hide Xor;
    if k == 0 {
      XorZero(0);
    } else {
      XorSplitStep(k, a, x, b, y, m, n);
    }
  }

  lemma XorSplitStep(k: nat, a: nat, x: nat, b: nat, y: nat, m: nat, n: nat)
    requires k > 0 && x < Pow2(k) && y < Pow2(k)
    requires m == Pow2(k) * a + x && n == Pow2(k) * b + y
    ensures Xor(m, n) == Pow2(k) * Xor(a, b) + Xor(x, y)
    decreases k, 0
  {
    var p, q := Pow2(k - 1), Pow2(k);
    assert q == 2 * p;
    hide Xor, Pow2;
    Halve(p, q, a, x, m);
    Halve(p, q, b, y, n);
    XorSplit(k - 1, a, x / 2, b, y / 2, m / 2, n / 2);
    XorUnfold(m, n);
    XorUnfold(x, y);
    ParityOfSum(m, n, x, y);
    MulDouble(p, q, Xor(a, b));
  }

  lemma ParityOfSum(m: nat, n: nat, x: nat, y: nat)
    requires m % 2 == x % 2 && n % 2 == y % 2
    ensures (m + n) % 2 == (x + y) % 2
  {
  }

  lemma Halve(p: nat, q: nat, a: nat, x: nat, m: nat)
    requires q == 2 * p && m == q * a + x
    ensures m / 2 == p * a + x / 2 && m % 2 == x % 2
  {
    MulDouble(p, q, a);
    HalveSum(p * a, x, m);
  }

  lemma HalveSum(s: nat, x: nat, m: nat)
    requires m == 2 * s + x
    ensures m / 2 == s + x / 2 && m % 2 == x % 2
  {
  }

  lemma MulDouble(p: nat, q: nat, w: nat)
    requires q == 2 * p
    ensures q * w == 2 * (p * w)
  {
  }

  /** Multiplication by a natural number keeps the order. */
  lemma MulMonotone(a: int, b: int, p: nat)
    requires a <= b
    ensures a * p <= b * p
  {
  }

  lemma XorUnfold(a: nat, b: nat)
    ensures Xor(a, b) == 2 * Xor(a / 2, b / 2) + (a + b) % 2
  {
    if a == 0 && b == 0 {
      assert Xor(0, 0) == 0;
    }
  }

  /** BitLen(n) is the one k with 2^(k-1) <= n < 2^k. */
  lemma {:induction false} BitLenBounds(n: nat)
    ensures n < Pow2(BitLen(n))
    ensures n > 0 ==> BitLen(n) > 0 && Pow2(BitLen(n) - 1) <= n
  {
    if n > 0 {
      BitLenBounds(n / 2);
      if n / 2 > 0 {
        assert Pow2(BitLen(n) - 1) == 2 * Pow2(BitLen(n / 2) - 1);
      }
    }
  }

  lemma BitLenUnique(n: nat, k: nat)
    requires Pow2(k) <= n < Pow2(k + 1)
    ensures BitLen(n) == k + 1
  {
    BitLenBounds(n);
    var l := BitLen(n);
    if l <= k {
      Pow2Monotone(l, k);
    } else if k + 1 < l {
      Pow2Monotone(k + 1, l - 1);
    }
  }

  /** A number with fewer bits is smaller. */
  lemma BitLenMonotone(m: nat, n: nat)
    requires BitLen(m) < BitLen(n)
    ensures m < n
  {
    BitLenBounds(m);
    BitLenBounds(n);
    Pow2Monotone(BitLen(m), BitLen(n) - 1);
  }

  function XorByte(a: byte, b: byte): byte {
    assert Pow2(8) == 256 by { Pow2Eight(); }
    XorBound(a, b, 8);
    Xor(a, b)
  }

  lemma Pow2Words()
    ensures Pow2(16) == 0x1_0000 && Pow2(32) == 0x1_0000_0000 && Pow2(64) == 0x1_0000_0000_0000_0000
  {
    Pow2Eight();
    hide Pow2;
    Pow2Add(8, 8);
    Pow2Add(16, 16);
    Pow2Add(32, 32);
  }

  lemma Pow2Eight()
    ensures Pow2(8) == 256
  {
    assert Pow2(4) == 16;
  }
}
