/** Natural numbers as bit strings: powers of two, `&`, `^` and single bits.
    The source masks with `&` and mixes with `^`; here both are defined digit
    by digit, so that every fact about them is arithmetic. */
module Bits {

  function Pow2(k: nat): (r: nat)
    ensures 1 <= r
  {
    if k == 0 then 1 else 2 * Pow2(k - 1)
  }

  /** Bit `i` of `x`. */
  function Bit(x: nat, i: nat): (b: nat)
    ensures b <= 1
  {
    (x / Pow2(i)) % 2
  }

  function And(x: nat, y: nat): (r: nat)
    ensures r <= x && r <= y
  {
    if x == 0 || y == 0 then 0
    else (x % 2) * (y % 2) + 2 * And(x / 2, y / 2)
  }

  function Xor(x: nat, y: nat): (r: nat)
    decreases x + y
  {
    if x == 0 && y == 0 then 0
    else (x + y) % 2 + 2 * Xor(x / 2, y / 2)
  }

  /** Masking with `2^k - 1` is reduction modulo `2^k`. */
  lemma {:induction false} AndLowMask(x: nat, k: nat)
    ensures And(x, Pow2(k) - 1) == x % Pow2(k)
  {
    hide And; hide Pow2;
    Pow2Unfolds(k);
    if x == 0 {
      AndZero(Pow2(k) - 1);
      ModTrivial(Pow2(k));
    } else if k == 0 {
      AndZero(x);
      ModTrivial(x);
    } else {
      AndLowMask(x / 2, k - 1);
      AndStep(x, Pow2(k - 1));
      ModDouble(x, Pow2(k - 1));
    }
  }

  lemma {:induction false} Pow2Unfolds(k: nat)
    ensures Pow2(k) == if k == 0 then 1 else 2 * Pow2(k - 1)
  {
  }

  lemma {:induction false} ModTrivial(m: nat)
    ensures m % 1 == 0 && (m > 0 ==> 0 % m == 0)
  {
  }

  lemma {:induction false} AndZero(x: nat)
    ensures And(x, 0) == 0 && And(0, x) == 0
  {
  }

  lemma {:induction false} AndStep(x: nat, h: nat)
    requires 1 <= h
    ensures And(x, 2 * h - 1) == x % 2 + 2 * And(x / 2, h - 1)
  {
    assert (2 * h - 1) / 2 == h - 1 && (2 * h - 1) % 2 == 1;
  }

  lemma {:induction false} ModDouble(x: nat, h: nat)
    requires 1 <= h
    ensures x % (2 * h) == x % 2 + 2 * ((x / 2) % h)
  {
    var q, r := (x / 2) / h, (x / 2) % h;
    assert x / 2 == h * q + r;
    assert x == (2 * h) * q + (x % 2 + 2 * r);
    DivModUnique(x, 2 * h, q, x % 2 + 2 * r);
  }

  /** Quotient and remainder are determined by the division identity. */
  lemma {:induction false} DivModUnique(x: int, m: int, q: int, r: int)
    requires 0 < m && 0 <= r < m && x == m * q + r
    ensures x / m == q && x % m == r
  {
    var d := x / m - q;
    assert m * d == r - x % m;
    assert d >= 1 ==> m * d >= m;
    assert d <= -1 ==> m * d <= -m;
  }

  lemma {:induction false} XorBound(x: nat, y: nat, k: nat)
    requires x < Pow2(k) && y < Pow2(k)
    ensures Xor(x, y) < Pow2(k)
    decreases k
  {
    if k > 0 && (x != 0 || y != 0) {
      XorBound(x / 2, y / 2, k - 1);
    }
  }

  lemma {:induction false} XorUnfold(x: nat, y: nat)
    ensures Xor(x, y) == (x + y) % 2 + 2 * Xor(x / 2, y / 2) && Xor(0, 0) == 0
  {
  }

  lemma {:induction false} XorHalf(x: nat, y: nat)
    ensures Xor(x, y) / 2 == Xor(x / 2, y / 2) && Xor(x, y) % 2 == (x % 2 + y % 2) % 2
  {
    XorUnfold(x, y);
    hide Xor;
    DivModUnique(Xor(x, y), 2, Xor(x / 2, y / 2), (x + y) % 2);
    SumParity(x, y);
  }

  lemma {:induction false} SumParity(x: nat, y: nat)
    ensures (x + y) % 2 == (x % 2 + y % 2) % 2
  {
  }

  lemma {:induction false} HalfTwice(x: nat, p: nat)
    requires p > 0
    ensures x / (2 * p) == (x / 2) / p
  {
    var q, r := (x / 2) / p, (x / 2) % p;
    assert x / 2 == p * q + r;
    assert x == (2 * p) * q + (2 * r + x % 2);
    DivModUnique(x, 2 * p, q, 2 * r + x % 2);
  }

  /** Bit `k` of a xor is the parity of the two bits `k`. */
  lemma {:induction false} XorBit(x: nat, y: nat, k: nat)
    ensures Bit(Xor(x, y), k) == (Bit(x, k) + Bit(y, k)) % 2
    decreases k
  {
    hide Xor;
    XorHalf(x, y);
    if k > 0 {
      Pow2Unfolds(k);
      hide Pow2;
      XorBit(x / 2, y / 2, k - 1);
      HalfTwice(x, Pow2(k - 1));
      HalfTwice(y, Pow2(k - 1));
      HalfTwice(Xor(x, y), Pow2(k - 1));
    } else {
      BitZero(x);
      BitZero(y);
      BitZero(Xor(x, y));
    }
  }

  lemma {:induction false} BitZero(x: nat)
    ensures Bit(x, 0) == x % 2
  {
  }

  /** Two numbers below `2^n` with the same bits are equal. */
  lemma {:induction false} BitsDetermine(x: nat, y: nat, n: nat)
    requires x < Pow2(n) && y < Pow2(n) && forall k :: 0 <= k < n ==> Bit(x, k) == Bit(y, k)
    ensures x == y
    decreases n
  {
    if n > 0 {
      assert Bit(x, 0) == Bit(y, 0);
      forall k | 0 <= k < n - 1 ensures Bit(x / 2, k) == Bit(y / 2, k) {
        HalfTwice(x, Pow2(k));
        HalfTwice(y, Pow2(k));
        assert Bit(x, k + 1) == Bit(y, k + 1);
      }
      BitsDetermine(x / 2, y / 2, n - 1);
    }
  }

  /** The three masks of the source. */
  lemma {:induction false} MaskValues(x: nat)
    ensures And(x, 7) == x % 8 && And(x, 15) == x % 16 && And(x, 1023) == x % 1024
  {
    Pow2Values();
    AndLowMask(x, 3);
    AndLowMask(x, 4);
    AndLowMask(x, 10);
  }

  /** The powers of two among the source's constants. */
  lemma {:induction false} Pow2Values()
    ensures Pow2(3) == 8 && Pow2(4) == 16 && Pow2(10) == 1024 && Pow2(11) == 2048
    ensures Pow2(16) == 0x1_0000 && Pow2(32) == 0x1_0000_0000
  {
    assert Pow2(3) == 8;
    assert Pow2(8) == 0x100;
    assert Pow2(16) == 0x1_0000;
    assert Pow2(24) == 0x100_0000;
  }
}
