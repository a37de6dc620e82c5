/** Period of the low bits of an affine generator with multiplier one modulo
    four and odd increment, for every power-of-two modulus. */
module Period {
  import opened Bits
  import opened Lcg

  ghost predicate FullPeriod(g: Affine) { g.mul % 4 == 1 && g.add % 2 == 1 }

  /** The `2^k`-th power: multiplier one modulo `2^(k+2)`, increment an odd multiple of `2^k`. */
  lemma {:induction false} DoublePower(g: Affine, k: nat) returns (m: nat, h: nat)
    requires FullPeriod(g)
    ensures Power(g, Pow2(k)) == Affine(1 + 4 * Pow2(k) * m, Pow2(k) * (2 * h + 1))
  {
    if k == 0 {
      m, h := g.mul / 4, g.add / 2;
      assert Power(g, 1) == g;
    } else {
      var m', h' := DoublePower(g, k - 1);
      var p := Pow2(k - 1);
      PowerAdd(g, p, p);
      m, h := SquareMultiplier(p, m'), SquareIncrement(p, m', h');
      SquareMultiplierIs(p, m');
      SquareIncrementIs(p, m', h');
    }
  }

  function SquareMultiplier(p: nat, m: nat): nat { m + 2 * (p * m * m) }
  function SquareIncrement(p: nat, m: nat, h: nat): nat { h + 2 * (p * m * h) + p * m }

  lemma {:induction false} SquareMultiplierIs(p: nat, m: nat)
    ensures (1 + 4 * p * m) * (1 + 4 * p * m) == 1 + 4 * (2 * p) * SquareMultiplier(p, m)
  {
    var t := p * m;
    assert 4 * p * m == 4 * t;
    assert (1 + 4 * t) * (1 + 4 * t) == 1 + 8 * t + 16 * (t * t);
    assert t * t == p * (p * m * m);
    assert 4 * (2 * p) * SquareMultiplier(p, m) == 8 * t + 16 * (p * (p * m * m));
  }

  lemma {:induction false} SquareIncrementIs(p: nat, m: nat, h: nat)
    ensures (1 + 4 * p * m) * (p * (2 * h + 1)) + p * (2 * h + 1)
         == (2 * p) * (2 * SquareIncrement(p, m, h) + 1)
  {
    var c := p * (2 * h + 1);
    var t := p * m;
    assert (1 + 4 * p * m) * c + c == 2 * c + 4 * (t * c);
    assert t * c == p * (2 * (p * m * h) + p * m);
  }

  /** Half a period of `2^(k+1)` adds exactly `2^k`. */
  lemma {:induction false} HalfPeriod(g: Affine, k: nat, x: nat)
    requires FullPeriod(g)
    ensures Congruent(Apply(Power(g, Pow2(k)), x), x + Pow2(k), Pow2(k + 1))
  {
    hide Pow2; hide Power; hide Congruent; hide FullPeriod;
    var m, h := DoublePower(g, k);
    var p := Pow2(k);
    HalfPeriodSum(p, m, h, x);
    CongruentBy(Apply(Power(g, p), x), x + p, 2 * p, 2 * (m * x) + h);
    Pow2Unfolds(k + 1);
  }

  lemma {:induction false} HalfPeriodSum(p: nat, m: nat, h: nat, x: nat)
    ensures (1 + 4 * p * m) * x + p * (2 * h + 1) == x + p + (2 * p) * (2 * (m * x) + h)
  {
    var t, u := m * x, p * h;
    Regroup(p, m, x);
    Spread(p, t, h);
    assert p * (2 * h + 1) == 2 * u + p;
  }

  lemma {:induction false} Regroup(p: nat, m: nat, x: nat)
    ensures (1 + 4 * p * m) * x == x + 4 * (p * (m * x))
  {
    var q := p * m;
    assert (1 + 4 * q) * x == x + 4 * (q * x);
    assert q * x == p * (m * x);
  }

  lemma {:induction false} Spread(p: nat, t: nat, h: nat)
    ensures (2 * p) * (2 * t + h) == 4 * (p * t) + 2 * (p * h)
  {
    assert (2 * p) * (2 * t + h) == (2 * p) * (2 * t) + (2 * p) * h;
  }

  /** `q` half periods add `q * 2^k`. */
  lemma {:induction false} HalfPeriods(g: Affine, k: nat, q: nat, x: nat)
    requires FullPeriod(g)
    ensures Congruent(Apply(Power(g, Pow2(k) * q), x), x + Pow2(k) * q, Pow2(k + 1))
  {
    var p := Pow2(k);
    if q == 0 {
      assert Power(g, p * 0) == Affine(1, 0);
    } else {
      var y := Apply(Power(g, p * (q - 1)), x);
      HalfPeriods(g, k, q - 1, x);
      OneMore(g, p, q, x);
      HalfPeriod(g, k, y);
      AddCongruent(y, x + p * (q - 1), p, p, 2 * p);
    }
  }

  lemma {:induction false} OneMore(g: Affine, p: nat, q: nat, x: nat)
    requires q > 0
    ensures Apply(Power(g, p * q), x) == Apply(Power(g, p), Apply(Power(g, p * (q - 1)), x))
    ensures p * (q - 1) + p == p * q
  {
    PowerAdd(g, p, p * (q - 1));
    ApplyCompose(Power(g, p), Power(g, p * (q - 1)), x);
  }

  /** A state returns modulo `2^k` exactly after the multiples of `2^k`. */
  lemma {:induction false} ReturnsIff(g: Affine, k: nat, n: nat, x: nat)
    requires FullPeriod(g)
    ensures Congruent(Apply(Power(g, n), x), x, Pow2(k)) <==> n % Pow2(k) == 0
  {
    if k == 0 {
      ModOne(Apply(Power(g, n), x), x, n);
    } else {
      hide Power; hide Apply; hide Congruent; hide FullPeriod;
      var p := Pow2(k - 1);
      var y := Apply(Power(g, n), x);
      ReturnsIff(g, k - 1, n, x);
      if n % p != 0 {
        HalveModulus(y, x, p);
        HalveModulus(n, 0, p);
      } else {
        var q := n / p;
        assert n == p * q;
        HalfPeriods(g, k - 1, q, x);
        ReturnsStep(y, x, p, q);
      }
    }
  }

  lemma {:induction false} ModOne(y: int, x: int, n: int)
    ensures Congruent(y, x, 1) && n % 1 == 0
  {
  }

  lemma {:induction false} ReturnsStep(y: nat, x: nat, p: nat, q: nat)
    requires p > 0 && Congruent(y, x + p * q, 2 * p)
    ensures Congruent(y, x, 2 * p) <==> (p * q) % (2 * p) == 0
  {
    EvenMultiple(p, q, x);
  }

  lemma {:induction false} HalveModulus(x: int, y: int, p: int)
    requires p > 0
    ensures Congruent(x, y, 2 * p) ==> Congruent(x, y, p)
    ensures y == 0 && x % (2 * p) == 0 ==> x % p == 0
  {
    if Congruent(x, y, 2 * p) {
      var d := x / (2 * p) - y / (2 * p);
      assert x == y + p * (2 * d);
      CongruentBy(x, y, p, 2 * d);
    }
  }

  lemma {:induction false} EvenMultiple(p: nat, q: nat, x: nat)
    requires p > 0
    ensures Congruent(x + p * q, x, 2 * p) <==> (p * q) % (2 * p) == 0
  {
    CongruentIff(x + p * q, x, 2 * p);
  }

  /** Within one period no residue repeats. */
  lemma {:induction false} OrbitDistinct(g: Affine, k: nat, i: nat, j: nat, x: nat)
    requires FullPeriod(g) && i < j < Pow2(k)
    ensures !Congruent(Apply(Power(g, i), x), Apply(Power(g, j), x), Pow2(k))
  {
    var y := Apply(Power(g, i), x);
    PowerAdd(g, j - i, i);
    ApplyCompose(Power(g, j - i), Power(g, i), x);
    ReturnsIff(g, k, j - i, y);
    DivModUnique(j - i, Pow2(k), 0, j - i);
  }

  /** Every residue is visited within one period; together with
      `OrbitDistinct`, the residues modulo `2^k` form a single cycle. */
  lemma {:induction false} OrbitVisits(g: Affine, k: nat, x: nat, r: nat) returns (i: nat)
    requires FullPeriod(g) && r < Pow2(k)
    ensures i < Pow2(k) && Apply(Power(g, i), x) % Pow2(k) == r
  {
    if k == 0 {
      i := 0;
    } else {
      var p := Pow2(k - 1);
      i := OrbitVisits(g, k - 1, x, r % p);
      var y := Apply(Power(g, i), x);
      SplitResidue(y, r, p);
      if y % (2 * p) != r {
        HalfPeriod(g, k - 1, y);
        PowerAdd(g, p, i);
        ApplyCompose(Power(g, p), Power(g, i), x);
        i := i + p;
      }
    }
  }

  /** A residue modulo `p` has two lifts modulo `2p`, which differ by `p`. */
  lemma {:induction false} SplitResidue(y: nat, r: nat, p: nat)
    requires p > 0 && r < 2 * p && y % p == r % p
    ensures y % (2 * p) == r || (y + p) % (2 * p) == r
  {
    var s := y % (2 * p);
    LowPart(y, p);
    LowResidue(s, p);
    LowResidue(r, p);
    OtherHalf(y, p);
  }

  lemma {:induction false} LowPart(y: nat, p: nat)
    requires p > 0
    ensures y % (2 * p) % p == y % p
  {
    var q, s := y / (2 * p), y % (2 * p);
    assert y == (2 * p) * q + s;
    assert (2 * p) * q == p * (2 * q);
    CongruentBy(y, s, p, 2 * q);
  }

  lemma {:induction false} OtherHalf(y: nat, p: nat)
    requires p > 0
    ensures var s := y % (2 * p); (y + p) % (2 * p) == if s < p then s + p else s - p
  {
    var q, s := y / (2 * p), y % (2 * p);
    assert y == (2 * p) * q + s;
    if s < p {
      DivModUnique(y + p, 2 * p, q, s + p);
    } else {
      assert y + p == (2 * p) * (q + 1) + (s - p);
      DivModUnique(y + p, 2 * p, q + 1, s - p);
    }
  }

  lemma {:induction false} LowResidue(s: nat, p: nat)
    requires s < 2 * p
    ensures s % p == if s < p then s else s - p
  {
    if s < p { DivModUnique(s, p, 0, s); } else { DivModUnique(s, p, 1, s - p); }
  }

  // ----- The shared generator -----

  /** Low bits of the masked iteration follow the exact powers. */
  lemma {:induction false} IterateLowBits(x: u32, n: nat, k: nat)
    requires k <= 32
    ensures Congruent(Iterate(x, n), Apply(Power(STEP, n), x), Pow2(k))
  {
    IterateIsPower(x, n);
    var y := Apply(Power(STEP, n), x);
    Pow2Values();
    WordCongruent(y, k, 32);
  }

  lemma {:induction false} WordCongruent(y: nat, k: nat, w: nat)
    requires k <= w
    ensures Congruent(y % Pow2(w), y, Pow2(k))
    decreases w - k
  {
    if k == w {
      DivModUnique(y % Pow2(w), Pow2(w), 0, y % Pow2(w));
    } else {
      WordCongruent(y, k + 1, w);
      HalveModulus(y % Pow2(w), y, Pow2(k));
    }
  }

  /** After `2^k` steps bit `k` has flipped and the lower bits have returned. */
  lemma {:induction false} IterateHalfPeriod(x: u32, k: nat)
    requires k < 32
    ensures Congruent(Iterate(x, Pow2(k)), x + Pow2(k), Pow2(k + 1))
  {
    hide Iterate; hide Apply; hide Power; hide Pow2;
    IterateLowBits(x, Pow2(k), k + 1);
    HalfPeriod(STEP, k, x);
  }

  /** The masked generator returns modulo `2^k` exactly after multiples of `2^k`. */
  lemma {:induction false} IterateReturnsIff(x: u32, n: nat, k: nat)
    requires k <= 32
    ensures Congruent(Iterate(x, n), x, Pow2(k)) <==> n % Pow2(k) == 0
  {
    hide Iterate; hide Apply; hide Power; hide Pow2;
    IterateLowBits(x, n, k);
    ReturnsIff(STEP, k, n, x);
  }

  // ----- Sums over whole periods -----

  /** The first `n` states from `x` on. */
  function OrbitSum(x: u32, n: nat): (r: nat)
  {
    if n == 0 then 0 else OrbitSum(x, n - 1) + Iterate(x, n - 1)
  }

  lemma {:induction false} OrbitSplit(x: u32, m: nat, n: nat)
    ensures OrbitSum(x, m + n) == OrbitSum(x, m) + OrbitSum(Iterate(x, m), n)
    decreases n
  {
    hide Iterate;
    if n > 0 {
      OrbitSplit(x, m, n - 1);
      IterateAdd(x, m, n - 1);
    }
  }

  /** Half a period later each state has gained `2^k`. */
  lemma {:induction false} OrbitShift(x: u32, k: nat, n: nat)
    requires k < 32
    ensures Congruent(OrbitSum(Iterate(x, Pow2(k)), n), OrbitSum(x, n) + n * Pow2(k), Pow2(k + 1))
    decreases n
  {
    hide Iterate; hide Pow2; hide Congruent;
    var p, y := Pow2(k), Iterate(x, Pow2(k));
    if n == 0 {
      CongruentBy(0, 0, Pow2(k + 1), 0);
    } else {
      OrbitShift(x, k, n - 1);
      IterateAdd(x, p, n - 1);
      IterateAdd(x, n - 1, p);
      IterateHalfPeriod(Iterate(x, n - 1), k);
      AddCongruent(OrbitSum(y, n - 1), OrbitSum(x, n - 1) + (n - 1) * p, Iterate(y, n - 1), Iterate(x, n - 1) + p,
                   Pow2(k + 1));
      assert (n - 1) * p + p == n * p;
    }
  }

  lemma {:induction false} ShiftWhole(x: u32, k: nat)
    requires 1 <= k < 32
    ensures var h := Pow2(k - 1);
            Congruent(OrbitSum(Iterate(x, 2 * h), 2 * h), OrbitSum(x, 2 * h) + (2 * h) * (2 * h), 4 * h)
  {
    Pow2Unfolds(k);
    Pow2Unfolds(k + 1);
    hide Iterate; hide Congruent; hide OrbitSum; hide Pow2;
    OrbitShift(x, k, Pow2(k));
  }

  /** The states of one period modulo `2^k` add up to `2^(k-1)`. */
  lemma {:induction false} PeriodSum(x: u32, k: nat)
    requires 1 <= k <= 32
    ensures Congruent(OrbitSum(x, Pow2(k)), Pow2(k - 1), Pow2(k))
  {
    Pow2Unfolds(k);
    Pow2Unfolds(k - 1);
    hide Iterate; hide Congruent; hide OrbitSum; hide Pow2;
    var p := Pow2(k - 1);
    OrbitSplit(x, p, p);
    if k == 1 {
      OneState(x);
      OneState(Iterate(x, 1));
      IterateHalfPeriod(x, 0);
      FirstPair(x, Iterate(x, 1));
    } else {
      var h := Pow2(k - 2);
      PeriodSum(x, k - 1);
      ShiftWhole(x, k - 1);
      DoubleSum(OrbitSum(x, 2 * h), OrbitSum(Iterate(x, 2 * h), 2 * h), h);
    }
  }

  lemma {:induction false} OneState(x: u32)
    ensures OrbitSum(x, 1) == x
  {
  }

  lemma {:induction false} FirstPair(x: int, y: int)
    requires Congruent(y, x + 1, 2)
    ensures Congruent(x + y, 1, 2)
  {
  }

  lemma {:induction false} DoubleSum(sum: int, later: int, h: int)
    requires h > 0 && Congruent(sum, h, 2 * h) && Congruent(later, sum + (2 * h) * (2 * h), 4 * h)
    ensures Congruent(sum + later, 2 * h, 4 * h)
  {
    var c, d := sum / (2 * h) - h / (2 * h), later / (4 * h) - (sum + (2 * h) * (2 * h)) / (4 * h);
    assert sum == h + (2 * h) * c;
    assert later == sum + (2 * h) * (2 * h) + (4 * h) * d;
    assert (4 * h) * (c + h + d) == 2 * ((2 * h) * c) + (2 * h) * (2 * h) + (4 * h) * d;
    CongruentBy(sum + later, 2 * h, 4 * h, c + h + d);
  }
}
