/** The linear congruential generator every fixture shares, its closed affine
    form and the binary-exponentiation endpoints. */
module Lcg {
  import opened Bits

  const MODULUS: nat := 0x1_0000_0000
  const SEED: u32 := 123456789
  const A: nat := 1664525
  const C: nat := 1013904223

  type u32 = x: nat | x < 0x1_0000_0000

  function Wrap(x: int): (r: u32) { x % 0x1_0000_0000 }

  function Xor32(x: u32, y: u32): (r: u32)
  {
    Pow2Values();
    XorBound(x, y, 32);
    Xor(x, y)
  }

  /** Bit by bit, `r` is the exclusive or of two words. */
  ghost predicate IsXor(r: nat, x: nat, y: nat)
  {
    forall k :: 0 <= k < 32 ==> Bit(r, k) == (Bit(x, k) + Bit(y, k)) % 2
  }

  /** `Xor32` is the only word that is, bit by bit, the exclusive or. */
  lemma {:induction false} Xor32Bits(x: u32, y: u32, r: u32)
    ensures IsXor(Xor32(x, y), x, y)
    ensures IsXor(r, x, y) ==> r == Xor32(x, y)
  {
    Pow2Values();
    hide Pow2; hide Bit; hide Xor;
    forall k | 0 <= k < 32 ensures Bit(Xor32(x, y), k) == (Bit(x, k) + Bit(y, k)) % 2 {
      XorBit(x, y, k);
    }
    if IsXor(r, x, y) {
      BitsDetermine(r, Xor32(x, y), 32);
    }
  }

  lemma {:induction false} WrapIsIdentity(x: u32)
    ensures Wrap(x) == x
  {
  }

  /** Masking early does not change a masked sum. */
  lemma {:induction false} WrapAdd(x: int, y: int)
    ensures Wrap(Wrap(x) + y) == Wrap(x + y) && Wrap(x + Wrap(y)) == Wrap(x + y)
  {
    CongruentBy(x + y, Wrap(x) + y, MODULUS, x / MODULUS);
    CongruentBy(x + y, x + Wrap(y), MODULUS, y / MODULUS);
  }

  function Next(x: nat): (r: u32) { Wrap(x * A + C) }

  /** The state after `n` steps from `x`. */
  function Iterate(x: u32, n: nat): (r: u32)
  {
    if n == 0 then x else Next(Iterate(x, n - 1))
  }

  // ----- Congruence modulo m -----

  ghost predicate Congruent(x: int, y: int, m: int)
    requires m > 0
  {
    x % m == y % m
  }

  lemma {:induction false} CongruentIff(x: int, y: int, m: int)
    requires m > 0
    ensures Congruent(x, y, m) <==> (x - y) % m == 0
  {
    var qx, rx := x / m, x % m;
    var qy, ry := y / m, y % m;
    if rx == ry {
      assert x - y == m * (qx - qy) + 0;
      DivModUnique(x - y, m, qx - qy, 0);
    }
    if (x - y) % m == 0 {
      var d := (x - y) / m;
      assert x == m * (qy + d) + ry;
      DivModUnique(x, m, qy + d, ry);
    }
  }

  lemma {:induction false} CongruentBy(x: int, y: int, m: int, k: int)
    requires m > 0 && x == y + m * k
    ensures Congruent(x, y, m)
  {
    assert x == m * (y / m + k) + y % m;
    DivModUnique(x, m, y / m + k, y % m);
  }

  lemma {:induction false} AddCongruent(x: int, x': int, y: int, y': int, m: int)
    requires m > 0 && Congruent(x, x', m) && Congruent(y, y', m)
    ensures Congruent(x + y, x' + y', m)
  {
    var k := x / m - x' / m + y / m - y' / m;
    assert x + y == x' + y' + m * k;
    CongruentBy(x + y, x' + y', m, k);
  }

  lemma {:induction false} MulCongruent(x: int, x': int, y: int, y': int, m: int)
    requires m > 0 && Congruent(x, x', m) && Congruent(y, y', m)
    ensures Congruent(x * y, x' * y', m)
  {
    var dx, dy := x / m - x' / m, y / m - y' / m;
    assert x == x' + m * dx && y == y' + m * dy;
    hide Congruent;
    ShiftedProduct(x', dx, y', dy, m);
    CongruentBy(x * y, x' * y', m, x' * dy + dx * y);
  }

  lemma {:induction false} ShiftedProduct(x: int, dx: int, y: int, dy: int, m: int)
    ensures (x + m * dx) * (y + m * dy) == x * y + m * (x * dy + dx * (y + m * dy))
  {
    var z := y + m * dy;
    assert (x + m * dx) * z == x * z + (m * dx) * z;
    assert (m * dx) * z == m * (dx * z);
    assert x * z == x * y + x * (m * dy);
    assert x * (m * dy) == m * (x * dy);
    assert m * (x * dy + dx * z) == m * (x * dy) + m * (dx * z);
  }

  // ----- The exact n-th power of the affine step -----

  /** `x -> mul * x + add`, over the integers. */
  datatype Affine = Affine(mul: nat, add: nat)

  function Apply(f: Affine, x: nat): (r: nat) { f.mul * x + f.add }

  /** First `g`, then `f`. */
  function Compose(f: Affine, g: Affine): (r: Affine)
  {
    Affine(f.mul * g.mul, f.mul * g.add + f.add)
  }

  /** The `n`-th power of the affine map `g`. */
  function Power(g: Affine, n: nat): (r: Affine)
  {
    if n == 0 then Affine(1, 0) else Compose(g, Power(g, n - 1))
  }

  const STEP := Affine(A, C)

  lemma {:induction false} PowerOne(g: Affine)
    ensures Power(g, 0) == Affine(1, 0) && Power(g, 1) == g
  {
    assert Compose(g, Affine(1, 0)) == g;
  }

  lemma {:induction false} ComposeAssociative(f: Affine, g: Affine, h: Affine)
    ensures Compose(Compose(f, g), h) == Compose(f, Compose(g, h))
  {
    assert (f.mul * g.mul) * h.mul == f.mul * (g.mul * h.mul);
    calc {
      (f.mul * g.mul) * h.add + (f.mul * g.add + f.add);
      f.mul * (g.mul * h.add) + f.mul * g.add + f.add;
      f.mul * (g.mul * h.add + g.add) + f.add;
    }
  }

  lemma {:induction false} PowerAdd(g: Affine, m: nat, n: nat)
    ensures Power(g, m + n) == Compose(Power(g, m), Power(g, n))
  {
    if m > 0 {
      PowerAdd(g, m - 1, n);
      ComposeAssociative(g, Power(g, m - 1), Power(g, n));
    }
  }

  lemma {:induction false} ApplyCompose(f: Affine, g: Affine, x: nat)
    ensures Apply(Compose(f, g), x) == Apply(f, Apply(g, x))
  {
    calc {
      (f.mul * g.mul) * x + (f.mul * g.add + f.add);
      f.mul * (g.mul * x) + f.mul * g.add + f.add;
      f.mul * (g.mul * x + g.add) + f.add;
    }
  }

  /** One masked step from congruent states. */
  lemma {:induction false} NextCongruent(x: nat, y: nat)
    requires Congruent(x, y, MODULUS)
    ensures Next(x) == Wrap(Apply(STEP, y))
  {
    MulCongruent(x, y, A, A, MODULUS);
    AddCongruent(x * A, y * A, C, C, MODULUS);
  }

  lemma {:induction false} WrapCongruent(y: int)
    ensures Congruent(Wrap(y), y, MODULUS)
  {
  }

  /** Iterating the masked step is reducing the exact power once. */
  lemma {:induction false} IterateIsPower(x: u32, n: nat)
    ensures Iterate(x, n) == Wrap(Apply(Power(STEP, n), x))
  {
    hide Wrap; hide Next; hide Congruent; hide Apply; hide Compose;
    if n == 0 {
      ApplyIdentity(x);
    } else {
      IterateIsPower(x, n - 1);
      var y := Apply(Power(STEP, n - 1), x);
      ApplyCompose(STEP, Power(STEP, n - 1), x);
      WrapCongruent(y);
      NextCongruent(Iterate(x, n - 1), y);
    }
  }

  lemma {:induction false} ApplyIdentity(x: u32)
    ensures Apply(Affine(1, 0), x) == x && Wrap(x) == x
  {
  }

  lemma {:induction false} IterateAdd(x: u32, m: nat, n: nat)
    ensures Iterate(x, m + n) == Iterate(Iterate(x, m), n)
  {
    if n > 0 {
      IterateAdd(x, m, n - 1);
    }
  }

  // ----- Binary exponentiation -----

  lemma {:induction false} ReduceCongruent(x: int, y: int, m: int)
    requires m > 0 && Congruent(x, y, m)
    ensures Congruent(x % m, y, m)
  {
    DivModUnique(x % m, m, 0, x % m);
  }

  lemma {:induction false} ReducedProduct(x: int, x': int, y: int, y': int, z: int, z': int, m: int)
    requires m > 0 && Congruent(x, x', m) && Congruent(y, y', m) && Congruent(z, z', m)
    ensures Congruent((x * y + z) % m, x' * y' + z', m)
  {
    MulCongruent(x, x', y, y', m);
    var p, p' := x * y, x' * y';
    AddCongruent(p, p', z, z', m);
    ReduceCongruent(p + z, p' + z', m);
  }

  /** First `g`, then `f`, with both coefficients masked to 32 bits. */
  function MaskedCompose(f: Affine, g: Affine): (r: Affine)
  {
    Affine(Wrap(f.mul * g.mul + 0), Wrap(f.mul * g.add + f.add))
  }

  ghost predicate Alike(f: Affine, g: Affine)
  {
    Congruent(f.mul, g.mul, MODULUS) && Congruent(f.add, g.add, MODULUS)
  }

  lemma {:induction false} MaskedComposeAlike(f: Affine, f': Affine, g: Affine, g': Affine)
    requires Alike(f, f') && Alike(g, g')
    ensures Alike(MaskedCompose(f, g), Compose(f', g'))
  {
    ReducedProduct(f.mul, f'.mul, g.mul, g'.mul, 0, 0, MODULUS);
    ReducedProduct(f.mul, f'.mul, g.add, g'.add, f.add, f'.add, MODULUS);
  }

  /** The masked product of the pairs for `j` and `k` stands for `j + k`. */
  lemma {:induction false} MaskedPowerAdd(f: Affine, j: nat, g: Affine, k: nat)
    requires Alike(f, Power(STEP, j)) && Alike(g, Power(STEP, k))
    ensures Alike(MaskedCompose(f, g), Power(STEP, j + k))
  {
    hide Alike; hide MaskedCompose; hide Compose;
    PowerAdd(STEP, j, k);
    MaskedComposeAlike(f, Power(STEP, j), g, Power(STEP, k));
  }

  /** Applying a masked power to a state takes that many steps. */
  lemma {:induction false} AlikeApply(f: Affine, n: nat, x: u32)
    requires Alike(f, Power(STEP, n))
    ensures Wrap(f.mul * x + f.add) == Iterate(x, n)
  {
    var p := Power(STEP, n);
    IterateIsPower(x, n);
    MulCongruent(f.mul, p.mul, x, x, MODULUS);
    AddCongruent(f.mul * x, p.mul * x, f.add, p.add, MODULUS);
  }

  /** State of an exponentiation loop: `f` has taken `done` steps, `g` takes
      `pow` steps, and `pow * count` steps are still to come. */
  ghost predicate Pending(f: Affine, done: nat, g: Affine, pow: nat, count: nat, total: nat)
  {
    Alike(f, Power(STEP, done)) && Alike(g, Power(STEP, pow)) && done + pow * count == total
  }

  lemma {:induction false} PendingStart(total: nat)
    ensures Pending(Affine(1, 0), 0, STEP, 1, total, total)
  {
    PowerOne(STEP);
    hide Power;
  }

  /** One round: an odd count takes `g`, and then `g` is squared. */
  lemma {:induction false} PendingRound(f: Affine, done: nat, g: Affine, pow: nat, count: nat, total: nat)
    requires Pending(f, done, g, pow, count, total)
    ensures count % 2 == 1 ==>
              Pending(MaskedCompose(g, f), pow + done, MaskedCompose(g, g), pow + pow, count / 2, total)
    ensures count % 2 == 0 ==> Pending(f, done, MaskedCompose(g, g), pow + pow, count / 2, total)
  {
    hide Alike; hide MaskedCompose;
    MaskedPowerAdd(g, pow, f, done);
    MaskedPowerAdd(g, pow, g, pow);
    HalveCount(pow, count);
  }

  lemma {:induction false} HalveCount(pow: nat, count: nat)
    ensures pow * count == (pow + pow) * (count / 2) + (if count % 2 == 1 then pow else 0)
  {
    var h := count / 2;
    assert pow * (2 * h) == (pow + pow) * h;
  }

  lemma {:induction false} PendingDone(f: Affine, done: nat, g: Affine, pow: nat, total: nat, x: u32)
    requires Pending(f, done, g, pow, 0, total)
    ensures Wrap(f.mul * x + f.add) == Iterate(x, total)
  {
    hide Alike; hide Wrap;
    AlikeApply(f, done, x);
  }

  /** The endpoint update of the accumulated pair. */
  method TakePower(f: Affine, g: Affine) returns (h: Affine)
    ensures h == MaskedCompose(g, f)
  {
    var m, a := f.mul * g.mul, f.add * g.mul;
    assert m == g.mul * f.mul && a == g.mul * f.add;
    h := Affine(Wrap(m), Wrap(a + g.add));
  }

  /** The endpoint update of the power: `(mul + 1) * add` is `mul * add + add`. */
  method SquarePower(g: Affine) returns (h: Affine)
    ensures h == MaskedCompose(g, g)
  {
    assert (g.mul + 1) * g.add == g.mul * g.add + g.add;
    h := Affine(Wrap(g.mul * g.mul), Wrap((g.mul + 1) * g.add));
  }

  /** The endpoint after `total` steps from the fixed seed. */
  method Endpoint(total: nat) returns (r: u32)
    ensures r == Iterate(SEED, total)
  {
    hide Pending; hide MaskedCompose;
    var current, power := Affine(1, 0), STEP;
    var count := total;
    ghost var done, pow := 0, 1;
    PendingStart(total);
    while count != 0
      invariant Pending(current, done, power, pow, count, total)
    {
      PendingRound(current, done, power, pow, count, total);
      if count % 2 == 1 {
        current := TakePower(current, power);
        done := pow + done;
      }
      power := SquarePower(power);
      pow := pow + pow;
      count := count / 2;
    }
    PendingDone(current, done, power, pow, total, SEED);
    r := Wrap(current.mul * 123456789 + current.add);
  }

  /** `total` steps from any state, as the compact-ring checker jumps. */
  method Jump(state: u32, total: nat) returns (r: u32)
    ensures r == Iterate(state, total)
  {
    hide Pending; hide MaskedCompose;
    var current, base := Affine(1, 0), STEP;
    var count := total;
    ghost var done, pow := 0, 1;
    PendingStart(total);
    while count != 0
      invariant Pending(current, done, base, pow, count, total)
    {
      PendingRound(current, done, base, pow, count, total);
      if count % 2 == 1 {
        current := MaskedCompose(base, current);
        done := pow + done;
      }
      base := MaskedCompose(base, base);
      pow := pow + pow;
      count := count / 2;
    }
    PendingDone(current, done, base, pow, total, state);
    r := Wrap(current.mul * state + current.add);
  }
}
