/** The counting oracle of the cast workload: whole periods are tallied in
    closed form and only the remainder is simulated. */
module CastTrace {
  import opened Bits
  import opened Lcg
  import opened Period

  /** Direct simulation: how many of the first `n` states after `x` have bit `k` set. */
  function SetCount(x: u32, k: nat, n: nat): (r: nat)
  {
    if n == 0 then 0 else SetCount(x, k, n - 1) + Bit(Iterate(x, n), k)
  }

  lemma {:induction false} SetCountAdd(x: u32, k: nat, m: nat, n: nat)
    ensures SetCount(x, k, m + n) == SetCount(x, k, m) + SetCount(Iterate(x, m), k, n)
  {
    if n > 0 {
      SetCountAdd(x, k, m, n - 1);
      IterateAdd(x, m, n);
    }
  }

  /** Adding `2^k` modulo `2^(k+1)` flips bit `k`. */
  lemma {:induction false} BitFlips(x: nat, y: nat, k: nat)
    requires Congruent(y, x + Pow2(k), Pow2(k + 1))
    ensures Bit(y, k) == 1 - Bit(x, k)
  {
    var p := Pow2(k);
    BitIsHigh(x, p);
    BitIsHigh(y, p);
    HighFlips(x, p);
  }

  lemma {:induction false} BitIsHigh(x: nat, p: nat)
    requires p > 0
    ensures (x / p) % 2 == if x % (2 * p) < p then 0 else 1
  {
    var q, s := x / (2 * p), x % (2 * p);
    assert x == (2 * p) * q + s == p * (2 * q) + s;
    if s < p {
      DivModUnique(x, p, 2 * q, s);
    } else {
      DivModUnique(x, p, 2 * q + 1, s - p);
    }
  }

  lemma {:induction false} HighFlips(x: nat, p: nat)
    requires p > 0
    ensures (x + p) % (2 * p) < p <==> x % (2 * p) >= p
  {
    OtherHalf(x, p);
  }

  /** Starting half a period later complements the whole trace. */
  lemma {:induction false} HalfPeriodComplements(x: u32, k: nat, n: nat)
    requires k < 32
    ensures SetCount(Iterate(x, Pow2(k)), k, n) == n - SetCount(x, k, n)
  {
    if n > 0 {
      HalfPeriodComplements(x, k, n - 1);
      var y := Iterate(x, n);
      IterateAdd(x, Pow2(k), n);
      IterateAdd(x, n, Pow2(k));
      IterateHalfPeriod(y, k);
      BitFlips(y, Iterate(y, Pow2(k)), k);
    }
  }

  /** A whole period sets bit `k` in exactly half of its states, and the trace repeats. */
  lemma {:induction false} WholePeriod(x: u32, k: nat, n: nat)
    requires k < 32
    ensures SetCount(x, k, 2 * Pow2(k) + n) == Pow2(k) + SetCount(x, k, n)
  {
    hide SetCount; hide Iterate; hide Pow2;
    var p := Pow2(k);
    SetCountAdd(x, k, p, p + n);
    SetCountAdd(Iterate(x, p), k, p, n);
    HalfPeriodComplements(x, k, p);
    HalfPeriodComplements(Iterate(x, p), k, n);
    HalfPeriodComplements(x, k, n);
  }

  lemma {:induction false} WholePeriods(x: u32, k: nat, periods: nat, n: nat)
    requires k < 32
    ensures SetCount(x, k, 2 * Pow2(k) * periods + n) == Pow2(k) * periods + SetCount(x, k, n)
  {
    hide SetCount; hide Pow2;
    var p := Pow2(k);
    if periods == 0 {
      NoPeriods(p);
    } else {
      WholePeriods(x, k, periods - 1, n);
      OnePeriodMore(p, periods - 1);
      WholePeriod(x, k, 2 * p * (periods - 1) + n);
    }
  }

  lemma {:induction false} NoPeriods(p: nat)
    ensures 2 * p * 0 == 0 && p * 0 == 0
  {
  }

  lemma {:induction false} OnePeriodMore(p: nat, q: nat)
    ensures 2 * p * (q + 1) == 2 * p + 2 * p * q && p * (q + 1) == p + p * q
  {
  }

  /** Lookups of the two heap types over `count` iterations: the tally equals
      direct simulation of every iteration from the seed. */
  method GcCastTrace(count: nat) returns (structLookups: nat, arrayLookups: nat)
    ensures arrayLookups == SetCount(SEED, 10, count)
    ensures structLookups == count - SetCount(SEED, 10, count)
  {
    hide Pow2; hide Next;
    Pow2Values();
    var periods, remainder := count / 2048, count % 2048;
    structLookups, arrayLookups := periods * 1024, periods * 1024;
    var state: u32 := SEED;
    for i := 0 to remainder
      invariant state == Iterate(SEED, i)
      invariant arrayLookups == periods * 1024 + SetCount(SEED, 10, i)
      invariant structLookups == periods * 1024 + i - SetCount(SEED, 10, i)
    {
      state := Next(state);
      assert state == Iterate(SEED, i + 1);
      if (state / 1024) % 2 == 0 {
        structLookups := structLookups + 1;
      } else {
        arrayLookups := arrayLookups + 1;
      }
    }
    WholePeriods(SEED, 10, periods, remainder);
  }
}
