/** The SIMD swizzle guest against its scalar oracle: sixteen byte lanes on one
    side, a rotated and possibly inverted sixteen-bit pattern on the other. */
module Swizzle {
  import opened Wrappers
  import opened Bits
  import opened Lcg

  // ----- Bit strings -----

  type bit = x: nat | x < 2

  /** The number with the given bits, lowest first. */
  function FromBits(b: seq<bit>): (r: nat)
  {
    if b == [] then 0 else b[0] + 2 * FromBits(b[1..])
  }

  function Or(x: nat, y: nat): (r: nat)
    decreases x + y
  {
    if x == 0 && y == 0 then 0
    else (if x % 2 == 1 || y % 2 == 1 then 1 else 0) + 2 * Or(x / 2, y / 2)
  }

  lemma {:induction false} FromBitsBound(b: seq<bit>)
    ensures FromBits(b) < Pow2(|b|)
  {
    if b != [] {
      FromBitsBound(b[1..]);
    }
  }

  lemma {:induction false} FromBitsConcat(a: seq<bit>, b: seq<bit>)
    ensures FromBits(a + b) == FromBits(a) + Pow2(|a|) * FromBits(b)
  {
    if a == [] {
      assert a + b == b;
    } else {
      FromBitsConcat(a[1..], b);
      assert (a + b)[1..] == a[1..] + b && (a + b)[0] == a[0];
      Doubled(Pow2(|a| - 1), FromBits(b));
    }
  }

  lemma {:induction false} Doubled(p: nat, x: nat)
    ensures 2 * (p * x) == (2 * p) * x
  {
  }

  /** A shift right drops low bits. */
  lemma {:induction false} ShiftRight(b: seq<bit>, s: nat)
    requires s <= |b|
    ensures FromBits(b) / Pow2(s) == FromBits(b[s..])
    ensures FromBits(b) % Pow2(s) == FromBits(b[..s])
  {
    FromBitsConcat(b[..s], b[s..]);
    FromBitsBound(b[..s]);
    assert b == b[..s] + b[s..];
    DivModUnique(FromBits(b), Pow2(s), FromBits(b[s..]), FromBits(b[..s]));
  }

  /** Or-ing a number above another is adding it. */
  lemma {:induction false} OrDisjoint(x: nat, y: nat, k: nat)
    requires x < Pow2(k)
    ensures Or(x, Pow2(k) * y) == x + Pow2(k) * y
    decreases k
  {
    if k == 0 {
      OrZero(y);
    } else {
      var p := Pow2(k - 1);
      Doubled(p, y);
      OrDisjoint(x / 2, y, k - 1);
      HalfOr(x, p * y);
    }
  }

  lemma {:induction false} HalfOr(x: nat, z: nat)
    ensures Or(x, 2 * z) == x % 2 + 2 * Or(x / 2, z)
  {
  }

  lemma {:induction false} OrZero(y: nat)
    ensures Or(0, y) == y
  {
    if y > 0 {
      OrZero(y / 2);
    }
  }

  function Invert(b: seq<bit>): (r: seq<bit>)
    ensures |r| == |b|
  {
    seq(|b|, i requires 0 <= i < |b| => 1 - b[i])
  }

  /** Xor with all ones inverts every bit. */
  lemma {:induction false} XorOnes(b: seq<bit>)
    ensures Xor(FromBits(b), Pow2(|b|) - 1) == FromBits(Invert(b))
  {
    hide Xor;
    if b == [] {
      XorUnfold(0, 0);
    } else {
      XorOnes(b[1..]);
      assert Invert(b)[1..] == Invert(b[1..]) && Invert(b)[0] == 1 - b[0];
      HalfXor(b[0], FromBits(b[1..]), Pow2(|b| - 1) - 1);
      assert Pow2(|b|) - 1 == 2 * (Pow2(|b| - 1) - 1) + 1;
    }
  }

  lemma {:induction false} HalfXor(low: bit, x: nat, y: nat)
    ensures Xor(low + 2 * x, 2 * y + 1) == (1 - low) + 2 * Xor(x, y)
  {
    hide Xor;
    XorUnfold(low + 2 * x, 2 * y + 1);
    assert (low + 2 * x) / 2 == x && (2 * y + 1) / 2 == y;
  }

  /** The top bit of a xor. */
  lemma {:induction false} TopXor(x: nat, y: nat, k: nat)
    requires x < Pow2(k + 1) && y < Pow2(k + 1)
    ensures Xor(x, y) / Pow2(k) == (x / Pow2(k) + y / Pow2(k)) % 2
    decreases k
  {
    if k == 0 {
      assert x < 2 && y < 2;
    } else {
      var p := Pow2(k - 1);
      TopXor(x / 2, y / 2, k - 1);
      HalfTwice(x, p);
      HalfTwice(y, p);
      HalfTwice(Xor(x, y), p);
      XorHalf(x, y);
    }
  }

  lemma {:induction false} AndPower(x: nat, k: nat)
    ensures And(x, Pow2(k)) == Bit(x, k) * Pow2(k)
    decreases k
  {
    if x == 0 {
    } else if k == 0 {
      AndOne(x);
    } else {
      AndPower(x / 2, k - 1);
      HalfTwice(x, Pow2(k - 1));
      Doubled(Pow2(k - 1), Bit(x, k));
    }
  }

  lemma {:induction false} AndOne(x: nat)
    requires x > 0
    ensures And(x, 1) == x % 2
  {
    assert And(x / 2, 0) == 0;
  }

  function ToBits(x: nat, n: nat): (b: seq<bit>)
    ensures |b| == n
  {
    if n == 0 then [] else [x % 2] + ToBits(x / 2, n - 1)
  }

  lemma {:induction false} BitsOf(x: nat, n: nat)
    ensures FromBits(ToBits(x, n)) == x % Pow2(n)
  {
    if n > 0 {
      BitsOf(x / 2, n - 1);
      ModDouble(x, Pow2(n - 1));
      assert ToBits(x, n)[1..] == ToBits(x / 2, n - 1);
    }
  }

  lemma {:induction false} BitAt(x: nat, n: nat, i: nat)
    requires i < n
    ensures ToBits(x, n)[i] == Bit(x, i)
    decreases n
  {
    if i > 0 {
      BitAt(x / 2, n - 1, i - 1);
      HalfTwice(x, Pow2(i - 1));
    }
  }

  // ----- The scalar oracle -----

  const PATTERN: nat := 0xA65C

  function Pattern(): (b: seq<bit>)
    ensures |b| == 16
  {
    ToBits(PATTERN, 16)
  }

  function ShiftLeft(x: nat, k: nat): (r: nat) { x * Pow2(k) }

  function Quotient(x: nat, p: nat): (r: nat)
    requires p > 0
  {
    x / p
  }

  /** Two shifts, an or and a mask. */
  function Rotate(x: nat, s: nat): (r: nat)
    requires s <= 16
  {
    And(Or(Quotient(x, Pow2(s)), ShiftLeft(x, 16 - s)), 0xFFFF)
  }

  /** The pattern rotated right by the high nibble, inverted if the state's sign bit is set. */
  function Feedback(state: u32): (bits: nat)
  {
    var rotated := Rotate(PATTERN, state / 0x1_0000 % 16);
    if And(state, 0x80) != 0 then Xor(rotated, 0xFFFF) else rotated
  }

  function Rotated(b: seq<bit>, s: nat): (r: seq<bit>)
    requires s <= |b|
    ensures |r| == |b|
  {
    b[s..] + b[..s]
  }

  /** The shifts rotate a sixteen-bit string. */
  lemma {:induction false} Rotates(b: seq<bit>, s: nat)
    requires |b| == 16 && s <= 16
    ensures Rotate(FromBits(b), s) == FromBits(Rotated(b, s))
  {
    hide FromBits; hide And; hide Or; hide Pow2;
    var x, p := FromBits(b), Pow2(16 - s);
    ShiftRight(b, s);
    FromBitsBound(b[s..]);
    OrDisjoint(FromBits(b[s..]), x, 16 - s);
    assert x * p == p * x;
    AndLowMask(FromBits(b[s..]) + p * x, 16);
    Pow2Values();
    FromBitsConcat(b[s..], b);
    ShiftRight(b[s..] + b, 16);
    assert (b[s..] + b)[..16] == Rotated(b, s);
  }

  /** The feedback bits of a state. */
  ghost function FeedbackBits(state: u32): (b: seq<bit>)
    ensures |b| == 16
  {
    var r := Rotated(Pattern(), state / 0x1_0000 % 16);
    if Bit(state, 7) == 1 then Invert(r) else r
  }

  lemma {:induction false} FeedbackIs(state: u32)
    ensures Feedback(state) == FromBits(FeedbackBits(state)) < 0x1_0000
  {
    hide FromBits; hide And; hide Or; hide Xor; hide Pow2; hide ToBits; hide Bit;
    var s := state / 0x1_0000 % 16;
    Pow2Values();
    BitsOf(PATTERN, 16);
    Rotates(Pattern(), s);
    SignBit(state);
    XorOnes(Rotated(Pattern(), s));
    FromBitsBound(FeedbackBits(state));
  }

  lemma {:induction false} SignBit(state: nat)
    ensures And(state, 0x80) != 0 <==> Bit(state, 7) == 1
  {
    hide And; hide Bit;
    AndPower(state, 7);
    assert Pow2(7) == 0x80;
  }

  // ----- Lanes -----

  type lane = x: nat | x < 256

  predicate Vector(v: seq<lane>) { |v| == 16 }

  function Splat(x: u32): (v: seq<lane>)
    ensures Vector(v)
  {
    seq(16, _ => x % 256)
  }

  function XorLane(x: lane, y: lane): (r: lane)
  {
    assert Pow2(8) == 256;
    XorBound(x, y, 8);
    Xor(x, y)
  }

  function XorLanes(v: seq<lane>, w: seq<lane>): (r: seq<lane>)
    requires Vector(v) && Vector(w)
    ensures Vector(r)
  {
    seq(16, i requires 0 <= i < 16 => XorLane(v[i], w[i]))
  }

  function AddLane(x: nat, y: nat): (r: lane) { (x + y) % 256 }

  function AddLanes(v: seq<lane>, w: seq<lane>): (r: seq<lane>)
    requires Vector(v) && Vector(w)
    ensures Vector(r)
  {
    seq(16, i requires 0 <= i < 16 => AddLane(v[i], w[i]))
  }

  function AndLanes(v: seq<lane>, w: seq<lane>): (r: seq<lane>)
    requires Vector(v) && Vector(w)
    ensures Vector(r)
  {
    seq(16, i requires 0 <= i < 16 => And(v[i], w[i]))
  }

  /** An index outside the vector selects zero. */
  function Select(v: seq<lane>, w: seq<lane>): (r: seq<lane>)
    requires Vector(v) && Vector(w)
    ensures Vector(r)
  {
    seq(16, i requires 0 <= i < 16 => if w[i] < 16 then v[w[i]] else 0)
  }

  /** What a relaxed swizzle may give: outside the vector an engine may also wrap an
      index below 128 around. */
  ghost predicate RelaxedSelect(v: seq<lane>, w: seq<lane>, r: seq<lane>)
  {
    Vector(v) && Vector(w) && Vector(r) && forall i :: 0 <= i < 16 ==>
      if w[i] < 16 then r[i] == v[w[i]]
      else r[i] == 0 || (w[i] < 128 && r[i] == v[w[i] % 16])
  }

  /** The sign bits of the lanes. */
  function Bitmask(v: seq<lane>): (r: nat)
    requires Vector(v)
  {
    FromBits(seq(16, i requires 0 <= i < 16 => v[i] / 128))
  }

  // ----- The guest's iteration -----

  function Signs(): (v: seq<lane>)
    ensures Vector(v)
  {
    seq(16, i requires 0 <= i < 16 => if Bit(PATTERN, i) == 1 then 0x80 else 0)
  }

  function Table(state: u32): (v: seq<lane>)
    ensures Vector(v)
  {
    XorLanes(Splat(state), Signs())
  }

  function Indices(state: u32): (w: seq<lane>)
    ensures Vector(w)
  {
    AndLanes(AddLanes(Splat(And(state / 0x1_0000, 15)), seq(16, i => i)), seq(16, _ => 15))
  }

  lemma {:induction false} IndexIs(state: u32, i: nat)
    requires i < 16
    ensures Indices(state)[i] == (state / 0x1_0000 % 16 + i) % 16
  {
    hide And;
    var s := state / 0x1_0000;
    MaskValues(s);
    assert Splat(And(s, 15))[i] == s % 16;
    var sum: lane := AddLane(s % 16, i);
    assert sum == s % 16 + i;
    MaskValues(sum);
  }

  /** Indices always lie in the vector, so strict and relaxed engines agree. */
  lemma {:induction false} EnginesAgree(state: u32, r: seq<lane>)
    ensures RelaxedSelect(Table(state), Indices(state), r) <==> r == Select(Table(state), Indices(state))
  {
    hide Table; hide Indices;
    forall i | 0 <= i < 16 ensures Indices(state)[i] < 16 {
      IndexIs(state, i);
    }
  }

  lemma {:induction false} TableTop(state: u32, i: nat)
    requires i < 16
    ensures Table(state)[i] / 128 == (Bit(state, 7) + Pattern()[i]) % 2
  {
    hide Xor; hide ToBits;
    BitAt(PATTERN, 16, i);
    assert Pow2(7) == 128 && Pow2(8) == 256;
    TopXor(state % 256, if Bit(PATTERN, i) == 1 then 0x80 else 0, 7);
    StateTop(state);
  }

  lemma {:induction false} StateTop(x: nat)
    ensures x % 256 / 128 == x / 128 % 2
  {
  }

  lemma {:induction false} SelectedTop(state: u32, i: nat)
    requires i < 16
    ensures Select(Table(state), Indices(state))[i] / 128 == FeedbackBits(state)[i]
  {
    hide Table; hide Indices; hide ToBits; hide Bit;
    var s := state / 0x1_0000 % 16;
    IndexIs(state, i);
    TableTop(state, (s + i) % 16);
    assert Rotated(Pattern(), s)[i] == Pattern()[(s + i) % 16];
  }

  /** The vector sequence computes the oracle's feedback. */
  lemma {:induction false} LanesAreFeedback(state: u32)
    ensures Bitmask(Select(Table(state), Indices(state))) == Feedback(state)
  {
    hide Table; hide Indices; hide FromBits; hide Feedback; hide FeedbackBits;
    var v := Select(Table(state), Indices(state));
    FeedbackIs(state);
    forall i | 0 <= i < 16 ensures v[i] / 128 == FeedbackBits(state)[i] {
      SelectedTop(state, i);
    }
    assert seq(16, i requires 0 <= i < 16 => v[i] / 128) == FeedbackBits(state);
  }

  // ----- The loops -----

  /** The state after `n` iterations of the feedback loop. */
  function Swizzled(n: nat): (state: u32)
  {
    if n == 0 then SEED else var state := Next(Swizzled(n - 1)); FedBack(state)
  }

  function FedBack(state: u32): (r: u32)
  {
    FeedbackIs(state);
    Xor32(Feedback(state), state)
  }

  lemma {:induction false} FromBitsAt(b: seq<bit>, k: nat)
    ensures Bit(FromBits(b), k) == if k < |b| then b[k] else 0
    decreases k
  {
    if b == [] {
      assert Bit(0, k) == 0;
    } else {
      var x, rest := FromBits(b), FromBits(b[1..]);
      DivModUnique(x, 2, rest, b[0]);
      hide FromBits;
      if k == 0 {
        BitZero(x);
      } else {
        Pow2Unfolds(k);
        hide Pow2;
        FromBitsAt(b[1..], k - 1);
        HalfTwice(x, Pow2(k - 1));
      }
    }
  }

  lemma {:induction false} FeedbackAt(state: u32, k: nat)
    requires k < 16
    ensures FeedbackBits(state)[k] == (Bit(0xA65C, (state / 0x1_0000 + k) % 16) + Bit(state, 7)) % 2
  {
    hide ToBits; hide Bit;
    var s := state / 0x1_0000 % 16;
    assert Rotated(Pattern(), s)[k] == Pattern()[(s + k) % 16];
    BitAt(PATTERN, 16, (s + k) % 16);
    ModShift(state / 0x1_0000, k);
  }

  lemma {:induction false} ModShift(q: nat, k: nat)
    ensures (q % 16 + k) % 16 == (q + k) % 16
  {
  }

  /** One iteration bit by bit: bit `k` below 16 is flipped if bit 7 of the state differs from bit
      `k + state / 2^16` (modulo 16) of the pattern; the other bits stay. */
  lemma {:induction false} FedBackBits(state: u32, k: nat)
    requires k < 32
    ensures Bit(FedBack(state), k) ==
      if k < 16 then (Bit(state, k) + Bit(0xA65C, (state / 0x1_0000 + k) % 16) + Bit(state, 7)) % 2 else Bit(state, k)
  {
    hide Bit; hide Feedback; hide FeedbackBits; hide FromBits; hide Xor32;
    FeedbackIs(state);
    Xor32Bits(Feedback(state), state, 0);
    assert Bit(FedBack(state), k) == (Bit(Feedback(state), k) + Bit(state, k)) % 2;
    FromBitsAt(FeedbackBits(state), k);
    if k < 16 {
      FeedbackAt(state, k);
    }
  }

  /** One iteration of the scalar oracle. */
  method ScalarStep(state: u32) returns (state': u32)
    ensures state' == FedBack(state)
  {
    hide Rotate; hide And; hide Xor; hide Pow2;
    var bits := Rotate(0xA65C, state / 0x1_0000 % 16);
    if And(state, 0x80) != 0 {
      bits := Xor(bits, 0xFFFF);
    }
    FeedbackIs(state);
    XorSwaps(state, bits);
    state' := Xor32(state, bits);
  }

  method SwizzleEndpoint(count: nat) returns (state: u32)
    ensures state == Swizzled(count)
  {
    hide Next; hide FedBack;
    state := 123456789;
    for i := 0 to count
      invariant state == Swizzled(i)
    {
      state := ScalarStep(Next(state));
    }
  }

  lemma {:induction false} XorSwaps(x: nat, y: nat)
    ensures Xor(x, y) == Xor(y, x)
    decreases x + y
  {
    if x > 0 || y > 0 {
      XorSwaps(x / 2, y / 2);
    }
  }

  type Engine = (seq<lane>, seq<lane>) -> seq<lane>

  /** An engine whose swizzle is one the relaxed instruction allows. */
  ghost predicate Allowed(e: Engine)
  {
    forall v, w :: Vector(v) && Vector(w) ==> RelaxedSelect(v, w, e(v, w))
  }

  /** The strict instruction is allowed. */
  function Strict(v: seq<lane>, w: seq<lane>): (r: seq<lane>)
  {
    if Vector(v) && Vector(w) then Select(v, w) else v
  }

  lemma {:induction false} StrictIsAllowed()
    ensures Allowed(Strict)
  {
  }

  /** One iteration of the guest on any allowed engine. */
  method LaneStep(e: Engine, state: u32) returns (state': u32)
    requires Allowed(e)
    ensures state' == FedBack(state)
  {
    hide Feedback; hide Table; hide Indices; hide Select; hide Bitmask; hide RelaxedSelect; hide Xor; hide Pow2;
    var v := e(Table(state), Indices(state));
    EnginesAgree(state, v);
    LanesAreFeedback(state);
    FeedbackIs(state);
    state' := Xor32(Bitmask(v), state);
  }

  lemma {:induction false} LaneFacts(e: Engine, state: u32)
    requires Allowed(e)
    ensures var v := e(Table(state), Indices(state)); Vector(v) && Bitmask(v) == Feedback(state) < MODULUS
  {
    hide Feedback; hide Table; hide Indices; hide Select; hide Bitmask; hide RelaxedSelect; hide Xor; hide Pow2;
    EnginesAgree(state, e(Table(state), Indices(state)));
    LanesAreFeedback(state);
    FeedbackIs(state);
  }

  /** The state after `n` iterations on an engine, from its own lanes. */
  ghost function LaneState(e: Engine, n: nat): (state: u32)
    requires Allowed(e)
  {
    if n == 0 then SEED
    else
      var state := Next(LaneState(e, n - 1));
      LaneFacts(e, state);
      Xor32(Bitmask(e(Table(state), Indices(state))), state)
  }

  /** Every allowed engine ends in the state of the strict one, which is the oracle's. */
  lemma {:induction false} RelaxedIsStrict(e: Engine, n: nat)
    requires Allowed(e)
    ensures Allowed(Strict) && LaneState(e, n) == LaneState(Strict, n) == Swizzled(n)
  {
    hide Feedback; hide Table; hide Indices; hide Bitmask; hide Allowed; hide Xor32; hide Next;
    StrictIsAllowed();
    if n > 0 {
      RelaxedIsStrict(e, n - 1);
      var state := Next(Swizzled(n - 1));
      LaneFacts(e, state);
      LaneFacts(Strict, state);
    }
  }

  lemma {:induction false} Countdown(n: nat, done: nat, remaining: int)
    requires done < n <= MODULUS && remaining == Wrap(n - done)
    ensures Wrap(remaining - 1) == n - done - 1
  {
  }

  /** The guest's loop: the counter is decremented and compared after the body, so a count
      of zero wraps around. On any allowed engine it ends in the oracle's state, and its
      check passes exactly for that state. */
  method Guest(e: Engine, count: u32, expected: u32) returns (r: Result<u32>)
    requires Allowed(e)
    ensures var n := if count == 0 then MODULUS else count;
            r == if expected == Swizzled(n) then Success(expected) else Failure("unreachable")
  {
    hide Next; hide FedBack; hide Allowed; hide Wrap;
    ghost var n: nat := if count == 0 then MODULUS else count;
    var state, remaining: int := SEED, count;
    ghost var done := 0;
    var again := true;
    CountStart(count);
    while again
      invariant 0 <= done <= n && state == Swizzled(done)
      invariant if again then done < n && remaining == Wrap(n - done) else done == n
      decreases n - done, again
    {
      state := LaneStep(e, Next(state));
      Countdown(n, done, remaining);
      remaining := Wrap(remaining - 1);
      done := done + 1;
      again := remaining != 0;
      if again {
        Below(n - done);
      }
    }
    r := if state != expected then Failure("unreachable") else Success(state);
  }

  lemma {:induction false} CountStart(count: u32)
    ensures Wrap(if count == 0 then MODULUS else count) == count
  {
  }

  lemma {:induction false} Below(x: int)
    ensures 0 <= x < MODULUS ==> Wrap(x) == x
  {
  }
}
