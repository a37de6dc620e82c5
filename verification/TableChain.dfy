/** The immutable table chain: every step allocates, publishes the object in the
    table slot `remaining & 1023`, loads it back and continues from its field. */
module TableChain {
  import opened Wrappers
  import opened Bits
  import opened Lcg
  import opened Families
  import opened ObjectStore
  import opened RingHeap

  const BATCH: nat := 4096

  // ----- What the slots hold -----

  /** How many steps ago slot `s` was written, counting from the latest of `a` steps. */
  function Age(count: nat, a: nat, s: nat): (j: nat)
    ensures j < ROOTS
  {
    (s - (count - a + 1)) % ROOTS
  }

  ghost predicate TableHolds(table: seq<Reference>, count: nat, a: nat)
  {
    |table| == ROOTS && forall s :: 0 <= s < ROOTS ==>
      table[s] == if Age(count, a, s) < a then Ref(a - 1 - Age(count, a, s)) else Null
  }

  /** Slot `s` finally holds the state after `count - ((s + 1023) mod 1024)` steps. */
  function FinalSlot(count: nat, s: nat): (v: u32)
    requires count >= ROOTS
  {
    Iterate(SEED, count - (s + ROOTS - 1) % ROOTS)
  }

  function FinalSlots(count: nat): (slots: seq<u32>)
    requires count >= ROOTS
    ensures |slots| == ROOTS
  {
    seq(ROOTS, s requires 0 <= s < ROOTS => FinalSlot(count, s))
  }

  lemma {:induction false} TableStep(table: seq<Reference>, count: nat, a: nat)
    requires a < count && TableHolds(table, count, a)
    ensures TableHolds(table[(count - a) % ROOTS := Ref(a)], count, a + 1)
  {
    forall s | 0 <= s < ROOTS
      ensures Age(count, a + 1, s) == if s == (count - a) % ROOTS then 0 else Age(count, a, s) + 1
    {
      AgeStep(count, a, s);
    }
  }

  lemma {:induction false} AgeStep(count: nat, a: nat, s: nat)
    requires s < ROOTS
    ensures Age(count, a + 1, s) == if (s - (count - a)) % ROOTS == 0 then 0 else Age(count, a, s) + 1
    ensures (s - (count - a)) % ROOTS == 0 <==> s == (count - a) % ROOTS
  {
  }

  lemma {:induction false} TableCovers(table: seq<Reference>, count: nat, a: nat)
    requires ROOTS <= a <= count && TableHolds(table, count, a)
    ensures Cover(table, a - ROOTS, a)
  {
    forall t | a - ROOTS <= t < a ensures Ref(t) in table {
      AgeOf(count, a, t);
      assert table[(count - t) % ROOTS] == Ref(t);
    }
  }

  lemma {:induction false} AgeOf(count: nat, a: nat, t: nat)
    requires a - ROOTS <= t < a <= count
    ensures Age(count, a, (count - t) % ROOTS) == a - 1 - t
  {
  }

  lemma {:induction false} SlotContents(table: seq<Reference>, objects: map<nat, Object>, count: nat, lo: nat, s: nat)
    requires count >= ROOTS && lo <= count - ROOTS && s < ROOTS
    requires TableHolds(table, count, count) && Contents(objects, lo, count)
    ensures table[s].Ref? && table[s].token in objects
    ensures objects[table[s].token] == Scalar(FinalSlots(count)[s])
  {
    hide Iterate; hide Range;
    assert Age(count, count, s) == (s + ROOTS - 1) % ROOTS;
  }

  // ----- The fixture -----

  class Context {
    const store: Store
    const table: array<Reference>

    constructor ()
      ensures fresh(store) && fresh(table) && store.Valid() && store.objects == map[] && store.issued == 0
      ensures table.Length == ROOTS && forall s :: 0 <= s < ROOTS ==> table[s] == Null
    {
      store := new Store();
      table := new Reference[ROOTS](_ => Null);
    }

    /** Publishes a live reference in a slot. */
    method Put(index: nat, input: Reference) returns (ok: bool)
      modifies table
      ensures ok == (index < table.Length && (input.Ref? ==> input.token in store.objects))
      ensures table[..] == if ok then old(table[..])[index := input] else old(table[..])
    {
      ok := index < table.Length && (input.Null? || input.token in store.objects);
      if ok {
        table[index] := input;
      }
    }

    /** Loads a slot; the reference must still resolve. */
    method Get(index: nat) returns (r: Result<Reference>)
      ensures r == if index < table.Length && (table[index].Ref? ==> table[index].token in store.objects)
        then Success(table[index]) else Failure("retain")
    {
      if index >= table.Length || (table[index].Ref? && table[index].token !in store.objects) {
        return Failure("retain");
      }
      r := Success(table[index]);
    }

    /** Collects under the table's slots and checks the predicted count. */
    method Collect(expected: nat, ghost lo: nat, ghost mid: nat, ghost hi: nat) returns (r: Result<nat>)
      requires store.Valid() && Contents(store.objects, lo, hi) && lo <= mid <= hi && Cover(table[..], mid, hi)
      modifies store
      ensures store.Valid() && store.issued == old(store.issued) && Contents(store.objects, mid, hi)
      ensures r == if expected == mid - lo then Success(expected) else Failure("reclaimed")
    {
      hide Contents; hide Cover;
      r := CollectTo(store, table[..], lo, mid, hi);
      if r.Failure? || r.value != expected {
        return Failure("reclaimed");
      }
    }
  }

  datatype Measurement = Measurement(state: u32, rootChecksum: u32, timedCollections: nat, timedReclaimed: nat,
                                     qualificationReclaimed: nat)

  /** What a chain of `count` steps has to measure. */
  function Expected(count: nat, timed: bool): (m: Measurement)
    requires count >= ROOTS
  {
    var collections := if timed then count / BATCH else 0;
    var reclaimed := if collections > 0 then collections * BATCH - ROOTS else 0;
    Measurement(Iterate(SEED, count), Wrap(Sum(FinalSlots(count))), collections, reclaimed, count - reclaimed)
  }

  /** Reclaimed by the timed collections among the first `a` steps. */
  function TimedReclaimed(a: nat, timed: bool): (n: nat)
    ensures n <= a && (a >= ROOTS ==> n <= a - ROOTS)
  {
    if timed && a >= BATCH then a / BATCH * BATCH - ROOTS else 0
  }

  /** The running totals of the timed collections: how many, what they reclaimed, and
      the allocation count at the last one. */
  datatype Timed = Timed(collections: nat, reclaimed: nat, last: nat)

  function TimedAfter(a: nat, timed: bool): (t: Timed)
  {
    Timed(if timed then a / BATCH else 0, TimedReclaimed(a, timed), if timed then a / BATCH * BATCH else 0)
  }

  ghost predicate Running(ctx: Context, count: nat, a: nat, timed: bool)
    reads ctx.store, ctx.table
  {
    && ctx.store.Valid() && ctx.store.issued == a && Contents(ctx.store.objects, TimedReclaimed(a, timed), a)
    && TableHolds(ctx.table[..], count, a)
  }

  /** One step without its collection. */
  method Link(ctx: Context, count: nat, a: nat, state: u32, ghost lo: nat) returns (r: Result<(u32, Reference)>)
    requires a < count && lo <= a && ctx.store.Valid() && ctx.store.issued == a && Contents(ctx.store.objects, lo, a)
    requires TableHolds(ctx.table[..], count, a) && state == Iterate(SEED, a)
    modifies ctx.store, ctx.table
    ensures ctx.store.Valid() && ctx.store.issued == a + 1 && Contents(ctx.store.objects, lo, a + 1)
    ensures TableHolds(ctx.table[..], count, a + 1) && r == Success((Iterate(SEED, a + 1), Ref(a)))
  {
    hide TableHolds; hide Contents; hide Next;
    var state' := Next(state);
    ContentsNew(ctx.store.objects, lo, a);
    TableStep(ctx.table[..], count, a);
    TableSize(ctx.table[..], count, a);
    var object' := ctx.store.New(Scalar(state'));
    if object'.Failure? {
      return Failure("struct.new");
    }
    var index := (count - a) % ROOTS;
    var stored := ctx.Put(index, object'.value);
    if !stored {
      return Failure("table.set");
    }
    var loaded := ctx.Get(index);
    if loaded.Failure? {
      return Failure("table.get");
    }
    var live := ctx.store.Get(loaded.value);
    if live.Failure? || live.value.home != Home(0, 0) {
      return Failure("reference type");
    }
    var output := ctx.store.Get(loaded.value);
    if output.Failure? || !output.value.Scalar? {
      return Failure("struct.get");
    }
    r := Success((output.value.bits, object'.value));
  }

  lemma {:induction false} TableSize(table: seq<Reference>, count: nat, a: nat)
    requires TableHolds(table, count, a)
    ensures |table| == ROOTS
  {
  }

  /** One step, and a collection if it completes a batch in timed mode. */
  method Step(ctx: Context, count: nat, timed: bool, a: nat, state: u32, totals: Timed)
    returns (r: Result<(u32, Reference, Timed)>)
    requires a < count && Running(ctx, count, a, timed) && state == Iterate(SEED, a) && totals == TimedAfter(a, timed)
    modifies ctx.store, ctx.table
    ensures Running(ctx, count, a + 1, timed)
    ensures r == Success((Iterate(SEED, a + 1), Ref(a), TimedAfter(a + 1, timed)))
  {
    hide TableHolds; hide Contents; hide Cover; hide Iterate;
    var linked := Link(ctx, count, a, state, totals.reclaimed);
    if linked.Failure? {
      return Failure("chain");
    }
    var made, totals' := a + 1, totals;
    BatchStep(a);
    if timed && made % BATCH == 0 {
      var expected := if totals.last == 0 then made - ROOTS else made - totals.last;
      TableCovers(ctx.table[..], count, made);
      var swept := ctx.Collect(expected, totals.reclaimed, made - ROOTS, made);
      if swept.Failure? {
        return Failure("collection");
      }
      totals' := Timed(totals.collections + 1, totals.reclaimed + swept.value, made);
    }
    r := Success((linked.value.0, linked.value.1, totals'));
  }

  /** The countdown. */
  method Chain(ctx: Context, count: nat, timed: bool) returns (r: Result<(u32, Timed, Reference, Reference)>)
    requires count >= ROOTS && Running(ctx, count, 0, timed)
    modifies ctx.store, ctx.table
    ensures Running(ctx, count, count, timed)
    ensures r == Success((Iterate(SEED, count), TimedAfter(count, timed), Ref(0), Ref(count - 1)))
  {
    hide Running; hide Next;
    var state, remaining := SEED, count;
    var earliest, latest := Null, Null;
    var totals := Timed(0, 0, 0);
    while remaining != 0
      invariant 0 <= remaining <= count && Running(ctx, count, count - remaining, timed)
      invariant state == Iterate(SEED, count - remaining) && totals == TimedAfter(count - remaining, timed)
      invariant remaining < count ==> earliest == Ref(0) && latest == Ref(count - remaining - 1)
    {
      var stepped := Step(ctx, count, timed, count - remaining, state, totals);
      if stepped.Failure? {
        return Failure("chain");
      }
      state, latest, totals := stepped.value.0, stepped.value.1, stepped.value.2;
      if remaining == count {
        earliest := latest;
      }
      remaining := remaining - 1;
    }
    r := Success((state, totals, earliest, latest));
  }

  lemma {:induction false} BatchStep(a: nat)
    ensures (a + 1) % BATCH == 0 ==> (a + 1) / BATCH == a / BATCH + 1 && (a + 1) / BATCH * BATCH == a + 1 >= BATCH
    ensures (a + 1) % BATCH != 0 ==> (a + 1) / BATCH == a / BATCH && (a + 1 >= BATCH <==> a >= BATCH)
    ensures TimedReclaimed(a, true) == if a < BATCH then 0 else a / BATCH * BATCH - ROOTS
  {
  }

  /** Every slot reads back the closed form of its step. */
  method ReadBack(ctx: Context, count: nat, ghost lo: nat) returns (r: Result<u32>)
    requires count >= ROOTS && lo <= count - ROOTS && ctx.store.Valid() && Contents(ctx.store.objects, lo, count)
    requires TableHolds(ctx.table[..], count, count)
    ensures r == Success(Wrap(Sum(FinalSlots(count))))
  {
    hide TableHolds; hide Contents; hide FinalSlots; hide Wrap;
    TableSize(ctx.table[..], count, count);
    var checksum: nat := 0;
    WrapIsIdentity(0);
    for index := 0 to ROOTS
      invariant checksum == Wrap(Sum(FinalSlots(count)[..index]))
    {
      SlotContents(ctx.table[..], ctx.store.objects, count, lo, index);
      var root := ctx.Get(index);
      if root.Failure? {
        return Failure("table.get");
      }
      var output := ctx.store.Get(root.value);
      var expected := Endpoint(count - (index + ROOTS - 1) % ROOTS);
      SlotIs(count, index);
      if output != Success(Scalar(expected)) {
        return Failure("struct.get");
      }
      assert FinalSlots(count)[..index + 1][..index] == FinalSlots(count)[..index];
      WrapAdd(Sum(FinalSlots(count)[..index]), expected);
      checksum := Wrap(checksum + expected);
    }
    assert FinalSlots(count)[..ROOTS] == FinalSlots(count);
    r := Success(checksum);
  }

  lemma {:induction false} SlotIs(count: nat, s: nat)
    requires count >= ROOTS && s < ROOTS
    ensures FinalSlots(count)[s] == Iterate(SEED, count - (s + ROOTS - 1) % ROOTS)
  {
    hide Iterate;
  }

  /** The two qualification collections and the checks around them. */
  method Qualify(ctx: Context, count: nat, pending: nat, earliest: Reference, latest: Reference, ghost lo: nat)
    returns (r: Result<nat>)
    requires count >= ROOTS && lo <= count - ROOTS && pending == count - ROOTS - lo
    requires ctx.store.Valid() && Contents(ctx.store.objects, lo, count) && TableHolds(ctx.table[..], count, count)
    requires earliest == Ref(0) && latest == Ref(count - 1)
    modifies ctx.store, ctx.table
    ensures r == Success(pending + ROOTS) && ctx.store.objects == map[]
  {
    hide TableHolds; hide Range; hide Iterate;
    TableCovers(ctx.table[..], count, count);
    TableSize(ctx.table[..], count, count);
    var first := ctx.Collect(pending, lo, count - ROOTS, count);
    if first.Failure? {
      return Failure("pending");
    }
    var kept := ctx.store.Get(earliest);
    if kept.Success? != (count == ROOTS) {
      return Failure("earliest");
    }
    for s := 0 to ROOTS
      modifies ctx.table
      invariant forall i :: 0 <= i < s ==> ctx.table[i] == Null
    {
      ctx.table[s] := Null;
    }
    assert Cover(ctx.table[..], count, count);
    var second := ctx.Collect(ROOTS, count - ROOTS, count, count);
    if second.Failure? {
      return Failure("drop");
    }
    var gone := ctx.store.Get(latest);
    var unmatched := ctx.store.Get(earliest);
    if gone.Success? || unmatched.Success? {
      return Failure("retired");
    }
    r := Success(first.value + second.value);
  }

  predicate Legal(count: nat) { ROOTS <= count <= 16_000_000 }

  /** No check of the chain fails, and the measurement is the predicted one. */
  method Measure(count: nat, timed: bool) returns (r: Result<Measurement>)
    ensures if Legal(count) then r == Success(Expected(count, timed)) else r.Failure?
  {
    hide TableHolds; hide Contents; hide Iterate; hide FinalSlots; hide Sum;
    if count < 1024 || count > 16_000_000 {
      return Failure("count");
    }
    var ctx := new Context();
    ChainStart(ctx.store.objects, ctx.table[..], count);
    var chained := Chain(ctx, count, timed);
    if chained.Failure? {
      return Failure("chain");
    }
    var (state, totals, earliest, latest) := chained.value;
    var checksum := ReadBack(ctx, count, totals.reclaimed);
    if checksum.Failure? {
      return Failure("roots");
    }
    var pending := if totals.last == 0 then count - ROOTS else count - totals.last;
    var qualified := Qualify(ctx, count, pending, earliest, latest, totals.reclaimed);
    if qualified.Failure? {
      return Failure("qualification");
    }
    if totals.reclaimed + qualified.value != count {
      return Failure("total");
    }
    r := Success(Measurement(state, checksum.value, totals.collections, totals.reclaimed, qualified.value));
  }

  lemma {:induction false} ChainStart(objects: map<nat, Object>, table: seq<Reference>, count: nat)
    requires objects == map[] && |table| == ROOTS && forall s :: 0 <= s < ROOTS ==> table[s] == Null
    ensures TableHolds(table, count, 0) && Contents(objects, 0, 0)
  {
  }

  // ----- The scalar oracles -----

  /** The plan's oracle: every slot by its own endpoint. */
  method Plan(count: nat, timed: bool) returns (r: Result<Measurement>)
    ensures if Legal(count) then r == Success(Expected(count, timed)) else r.Failure?
  {
    hide Iterate; hide FinalSlots; hide Wrap;
    if !(1024 <= count <= 16_000_000) {
      return Failure("Outside the bounded native component contract");
    }
    var roots: seq<u32> := [];
    for slot := 0 to ROOTS
      invariant roots == FinalSlots(count)[..slot]
    {
      var value := Endpoint(count - (slot + ROOTS - 1) % ROOTS);
      SlotIs(count, slot);
      roots := roots + [value];
    }
    assert roots == FinalSlots(count);
    var collections := if timed then count / 4096 else 0;
    var reclaimed := if collections > 0 then collections * 4096 - ROOTS else 0;
    var state := Endpoint(count);
    r := Success(Measurement(state, Wrap(Sum(roots)), collections, reclaimed, count - reclaimed));
  }

  /** The direct loop over the descending index ends in the closed form of every slot. */
  method Control(count: nat) returns (roots: array<u32>, state: u32)
    requires count >= ROOTS
    ensures roots[..] == FinalSlots(count) && state == Iterate(SEED, count)
  {
    hide Next;
    roots := new u32[ROOTS](_ => 0);
    state := 123456789;
    var remaining: nat := count;
    while remaining > 0
      invariant remaining <= count && state == Iterate(SEED, count - remaining)
      invariant forall s :: 0 <= s < ROOTS && Age(count, count - remaining, s) < count - remaining ==>
        roots[s] == Iterate(SEED, count - remaining - Age(count, count - remaining, s))
    {
      ghost var a := count - remaining;
      forall s | 0 <= s < ROOTS ensures Age(count, a + 1, s) == if s == (count - a) % ROOTS then 0
        else Age(count, a, s) + 1 {
        AgeStep(count, a, s);
      }
      state := Next(state);
      roots[remaining % ROOTS] := state;
      remaining := remaining - 1;
    }
    forall s | 0 <= s < ROOTS ensures roots[s] == FinalSlots(count)[s] {
      SlotIs(count, s);
      assert Age(count, count, s) == (s + ROOTS - 1) % ROOTS;
    }
  }

  // ----- The managed ring's oracle -----

  function XorAll(values: seq<u32>): (r: u32)
  {
    if values == [] then 0 else Xor32(XorAll(values[..|values| - 1]), values[|values| - 1])
  }

  /** How many of the values have bit `k` set. */
  function SetBits(values: seq<u32>, k: nat): (n: nat)
  {
    if values == [] then 0 else SetBits(values[..|values| - 1], k) + Bit(values[|values| - 1], k)
  }

  /** Bit `k` of the xor of all values is the parity of the number of values that have it. */
  lemma {:induction false} XorAllBits(values: seq<u32>, k: nat)
    requires k < 32
    ensures Bit(XorAll(values), k) == SetBits(values, k) % 2
  {
    hide Xor32; hide Bit;
    if values == [] {
      ZeroBit(k);
    } else {
      var init, last := values[..|values| - 1], values[|values| - 1];
      XorAllBits(init, k);
      Xor32Bits(XorAll(init), last, 0);
      assert Bit(Xor32(XorAll(init), last), k) == (Bit(XorAll(init), k) + Bit(last, k)) % 2;
    }
  }

  lemma {:induction false} ZeroBit(k: nat)
    ensures Bit(0, k) == 0
  {
  }

  /** The last 1024 steps write every slot once, from the highest index down and slot 0 first. */
  method Replay(count: nat, start: u32) returns (slots: array<u32>, state: u32)
    requires count >= ROOTS && start == Iterate(SEED, count - ROOTS)
    ensures slots[..] == FinalSlots(count) && state == Iterate(SEED, count)
  {
    hide Next; hide FinalSlots;
    state := start;
    slots := new u32[ROOTS](_ => 0);
    var remaining: nat := ROOTS;
    while remaining > 0
      invariant remaining <= ROOTS && state == Iterate(SEED, count - remaining)
      invariant forall s :: 0 <= s < ROOTS && (s == 0 ==> remaining < ROOTS) && (s > 0 ==> s > remaining) ==>
        slots[s] == FinalSlots(count)[s]
    {
      SlotIs(count, remaining % ROOTS);
      ReplayedSlot(remaining);
      state := Next(state);
      slots[remaining % ROOTS] := state;
      remaining := remaining - 1;
    }
  }

  lemma {:induction false} ReplayedSlot(remaining: nat)
    requires 0 < remaining <= ROOTS
    ensures remaining % ROOTS == if remaining == ROOTS then 0 else remaining
    ensures (remaining % ROOTS + ROOTS - 1) % ROOTS == remaining - 1
  {
  }

  method XorSlots(slots: array<u32>) returns (checksum: u32)
    ensures checksum == XorAll(slots[..])
  {
    hide Xor32;
    checksum := 0;
    for s := 0 to slots.Length
      invariant checksum == XorAll(slots[..s])
    {
      assert slots[..s + 1][..s] == slots[..s];
      checksum := Xor32(checksum, slots[s]);
    }
    assert slots[..slots.Length] == slots[..];
  }

  /** Only the last 1024 steps are replayed, after one jump; the slots are those of the whole chain. */
  method ManagedOracle(count: nat) returns (r: Result<(u32, u32)>)
    ensures if ROOTS <= count <= 0x7FFF_FFFF then r == Success((Iterate(SEED, count), XorAll(FinalSlots(count))))
      else r.Failure?
  {
    hide FinalSlots; hide XorAll;
    if !(ROOTS <= count <= 0x7FFF_FFFF) {
      return Failure("all 1024 measured root slots must have been assigned");
    }
    var start := 123456789;
    if count > ROOTS {
      start := Endpoint(count - ROOTS);
    }
    var slots, state := Replay(count, start);
    var end := Endpoint(count);
    if state != end {
      return Failure("independent last-root construction");
    }
    var checksum := XorSlots(slots);
    r := Success((state, checksum));
  }
}
