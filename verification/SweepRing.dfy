/** The explicit sweep ring: chunks of allocation, a collection after each, field
    traffic, and the final drop of all roots. */
module SweepRing {
  import opened Wrappers
  import opened Bits
  import opened Lcg
  import opened Families
  import opened Oracle
  import opened ObjectStore
  import opened RingHeap

  const CHECKPOINT: nat := 1_000_000
  const FIELD_ITERATIONS: nat := 1_000_000

  /** Slot `s` names the newest scalar of its residue and tracks its payload. */
  ghost predicate RootsHold(roots: seq<Reference>, wanted: seq<u32>, made: nat)
  {
    |roots| == |wanted| == ROOTS && forall s :: 0 <= s < ROOTS ==>
      if s < made then roots[s] == Ref(Owner(made, s)) && wanted[s] == Iterate(SEED, Owner(made, s) + 1)
      else roots[s] == Null
  }

  function Initialized(made: nat): (n: nat) { if made < ROOTS then made else ROOTS }

  lemma {:induction false} RootsStep(roots: seq<Reference>, wanted: seq<u32>, n: nat)
    requires RootsHold(roots, wanted, n)
    ensures var s := n % ROOTS; RootsHold(roots[s := Ref(n)], wanted[s := Iterate(SEED, n + 1)], n + 1)
  {
    hide Iterate;
    forall s | 0 <= s < ROOTS && s < n + 1
      ensures Owner(n + 1, s) == if s == n % ROOTS then n else Owner(n, s)
    {
      OwnerStep(n, s);
    }
  }

  /** The initialised roots cover the newest objects. */
  lemma {:induction false} RootsCover(roots: seq<Reference>, wanted: seq<u32>, n: nat)
    requires RootsHold(roots, wanted, n)
    ensures Cover(roots[..Initialized(n)], n - Initialized(n), n)
  {
    hide Range;
    hide Iterate;
    var live := roots[..Initialized(n)];
    forall t | n - Initialized(n) <= t < n ensures Ref(t) in live {
      OwnerUnique(n, t);
      assert live[t % ROOTS] == Ref(t);
    }
  }

  lemma {:induction false} OwnerUnique(n: nat, t: nat)
    requires t < n <= t + ROOTS
    ensures t % ROOTS < Initialized(n) && Owner(n, t % ROOTS) == t
  {
  }

  /** The first token overwritten while the allocation count goes from `m` to `n`. */
  function Overwritten(m: nat, n: nat): (r: Reference)
  {
    var first := if m < ROOTS then ROOTS else m;
    if first < n then Ref(first - ROOTS) else Null
  }

  function Larger(a: nat, b: nat): (r: nat) { if a > b then a else b }

  /** A new scalar takes over its slot. */
  method Replace(store: Store, roots: array<Reference>, wanted: array<u32>, slot: nat, state: u32, ghost n: nat,
                 ghost lo: nat)
    returns (ok: bool)
    requires roots.Length == wanted.Length == ROOTS && slot == n % ROOTS && state == Iterate(SEED, n + 1)
    requires store.Valid() && store.issued == n && lo <= n && Contents(store.objects, lo, n)
    requires RootsHold(roots[..], wanted[..], n)
    modifies store, roots, wanted
    ensures ok && store.Valid() && store.issued == n + 1 && Contents(store.objects, lo, n + 1)
    ensures RootsHold(roots[..], wanted[..], n + 1) && store.peak == Larger(n + 1 - lo, old(store.peak))
  {
    hide Range; hide RootsHold; hide Iterate; hide Contents;
    RootsStep(roots[..], wanted[..], n);
    ContentsNew(store.objects, lo, n);
    ContentsSize(store.objects, lo, n);
    ContentsSize(store.objects[n := Scalar(Iterate(SEED, n + 1))], lo, n + 1);
    var scalar := store.New(Scalar(state));
    if scalar.Failure? {
      return false;
    }
    roots[slot] := scalar.value;
    wanted[slot] := state;
    ok := true;
  }

  method AllocateChunk(store: Store, roots: array<Reference>, wanted: array<u32>, state: u32, made: nat, count: nat,
                       ghost lo: nat)
    returns (r: Result<(u32, Reference)>)
    requires roots.Length == wanted.Length == ROOTS
    requires store.Valid() && store.issued == made && lo <= made && Contents(store.objects, lo, made)
    requires RootsHold(roots[..], wanted[..], made) && state == Iterate(SEED, made)
    modifies store, roots, wanted
    ensures store.Valid() && store.issued == made + count && Contents(store.objects, lo, made + count)
    ensures RootsHold(roots[..], wanted[..], made + count)
    ensures r == Success((Iterate(SEED, made + count), Overwritten(made, made + count)))
    ensures store.peak == Larger(made + count - lo, old(store.peak))
  {
    hide Range;
    hide RootsHold; hide Next; hide Contents;
    var state', sample := state, Null;
    ContentsSize(store.objects, lo, made);
    for index := 0 to count
      invariant store.Valid() && store.issued == made + index && Contents(store.objects, lo, made + index)
      invariant RootsHold(roots[..], wanted[..], made + index) && state' == Iterate(SEED, made + index)
      invariant sample == Overwritten(made, made + index)
      invariant store.peak == Larger(made + index - lo, old(store.peak))
    {
      state' := Next(state');
      var slot := (made + index) % ROOTS;
      RootNull(roots[..], wanted[..], made + index);
      assert roots[slot] == roots[..][slot];
      if sample.Null? && roots[slot].Ref? {
        sample := roots[slot];
      }
      var stored := Replace(store, roots, wanted, slot, state', made + index, lo);
      if !stored {
        return Failure("one-field allocation succeeds");
      }
    }
    r := Success((state', sample));
  }

  lemma {:induction false} ContentsSize(objects: map<nat, Object>, lo: nat, hi: nat)
    requires lo <= hi && Contents(objects, lo, hi)
    ensures |objects| == hi - lo
  {
    hide Iterate; hide Range;
    RangeSize(lo, hi);
    assert |objects| == |objects.Keys|;
  }

  lemma {:induction false} RootNull(roots: seq<Reference>, wanted: seq<u32>, n: nat)
    requires RootsHold(roots, wanted, n)
    ensures |roots| == |wanted| == ROOTS
    ensures roots[n % ROOTS] == if n < ROOTS then Null else Ref(n - ROOTS)
  {
    if n >= ROOTS {
      DisplacedOwner(n);
    }
  }

  /** Every root resolves and its payload is the tracked one. */
  ghost predicate Readable(objects: map<nat, Object>, roots: seq<Reference>, wanted: seq<u32>)
  {
    |roots| == |wanted| && forall i :: 0 <= i < |roots| ==>
      roots[i].Ref? && roots[i].token in objects && objects[roots[i].token].Scalar?
      && objects[roots[i].token].bits == wanted[i]
  }

  /** Checks every root and sums the payloads without reducing. */
  method VerifyRoots(store: Store, roots: array<Reference>, wanted: array<u32>, initialized: nat)
    returns (r: Result<nat>)
    requires initialized <= roots.Length == wanted.Length
    ensures Readable(store.objects, roots[..initialized], wanted[..initialized]) <==> r.Success?
    ensures r.Success? ==> r.value == Sum(wanted[..initialized])
  {
    var checksum := 0;
    for index := 0 to initialized
      invariant Readable(store.objects, roots[..index], wanted[..index]) && checksum == Sum(wanted[..index])
    {
      assert roots[..initialized][index] == roots[index] && wanted[..initialized][index] == wanted[index];
      var observed := store.Get(roots[index]);
      if observed.Failure? || !observed.value.Scalar? {
        return Failure("every explicit root survives");
      }
      if observed.value.bits != wanted[index] {
        return Failure("every explicit root retains its independently tracked payload");
      }
      assert wanted[..index + 1][..index] == wanted[..index];
      checksum := checksum + observed.value.bits;
    }
    r := Success(checksum);
  }

  lemma {:induction false} HeldIsReadable(objects: map<nat, Object>, roots: seq<Reference>, wanted: seq<u32>, n: nat)
    requires RootsHold(roots, wanted, n) && Contents(objects, n - Initialized(n), n)
    ensures var k := Initialized(n); Readable(objects, roots[..k], wanted[..k])
  {
    hide Range;
    hide Iterate;
  }

  /** One chunk: allocate, collect, and every check the program makes. */
  method Chunk(store: Store, roots: array<Reference>, wanted: array<u32>, state: u32, made: nat, reclaimedTotal: nat,
               count: nat)
    returns (r: Result<(u32, nat)>)
    requires roots.Length == wanted.Length == ROOTS
    requires store.Valid() && store.issued == made && Contents(store.objects, reclaimedTotal, made)
    requires reclaimedTotal == made - Initialized(made)
    requires RootsHold(roots[..], wanted[..], made) && state == Iterate(SEED, made)
    modifies store, roots, wanted
    ensures var n := made + count; var kept := n - Initialized(n);
      && store.Valid() && store.issued == n && Contents(store.objects, kept, n)
      && RootsHold(roots[..], wanted[..], n)
      && r == Success((Iterate(SEED, n), kept))
    ensures store.peak == Larger(Initialized(made) + count, old(store.peak))
  {
    hide Range;
    hide RootsHold; hide Iterate; hide Cover; hide Readable;
    var chunk := AllocateChunk(store, roots, wanted, state, made, count, reclaimedTotal);
    if chunk.Failure? {
      return Failure("allocation");
    }
    var n := made + count;
    var initialized := Initialized(n);
    RootsCover(roots[..], wanted[..], n);
    assert roots[..][..initialized] == roots[..initialized] && wanted[..][..initialized] == wanted[..initialized];
    var reclaimed := CollectTo(store, roots[..initialized], reclaimedTotal, n - initialized, n);
    if reclaimed.Failure? || reclaimed.value != n - reclaimedTotal - initialized {
      return Failure("ring exact reclaim count independent of collector internals");
    }
    HeldIsReadable(store.objects, roots[..], wanted[..], n);
    var checksum := VerifyRoots(store, roots, wanted, initialized);
    if checksum.Failure? {
      return Failure("every explicit root survives");
    }
    var sample := chunk.value.1;
    if sample.Ref? {
      var found := store.Get(sample);
      if found.Success? {
        return Failure("ring overwritten token retired by actual collection");
      }
    }
    r := Success((chunk.value.0, reclaimedTotal + reclaimed.value));
  }

  // ----- Field traffic on the retained ring -----

  /** The slot a state selects: ten bits from bit 20. */
  function Selected(state: u32): (s: nat)
    ensures s < ROOTS
  {
    state / 0x10_0000 % ROOTS
  }

  /** Payloads after `n` allocations and `f` field writes. */
  function Payloads(n: nat, f: nat): (p: seq<u32>)
    requires n >= ROOTS
    ensures |p| == ROOTS
  {
    if f == 0 then seq(ROOTS, s requires 0 <= s < ROOTS => Iterate(SEED, Owner(n, s) + 1))
    else var state := Iterate(SEED, n + f); Payloads(n, f - 1)[Selected(state) := state]
  }

  function FieldSum(n: nat, f: nat): (r: nat)
  {
    if f == 0 then 0 else FieldSum(n, f - 1) + Iterate(SEED, n + f)
  }

  /** What slot `s` holds after `f` field writes: the state of the last step `t` of the traffic whose
      bits from bit 20 select it, or if there is none (`t == n`) the state of its newest object `k`. */
  lemma {:induction false} PayloadIs(n: nat, f: nat, s: nat, t: nat, k: nat)
    requires s < 1024 <= n <= t <= n + f && n - 1024 <= k < n && k % 1024 == s
    requires t > n ==> Iterate(SEED, t) / 0x10_0000 % 1024 == s
    requires forall u :: t < u <= n + f ==> Iterate(SEED, u) / 0x10_0000 % 1024 != s
    ensures Payloads(n, f)[s] == if t > n then Iterate(SEED, t) else Iterate(SEED, k + 1)
    decreases f
  {
    hide Iterate;
    if f == 0 {
      OwnerUnique(n, k);
    } else if t < n + f {
      assert Iterate(SEED, n + f) / 0x10_0000 % 1024 != s;
      PayloadIs(n, f - 1, s, t, k);
    }
  }

  /** The ring after the field writes: same tokens, tracked payloads. */
  ghost predicate Settled(objects: map<nat, Object>, roots: seq<Reference>, wanted: seq<u32>, n: nat)
    requires n >= ROOTS
  {
    && |roots| == |wanted| == ROOTS && objects.Keys == Range(n - ROOTS, n)
    && (forall s :: 0 <= s < ROOTS ==> roots[s] == Ref(Owner(n, s)))
    && forall s :: 0 <= s < ROOTS ==> objects[Owner(n, s)] == Scalar(wanted[s])
  }

  lemma {:induction false} SettledStart(objects: map<nat, Object>, roots: seq<Reference>, wanted: seq<u32>, n: nat)
    requires n >= ROOTS && RootsHold(roots, wanted, n) && Contents(objects, n - ROOTS, n)
    ensures Settled(objects, roots, wanted, n) && wanted == Payloads(n, 0)
  {
    hide Range;
    hide Iterate;
  }

  lemma {:induction false} SettledStep(objects: map<nat, Object>, roots: seq<Reference>, wanted: seq<u32>, n: nat,
                                       s: nat, v: u32)
    requires n >= ROOTS && s < ROOTS && Settled(objects, roots, wanted, n)
    ensures roots[s] == Ref(Owner(n, s)) && Owner(n, s) in objects
    ensures Settled(objects[Owner(n, s) := Scalar(v)], roots, wanted[s := v], n)
  {
    hide Range;
    assert forall i :: 0 <= i < ROOTS ==> Owner(n, i) % ROOTS == i;
  }

  /** Ten bits of the state from bit 20 on choose the slot that is written and read back. */
  method WriteField(store: Store, roots: array<Reference>, wanted: array<u32>, state: u32, ghost n: nat)
    returns (r: Result<u32>)
    requires n >= ROOTS && roots.Length == wanted.Length == ROOTS && store.Valid()
    requires Settled(store.objects, roots[..], wanted[..], n)
    modifies store, wanted
    ensures store.Valid() && Settled(store.objects, roots[..], wanted[..], n)
    ensures wanted[..] == old(wanted[..])[Selected(state) := state] && r == Success(state)
  {
    hide Range; hide Settled;
    var slot := state / 0x10_0000 % 1024;
    SettledStep(store.objects, roots[..], wanted[..], n, slot, state);
    assert roots[slot] == roots[..][slot];
    var stored := store.Set(roots[slot], Scalar(state));
    if !stored {
      return Failure("dynamic retained field store");
    }
    var observed := store.Get(roots[slot]);
    if observed != Success(Scalar(state)) {
      return Failure("dynamic retained field read observes the last write");
    }
    wanted[slot] := state;
    r := Success(observed.value.bits);
  }

  /** Writes and reads random slots, going on from the generator state the ring ended with. */
  method FieldTraffic(store: Store, roots: array<Reference>, wanted: array<u32>, start: u32, iterations: nat,
                      ghost n: nat)
    returns (r: Result<nat>)
    requires n >= ROOTS && start == Iterate(SEED, n) && roots.Length == wanted.Length == ROOTS && store.Valid()
    requires Settled(store.objects, roots[..], wanted[..], n) && wanted[..] == Payloads(n, 0)
    modifies store, wanted
    ensures store.Valid() && Settled(store.objects, roots[..], wanted[..], n) && wanted[..] == Payloads(n, iterations)
    ensures r == Success(FieldSum(n, iterations))
  {
    hide Range; hide Settled; hide Next; hide Selected;
    var state, checksum := start, 0;
    for index := 0 to iterations
      invariant store.Valid() && Settled(store.objects, roots[..], wanted[..], n)
      invariant state == Iterate(SEED, n + index) && checksum == FieldSum(n, index)
      invariant wanted[..] == Payloads(n, index)
    {
      state := Next(state);
      var written := WriteField(store, roots, wanted, state, n);
      if written.Failure? {
        return Failure("dynamic retained field");
      }
      checksum := checksum + written.value;
    }
    r := Success(checksum);
  }

  lemma {:induction false} SettledIsReadable(objects: map<nat, Object>, roots: seq<Reference>, wanted: seq<u32>, n: nat)
    requires n >= ROOTS && Settled(objects, roots, wanted, n)
    ensures Readable(objects, roots, wanted) && |objects| == ROOTS
    ensures Resolvable(objects, []) && Reachable(objects, []) == {}
  {
    hide Range;
    RangeSize(n - ROOTS, n);
    assert |objects| == |objects.Keys|;
  }

  // ----- The whole program -----

  /** How many objects the next chunk allocates. */
  function ChunkSize(made: nat, allocations: nat, every: nat): (count: nat)
    requires made < allocations && every > 0
    ensures 0 < count <= allocations - made && count <= every
  {
    var remaining, until := allocations - made, CHECKPOINT - made % CHECKPOINT;
    var smaller := if remaining < every then remaining else every;
    if smaller < until then smaller else until
  }

  /** A chunk never crosses a checkpoint, and is smaller than the interval only to end on one or
      to finish. */
  lemma {:induction false} ChunkIs(made: nat, allocations: nat, every: nat)
    requires made < allocations && every > 0
    ensures var count := ChunkSize(made, allocations, every);
            && 0 < count <= every && made + count <= allocations
            && (made + count - 1) / 1_000_000 == made / 1_000_000
            && (count == every || made + count == allocations || (made + count) % 1_000_000 == 0)
  {
  }

  /** Collections still to come before all objects are made. */
  function Chunks(made: nat, allocations: nat, every: nat): (n: nat)
    requires every > 0
    decreases if made < allocations then allocations - made else 0
  {
    if made >= allocations then 0
    else 1 + Chunks(made + ChunkSize(made, allocations, every), allocations, every)
  }

  function CeilDiv(x: nat, y: nat): (n: nat)
    requires y > 0
  {
    (x + y - 1) / y
  }

  lemma {:induction false} CeilStep(x: nat, y: nat)
    requires y > 0
    ensures CeilDiv(x, y) == if x == 0 then 0 else if x <= y then 1 else 1 + CeilDiv(x - y, y)
  {
    if x == 0 {
      DivModUnique(y - 1, y, 0, y - 1);
    } else if x <= y {
      DivModUnique(x + y - 1, y, 1, x - 1);
    } else {
      var q, r := (x - 1) / y, (x - 1) % y;
      DivModUnique(x + y - 1, y, q + 1, r);
    }
  }

  /** Up to `end`, which no checkpoint precedes, the chunks are whole intervals and a rest. */
  lemma {:induction false} BlockChunks(made: nat, end: nat, allocations: nat, every: nat)
    requires every > 0 && made <= end <= allocations && end <= made - made % 1_000_000 + 1_000_000
    requires end == allocations || end % 1_000_000 == 0
    ensures Chunks(made, allocations, every) == CeilDiv(end - made, every) + Chunks(end, allocations, every)
    decreases end - made
  {
    hide CeilDiv; hide Chunks; hide ChunkSize;
    CeilStep(end - made, every);
    if made < end {
      var count := ChunkSize(made, allocations, every);
      ChunksStep(made, allocations, every);
      ChunkIs(made, allocations, every);
      ChunkInBlock(made, end, count, allocations, every);
      if count == every && made + count < end {
        BlockChunks(made + count, end, allocations, every);
      }
    }
  }

  lemma {:induction false} ChunksStep(made: nat, allocations: nat, every: nat)
    requires every > 0 && made < allocations
    ensures Chunks(made, allocations, every)
      == 1 + Chunks(made + ChunkSize(made, allocations, every), allocations, every)
  {
    hide ChunkSize;
  }

  /** A chunk ends at the block's end or is a whole interval before it. */
  lemma {:induction false} ChunkInBlock(made: nat, end: nat, count: nat, allocations: nat, every: nat)
    requires made < end <= allocations && end <= made - made % 1_000_000 + 1_000_000 && 0 < count <= every
    requires end == allocations || end % 1_000_000 == 0
    requires count <= allocations - made && (made + count - 1) / 1_000_000 == made / 1_000_000
    requires count == every || made + count == allocations || (made + count) % 1_000_000 == 0
    ensures made + count <= end && (made + count < end ==> count == every)
    ensures made + count < end ==> (made + count) - (made + count) % 1_000_000 == made - made % 1_000_000
  {
  }

  lemma {:induction false} WholeBlocks(j: nat, allocations: nat, every: nat)
    requires every > 0 && 1_000_000 * j <= allocations
    ensures Chunks(1_000_000 * j, allocations, every)
            == (allocations / 1_000_000 - j) * CeilDiv(1_000_000, every) + CeilDiv(allocations % 1_000_000, every)
    decreases allocations - 1_000_000 * j
  {
    hide CeilDiv; hide Chunks;
    var made, blocks, per := 1_000_000 * j, allocations / 1_000_000, CeilDiv(1_000_000, every);
    if allocations - made < 1_000_000 {
      BlockChunks(made, allocations, allocations, every);
      NoChunks(allocations, every);
      assert blocks == j;
    } else {
      BlockChunks(made, made + 1_000_000, allocations, every);
      WholeBlocks(j + 1, allocations, every);
      assert (blocks - j) * per == per + (blocks - (j + 1)) * per;
    }
  }

  lemma {:induction false} NoChunks(allocations: nat, every: nat)
    requires every > 0
    ensures Chunks(allocations, allocations, every) == 0
  {
  }

  /** Collections before the last: one for every started interval, counted anew after each
      million objects. */
  function Collections(allocations: nat, every: nat): (n: nat)
    requires every > 0
  {
    allocations / 1_000_000 * CeilDiv(1_000_000, every) + CeilDiv(allocations % 1_000_000, every)
  }

  /** If the interval divides a million, that is the number of started intervals. */
  lemma {:induction false} EvenIntervals(allocations: nat, every: nat)
    requires every > 0 && 1_000_000 % every == 0
    ensures Collections(allocations, every) == (allocations + every - 1) / every
  {
    var m, q, rest := 1_000_000 / every, allocations / 1_000_000, allocations % 1_000_000;
    assert 1_000_000 == every * m;
    DivModUnique(1_000_000 + every - 1, every, m, every - 1);
    var d, r := (rest + every - 1) / every, (rest + every - 1) % every;
    assert rest + every - 1 == every * d + r;
    assert allocations + every - 1 == (every * m) * q + (every * d + r);
    assert (every * m) * q == every * (q * m);
    assert allocations + every - 1 == every * (q * m + d) + r;
    DivModUnique(allocations + every - 1, every, q * m + d, r);
  }

  datatype Summary = Summary(allocations: nat, collections: nat, reclaimed: nat, finalReclaimed: nat,
                             fieldChecksum: nat, rootChecksum: nat)

  predicate Legal(allocations: nat, every: nat)
  {
    ROOTS <= allocations <= 10_000_000 && ROOTS <= every <= 1_000_000
  }

  /** For legal parameters no check fails, the drop of the roots reclaims the ring,
      and every scalar is reclaimed exactly once. */
  method Ring(allocations: nat, every: nat) returns (r: Result<Summary>)
    ensures Legal(allocations, every) ==>
      r == Success(Summary(allocations, Collections(allocations, every) + 1, allocations, ROOTS,
                           FieldSum(allocations, FIELD_ITERATIONS), Sum(Payloads(allocations, FIELD_ITERATIONS))))
    ensures !Legal(allocations, every) ==> r.Failure?
  {
    hide Range;
    hide RootsHold; hide Iterate; hide Settled; hide Payloads; hide FieldSum; hide Sum; hide Chunks; hide Contents;
    hide CeilDiv;
    if allocations < 1024 || allocations > 10_000_000 || every < 1024 || every > 1_000_000 {
      return Failure("parameters");
    }
    var store := new Store();
    var roots := new Reference[ROOTS](_ => Null);
    var wanted := new u32[ROOTS](_ => 0);
    var filled := Fill(store, roots, wanted, allocations, every);
    if filled.Failure? {
      return Failure("ring");
    }
    var (state, reclaimedTotal, collections) := filled.value;
    WholeBlocks(0, allocations, every);
    SettledStart(store.objects, roots[..], wanted[..], allocations);
    var finished := Finish(store, roots, wanted, state, allocations);
    if finished.Failure? {
      return Failure("fields");
    }
    var final := finished.value.2;
    if reclaimedTotal + final != allocations {
      return Failure("every issued ring object reclaimed exactly once");
    }
    r := Success(Summary(allocations, collections + 1, reclaimedTotal + final, final, finished.value.0,
                         finished.value.1));
  }

  /** Field traffic, the last readback and the release of every root. */
  method Finish(store: Store, roots: array<Reference>, wanted: array<u32>, state: u32, ghost n: nat)
    returns (r: Result<(nat, nat, nat)>)
    requires n >= ROOTS && state == Iterate(SEED, n) && roots.Length == wanted.Length == ROOTS && store.Valid()
    requires Settled(store.objects, roots[..], wanted[..], n) && wanted[..] == Payloads(n, 0)
    modifies store, wanted
    ensures r == Success((FieldSum(n, FIELD_ITERATIONS), Sum(Payloads(n, FIELD_ITERATIONS)), ROOTS))
  {
    hide Range;
    hide Iterate; hide Settled; hide Payloads; hide FieldSum; hide Readable; hide Sum; hide Reachable;
    var fields := FieldTraffic(store, roots, wanted, state, 1_000_000, n);
    if fields.Failure? {
      return Failure("fields");
    }
    SettledIsReadable(store.objects, roots[..], wanted[..], n);
    assert roots[..ROOTS] == roots[..] && wanted[..ROOTS] == wanted[..];
    var checksum := VerifyRoots(store, roots, wanted, ROOTS);
    if checksum.Failure? {
      return Failure("roots");
    }
    var final := store.Collect([]);
    if final.Failure? || final.value != ROOTS {
      return Failure("last explicit root release reclaims the retained ring");
    }
    r := Success((fields.value, checksum.value, final.value));
  }

  /** The chunk loop: the generator state it ends with, the objects reclaimed and the collections.
      The store never holds more than the ring and one interval. */
  method Fill(store: Store, roots: array<Reference>, wanted: array<u32>, allocations: nat, every: nat)
    returns (r: Result<(u32, nat, nat)>)
    requires Legal(allocations, every) && roots.Length == wanted.Length == ROOTS
    requires store.Valid() && store.issued == 0 && store.objects == map[] && store.peak == 0
    requires forall s :: 0 <= s < ROOTS ==> roots[s] == Null
    modifies store, roots, wanted
    ensures store.Valid() && Contents(store.objects, allocations - ROOTS, allocations)
    ensures RootsHold(roots[..], wanted[..], allocations)
    ensures r == Success((Iterate(SEED, allocations), allocations - ROOTS, Chunks(0, allocations, every)))
    ensures store.peak <= ROOTS + every
  {
    hide Range;
    hide RootsHold; hide ChunkSize;
    var state, made, reclaimedTotal, collections := 123456789, 0, 0, 0;
    FillStart(store.objects, roots[..], wanted[..]);
    while made != allocations
      invariant made <= allocations && reclaimedTotal == made - Initialized(made)
      invariant store.Valid() && store.issued == made && Contents(store.objects, reclaimedTotal, made)
      invariant RootsHold(roots[..], wanted[..], made) && state == Iterate(SEED, made)
      invariant collections + Chunks(made, allocations, every) == Chunks(0, allocations, every)
      invariant store.peak <= ROOTS + every
      decreases allocations - made
    {
      var count := ChunkSize(made, allocations, every);
      var chunk := Chunk(store, roots, wanted, state, made, reclaimedTotal, count);
      if chunk.Failure? {
        return Failure("chunk");
      }
      state, reclaimedTotal := chunk.value.0, chunk.value.1;
      made, collections := made + count, collections + 1;
    }
    r := Success((state, reclaimedTotal, collections));
  }

  lemma {:induction false} FillStart(objects: map<nat, Object>, roots: seq<Reference>, wanted: seq<u32>)
    requires objects == map[] && |roots| == |wanted| == ROOTS && forall s :: 0 <= s < ROOTS ==> roots[s] == Null
    ensures RootsHold(roots, wanted, 0) && Contents(objects, 0, 0) && Iterate(SEED, 0) == SEED
  {
    hide Range;
  }
}
