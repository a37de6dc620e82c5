/** The compact collection ring: the accounting oracle jumps over all states but the
    last 1024 of each interval, the naive ring stores every state. */
module CompactRing {
  import opened Wrappers
  import opened Bits
  import opened Lcg
  import opened Families
  import opened Oracle

  /** Sum of the `k` states that follow step `m`. */
  function StateSum(m: nat, k: nat): (r: nat)
  {
    if k == 0 then 0 else StateSum(m, k - 1) + Iterate(SEED, m + k)
  }

  /** The sum of the last 1024 of `n` states. */
  function RingSum(n: nat): (r: nat)
  {
    if n < ROOTS then 0 else StateSum(n - ROOTS, ROOTS)
  }

  /** Ring sums at the ends of the first `c` intervals, accumulated. */
  function Readback(interval: nat, c: nat): (r: nat)
  {
    if c == 0 then 0 else Readback(interval, c - 1) + RingSum(interval * c)
  }

  /** Last state, last ring sum and accumulated sums after `c` intervals. */
  datatype Tally = Tally(state: u32, last: nat, checksum: nat)

  function Tallied(interval: nat, c: nat): (t: Tally)
  {
    Tally(Iterate(SEED, interval * c), if c == 0 then 0 else RingSum(interval * c), Readback(interval, c))
  }

  // ----- The oracle -----

  /** One interval of the oracle: a jump, then 1024 states summed. */
  method Interval(state: u32, interval: nat, ghost m: nat) returns (state': u32, last: nat)
    requires interval >= ROOTS && state == Iterate(SEED, m)
    ensures state' == Iterate(SEED, m + interval) && last == RingSum(m + interval)
  {
    hide Next;
    IterateAdd(SEED, m, interval - ROOTS);
    state' := Jump(state, interval - ROOTS);
    last := 0;
    ghost var start := m + interval - ROOTS;
    for k := 0 to ROOTS
      invariant state' == Iterate(SEED, start + k) && last == StateSum(start, k)
    {
      state' := Next(state');
      last := last + state';
    }
  }

  predicate Supported(allocations: int, interval: int, duplicates: int)
  {
    && 16384 <= allocations <= 512_000_000 && ROOTS <= interval <= 1_000_000
    && allocations % interval == 0 && 0 <= duplicates <= ROOTS
  }

  datatype Account = Account(
    allocations: nat,
    rootCount: nat,
    duplicateRoots: nat,
    collectEvery: nat,
    collections: nat,
    reclaimed: nat,
    finalReclaimed: nat,
    remaining: nat,
    rootReads: nat,
    seed: u32,
    tally: Tally)

  /** Of `allocations` objects, the collections after each of `c` intervals reclaim all but the
      ring, which the last collection takes. */
  ghost predicate Accounts(r: Account, allocations: nat, interval: nat, duplicates: nat, c: nat)
  {
    && r.allocations == r.reclaimed == allocations == interval * c && r.remaining == r.allocations - r.reclaimed
    && r.rootCount == r.finalReclaimed == ROOTS && r.duplicateRoots == duplicates && r.collectEvery == interval
    && r.collections == c + 1 && r.rootReads == c * r.rootCount && r.seed == 123456789
      && r.tally == Tallied(interval, c)
  }

  /** What the checker expects of a run. */
  method AccountFor(allocations: int, interval: int, duplicates: int) returns (r: Result<Account>)
    ensures Supported(allocations, interval, duplicates) ==>
      r.Success? && Accounts(r.value, allocations, interval, duplicates, allocations / interval)
    ensures !Supported(allocations, interval, duplicates) ==> r.Failure?
  {
    hide Iterate; hide RingSum;
    if !(16384 <= allocations <= 512_000_000 && 1024 <= interval <= 1_000_000 && allocations % interval == 0
         && 0 <= duplicates <= 1024) {
      return Failure("Unsupported bounded component parameters");
    }
    var state, checksum, last := SEED, 0, 0;
    var c := allocations / interval;
    TallyStart(interval);
    for k := 0 to c
      invariant Tally(state, last, checksum) == Tallied(interval, k)
    {
      state, last := Interval(state, interval, interval * k);
      TallyStep(interval, k);
      checksum := checksum + last;
    }
    r := Success(Account(allocations, ROOTS, duplicates, interval, c + 1, allocations, ROOTS, 0, c * ROOTS, SEED,
                         Tally(state, last, checksum)));
  }

  lemma {:induction false} TallyStart(interval: nat)
    ensures Tallied(interval, 0) == Tally(SEED, 0, 0)
  {
    assert interval * 0 == 0;
  }

  lemma {:induction false} TallyStep(interval: nat, k: nat)
    ensures interval * k + interval == interval * (k + 1)
    ensures var n := interval * (k + 1);
            Tallied(interval, k + 1) == Tally(Iterate(SEED, n), RingSum(n), Readback(interval, k) + RingSum(n))
  {
    hide Iterate; hide RingSum;
    assert interval * (k + 1) == interval * k + interval;
  }

  // ----- The naive ring -----

  ghost predicate Stored(roots: seq<u32>, n: nat)
  {
    |roots| == ROOTS && forall s :: 0 <= s < ROOTS && s < n ==> roots[s] == Iterate(SEED, Owner(n, s) + 1)
  }

  lemma {:induction false} StoredStep(roots: seq<u32>, n: nat)
    requires Stored(roots, n)
    ensures Stored(roots[n % ROOTS := Iterate(SEED, n + 1)], n + 1)
  {
    hide Iterate;
    forall s | 0 <= s < ROOTS && s < n + 1
      ensures Owner(n + 1, s) == if s == n % ROOTS then n else Owner(n, s)
    {
      OwnerStep(n, s);
    }
  }

  lemma {:induction false} StateSumSplit(m: nat, j: nat, k: nat)
    ensures StateSum(m, j + k) == StateSum(m, j) + StateSum(m + j, k)
    decreases k
  {
    hide Iterate;
    if k > 0 {
      StateSumSplit(m, j, k - 1);
    }
  }

  /** The sum of the first `k` slots: below `n mod 1024` they hold the newest states,
      from there on the ones before. */
  function SlotSum(n: nat, k: nat): (r: nat)
    requires n >= ROOTS
  {
    var p := n % ROOTS;
    if k <= p then StateSum(n - p, k) else StateSum(n - p, p) + StateSum(n - ROOTS, k - p)
  }

  lemma {:induction false} SlotSumNext(n: nat, k: nat)
    requires n >= ROOTS && k < ROOTS
    ensures SlotSum(n, 0) == 0 && SlotSum(n, k + 1) == SlotSum(n, k) + Iterate(SEED, Owner(n, k) + 1)
  {
    hide Iterate; hide Owner;
    OwnerAt(n, k);
  }

  lemma {:induction false} OwnerAt(n: nat, k: nat)
    requires n >= ROOTS && k < ROOTS
    ensures var p := n % ROOTS; Owner(n, k) == if k < p then n - p + k else n - ROOTS + k - p
  {
  }

  lemma {:induction false} PrefixSum(roots: seq<u32>, n: nat, k: nat)
    requires n >= ROOTS && Stored(roots, n) && k <= ROOTS
    ensures Sum(roots[..k]) == SlotSum(n, k)
    decreases k
  {
    hide Iterate; hide SlotSum; hide Owner;
    if k > 0 {
      PrefixSum(roots, n, k - 1);
      assert roots[..k][..k - 1] == roots[..k - 1];
      SlotSumNext(n, k - 1);
    } else {
      SlotSumNext(n, 0);
    }
  }

  /** Summing the slots is summing the last 1024 states. */
  lemma {:induction false} StoredSum(roots: seq<u32>, n: nat)
    requires n >= ROOTS && Stored(roots, n)
    ensures Sum(roots) == RingSum(n)
  {
    hide Iterate; hide StateSum; hide Sum;
    var p := n % ROOTS;
    PrefixSum(roots, n, ROOTS);
    assert roots[..ROOTS] == roots;
    StateSumSplit(n - ROOTS, ROOTS - p, p);
    if p == 0 {
      EmptySum(n);
    }
  }

  lemma {:induction false} EmptySum(m: nat)
    ensures StateSum(m, 0) == 0
  {
  }

  /** The ring that stores every state and sums its slots after each interval gives the
      tally of the jumping oracle. */
  method NaiveRing(n: nat, interval: nat) returns (t: Tally)
    requires interval >= ROOTS
    ensures t == Tallied(interval, n / interval).(state := Iterate(SEED, n))
    ensures n % interval == 0 ==> t == Tallied(interval, n / interval)
  {
    hide Next; hide Stored; hide RingSum; hide Sum; hide Readback;
    var roots := new u32[ROOTS](_ => 0);
    var state, checksum, last := SEED, 0, 0;
    ghost var c, pos := 0, 0;
    StoredStart(roots[..]);
    TallyStart(interval);
    for i := 0 to n
      invariant i == interval * c + pos && pos < interval && state == Iterate(SEED, i) && Stored(roots[..], i)
      invariant last == Tallied(interval, c).last && checksum == Readback(interval, c)
    {
      state := Next(state);
      StoredStep(roots[..], i);
      roots[i % ROOTS] := state;
      Position(i, interval, c, pos);
      if (i + 1) % interval == 0 {
        TallyStep(interval, c);
        StoredSum(roots[..], i + 1);
        last := Sum(roots[..]);
        checksum := checksum + last;
        c, pos := c + 1, 0;
      } else {
        pos := pos + 1;
      }
    }
    DivModUnique(n, interval, c, pos);
    t := Tally(state, last, checksum);
  }

  lemma {:induction false} StoredStart(roots: seq<u32>)
    requires |roots| == ROOTS
    ensures Stored(roots, 0)
  {
  }

  lemma {:induction false} Position(i: nat, interval: nat, c: nat, pos: nat)
    requires i == interval * c + pos && pos < interval
    ensures (i + 1) % interval == 0 <==> pos + 1 == interval
    ensures pos + 1 == interval ==> i + 1 == interval * c + interval == interval * (c + 1)
  {
    if pos + 1 == interval {
      assert i + 1 == interval * (c + 1) + 0;
      DivModUnique(i + 1, interval, c + 1, 0);
    } else {
      DivModUnique(i + 1, interval, c, pos + 1);
    }
  }
}
