/** The negative control of the graph model: node A is redirected to itself and never
    restored. The check that B leads back to A still holds at every step, because B was
    never changed and A leads back to itself; what gives the fault away is the root
    checksum, which differs from the specified one for every accepted iteration count. */
module BrokenRestore {
  import opened Wrappers
  import opened Bits
  import opened Lcg
  import opened Period
  import opened Families
  import opened Oracle
  import opened GraphModel

  // ----- Closed forms -----

  /** Generator steps before the main loop. */
  function Before(phase: Phase): (n: nat) { if phase == Mutate then ROOTS else 0 }

  function StateAt(phase: Phase, i: nat): (s: u32) { Iterate(SEED, Before(phase) + i + 1) }

  /** What iteration `i` writes into A. */
  function ValueAt(phase: Phase, i: nat): (v: u32) { Wrap(StateAt(phase, i) + i) }

  /** The state that the set-up leaves in slot `j`. */
  function SetUpState(j: nat): (s: u32) { Iterate(SEED, j + 1) }

  /** What slot `j` retains after `n` broken iterations: A twice once it was touched. */
  function BrokenSlot(phase: Phase, n: nat, j: nat): (r: u32)
    requires j < ROOTS
  {
    if j < n then Wrap(2 * ValueAt(phase, Owner(n, j))) else Retained(Fresh(ReferenceCycle, SetUpState(j)))
  }

  function BrokenRoot(phase: Phase, n: nat, j: nat): (r: u32)
    requires j <= ROOTS
  {
    if j == 0 then 0 else Wrap(BrokenRoot(phase, n, j - 1) + BrokenSlot(phase, n, j - 1))
  }

  /** The displaced slot is read first; then A is observed three times. */
  function BrokenTotal(phase: Phase, n: nat): (r: u32)
    decreases n, 0
  {
    if n == 0 then 0 else Wrap(BrokenCarried(phase, n - 1) + 3 * ValueAt(phase, n - 1))
  }

  /** The total once the allocate phase has read the slot it displaces. */
  function BrokenCarried(phase: Phase, i: nat): (r: u32)
    decreases i, 1
  {
    var total := BrokenTotal(phase, i);
    if phase == Allocate && i >= ROOTS then Wrap(total + Wrap(2 * ValueAt(phase, i - ROOTS))) else total
  }

  // ----- The broken run -----

  /** Slot `j` after `i` iterations: a self-loop if it was touched, else the set-up pair. */
  ghost predicate SlotIs(roots: seq<Node?>, phase: Phase, i: nat, j: nat)
    requires j < ROOTS == |roots|
    reads roots[j], if roots[j] == null then {} else {roots[j].next}
  {
    var a := roots[j];
    if j < i then a != null && a.next == a && a.value == ValueAt(phase, Owner(i, j))
    else if phase == Mutate then
      && a != null && a.value == SetUpState(j) && a.next != null && a.next !in roots
      && a.next.next == a && a.next.value == Partner(SetUpState(j))
    else a == null
  }

  /** Different slots hold different nodes. */
  ghost predicate Apart(roots: seq<Node?>)
  {
    forall j, k :: 0 <= j < k < |roots| && roots[j] != null ==> roots[j] != roots[k]
  }

  method BrokenRetained(a: Node?, ghost v: u32) returns (r: Result<u32>)
    requires a != null ==> a.next != null && a.next.next == a && Wrap(a.value + a.next.value) == v
    ensures r == if a == null then Failure("empty slot") else Success(v)
  {
    if a == null {
      return Failure("empty slot");
    }
    if !LeadsBack(a, a.next) {
      return Failure("broken B.next=A");
    }
    return Success(Wrap(a.value + a.next.value));
  }

  method BrokenTouch(a: Node, value: u32) returns (r: Result<nat>)
    requires a.next != null && a.next.next == a
    modifies a
    ensures a.value == value && a.next == a && r == Success(3 * value)
  {
    var b := a.next;
    a.value := value;
    a.next := a;
    var observed: nat := a.value + a.next.value;
    observed := observed + a.next.value;
    if !LeadsBack(a, b) {
      return Failure("broken B.next=A");
    }
    return Success(observed);
  }

  /** The ring after `i` broken iterations. */
  ghost predicate Ring(roots: array<Node?>, phase: Phase, i: nat)
    reads *
  {
    roots.Length == ROOTS && Apart(roots[..]) && forall j :: 0 <= j < ROOTS ==> SlotIs(roots[..], phase, i, j)
  }

  /** The nodes the slots hold. */
  ghost function Nodes(roots: seq<Node?>): (r: set<Node>) { set a: Node | a in roots }

  /** Iteration `i` has its node: it leads back to itself over one other, and the slots of
      other iterations are as they were. */
  ghost predicate Loaded(roots: array<Node?>, phase: Phase, i: nat)
    reads *
  {
    && roots.Length == ROOTS && Apart(roots[..])
    && var a := roots[i % ROOTS];
    && a != null && a.next != null && a.next.next == a
    && forall j :: 0 <= j < ROOTS && j != i % ROOTS ==> SlotIs(roots[..], phase, i, j)
  }

  /** In the allocate phase the displaced slot is read and a new pair takes its place. */
  method BrokenAcquire(phase: Phase, i: nat, roots: array<Node?>, state: u32, total: u32) returns (r: Result<u32>)
    requires Ring(roots, phase, i) && total == BrokenTotal(phase, i)
    modifies roots
    ensures Loaded(roots, phase, i) && r == Success(BrokenCarried(phase, i))
    ensures fresh(Nodes(roots[..]) - old(Nodes(roots[..])))
  {
    hide ValueAt; hide Wrap; hide SetUpState; hide BrokenTotal; hide Partner; hide Owner;
    var slot := i % ROOTS;
    r := Success(total);
    assert SlotIs(roots[..], phase, i, slot);
    if phase == Allocate {
      if i >= ROOTS {
        DisplacedOwner(i);
        Doubled(ValueAt(phase, i - ROOTS));
        var retained := BrokenRetained(roots[slot], Wrap(2 * ValueAt(phase, i - ROOTS)));
        if retained.Failure? {
          return Failure("assertion failed");
        }
        r := Success(Wrap(total + retained.value));
      }
      var a, b := NewPair(state);
      roots[slot] := a;
      forall j | 0 <= j < ROOTS && j != slot ensures SlotIs(roots[..], phase, i, j) {
        assert old(SlotIs(roots[..], phase, i, j));
      }
    }
  }

  /** The node of the iteration becomes a self-loop. */
  method BrokenUpdate(phase: Phase, i: nat, roots: array<Node?>) returns (r: Result<nat>)
    requires Loaded(roots, phase, i)
    modifies Nodes(roots[..])
    ensures Ring(roots, phase, i + 1) && r == Success(3 * ValueAt(phase, i))
  {
    hide ValueAt; hide SetUpState; hide Partner; hide Owner;
    r := BrokenTouch(roots[i % ROOTS], ValueAt(phase, i));
    ghost var next := i + 1;
    forall j | 0 <= j < ROOTS ensures SlotIs(roots[..], phase, next, j) {
      if j != i % ROOTS {
        assert old(SlotIs(roots[..], phase, i, j));
      }
      if j <= i {
        OwnerStep(i, j);
      }
    }
  }

  lemma {:induction false} Doubled(v: u32)
    ensures Wrap(v + v) == Wrap(2 * v)
  {
  }

  /** One broken iteration: no assertion fails. */
  method BrokenStep(phase: Phase, i: nat, roots: array<Node?>, state: u32, total: u32) returns (r: Result<(u32, u32)>)
    requires Ring(roots, phase, i) && state == Iterate(SEED, Before(phase) + i) && total == BrokenTotal(phase, i)
    modifies roots, Nodes(roots[..])
    ensures Ring(roots, phase, i + 1) && fresh(Nodes(roots[..]) - old(Nodes(roots[..])))
    ensures r == Success((Iterate(SEED, Before(phase) + i + 1), BrokenTotal(phase, i + 1)))
  {
    hide Ring; hide Loaded; hide Wrap; hide Next;
    var state' := Next(state);
    var carried := BrokenAcquire(phase, i, roots, state', total);
    if carried.Failure? {
      return Failure("assertion failed");
    }
    var observed := BrokenUpdate(phase, i, roots);
    if observed.Failure? {
      return Failure("assertion failed");
    }
    r := Success((state', Wrap(carried.value + observed.value)));
  }

  /** The mutate phase creates every slot first. */
  method BrokenSetUp(phase: Phase, roots: array<Node?>) returns (state: u32)
    requires roots.Length == ROOTS && forall j :: 0 <= j < ROOTS ==> roots[j] == null
    modifies roots
    ensures Ring(roots, phase, 0) && fresh(Nodes(roots[..])) && state == Iterate(SEED, Before(phase))
  {
    hide Wrap; hide Owner; hide Next; hide Partner;
    state := SEED;
    if phase == Mutate {
      for slot := 0 to ROOTS
        invariant state == Iterate(SEED, slot) && Apart(roots[..]) && fresh(Nodes(roots[..]))
        invariant forall j :: slot <= j < ROOTS ==> roots[j] == null
        invariant forall j :: 0 <= j < slot ==> SlotIs(roots[..], phase, 0, j) && fresh(roots[j].next)
      {
        state := Next(state);
        var a, b := NewPair(state);
        roots[slot] := a;
      }
    }
  }

  /** The sum over all slots; it fails only on a slot that was never filled. */
  method BrokenRoots(phase: Phase, n: nat, roots: array<Node?>) returns (r: Result<u32>)
    requires Ring(roots, phase, n)
    ensures r == if phase == Mutate || n >= ROOTS then Success(BrokenRoot(phase, n, ROOTS)) else Failure("empty slot")
  {
    hide ValueAt; hide Wrap; hide SetUpState; hide Owner; hide Partner;
    var sum: u32 := 0;
    for slot := 0 to ROOTS
      invariant sum == BrokenRoot(phase, n, slot) && (phase == Allocate ==> slot <= n)
    {
      ghost var v := BrokenSlot(phase, n, slot);
      assert SlotIs(roots[..], phase, n, slot);
      if roots[slot] != null {
        SlotValue(roots[..], phase, n, slot);
      }
      var retained := BrokenRetained(roots[slot], v);
      if retained.Failure? {
        return retained;
      }
      sum := Wrap(sum + retained.value);
    }
    r := Success(sum);
  }

  lemma {:induction false} SlotValue(roots: seq<Node?>, phase: Phase, n: nat, j: nat)
    requires j < ROOTS == |roots| && SlotIs(roots, phase, n, j) && roots[j] != null
    ensures roots[j].next != null && Wrap(roots[j].value + roots[j].next.value) == BrokenSlot(phase, n, j)
  {
    hide ValueAt; hide SetUpState; hide Owner; hide Partner;
  }

  /** The broken model runs to its end without a failing assertion. */
  method BrokenRun(phase: Phase, n: nat) returns (r: Result<Checksums>)
    ensures if phase == Mutate || n >= ROOTS
            then r.Success? && r.value.step == BrokenTotal(phase, n) && r.value.root == BrokenRoot(phase, n, ROOTS)
                 && r.value.lastLcg == Iterate(SEED, Before(phase) + n)
                 && r.value.result == Xor32(r.value.step, r.value.root)
            else r.Failure?
  {
    hide Wrap; hide Xor32; hide SlotIs; hide Apart; hide Iterate; hide Next;
    var roots := new Node?[ROOTS](_ => null);
    var state := BrokenSetUp(phase, roots);
    var total: u32 := 0;
    for i := 0 to n
      invariant Ring(roots, phase, i) && fresh(Nodes(roots[..]))
      invariant state == Iterate(SEED, Before(phase) + i) && total == BrokenTotal(phase, i)
    {
      var step := BrokenStep(phase, i, roots, state, total);
      if step.Failure? {
        return Failure("assertion failed");
      }
      state, total := step.value.0, step.value.1;
    }
    var root := BrokenRoots(phase, n, roots);
    if root.Failure? {
      return Failure("empty slot");
    }
    r := Success(Checksums(total, root.value, Xor32(total, root.value), state));
  }

  // ----- The intact groups -----

  /** Group `k` of the intact run after `n` iterations. */
  function IntactGroup(phase: Phase, n: nat, k: nat): (g: Group)
    requires phase == Mutate ==> k < ROOTS
  {
    if phase == Allocate then Pair(ValueAt(phase, k), Partner(StateAt(phase, k)))
    else Pair(if k < n then ValueAt(phase, Owner(n, k)) else SetUpState(k), Partner(SetUpState(k)))
  }

  lemma {:induction false} SetUpGroups(n: nat, k: nat)
    requires k < n
    ensures SetUp(ReferenceCycle, n).groups[k] == Fresh(ReferenceCycle, SetUpState(k))
  {
    hide Fresh; hide Next;
    if k < n - 1 {
      SetUpGroups(n - 1, k);
    }
  }

  lemma {:induction false} IntactState(phase: Phase, n: nat)
    ensures After(ReferenceCycle, phase, n).state == Iterate(SEED, Before(phase) + n)
  {
    hide Next; hide Wrap; hide Owner; hide Partner; hide Written; hide Observed; hide Acquired; hide Carried;
    if n > 0 {
      IntactState(phase, n - 1);
    }
  }

  lemma {:induction false} IntactGroups(phase: Phase, n: nat, k: nat)
    requires k < (if phase == Allocate then n else ROOTS)
    ensures After(ReferenceCycle, phase, n).groups[k] == IntactGroup(phase, n, k)
  {
    hide Wrap; hide Owner; hide Next; hide Partner; hide SetUp; hide Carried; hide Observed; hide After;
    if n == 0 {
      StartIs(phase);
      SetUpGroups(ROOTS, k);
    } else {
      var i := n - 1;
      AfterNext(ReferenceCycle, phase, i);
      IntactState(phase, i);
      if phase == Mutate || k < i {
        IntactGroups(phase, i, k);
      }
      if phase == Mutate && k <= i {
        OwnerStep(i, k);
      }
    }
  }

  lemma {:induction false} StartIs(phase: Phase)
    ensures After(ReferenceCycle, phase, 0) == Start(ReferenceCycle, phase)
  {
  }

  // ----- The difference -----

  /** States a multiple of 1024 steps apart agree in their ten low bits. */
  lemma {:induction false} SameLow(m: nat, j: nat)
    requires m % 1024 == j
    ensures Congruent(Iterate(SEED, m + 1), SetUpState(j), 1024)
  {
    hide Iterate; hide Pow2; hide Congruent;
    Pow2Values();
    IterateAdd(SEED, j + 1, m - j);
    IterateReturnsIff(SetUpState(j), m - j, 10);
  }

  lemma {:induction false} WrapLow(x: int)
    ensures Congruent(Wrap(x), x, 1024)
  {
    CongruentBy(x, Wrap(x), 1024, 4194304 * (x / MODULUS));
  }

  lemma {:induction false} WrittenLow(phase: Phase, n: nat, j: nat)
    requires j < ROOTS <= n
    ensures Congruent(StateAt(phase, Owner(n, j)), SetUpState(j), 1024)
    ensures Congruent(ValueAt(phase, Owner(n, j)), SetUpState(j) + j, 1024)
  {
    hide Iterate; hide Wrap; hide Congruent;
    var k := Owner(n, j);
    SameLow(Before(phase) + k, j);
    WrapLow(StateAt(phase, k) + k);
    CongruentBy(k, j, 1024, k / 1024);
    AddCongruent(StateAt(phase, k), SetUpState(j), k, j, 1024);
    SameResidue(ValueAt(phase, k), StateAt(phase, k) + k, SetUpState(j) + j);
  }

  lemma {:induction false} SameResidue(x: int, y: int, z: int)
    requires Congruent(x, y, 1024) && Congruent(y, z, 1024)
    ensures Congruent(x, z, 1024)
  {
  }

  /** How far the intact and the broken contribution of slot `j` are apart. */
  function Excess(j: nat): (d: int) { 2 * SetUpState(j) + 17 - j }

  function Gap(j: nat): (d: int) { if j == 0 then 0 else Gap(j - 1) + Excess(j - 1) }

  /** v + (3u + 17) against 2v, where u and v - j have the ten low bits of the state t. */
  lemma {:induction false} ExcessOf(v: u32, u: u32, t: u32, j: nat)
    requires Congruent(u, t, 1024) && Congruent(v, t + j, 1024)
    ensures Congruent(Retained(Pair(v, Partner(u))), Wrap(2 * v) + (2 * t + 17 - j), 1024)
  {
    WrapLow(v + Partner(u));
    WrapLow(u * 3 + 17);
    WrapLow(2 * v);
    hide Wrap;
    ExcessSum(Retained(Pair(v, Partner(u))), Partner(u), Wrap(2 * v), v, u, t, j);
  }

  lemma {:induction false} ExcessSum(r: int, p: int, w: int, v: int, u: int, t: int, j: int)
    requires Congruent(r, v + p, 1024) && Congruent(p, u * 3 + 17, 1024) && Congruent(w, 2 * v, 1024)
    requires Congruent(u, t, 1024) && Congruent(v, t + j, 1024)
    ensures Congruent(r, w + (2 * t + 17 - j), 1024)
  {
    var kr := Multiple(r, v + p);
    var kp := Multiple(p, u * 3 + 17);
    var kw := Multiple(w, 2 * v);
    var ku := Multiple(u, t);
    var kv := Multiple(v, t + j);
    hide Congruent;
    CongruentBy(r, w + (2 * t + 17 - j), 1024, kr + kp - kw + 3 * ku - kv);
  }

  lemma {:induction false} SlotExcess(phase: Phase, n: nat, j: nat)
    requires j < ROOTS <= n
    ensures var groups := After(ReferenceCycle, phase, n).groups;
            Congruent(Retained(groups[Owner(|groups|, j)]), BrokenSlot(phase, n, j) + Excess(j), 1024)
  {
    hide After; hide Iterate; hide Wrap; hide Retained; hide Partner; hide Congruent; hide ValueAt; hide StateAt;
    hide SetUpState;
    var groups := After(ReferenceCycle, phase, n).groups;
    var k, t := Owner(n, j), SetUpState(j);
    WrittenLow(phase, n, j);
    IntactGroups(phase, n, Owner(|groups|, j));
    if phase == Allocate {
      ExcessOf(ValueAt(phase, k), StateAt(phase, k), t, j);
    } else {
      CongruentBy(t, t, 1024, 0);
      ExcessOf(ValueAt(phase, k), t, t, j);
    }
  }

  lemma {:induction false} RootsApart(phase: Phase, n: nat, j: nat)
    requires j <= ROOTS <= n
    ensures Congruent(RootSum(After(ReferenceCycle, phase, n).groups, j), BrokenRoot(phase, n, j) + Gap(j), 1024)
  {
    hide After; hide Wrap; hide Retained; hide BrokenSlot; hide Congruent; hide Excess; hide Owner;
    var groups := After(ReferenceCycle, phase, n).groups;
    if j == 0 {
      RootSumStart(groups);
      CongruentBy(0, 0, 1024, 0);
    } else {
      RootsApart(phase, n, j - 1);
      SlotExcess(phase, n, j - 1);
      var x: int, y: int := RootSum(groups, j - 1), BrokenRoot(phase, n, j - 1);
      var r: int, b: int := Retained(groups[Owner(|groups|, j - 1)]), BrokenSlot(phase, n, j - 1);
      WrapLow(x + r);
      WrapLow(y + b);
      ApartStep(x, y, Gap(j - 1), r, b, Excess(j - 1), Wrap(x + r), Wrap(y + b));
    }
  }

  lemma {:induction false} ApartStep(x: int, y: int, gap: int, r: int, b: int, d: int, x': int, y': int)
    requires Congruent(x, y + gap, 1024) && Congruent(r, b + d, 1024)
    requires Congruent(x', x + r, 1024) && Congruent(y', y + b, 1024)
    ensures Congruent(x', y' + (gap + d), 1024)
  {
    var i := Multiple(x, y + gap);
    var k := Multiple(r, b + d);
    var i' := Multiple(x', x + r);
    var k' := Multiple(y', y + b);
    hide Congruent;
    CongruentBy(x', y' + (gap + d), 1024, i + k + i' - k');
  }

  lemma {:induction false} Multiple(x: int, y: int) returns (k: int)
    requires Congruent(x, y, 1024)
    ensures x == y + 1024 * k
  {
    k := x / 1024 - y / 1024;
  }

  /** The gap in closed form. */
  lemma {:induction false} GapIs(j: nat)
    ensures 2 * Gap(j) == 4 * OrbitSum(Iterate(SEED, 1), j) + 34 * j - j * (j - 1)
  {
    hide Iterate;
    if j > 0 {
      GapIs(j - 1);
      IterateAdd(SEED, 1, j - 1);
      assert (j - 1) * (j - 2) + 2 * (j - 1) == j * (j - 1);
    }
  }

  /** The ten low bits of the gap over the whole ring: only bit 9 is set. */
  lemma {:induction false} GapLow()
    ensures Congruent(Gap(ROOTS), 512, 1024)
  {
    hide Gap; hide OrbitSum; hide Iterate;
    Pow2Values();
    Pow2Unfolds(10);
    hide Pow2;
    PeriodSum(Iterate(SEED, 1), 10);
    GapIs(ROOTS);
  }

  /** For every accepted iteration count and both phases, the root checksum of the broken run and
      the specified one differ in bit 9 and agree in the nine bits below. */
  lemma {:induction false} BrokenDiffers(phase: Phase, n: nat)
    requires n >= ROOTS
    ensures Congruent(Expected(ReferenceCycle, phase, n).root, BrokenRoot(phase, n, ROOTS) + 512, 1024)
    ensures Expected(ReferenceCycle, phase, n).root != BrokenRoot(phase, n, ROOTS)
  {
    hide After; hide RootSum; hide BrokenRoot; hide Gap; hide Xor32;
    RootsApart(phase, n, ROOTS);
    GapLow();
    var x, y := Expected(ReferenceCycle, phase, n).root, BrokenRoot(phase, n, ROOTS);
    AddCongruent(y, y, Gap(ROOTS), 512, 1024);
    SameResidue(x, y + Gap(ROOTS), y + 512);
  }
}
