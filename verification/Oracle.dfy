/** The generator's scalar oracle: loops over a ring of records that compute the
    specified checksums. */
module Oracle {
  import opened Wrappers
  import opened Bits
  import opened Lcg
  import opened Families

  /** Parameters the generator accepts. */
  predicate Accepted(iterations: int) { ROOTS <= iterations <= 2_000_000 }

  datatype Report = Report(
    checksums: Checksums,
    plannedAllocations: nat,
    allocationGroups: nat,
    overwrittenRootGroups: nat,
    mainAllocations: nat)

  /** What the oracle has to report. */
  function Reported(family: Family, phase: Phase, n: nat): (r: Report)
    requires n >= ROOTS
  {
    var groups := if phase == Allocate then n else ROOTS;
    Report(Expected(family, phase, n), Objects(family, groups), groups,
           if phase == Allocate then n - ROOTS else 0, if phase == Allocate then Objects(family, n) else 0)
  }

  /** Objects in a number of groups. */
  function Objects(family: Family, groups: nat): (n: nat) { PerCreated(family) * groups }

  // ----- The ring of records -----

  /** Slot `j` of the ring holds the newest group of that slot. */
  ghost predicate RingHolds(ring: seq<Option<Group>>, groups: seq<Group>)
  {
    |ring| == ROOTS && forall j :: 0 <= j < ROOTS && j < |groups| ==> ring[j] == Some(groups[Owner(|groups|, j)])
  }

  /** Storing a new group in its slot keeps the ring. */
  lemma {:induction false} RingAppend(ring: seq<Option<Group>>, groups: seq<Group>, g: Group)
    requires RingHolds(ring, groups)
    ensures RingHolds(ring[|groups| % ROOTS := Some(g)], groups + [g])
  {
    var ring', groups' := ring[|groups| % ROOTS := Some(g)], groups + [g];
    forall j | 0 <= j < ROOTS && j < |groups'| ensures ring'[j] == Some(groups'[Owner(|groups'|, j)]) {
      OwnerStep(|groups|, j);
    }
  }

  /** Rewriting the newest group of a slot keeps the ring. */
  lemma {:induction false} RingUpdate(ring: seq<Option<Group>>, groups: seq<Group>, j: nat, g: Group)
    requires RingHolds(ring, groups) && j < ROOTS && j < |groups|
    ensures RingHolds(ring[j := Some(g)], groups[Owner(|groups|, j) := g])
  {
    var k := Owner(|groups|, j);
    forall i | 0 <= i < ROOTS && i < |groups|
      ensures ring[j := Some(g)][i] == Some(groups[k := g][Owner(|groups|, i)])
    {
      assert Owner(|groups|, i) % ROOTS == i;
    }
  }

  /** The slot of iteration `i` belongs to the group of iteration `i`. */
  lemma {:induction false} CurrentOwner(phase: Phase, i: nat, count: nat)
    requires count == (if phase == Allocate then i + 1 else ROOTS)
    ensures i % ROOTS < count && Owner(count, i % ROOTS) == Current(phase, i)
  {
  }

  lemma {:induction false} DisplacedOwner(i: nat)
    requires i >= ROOTS
    ensures Owner(i, i % ROOTS) == i - ROOTS
  {
  }

  // ----- The scalar oracle -----

  /** The group after the writes of one iteration, computed as the oracle does. */
  method TouchRecord(g: Group, state: u32, i: nat) returns (g': Group, observed: u32)
    requires g.Numbers? ==> |g.cells| == WIDTH
    requires g.Linked? ==> |g.edges| == WIDTH
    ensures g' == Written(g, state, i) && observed == Observed(Written(g, state, i), i)
  {
    hide Xor32; hide Wrap;
    var value := Wrap(state + i);
    var selected := i % WIDTH;
    var following := (selected + 1) % WIDTH;
    FollowingIs(i);
    match g
    case One(_) =>
      g' := One(value);
      observed := g'.a;
    case Pair(_, b) =>
      g' := Pair(value, b);
      observed := Wrap(2 * g'.a + g'.b);
    case Numbers(cells) =>
      g' := Numbers(cells[selected := Xor32(state, SALT)][following := value]);
      observed := Wrap(g'.cells[selected] + g'.cells[following] + WIDTH);
    case Linked(_, b, edges) =>
      g' := Linked(value, b, edges[selected := true][following := false]);
      observed := Wrap(g'.b + g'.a + WIDTH);
  }

  lemma {:induction false} FollowingIs(i: nat)
    ensures (i % WIDTH + 1) % WIDTH == (i + 1) % WIDTH
  {
    Bits.DivModUnique(i + 1, WIDTH, i / WIDTH + (i % WIDTH + 1) / WIDTH, (i % WIDTH + 1) % WIDTH);
  }

  method RootChecksum(ring: array<Option<Group>>, ghost groups: seq<Group>) returns (r: u32)
    requires ring.Length == ROOTS <= |groups| && RingHolds(ring[..], groups)
    ensures r == RootSum(groups, ROOTS)
  {
    hide Retained;
    var sum := 0;
    for j := 0 to ROOTS
      invariant Wrap(sum) == RootSum(groups, j)
    {
      assert ring[j] == ring[..][j];
      WrapAdd(sum, Retained(ring[j].value));
      sum := sum + Retained(ring[j].value);
    }
    r := Wrap(sum);
  }

  /** The oracle's variables agree with the history. */
  ghost predicate Agrees(ring: seq<Option<Group>>, state: u32, total: u32, h: History)
  {
    state == h.state && total == h.total && RingHolds(ring, h.groups)
  }

  /** The oracle reports the specified checksums and counts, and refuses other iteration counts. */
  method ScalarOracle(family: Family, phase: Phase, iterations: int) returns (r: Result<Report>)
    ensures if Accepted(iterations) then r == Success(Reported(family, phase, iterations)) else r.Failure?
  {
    hide Expected; hide Objects;
    if iterations < 1024 || iterations > 2_000_000 {
      return Failure("iterations must be in [1024, 2000000]");
    }
    var sums := OracleSums(family, phase, iterations);
    var groups := if phase == Allocate then iterations else ROOTS;
    r := Success(Report(sums, Objects(family, groups), groups, if phase == Allocate then iterations - ROOTS else 0,
                        if phase == Allocate then Objects(family, iterations) else 0));
  }

  /** The checksums of the three loops. */
  method OracleSums(family: Family, phase: Phase, n: nat) returns (sums: Checksums)
    requires n >= ROOTS
    ensures sums == Expected(family, phase, n)
  {
    hide After; hide Xor32; hide RingHolds; hide RootSum; hide Retained;
    var ring := new Option<Group>[ROOTS](_ => None);
    var state, total := SetUpRing(family, phase, ring);
    state, total := OracleLoop(family, phase, n, ring, state, total);
    var root := RootChecksum(ring, After(family, phase, n).groups);
    sums := Checksums(total, root, Xor32(total, root), state);
  }

  lemma {:induction false} EmptyRing(family: Family)
    ensures SetUp(family, 0) == History(SEED, 0, [])
  {
  }

  /** The main loop. */
  method OracleLoop(family: Family, phase: Phase, n: nat, ring: array<Option<Group>>, state: u32, total: u32)
    returns (state': u32, total': u32)
    requires ring.Length == ROOTS && Agrees(ring[..], state, total, After(family, phase, 0))
    modifies ring
    ensures Agrees(ring[..], state', total', After(family, phase, n))
  {
    hide After; hide Iteration; hide Agrees;
    state', total' := state, total;
    for i := 0 to n
      invariant Agrees(ring[..], state', total', After(family, phase, i))
    {
      AfterNext(family, phase, i);
      state', total' := OracleStep(family, phase, i, ring, state', total', After(family, phase, i));
    }
  }

  /** The mutate phase fills the ring before the main loop. */
  method SetUpRing(family: Family, phase: Phase, ring: array<Option<Group>>) returns (state: u32, total: u32)
    requires ring.Length == ROOTS
    modifies ring
    ensures Agrees(ring[..], state, total, After(family, phase, 0))
  {
    hide Fresh; hide SetUp; hide Next; hide Owner;
    EmptyRing(family);
    state, total := SEED, 0;
    if phase == Mutate {
      for i := 0 to ROOTS
        invariant state == SetUp(family, i).state && RingHolds(ring[..], SetUp(family, i).groups)
      {
        ghost var before := SetUp(family, i);
        SetUpNext(family, i);
        state := Next(state);
        RingAppend(ring[..], before.groups, Fresh(family, state));
        ring[i] := Some(Fresh(family, state));
      }
    }
  }

  /** One iteration of the oracle. */
  method OracleStep(family: Family, phase: Phase, i: nat, ring: array<Option<Group>>, state: u32, total: u32,
                    ghost h: History)
    returns (state': u32, total': u32)
    requires ring.Length == ROOTS && Ready(family, phase, i, h) && Agrees(ring[..], state, total, h)
    modifies ring
    ensures Agrees(ring[..], state', total', Iteration(family, phase, i, h))
  {
    hide Retained; hide Fresh; hide Xor32; hide Written; hide Observed;
    state', total' := Next(state), total;
    var slot := i % ROOTS;
    ghost var groups := Acquired(family, phase, h);
    if phase == Allocate {
      if i >= ROOTS {
        DisplacedOwner(i);
        assert ring[slot] == ring[..][slot];
        total' := Wrap(total + Retained(ring[slot].value));
      }
      RingAppend(ring[..], h.groups, Fresh(family, state'));
      ring[slot] := Some(Fresh(family, state'));
    }
    CurrentOwner(phase, i, |groups|);
    assert RingHolds(ring[..], groups);
    assert ring[slot] == ring[..][slot];
    RingUpdate(ring[..], groups, slot, Written(groups[Current(phase, i)], state', i));
    var obj, observed := TouchRecord(ring[slot].value, state', i);
    ring[slot] := Some(obj);
    total' := Wrap(total' + observed);
  }
}
