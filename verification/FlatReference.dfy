/** The checker's independent reference: three flat arrays instead of records,
    sums reduced once per step instead of at every addition. */
module FlatReference {
  import opened Lcg
  import opened Families
  import opened Oracle

  /** The arrays `first`, `second` and `lanes` of the reference. */
  datatype Flat = Flat(first: seq<u32>, second: seq<u32>, lanes: seq<seq<u32>>)

  predicate Sized(f: Flat) { |f.first| == |f.second| == |f.lanes| == ROOTS }

  /** Slot `j` of the arrays stands for group `g`. */
  ghost predicate StandsFor(f: Flat, j: nat, g: Group)
    requires Sized(f) && j < ROOTS
  {
    match g
    case One(a) => f.first[j] == a
    case Pair(a, b) => f.first[j] == a && f.second[j] == b
    case Numbers(cells) => f.lanes[j] == cells
    case Linked(a, b, edges) =>
      && f.first[j] == a && f.second[j] == b && |f.lanes[j]| == |edges|
      && forall k :: 0 <= k < |edges| ==> f.lanes[j][k] == if edges[k] then 1 else 0
  }

  ghost predicate FlatHolds(f: Flat, groups: seq<Group>)
  {
    Sized(f) && forall j :: 0 <= j < ROOTS && j < |groups| ==> StandsFor(f, j, groups[Owner(|groups|, j)])
  }

  /** The arrays agree outside slot `j`. */
  ghost predicate SameElsewhere(f: Flat, f': Flat, j: nat)
  {
    Sized(f) && Sized(f') && forall i :: 0 <= i < ROOTS && i != j ==>
      f'.first[i] == f.first[i] && f'.second[i] == f.second[i] && f'.lanes[i] == f.lanes[i]
  }

  lemma {:induction false} FlatAppend(f: Flat, f': Flat, groups: seq<Group>, g: Group)
    requires FlatHolds(f, groups) && SameElsewhere(f, f', |groups| % ROOTS) && StandsFor(f', |groups| % ROOTS, g)
    ensures FlatHolds(f', groups + [g])
  {
    var groups' := groups + [g];
    forall j | 0 <= j < ROOTS && j < |groups'| ensures StandsFor(f', j, groups'[Owner(|groups'|, j)]) {
      OwnerStep(|groups|, j);
      assert j < |groups| ==> StandsFor(f, j, groups[Owner(|groups|, j)]);
    }
  }

  lemma {:induction false} FlatUpdate(f: Flat, f': Flat, groups: seq<Group>, j: nat, g: Group)
    requires FlatHolds(f, groups) && j < ROOTS && j < |groups| && SameElsewhere(f, f', j) && StandsFor(f', j, g)
    ensures FlatHolds(f', groups[Owner(|groups|, j) := g])
  {
    var groups' := groups[Owner(|groups|, j) := g];
    forall i | 0 <= i < ROOTS && i < |groups'| ensures StandsFor(f', i, groups'[Owner(|groups'|, i)]) {
      assert Owner(|groups|, i) % ROOTS == i;
      assert StandsFor(f, i, groups[Owner(|groups|, i)]);
    }
  }

  // ----- Unreduced sums -----

  /** The value behind each edge of a linked slot. */
  function Behind(f: Flat, j: nat): (r: seq<u32>)
    requires Sized(f) && j < ROOTS
    ensures |r| == |f.lanes[j]|
  {
    seq(|f.lanes[j]|, k requires 0 <= k < |f.lanes[j]| => if f.lanes[j][k] == 0 then f.first[j] else f.second[j])
  }

  function RootValue(family: Family, f: Flat, j: nat): (r: nat)
    requires Sized(f) && j < ROOTS
  {
    match family
    case MutableStruct => f.first[j]
    case ReferenceCycle => f.first[j] + f.second[j]
    case NumericArray => Sum(f.lanes[j])
    case ReferenceArray => Sum(Behind(f, j))
  }

  lemma {:induction false} RootValueIs(family: Family, f: Flat, j: nat, g: Group)
    requires Sized(f) && j < ROOTS && Shaped(family, g) && StandsFor(f, j, g)
    ensures Wrap(RootValue(family, f, j)) == Retained(g)
  {
    if family.ReferenceArray? {
      assert Behind(f, j) == Targets(g);
    }
  }

  // ----- The loops -----

  class Arrays {
    const first: array<u32>
    const second: array<u32>
    const lanes: array<seq<u32>>

    constructor ()
      ensures first.Length == second.Length == lanes.Length == ROOTS
      ensures fresh(first) && fresh(second) && fresh(lanes) && first != second
    {
      first := new u32[ROOTS](_ => 0);
      second := new u32[ROOTS](_ => 0);
      lanes := new seq<u32>[ROOTS](_ => [0, 0, 0, 0, 0, 0, 0, 0]);
    }

    ghost predicate Valid() { first.Length == second.Length == lanes.Length == ROOTS && first != second }

    function View(): (f: Flat)
      requires Valid()
      reads first, second, lanes
      ensures Sized(f)
    {
      Flat(first[..], second[..], lanes[..])
    }

    /** A new group in slot `j`. */
    method New(family: Family, j: nat, value: u32)
      requires Valid() && j < ROOTS
      modifies first, second, lanes
      ensures SameElsewhere(old(View()), View(), j) && StandsFor(View(), j, Fresh(family, value))
    {
      first[j] := value;
      second[j] := Wrap(value * 3 + 17);
      lanes[j] := if family.NumericArray? then seq(8, _ => value) else seq(8, _ => 0);
    }

    /** The writes of one step and the unreduced value observed. */
    method Touch(family: Family, j: nat, s: u32, step: nat, ghost g: Group) returns (observed: nat)
      requires Valid() && j < ROOTS && Shaped(family, g) && StandsFor(View(), j, g)
      modifies first, second, lanes
      ensures SameElsewhere(old(View()), View(), j) && StandsFor(View(), j, Written(g, s, step))
      ensures Wrap(observed) == Observed(Written(g, s, step), step)
    {
      hide Xor32;
      assert first[j] == first[..][j] && second[j] == second[..][j] && lanes[j] == lanes[..][j];
      match family
      case MutableStruct =>
        first[j] := Wrap(s + step);
        observed := first[j];
      case ReferenceCycle =>
        first[j] := Wrap(s + step);
        var a: nat, b: nat := first[j], second[j];
        observed := a + a + b;
      case NumericArray =>
        var left, right := step % 8, (step + 1) % 8;
        lanes[j] := lanes[j][left := Xor32(s, 2781028135)];
        lanes[j] := lanes[j][right := Wrap(s + step)];
        var x: nat, y: nat := lanes[j][left], lanes[j][right];
        observed := x + y + 8;
      case ReferenceArray =>
        var left, right := step % 8, (step + 1) % 8;
        first[j] := Wrap(s + step);
        lanes[j] := lanes[j][left := 1];
        lanes[j] := lanes[j][right := 0];
        var a: nat, b: nat := first[j], second[j];
        observed := b + a + 8;
    }
  
    ghost predicate Agreeing(s: u32, checksum: u32, h: History)
      reads first, second, lanes
    {
      Valid() && s == h.state && checksum == h.total && FlatHolds(View(), h.groups)
    }

    /** The mutate phase creates every slot first. */
    method SetUpAll(family: Family, phase: Phase) returns (s: u32, checksum: u32)
      requires Valid()
      modifies first, second, lanes
      ensures Agreeing(s, checksum, After(family, phase, 0))
    {
      hide Fresh; hide SetUp; hide StandsFor;
      EmptyRing(family);
      s, checksum := 123456789, 0;
      if phase == Mutate {
        for index := 0 to ROOTS
          invariant s == SetUp(family, index).state && FlatHolds(View(), SetUp(family, index).groups)
        {
          SetUpNext(family, index);
          ghost var before := View();
          s := Next(s);
          New(family, index, s);
          FlatAppend(before, View(), SetUp(family, index).groups, Fresh(family, s));
        }
      }
    }

    /** One step: in the allocate phase the displaced slot is read and recreated first. */
    method Step(family: Family, phase: Phase, step: nat, s: u32, checksum: u32, ghost h: History)
      returns (s': u32, checksum': u32)
      requires Ready(family, phase, step, h) && Agreeing(s, checksum, h)
      modifies first, second, lanes
      ensures Agreeing(s', checksum', Iteration(family, phase, step, h))
    {
      hide Fresh; hide StandsFor; hide Written; hide Observed; hide Retained; hide RootValue; hide Next; hide Wrap;
      s' := Next(s);
      var sum: nat, r := checksum, step % ROOTS;
      ghost var groups := Acquired(family, phase, h);
      if phase == Allocate {
        if step >= ROOTS {
          DisplacedOwner(step);
          var root := RootValue(family, View(), r);
          RootValueIs(family, View(), r, h.groups[step - ROOTS]);
          WrapAdd(sum, root);
          sum := sum + root;
        }
        ghost var before := View();
        New(family, r, s');
        FlatAppend(before, View(), h.groups, Fresh(family, s'));
      }
      WrapIsIdentity(h.total);
      assert Wrap(sum) == Carried(phase, step, h);
      CurrentOwner(phase, step, |groups|);
      ghost var k := Current(phase, step);
      ghost var before := View();
      var observed := Touch(family, r, s', step, groups[k]);
      FlatUpdate(before, View(), groups, r, Written(groups[k], s', step));
      WrapAdd(sum, observed);
      WrapAdd(Wrap(sum), observed);
      checksum' := Wrap(sum + observed);
    }

    /** The sum over all slots, reduced once. */
    method RootsSum(family: Family, ghost groups: seq<Group>) returns (roots: u32)
      requires Valid() && FlatHolds(View(), groups)
      requires forall k :: 0 <= k < |groups| ==> Shaped(family, groups[k])
      ensures |groups| >= ROOTS ==> roots == RootSum(groups, ROOTS)
    {
      hide Retained; hide RootValue; hide StandsFor; hide Wrap;
      var sum: nat := 0;
      RootSumStart(groups);
      for index := 0 to ROOTS
        invariant |groups| >= ROOTS ==> Wrap(sum) == RootSum(groups, index)
      {
        var value := RootValue(family, View(), index);
        if index < |groups| {
          RootValueIs(family, View(), index, groups[Owner(|groups|, index)]);
        }
        WrapAdd(sum, value);
        WrapAdd(Wrap(sum), value);
        sum := sum + value;
      }
      roots := Wrap(sum);
    }

    /** The flat reference returns the specified checksums. */
    method ScalarReference(family: Family, phase: Phase, n: nat) returns (r: Checksums)
      requires Valid()
      modifies first, second, lanes
      ensures phase == Mutate || n >= ROOTS ==> r == Expected(family, phase, n)
    {
      hide After; hide Xor32; hide FlatHolds; hide RootSum;
      var s, checksum := SetUpAll(family, phase);
      for step := 0 to n
        invariant Agreeing(s, checksum, After(family, phase, step))
      {
        AfterNext(family, phase, step);
        s, checksum := Step(family, phase, step, s, checksum, After(family, phase, step));
      }
      var roots := RootsSum(family, After(family, phase, n).groups);
      r := Checksums(checksum, roots, Xor32(checksum, roots), s);
    }
  }
}
