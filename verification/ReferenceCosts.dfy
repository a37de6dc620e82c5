/** The reference-cost run: 1024 scalar sources, 1024 holders that point at them,
    and two collections with the holders and then nothing as roots. */
module ReferenceCosts {
  import opened Wrappers
  import opened Lcg
  import opened Families
  import opened ObjectStore
  import opened RingHeap
  import opened TypeRelation

  datatype Mode = MatchDefined | Get32 | Set32 | SetReference

  function Initial(i: nat): (v: u32) { Wrap(i * 0x10101 + 0x13579BD) }

  /** Ten bits of the state from bit 10. */
  function Slot(state: u32): (s: nat)
    ensures s < ROOTS
  {
    state / 1024 % ROOTS
  }

  // ----- What the run computes -----

  datatype Costs = Costs(state: u32, total: u32, scalars: seq<u32>, targets: seq<nat>)

  predicate Proper(c: Costs)
  {
    |c.scalars| == |c.targets| == ROOTS && forall i :: 0 <= i < ROOTS ==> c.targets[i] < ROOTS
  }

  function Unit(mode: Mode, step: nat, c: Costs): (c': Costs)
    requires Proper(c)
    ensures Proper(c')
  {
    var state := Next(c.state);
    var slot := Slot(state);
    match mode
    case MatchDefined => c.(state := state, total := Wrap(c.total + slot + 1))
    case Get32 => c.(state := state, total := Wrap(c.total + c.scalars[slot]))
    case Set32 => c.(state := state, total := Wrap(c.total + state), scalars := c.scalars[slot := state])
    case SetReference => c.(state := state, total := Wrap(c.total + slot), targets := c.targets[step % ROOTS := slot])
  }

  function Costing(mode: Mode, units: nat): (c: Costs)
    ensures Proper(c)
  {
    if units == 0 then
      Costs(SEED, 0, seq(ROOTS, i requires 0 <= i < ROOTS => Initial(i)), seq(ROOTS, i requires 0 <= i < ROOTS => i))
    else Unit(mode, units - 1, Costing(mode, units - 1))
  }

  lemma {:induction false} CostingNext(mode: Mode, units: nat)
    ensures Costing(mode, units + 1) == Unit(mode, units, Costing(mode, units))
  {
    hide Unit;
  }

  /** The sources some holder points at. */
  function Kept(targets: seq<nat>): (s: set<nat>)
  {
    set i | 0 <= i < |targets| :: targets[i]
  }

  datatype Report = Report(checksum: u32, scalarChecksum: u32, kept: nat, firstReclaimed: nat, finalReclaimed: nat)

  function Expected(mode: Mode, units: nat): (r: Report)
  {
    var c := Costing(mode, units);
    KeptSize(c.targets);
    var kept := |Kept(c.targets)|;
    Report(c.total, Wrap(Sum(c.scalars)), kept, ROOTS - kept, ROOTS + kept)
  }

  lemma {:induction false} KeptSize(targets: seq<nat>)
    requires forall i :: 0 <= i < |targets| ==> targets[i] < ROOTS
    ensures |Kept(targets)| <= ROOTS
  {
    hide Range;
    RangeSize(0, ROOTS);
    SubsetSize(Kept(targets), Range(0, ROOTS));
  }

  predicate Legal(units: nat) { 1024 <= units <= 16_000_000 }

  // ----- The scalar oracle -----

  /** Two arrays updated in place. */
  method ScalarCosts(mode: Mode, units: nat) returns (r: Result<Report>)
    ensures if Legal(units) then r == Success(Expected(mode, units)) else r.Failure?
  {
    hide Costing; hide Sum; hide Next; hide Kept; hide Initial; hide Wrap;
    InitialIs();
    if !(1024 <= units <= 16_000_000) {
      return Failure("Unknown phase or units outside the native contract");
    }
    var state: u32, total: nat := 123456789, 0;
    var scalars := new u32[ROOTS](i => (i * 0x10101 + 0x13579BD) % 0x1_0000_0000);
    var targets := new nat[ROOTS](i => i);
    CostingStart(mode, scalars[..], targets[..]);
    for step := 0 to units
      invariant state == Costing(mode, step).state && total == Costing(mode, step).total
      invariant scalars[..] == Costing(mode, step).scalars && targets[..] == Costing(mode, step).targets
    {
      CostingNext(mode, step);
      state := Next(state);
      var slot := state / 1024 % ROOTS;
      match mode {
        case MatchDefined => total := total + slot + 1;
        case Get32 => total := total + scalars[slot];
        case Set32 =>
          scalars[slot] := state;
          total := total + state;
        case SetReference =>
          targets[step % ROOTS] := slot;
          total := total + slot;
      }
      total := Wrap(total);
    }
    KeptSize(targets[..]);
    var kept := |Kept(targets[..])|;
    r := Success(Report(total, Wrap(Sum(scalars[..])), kept, ROOTS - kept, ROOTS + kept));
  }

  lemma {:induction false} InitialIs()
    ensures forall i: nat :: Initial(i) == (i * 0x10101 + 0x13579BD) % 0x1_0000_0000
  {
  }

  lemma {:induction false} CostingStart(mode: Mode, scalars: seq<u32>, targets: seq<nat>)
    requires |scalars| == |targets| == ROOTS
    requires forall i :: 0 <= i < ROOTS ==> scalars[i] == Initial(i) && targets[i] == i
    ensures Costing(mode, 0) == Costs(SEED, 0, scalars, targets)
  {
    hide Initial;
    assert Costing(mode, 0).scalars == scalars && Costing(mode, 0).targets == targets;
  }

  // ----- The heap -----

  /** Source `i` is object `2i`, its holder object `2i + 1`. */
  ghost predicate Populated(objects: map<nat, Object>, scalars: seq<u32>, targets: seq<nat>, n: nat)
  {
    && |scalars| >= n && |targets| >= n
    && objects.Keys == Range(0, 2 * n)
    && (forall i :: 0 <= i < n ==> objects[2 * i].Scalar? && objects[2 * i].bits == scalars[i])
    && forall i :: 0 <= i < n ==> objects[2 * i + 1].Holder? && objects[2 * i + 1].edge == Ref(2 * targets[i])
  }

  /** Sources are made by the first store, holders by the recipient. */
  function SourceHome(relation: Relation): (h: Home) { Home(0, ActualIndex(relation)) }

  function HolderHome(relation: Relation): (h: Home) { Home(Recipient(relation), HolderIndex(relation)) }

  ghost predicate Homed(objects: map<nat, Object>, relation: Relation)
  {
    forall t :: t in objects ==>
      objects[t].home == if objects[t].Scalar? then SourceHome(relation) else HolderHome(relation)
  }

  ghost predicate Tokens(refs: seq<Reference>, odd: nat, n: nat)
  {
    |refs| == ROOTS && forall i :: 0 <= i < n && i < ROOTS ==> refs[i] == Ref(2 * i + odd)
  }

  function Image(s: set<nat>, odd: nat): (r: set<nat>) { set t | t in s :: 2 * t + odd }

  lemma {:induction false} ImageSize(s: set<nat>, odd: nat)
    ensures |Image(s, odd)| == |s|
    decreases |s|
  {
    if s != {} {
      var x :| x in s;
      ImageSize(s - {x}, odd);
      forall y | y in Image(s, odd) ensures y in Image(s - {x}, odd) + {2 * x + odd} {
        var t :| t in s && y == 2 * t + odd;
        assert t == x || t in s - {x};
      }
      assert 2 * x + odd in Image(s, odd) && 2 * x + odd !in Image(s - {x}, odd);
      assert Image(s, odd) == Image(s - {x}, odd) + {2 * x + odd};
    }
  }

  function Survivors(targets: seq<nat>): (s: set<nat>)
  {
    Image(Range(0, ROOTS), 1) + Image(Kept(targets), 0)
  }

  lemma {:induction false} SurvivorCount(targets: seq<nat>)
    ensures |Survivors(targets)| == ROOTS + |Kept(targets)|
  {
    hide Range; hide Kept;
    RangeSize(0, ROOTS);
    ImageSize(Range(0, ROOTS), 1);
    ImageSize(Kept(targets), 0);
    assert Image(Range(0, ROOTS), 1) !! Image(Kept(targets), 0);
  }

  /** With the holders as roots, the holders and the targeted sources survive. */
  lemma {:induction false} HoldersReach(objects: map<nat, Object>, scalars: seq<u32>, targets: seq<nat>,
                                        holders: seq<Reference>)
    requires |targets| == ROOTS && (forall i :: 0 <= i < ROOTS ==> targets[i] < ROOTS)
    requires Populated(objects, scalars, targets, ROOTS) && Tokens(holders, 1, ROOTS)
    ensures Resolvable(objects, holders) && Reachable(objects, holders) == Survivors(targets)
  {
    hide Reachable; hide Reached; hide Range; hide Survivors; hide Populated;
    forall t | t in Survivors(targets) ensures Reached(objects, holders, t) {
      SurvivorReached(objects, scalars, targets, holders, t);
    }
    forall i | 0 <= i < |holders| && holders[i].Ref?
      ensures holders[i].token in Survivors(targets) && holders[i].token in objects
    {
      HolderReaches(objects, scalars, targets, holders, i);
    }
    SurvivorsClosed(objects, scalars, targets);
    ReachableIs(objects, holders, Survivors(targets));
  }

  lemma {:induction false} HolderReaches(objects: map<nat, Object>, scalars: seq<u32>, targets: seq<nat>,
                                         holders: seq<Reference>, i: nat)
    requires |targets| == ROOTS && i < ROOTS && targets[i] < ROOTS
    requires Populated(objects, scalars, targets, ROOTS) && Tokens(holders, 1, ROOTS)
    ensures holders[i] == Ref(2 * i + 1) && 2 * i + 1 in objects && 2 * i + 1 in Survivors(targets)
    ensures Reached(objects, holders, 2 * i + 1) && Reached(objects, holders, 2 * targets[i])
  {
    hide Reached; hide Range; hide Kept;
    assert i in Range(0, ROOTS);
    RootReached(objects, holders, i);
    EdgeReached(objects, holders, 2 * i + 1);
  }

  lemma {:induction false} SurvivorReached(objects: map<nat, Object>, scalars: seq<u32>, targets: seq<nat>,
                                           holders: seq<Reference>, t: nat)
    requires |targets| == ROOTS && (forall i :: 0 <= i < ROOTS ==> targets[i] < ROOTS) && t in Survivors(targets)
    requires Populated(objects, scalars, targets, ROOTS) && Tokens(holders, 1, ROOTS)
    ensures Reached(objects, holders, t)
  {
    hide Reached; hide Range; hide Populated; hide Tokens;
    if t in Image(Range(0, ROOTS), 1) {
      HolderReaches(objects, scalars, targets, holders, t / 2);
    } else {
      var i :| 0 <= i < ROOTS && targets[i] == t / 2;
      HolderReaches(objects, scalars, targets, holders, i);
    }
  }

  lemma {:induction false} SurvivorsClosed(objects: map<nat, Object>, scalars: seq<u32>, targets: seq<nat>)
    requires |targets| == ROOTS && (forall i :: 0 <= i < ROOTS ==> targets[i] < ROOTS)
    requires Populated(objects, scalars, targets, ROOTS)
    ensures ClosedSet(objects, Survivors(targets)) && Survivors(targets) <= objects.Keys
  {
    hide Range;
    forall t | t in Survivors(targets) && t in objects && Edge(objects[t]).Ref?
      ensures Edge(objects[t]).token in Survivors(targets)
    {
      var i := t / 2;
      assert t == 2 * i || t == 2 * i + 1;
      assert targets[i] in Kept(targets);
    }
  }

  // ----- The program -----

  class Fixture {
    const relation: Relation
    const schemas: Schemas
    const store: Store
    const sources: array<Reference>
    const holders: array<Reference>
    const targets: array<nat>

    ghost predicate Valid(scalars: seq<u32>)
      reads store, sources, holders, targets
    {
      && Declared(schemas) && Homed(store.objects, relation) && store.Valid() && sources != holders
      && Tokens(sources[..], 0, ROOTS) && Tokens(holders[..], 1, ROOTS)
      && |scalars| == targets.Length == ROOTS && (forall i :: 0 <= i < ROOTS ==> targets[i] < ROOTS)
      && Populated(store.objects, scalars, targets[..], ROOTS)
    }

    constructor (relation: Relation, schemas: Schemas)
      ensures this.relation == relation && this.schemas == schemas
      ensures fresh(store) && fresh(sources) && fresh(holders) && fresh(targets)
      ensures targets.Length == ROOTS && sources.Length == ROOTS && holders.Length == ROOTS && sources != holders
      ensures store.Valid() && store.objects == map[] && store.issued == 0
      ensures forall i :: 0 <= i < ROOTS ==> targets[i] == i
    {
      this.relation, this.schemas := relation, schemas;
      store := new Store();
      sources := new Reference[ROOTS](_ => Null);
      holders := new Reference[ROOTS](_ => Null);
      targets := new nat[ROOTS](i => i);
    }

    /** Whether a live reference has the expected type of the recipient, or one under it; a
        retired one never does. Null has every nullable type. */
    method Matches(r: Reference, index: nat) returns (matched: bool)
      requires Declared(schemas) && Homed(store.objects, relation) && index < |schemas.stores[Recipient(relation)]|
      ensures matched == (r.Null? || (r.token in store.objects &&
        var home := store.objects[r.token].home;
        MatchesType(schemas, home.owner, home.index, Recipient(relation), index)))
    {
      hide MatchesType;
      if r.Null? {
        return true;
      }
      var live := store.Get(r);
      if live.Failure? {
        return false;
      }
      matched := TypeMatches(schemas, live.value.home.owner, live.value.home.index, Recipient(relation), index);
    }

    /** A source matches the expected base type exactly while it is live. */
    method HasBase(r: Reference) returns (matched: bool)
      requires Declared(schemas) && Homed(store.objects, relation) && r.Ref?
      requires r.token in store.objects ==> store.objects[r.token].Scalar?
      ensures matched == (r.token in store.objects)
    {
      hide MatchesType;
      RelationHolds(schemas, relation);
      matched := Matches(r, ExpectedIndex(relation));
    }

    /** A live source does not match the holder type. */
    method HasHolder(r: Reference) returns (matched: bool)
      requires Declared(schemas) && Homed(store.objects, relation) && r.Ref?
      requires r.token in store.objects && store.objects[r.token].Scalar?
      ensures !matched
    {
      hide MatchesType;
      RelationHolds(schemas, relation);
      matched := Matches(r, HolderIndex(relation));
    }

    /** Source `i` and a holder for it: the reference fits the holder's field. */
    method AddPair(i: nat) returns (ok: bool)
      requires Declared(schemas) && Homed(store.objects, relation) && store.Valid() && store.issued == 2 * i
      requires i < ROOTS && |sources[..]| == |holders[..]| == ROOTS && sources != holders
      modifies store, sources, holders
      ensures ok && store.Valid() && store.issued == 2 * i + 2 && Homed(store.objects, relation)
      ensures store.objects == old(store.objects)[2 * i := Scalar(Initial(i), SourceHome(relation))]
                                                 [2 * i + 1 := Holder(Ref(2 * i), HolderHome(relation))]
      ensures sources[..] == old(sources[..])[i := Ref(2 * i)] && holders[..] == old(holders[..])[i := Ref(2 * i + 1)]
    {
      hide Initial; hide Declared;
      var source := store.New(Scalar(Initial(i), SourceHome(relation)));
      if source.Failure? {
        return false;
      }
      sources[i] := source.value;
      var fits := HasBase(sources[i]);
      if !fits {
        return false;
      }
      var holder := store.New(Holder(sources[i], HolderHome(relation)));
      if holder.Failure? {
        return false;
      }
      holders[i] := holder.value;
      ok := true;
    }

    /** Allocates every source and a holder that points at it. */
    method Populate() returns (ok: bool)
      requires Declared(schemas)
      requires targets.Length == ROOTS && sources.Length == ROOTS && holders.Length == ROOTS && sources != holders
      requires store.Valid() && store.objects == map[] && store.issued == 0
      requires forall i :: 0 <= i < ROOTS ==> targets[i] == i
      modifies store, sources, holders
      ensures ok && Valid(seq(ROOTS, i requires 0 <= i < ROOTS => Initial(i)))
    {
      hide Range; hide Initial; hide Populated; hide Declared;
      ghost var scalars := seq(ROOTS, i requires 0 <= i < ROOTS => Initial(i));
      PopulateStart(store.objects, scalars, targets[..]);
      for i := 0 to ROOTS
        modifies store, sources, holders
        invariant store.Valid() && store.issued == 2 * i && Populated(store.objects, scalars, targets[..], i)
        invariant Tokens(sources[..], 0, i) && Tokens(holders[..], 1, i) && Homed(store.objects, relation)
      {
        assert scalars[i] == Initial(i);
        PopulateStep(store.objects, scalars, targets[..], i, SourceHome(relation), HolderHome(relation));
        var added := AddPair(i);
        if !added {
          return false;
        }
      }
      SourceAt(store.objects, scalars, targets[..], 0);
      assert sources[0] == sources[..][0];
      var right := HasBase(sources[0]);
      var wrong := HasHolder(sources[0]);
      ok := right && !wrong;
    }

    /** A dynamic write to a source is observed. */
    method SetScalar32(slot: nat, state: u32, ghost c: Costs) returns (ok: bool)
      requires slot < ROOTS && Proper(c) && Valid(c.scalars) && targets[..] == c.targets
      modifies store
      ensures ok && Valid(c.scalars[slot := state])
    {
      hide Range; hide Populated; hide Declared;
      SourceAt(store.objects, c.scalars, c.targets, slot);
      assert sources[slot] == sources[..][slot];
      SetScalar(store.objects, c.scalars, c.targets, slot, state, SourceHome(relation));
      var stored := store.Set(sources[slot], Scalar(state, SourceHome(relation)));
      var packed := store.Get(sources[slot]);
      ok := stored && packed.Success? && packed.value.Scalar? && packed.value.bits == state;
    }

    /** A holder is redirected to another source: the typed write fits and is observed. */
    method Redirect(destination: nat, slot: nat, ghost c: Costs) returns (ok: bool)
      requires destination < ROOTS && slot < ROOTS && Proper(c) && Valid(c.scalars) && targets[..] == c.targets
      modifies store, targets
      ensures ok && Valid(c.scalars) && targets[..] == c.targets[destination := slot]
    {
      hide Range; hide Populated; hide Declared;
      SourceAt(store.objects, c.scalars, c.targets, slot);
      assert holders[destination] == holders[..][destination] && sources[slot] == sources[..][slot];
      SetEdge(store.objects, c.scalars, c.targets, destination, slot, HolderHome(relation));
      var fits := HasBase(sources[slot]);
      if !fits {
        return false;
      }
      var stored := store.Set(holders[destination], Holder(sources[slot], HolderHome(relation)));
      var observed := store.Get(holders[destination]);
      ok := stored && observed.Success? && observed.value.Holder? && observed.value.edge == sources[slot];
      targets[destination] := slot;
    }

    /** One unit of the selected mode through the store. */
    method Perform(mode: Mode, step: nat, state: u32, total: u32, ghost c: Costs) returns (r: Result<u32>)
      requires Proper(c) && Valid(c.scalars) && targets[..] == c.targets && total == c.total && state == Next(c.state)
      modifies store, targets
      ensures var c' := Unit(mode, step, c);
        Valid(c'.scalars) && targets[..] == c'.targets && r == Success(c'.total)
    {
      hide Next; hide Range; hide Wrap; hide Populated; hide Declared; hide Homed;
      var slot := state / 1024 % ROOTS;
      SourceAt(store.objects, c.scalars, c.targets, slot);
      assert sources[slot] == sources[..][slot];
      var sum: nat := total;
      match mode
      case MatchDefined =>
        var matched := HasBase(sources[slot]);
        if !matched {
          return Failure("match");
        }
        r := Success(Wrap(sum + slot + 1));
      case Get32 =>
        var packed := store.Get(sources[slot]);
        if packed.Failure? || !packed.value.Scalar? {
          return Failure("get32");
        }
        r := Success(Wrap(sum + packed.value.bits));
      case Set32 =>
        var stored := SetScalar32(slot, state, c);
        if !stored {
          return Failure("set32");
        }
        r := Success(Wrap(sum + state));
      case SetReference =>
        var stored := Redirect(step % ROOTS, slot, c);
        if !stored {
          return Failure("set-reference");
        }
        r := Success(Wrap(sum + slot));
    }

    /** Every holder still points at its tracked target; marks the targets. */
    method Census(ghost scalars: seq<u32>) returns (r: Result<array<bool>>)
      requires Valid(scalars)
      ensures r.Success? && fresh(r.value) && r.value.Length == ROOTS
      ensures forall s :: 0 <= s < ROOTS ==> (r.value[s] <==> s in Kept(targets[..]))
    {
      hide Range;
      var retained := new bool[ROOTS](_ => false);
      for index := 0 to ROOTS
        invariant forall s :: 0 <= s < ROOTS ==> (retained[s] <==> s in Kept(targets[..index]))
      {
        if targets[index] >= ROOTS {
          return Failure("target");
        }
        assert targets[..index + 1] == targets[..index] + [targets[index]];
        retained[targets[index]] := true;
        KeptStep(targets[..index], targets[index]);
        assert holders[index] == holders[..][index] && sources[targets[index]] == sources[..][targets[index]];
        var observed := store.Get(holders[index]);
        if observed.Failure? || !observed.value.Holder? || observed.value.edge != sources[targets[index]] {
          return Failure("holder");
        }
      }
      assert targets[..ROOTS] == targets[..];
      r := Success(retained);
    }

    /** The scalar checksum and the number of targeted sources. */
    method Audit(retained: array<bool>, ghost scalars: seq<u32>) returns (r: Result<(u32, nat)>)
      requires Valid(scalars) && retained.Length == ROOTS
      requires forall s :: 0 <= s < ROOTS ==> (retained[s] <==> s in Kept(targets[..]))
      ensures r == Success((Wrap(Sum(scalars)), |Kept(targets[..])|))
    {
      hide Range; hide Kept; hide Wrap; hide Populated; hide Homed; hide Declared; hide Below;
      var sum: nat, kept := 0, 0;
      BelowStep(Kept(targets[..]), 0);
      ghost var all := Kept(targets[..]);
      WrapIsIdentity(0);
      for index := 0 to ROOTS
        invariant sum == Wrap(Sum(scalars[..index]))
        invariant kept == |Below(all, index)|
      {
        assert sources[index] == sources[..][index];
        SourceAt(store.objects, scalars, targets[..], index);
        var packed := store.Get(sources[index]);
        if packed.Failure? || !packed.value.Scalar? {
          return Failure("source");
        }
        assert scalars[..index + 1][..index] == scalars[..index];
        WrapAdd(Sum(scalars[..index]), packed.value.bits);
        sum := Wrap(sum + packed.value.bits);
        BelowStep(all, index);
        kept := kept + if retained[index] then 1 else 0;
      }
      assert scalars[..ROOTS] == scalars;
      KeptBelow(targets[..]);
      r := Success((sum, kept));
    }

    /** With the holders as roots a collection keeps them and the targeted sources. */
    method SweepHolders(kept: nat, ghost scalars: seq<u32>) returns (r: Result<nat>)
      requires Valid(scalars) && kept == |Kept(targets[..])|
      modifies store
      ensures store.Valid() && Homed(store.objects, relation) && store.objects.Keys == Survivors(targets[..])
      ensures forall i :: 0 <= i < ROOTS && 2 * i in store.objects ==> store.objects[2 * i].Scalar?
      ensures kept <= ROOTS && r == Success(ROOTS - kept) && |store.objects| == ROOTS + kept
    {
      hide Range; hide Reachable; hide Kept; hide Image; hide Survivors; hide Declared; hide Populated; hide Homed;
      ghost var before := store.objects;
      PopulatedKeys(before, scalars, targets[..]);
      HoldersReach(store.objects, scalars, targets[..], holders[..]);
      SurvivorCount(targets[..]);
      KeptSize(targets[..]);
      RangeSize(0, 2 * ROOTS);
      assert |store.objects| == |store.objects.Keys|;
      r := store.Collect(holders[..]);
      assert store.objects.Keys == Survivors(targets[..]);
      assert |store.objects| == |store.objects.Keys|;
      PartStays(before, store.objects, scalars, targets[..], relation);
    }

    /** The two collections: first only the holders are roots, then nothing. */
    method Sweep(kept: nat, retained: array<bool>, ghost scalars: seq<u32>) returns (r: Result<(nat, nat)>)
      requires Valid(scalars) && kept == |Kept(targets[..])| && retained.Length == ROOTS
      requires forall s :: 0 <= s < ROOTS ==> (retained[s] <==> s in Kept(targets[..]))
      modifies store
      ensures kept <= ROOTS && r == Success((ROOTS - kept, ROOTS + kept)) && store.objects == map[]
    {
      hide Range; hide Reachable; hide Kept; hide Image; hide Survivors; hide Declared; hide Populated; hide Homed;
      var first := SweepHolders(kept, scalars);
      if first != Success(ROOTS - kept) {
        return Failure("first");
      }
      for index := 0 to ROOTS
        modifies {}
      {
        SurvivorSource(targets[..], index);
        assert sources[index] == sources[..][index];
        var packed := store.Get(sources[index]);
        if packed.Success? != retained[index] {
          return Failure("survivor");
        }
      }
      NothingReached(store.objects);
      var final := store.Collect([]);
      if final != Success(ROOTS + kept) {
        return Failure("final");
      }
      EmptyHomed(store.objects, relation);
      assert holders[0] == holders[..][0] && sources[0] == sources[..][0];
      var holder := store.Get(holders[0]);
      var source := HasBase(sources[0]);
      if holder.Success? || source {
        return Failure("retired");
      }
      r := Success((first.value, final.value));
    }
  }

  /** No check fails for any relation, any mode and any number of units; the report is the oracle's. */
  method Measure(relation: Relation, mode: Mode, units: nat) returns (r: Result<Report>)
    ensures if Legal(units) then r == Success(Expected(mode, units)) else r.Failure?
  {
    hide Costing; hide Unit; hide Next; hide Wrap; hide Sum; hide Kept; hide Initial; hide Fixture.Valid;
    if units < 1024 || units > 16_000_000 {
      return Failure("units");
    }
    var schemas := Declare();
    if schemas.Failure? {
      return Failure("schemas");
    }
    var f := new Fixture(relation, schemas.value);
    var populated := f.Populate();
    if !populated {
      return Failure("fixture");
    }
    var state: u32, total: u32 := SEED, 0;
    FixtureStart(f, mode);
    for step := 0 to units
      invariant f.Valid(Costing(mode, step).scalars) && f.targets[..] == Costing(mode, step).targets
      invariant state == Costing(mode, step).state && total == Costing(mode, step).total
    {
      CostingNext(mode, step);
      UnitState(mode, step, Costing(mode, step));
      state := Next(state);
      var performed := f.Perform(mode, step, state, total, Costing(mode, step));
      if performed.Failure? {
        return Failure("unit");
      }
      total := performed.value;
    }
    ghost var c := Costing(mode, units);
    var retained := f.Census(c.scalars);
    if retained.Failure? {
      return Failure("census");
    }
    var audit := f.Audit(retained.value, c.scalars);
    if audit.Failure? {
      return Failure("audit");
    }
    var swept := f.Sweep(audit.value.1, retained.value, c.scalars);
    if swept.Failure? || swept.value.0 + swept.value.1 != 2 * ROOTS {
      return Failure("sweep");
    }
    r := Success(Report(total, audit.value.0, audit.value.1, swept.value.0, swept.value.1));
  }

  // ----- Small steps -----

  lemma {:induction false} UnitState(mode: Mode, step: nat, c: Costs)
    requires Proper(c)
    ensures Unit(mode, step, c).state == Next(c.state)
  {
    hide Next; hide Wrap; hide Slot;
  }

  lemma {:induction false} FixtureStart(f: Fixture, mode: Mode)
    requires f.Valid(seq(ROOTS, i requires 0 <= i < ROOTS => Initial(i))) && f.targets.Length == ROOTS
    requires forall i :: 0 <= i < ROOTS ==> f.targets[i] == i
    ensures f.Valid(Costing(mode, 0).scalars) && f.targets[..] == Costing(mode, 0).targets
    ensures Costing(mode, 0).state == SEED && Costing(mode, 0).total == 0
  {
    hide Initial;
    assert Costing(mode, 0).scalars == seq(ROOTS, i requires 0 <= i < ROOTS => Initial(i));
  }

  lemma {:induction false} PopulateStart(objects: map<nat, Object>, scalars: seq<u32>, targets: seq<nat>)
    requires objects == map[]
    ensures Populated(objects, scalars, targets, 0)
  {
  }

  lemma {:induction false} PopulateStep(objects: map<nat, Object>, scalars: seq<u32>, targets: seq<nat>, i: nat,
                                        source: Home, holder: Home)
    requires Populated(objects, scalars, targets, i) && i < |scalars| && i < |targets| && targets[i] == i
    ensures Populated(objects[2 * i := Scalar(scalars[i], source)][2 * i + 1 := Holder(Ref(2 * i), holder)],
                      scalars, targets, i + 1)
  {
    hide Range;
  }

  lemma {:induction false} SourceAt(objects: map<nat, Object>, scalars: seq<u32>, targets: seq<nat>, s: nat)
    requires |scalars| == |targets| == ROOTS && s < ROOTS && Populated(objects, scalars, targets, ROOTS)
    ensures 2 * s in objects && objects[2 * s].Scalar? && objects[2 * s].bits == scalars[s]
  {
    hide Range;
  }

  lemma {:induction false} SetScalar(objects: map<nat, Object>, scalars: seq<u32>, targets: seq<nat>, s: nat, v: u32,
                                     h: Home)
    requires |scalars| == |targets| == ROOTS && s < ROOTS && Populated(objects, scalars, targets, ROOTS)
    ensures 2 * s in objects && Populated(objects[2 * s := Scalar(v, h)], scalars[s := v], targets, ROOTS)
  {
    hide Range;
  }

  lemma {:induction false} SetEdge(objects: map<nat, Object>, scalars: seq<u32>, targets: seq<nat>, h: nat, s: nat,
                                   home: Home)
    requires |scalars| == |targets| == ROOTS && h < ROOTS && s < ROOTS && Populated(objects, scalars, targets, ROOTS)
    ensures 2 * h + 1 in objects && 2 * s in objects
    ensures Populated(objects[2 * h + 1 := Holder(Ref(2 * s), home)], scalars, targets[h := s], ROOTS)
  {
    hide Range;
  }

  lemma {:induction false} KeptStep(targets: seq<nat>, t: nat)
    ensures Kept(targets + [t]) == Kept(targets) + {t}
  {
    assert (targets + [t])[|targets|] == t;
    forall x | x in Kept(targets) ensures x in Kept(targets + [t]) {
      var i :| 0 <= i < |targets| && targets[i] == x;
      assert (targets + [t])[i] == x;
    }
  }

  function Below(s: set<nat>, n: nat): (r: set<nat>) { set t | t in s && t < n }

  lemma {:induction false} BelowStep(s: set<nat>, n: nat)
    ensures Below(s, 0) == {} && |Below(s, n + 1)| == |Below(s, n)| + if n in s then 1 else 0
  {
    assert Below(s, n + 1) == Below(s, n) + (if n in s then {n} else {});
  }

  lemma {:induction false} KeptBelow(targets: seq<nat>)
    requires forall i :: 0 <= i < |targets| ==> targets[i] < ROOTS
    ensures Below(Kept(targets), ROOTS) == Kept(targets)
  {
  }

  lemma {:induction false} SurvivorSource(targets: seq<nat>, s: nat)
    requires s < ROOTS
    ensures 2 * s in Survivors(targets) <==> s in Kept(targets)
  {
    hide Range; hide Kept;
  }

  lemma {:induction false} PopulatedKeys(objects: map<nat, Object>, scalars: seq<u32>, targets: seq<nat>)
    requires Populated(objects, scalars, targets, ROOTS)
    ensures objects.Keys == Range(0, 2 * ROOTS)
  {
  }

  /** Objects that survive keep their kinds and homes. */
  lemma {:induction false} PartStays(objects: map<nat, Object>, part: map<nat, Object>, scalars: seq<u32>,
                                     targets: seq<nat>, relation: Relation)
    requires Populated(objects, scalars, targets, ROOTS) && Homed(objects, relation)
    requires forall t :: t in part ==> t in objects && part[t] == objects[t]
    ensures Homed(part, relation) && forall i :: 0 <= i < ROOTS && 2 * i in part ==> part[2 * i].Scalar?
  {
    hide Range;
  }

  lemma {:induction false} EmptyHomed(objects: map<nat, Object>, relation: Relation)
    requires objects == map[]
    ensures Homed(objects, relation)
  {
  }

  lemma {:induction false} NothingReached(objects: map<nat, Object>)
    ensures Resolvable(objects, []) && Reachable(objects, []) == {}
  {
  }
}
