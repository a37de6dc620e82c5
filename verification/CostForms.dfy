/** The reference-cost run in closed form, from the generator's steps alone: what every mode
    adds up, what the holders point at, and what the sources hold. */
module CostForms {
  import opened Lcg
  import opened Families
  import opened ObjectStore
  import opened RingHeap
  import opened ReferenceCosts

  /** Ten bits of the state after `k` steps, from bit 10. */
  function Middle(k: nat): (r: nat) { Iterate(SEED, k) / 1024 % 1024 }

  /** What step `k` adds to the checksum. */
  function Added(mode: Mode, k: nat): (r: nat)
  {
    match mode
    case MatchDefined => Middle(k) + 1
    case Get32 => (Middle(k) * 65793 + 20281789) % 0x1_0000_0000
    case Set32 => Iterate(SEED, k)
    case SetReference => Middle(k)
  }

  function Total(mode: Mode, units: nat): (r: nat)
  {
    if units == 0 then 0 else Total(mode, units - 1) + Added(mode, units)
  }

  lemma {:induction false} StateIs(mode: Mode, units: nat)
    ensures Costing(mode, units).state == Iterate(SEED, units)
  {
    hide Next; hide Wrap; hide Slot;
    if units > 0 {
      StateIs(mode, units - 1);
    }
  }

  /** Only `Set32` writes scalars, and only `SetReference` moves targets. */
  lemma {:induction false} Untouched(mode: Mode, units: nat, s: nat)
    requires s < 1024
    ensures mode != Set32 ==> Costing(mode, units).scalars[s] == (s * 65793 + 20281789) % 0x1_0000_0000
    ensures mode != SetReference ==> Costing(mode, units).targets[s] == s
  {
    hide Next; hide Slot;
    if units > 0 {
      Untouched(mode, units - 1, s);
    }
  }

  /** The checksum of a mode is the wrapped sum of what its steps add. */
  lemma {:induction false} TotalIs(mode: Mode, units: nat)
    ensures Costing(mode, units).total == Total(mode, units) % 0x1_0000_0000
  {
    hide Next; hide Iterate; hide Costing;
    if units == 0 {
      StartTotal(mode);
    } else {
      var c := Costing(mode, units - 1);
      TotalIs(mode, units - 1);
      StateIs(mode, units - 1);
      StateIs(mode, units);
      CostingNext(mode, units - 1);
      UnitState(mode, units - 1, c);
      Untouched(mode, units - 1, Middle(units));
      WrapAdd(Total(mode, units - 1), Added(mode, units));
    }
  }

  lemma {:induction false} StartTotal(mode: Mode)
    ensures Costing(mode, 0).total == 0
  {
  }

  /** The holder that step `k` wrote last points at the source that step selected. */
  lemma {:induction false} TargetIs(units: nat, k: nat)
    requires k < units <= k + 1024
    ensures Costing(SetReference, units).targets[k % 1024] == Iterate(SEED, k + 1) / 1024 % 1024
  {
    hide Next; hide Iterate; hide Costing; hide Wrap;
    var c := Costing(SetReference, units - 1);
    StateIs(SetReference, units - 1);
    StateIs(SetReference, units);
    CostingNext(SetReference, units - 1);
    UnitState(SetReference, units - 1, c);
    if k < units - 1 {
      TargetIs(units - 1, k);
      OtherSlot(k, units - 1);
    }
  }

  lemma {:induction false} OtherSlot(j: nat, k: nat)
    requires j < k < j + 1024
    ensures j % 1024 != k % 1024
  {
  }

  /** The sources that stay reachable through the holders are those the last 1024 steps selected. */
  lemma {:induction false} KeptIs(units: nat)
    requires units >= 1024
    ensures Kept(Costing(SetReference, units).targets) == set k | units - 1024 < k <= units :: Middle(k)
  {
    hide Iterate; hide Costing;
    var targets := Costing(SetReference, units).targets;
    forall t | t in Kept(targets) ensures t in (set k | units - 1024 < k <= units :: Middle(k)) {
      var s :| 0 <= s < 1024 && targets[s] == t;
      var k := Owner(units, s);
      TargetIs(units, k);
      assert t == Middle(k + 1);
    }
    forall k | units - 1024 < k <= units ensures Middle(k) in Kept(targets) {
      TargetIs(units, k - 1);
      assert targets[(k - 1) % 1024] in Kept(targets);
    }
  }

  /** A source holds the state of the last step that selected it, the `t`-th, or its initial value. */
  lemma {:induction false} ScalarIs(units: nat, s: nat, t: nat)
    requires s < 1024 && t <= units && (t > 0 ==> Iterate(SEED, t) / 1024 % 1024 == s)
    requires forall u :: t < u <= units ==> Iterate(SEED, u) / 1024 % 1024 != s
    ensures Costing(Set32, units).scalars[s] == if t > 0 then Iterate(SEED, t)
      else (s * 65793 + 20281789) % 0x1_0000_0000
    decreases units
  {
    hide Next; hide Iterate; hide Costing;
    if units == 0 {
      Initially(s);
    } else {
      var c := Costing(Set32, units - 1);
      StateIs(Set32, units - 1);
      StateIs(Set32, units);
      CostingNext(Set32, units - 1);
      UnitState(Set32, units - 1, c);
      if t < units {
        assert Iterate(SEED, units) / 1024 % 1024 != s;
        ScalarIs(units - 1, s, t);
      }
    }
  }

  lemma {:induction false} Initially(s: nat)
    requires s < 1024
    ensures Costing(Set32, 0).scalars[s] == (s * 65793 + 20281789) % 0x1_0000_0000
  {
  }

  /** Without reference writes every source is kept, and the first collection reclaims nothing. */
  lemma {:induction false} AllKept(mode: Mode, units: nat)
    requires mode != SetReference
    ensures var r := ReferenceCosts.Expected(mode, units);
      r.kept == 1024 && r.firstReclaimed == 0 && r.finalReclaimed == 2048
  {
    hide Costing; hide Sum; hide Range;
    var targets := Costing(mode, units).targets;
    forall t | 0 <= t < 1024 ensures t in Kept(targets) {
      Untouched(mode, units, t);
    }
    KeptSize(targets);
    RangeSize(0, 1024);
    SubsetSize(Range(0, 1024), Kept(targets));
  }
}
