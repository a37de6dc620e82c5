/** How often loop-free code executes an instruction: where every `if` guards
    only a trap, a successful evaluation executes each instruction of the text
    exactly once. */
module CountProofs {
  import opened Wrappers
  import opened Lcg
  import opened Machine
  import opened Straight
  import opened Families
  import opened Fragments
  import opened FragmentProofs
  import opened TurnProofs

  /** Occurrences outside `if` bodies. */
  function Static(p: Prog, w: Watch): (n: nat)
  {
    match p
    case Ops(ops) => Tally(ops, 0, w)
    case Then(a, b) => Static(a, w) + Static(b, w)
    case When(_) => 0
  }

  /** Every `if` body is a lone trap. */
  predicate Guarded(p: Prog)
  {
    match p
    case Ops(_) => true
    case Then(a, b) => Guarded(a) && Guarded(b)
    case When(body) => body == Ops([Unreachable])
  }

  lemma {:induction false} CountGuarded(types: seq<Type>, p: Prog, d: Data, w: Watch)
    requires Guarded(p) && Eval(types, p, d).Some?
    ensures Count(types, p, d, w) == Static(p, w)
    decreases p
  {
    match p
    case Ops(_) =>
    case Then(a, b) =>
      CountGuarded(types, a, d, w);
      CountGuarded(types, b, Eval(types, a, d).value, w);
    case When(body) =>
      Unfollowed(types, d.(stack := if d.stack.Push? then d.stack.below else d.stack));
  }

  lemma {:induction false} Unfollowed(types: seq<Type>, d: Data)
    ensures Eval(types, Ops([Unreachable]), d) == None
  {
  }

  lemma {:induction false} ReadElementsGuarded(family: Family, n: nat)
    ensures Guarded(ReadElements(family, n))
    decreases n
  {
    if n > 0 {
      ReadElementsGuarded(family, n - 1);
    }
  }

  lemma {:induction false} ReadSlotGuarded(family: Family)
    ensures Guarded(ReadSlot(family))
  {
    hide ReadElements;
    ReadElementsGuarded(family, WIDTH);
    assert Guarded(CycleCheck());
    assert Guarded(LengthCheck());
    assert Guarded(LoadPartner());
    assert Guarded(RetainedCode(family));
    assert Guarded(LoadRoot(family));
  }

  lemma {:induction false} CreateGuarded(family: Family)
    ensures Guarded(Create(family))
  {
    assert Guarded(CreateCycle());
  }

  lemma {:induction false} ElementsGuarded(family: Family)
    ensures Guarded(WriteElements(family)) && Guarded(ObserveElements(family))
  {
    var f := FollowingIndex();
    assert Guarded(f);
    assert Guarded(Then(f, Ops([LocalGet(6), ArraySet(1)]))) && Guarded(Then(f, Ops([LocalGet(5), ArraySet(0)])));
    var tail := Ops([LocalGet(8), ArrayLen, I32Add]);
    assert Guarded(Then(f, Then(Ops([ArrayGet(1)]), Then(Ops([StructGet(0, 0), I32Add]), tail))));
    assert Guarded(Then(f, Then(Ops([ArrayGet(0), I32Add]), tail)));
  }

  lemma {:induction false} StaticThen(a: Prog, b: Prog, w: Watch)
    ensures Static(Then(a, b), w) == Static(a, w) + Static(b, w)
  {
  }

  lemma {:induction false} WorkGuarded(family: Family)
    ensures Guarded(Work(family))
  {
    assert Guarded(CycleCheck());
    assert Guarded(FollowingIndex());
    ElementsGuarded(family);
    assert Guarded(ObserveCycle());
    assert Guarded(Touch(family));
  }

  /** What one turn of the main loop executes: the text of the body once, and the
      readback once more when it displaces a root. */
  function TurnCount(family: Family, phase: Phase, n: nat, i: nat, w: Watch): (r: nat)
  {
    Static(MainBody(family, phase, n), w) + (if phase == Allocate && i >= ROOTS then Static(ReadSlot(family), w) else 0)
  }

  lemma {:induction false} AcquireCount(family: Family, phase: Phase, d: Data, i: u32, w: Watch)
    requires NineLocals(d) && d.locals[0] == I32(i) && Eval(Types(family), Acquire(family, phase), d).Some?
    ensures Count(Types(family), Acquire(family, phase), d, w)
         == Static(Acquire(family, phase), w)
           + (if phase == Allocate && i >= ROOTS then Static(ReadSlot(family), w) else 0)
  {
    hide EvalOps; hide ReadSlot; hide Create; hide LoadRoot; hide Types;
    var types := Types(family);
    if phase == Allocate {
      RingFullRuns(types, d, i);
      ReadSlotGuarded(family);
      CreateGuarded(family);
      var d1 := Pushed(d, I32(Truth(i >= ROOTS)));
      var skip := When(ReadSlot(family));
      var d2 := Eval(types, skip, d1).value;
      Sequence(types, Ops([LocalGet(0), Const(1024), I32GeU]), Then(skip, Create(family)), d, d1);
      CountGuarded(types, Create(family), d2, w);
      StaticThen(Ops([LocalGet(0), Const(1024), I32GeU]), Then(skip, Create(family)), w);
      StaticThen(skip, Create(family), w);
      CountThen(types, Ops([LocalGet(0), Const(1024), I32GeU]), Then(skip, Create(family)), d, w);
      CountThen(types, skip, Create(family), d1, w);
      if i >= ROOTS {
        assert d1.(stack := d.stack) == d;
        CountGuarded(types, ReadSlot(family), d, w);
      }
    } else {
      LoadRootGuarded(family);
      CountGuarded(types, LoadRoot(family), d, w);
    }
  }

  lemma {:induction false} LoadRootGuarded(family: Family)
    ensures Guarded(LoadRoot(family))
  {
    assert Guarded(LoadPartner());
  }

  lemma {:induction false} CountThen(types: seq<Type>, a: Prog, b: Prog, d: Data, w: Watch)
    requires Eval(types, Then(a, b), d).Some?
    ensures Eval(types, a, d).Some? && Eval(types, b, Eval(types, a, d).value).Some?
    ensures Count(types, Then(a, b), d, w) == Count(types, a, d, w) + Count(types, b, Eval(types, a, d).value, w)
  {
    hide EvalOps;
  }

  lemma {:induction false} MainTurnCount(family: Family, phase: Phase, n: nat, d: Data, i: u32, x: u32, w: Watch)
    requires NineLocals(d) && d.locals[0] == I32(i) && d.locals[1] == I32(x)
    requires Eval(Types(family), MainBody(family, phase, n), d).Some?
    ensures Count(Types(family), MainBody(family, phase, n), d, w) == TurnCount(family, phase, n, i, w)
  {
    hide EvalOps; hide Eval; hide Count; hide Acquire; hide Work; hide ReadSlot; hide Types; hide Advance;
    hide LcgStep; hide Slot; hide Static; hide Next;
    var types := Types(family);
    var acquire, work, advance := Acquire(family, phase), Work(family), Advance(n);
    var d1, d2 := OpenTurn(types, d, i, x);
    CountThen(types, LcgStep(), Then(Slot(), Then(acquire, Then(work, advance))), d, w);
    CountThen(types, Slot(), Then(acquire, Then(work, advance)), d1, w);
    CountThen(types, acquire, Then(work, advance), d2, w);
    CountThen(types, work, advance, Eval(types, acquire, d2).value, w);
    SimpleGuarded(n);
    CountGuarded(types, LcgStep(), d, w);
    CountGuarded(types, Slot(), d1, w);
    AcquireCount(family, phase, d2, i, w);
    WorkGuarded(family);
    StaticThen(LcgStep(), Then(Slot(), Then(acquire, Then(work, advance))), w);
    StaticThen(Slot(), Then(acquire, Then(work, advance)), w);
    StaticThen(acquire, Then(work, advance), w);
    StaticThen(work, advance, w);
    var d3 := Eval(types, acquire, d2).value;
    CountGuarded(types, work, d3, w);
    CountGuarded(types, advance, Eval(types, work, d3).value, w);
  }

  lemma {:induction false} SimpleGuarded(n: nat)
    ensures Guarded(LcgStep()) && Guarded(Slot()) && Guarded(Advance(n))
  {
  }

  lemma {:induction false} SetUpBodyGuarded(family: Family)
    ensures Guarded(SetUpBody(family))
  {
    hide Create; hide Advance;
    SimpleGuarded(1024);
    CreateGuarded(family);
  }

  lemma {:induction false} FinalBodyGuarded(family: Family)
    ensures Guarded(FinalBody(family))
  {
    hide ReadSlot; hide Advance;
    SimpleGuarded(1024);
    ReadSlotGuarded(family);
  }
}
