/** One turn of each loop of the emitted program. */
module TurnProofs {
  import opened Wrappers
  import opened Lcg
  import opened Machine
  import opened Straight
  import opened Families
  import opened Fragments
  import opened FragmentProofs
  import opened Layout
  import opened GroupProofs

  /** The store holds the groups of the history. */
  ghost predicate Holding(family: Family, d: Data, groups: seq<Group>)
  {
    && NineLocals(d) && |d.store.globals| == 2
    && StoreHolds(family, d.store, groups)
    && forall k :: 0 <= k < |groups| ==> Shaped(family, groups[k])
  }

  /** At the loop head of iteration `i`. */
  ghost predicate AtHead(family: Family, d: Data, i: nat, h: History)
  {
    && Holding(family, d, h.groups) && i < MODULUS
    && d.locals[0] == I32(i) && d.locals[1] == I32(h.state) && d.locals[2] == I32(h.total)
  }

  /** Same operands, globals and locals 0 to 5, except possibly `local`. */
  ghost predicate SameExcept(d: Data, d': Data, local: nat)
  {
    && NineLocals(d) && NineLocals(d') && d'.stack == d.stack && d'.store.globals == d.store.globals
    && forall k :: 0 <= k < 6 && k != local ==> d'.locals[k] == d.locals[k]
  }

  lemma {:induction false} SlotOwner(groups: seq<Group>, j: nat, k: nat)
    requires j < ROOTS && j < |groups| && k < |groups| && k % ROOTS == j && |groups| <= k + ROOTS
    ensures Owner(|groups|, j) == k
  {
  }

  lemma {:induction false} SlotHolds(family: Family, store: Store, groups: seq<Group>, j: nat)
    requires StoreHolds(family, store, groups) && j < ROOTS && j < |groups|
    ensures |store.tables| == TableCount(family) && forall t :: 0 <= t < |store.tables| ==> |store.tables[t]| == ROOTS
    ensures var k := Owner(|groups|, j);
            var base := Base(family, k);
            && GroupAt(store.heap, base, groups[k])
            && store.tables[0][j] == Addr(if family.ReferenceArray? then base + 2 else base)
            && (family.ReferenceArray? ==> store.tables[1][j] == Addr(base))
  {
    hide GroupAt;
  }

  /** Load the newest group of slot `j` and add its retained checksum to local 2. */
  lemma {:induction false} ReadSlotRuns(family: Family, d: Data, groups: seq<Group>, j: u32, k: nat, total: u32)
    returns (d': Data)
    requires Holding(family, d, groups) && j < ROOTS && j < |groups| && k == Owner(|groups|, j)
    requires d.locals[3] == I32(j) && d.locals[2] == I32(total)
    ensures Eval(Types(family), ReadSlot(family), d) == Some(d')
    ensures SameExcept(d, d', 2) && d'.store == d.store && d'.locals[2] == I32(Wrap(total + Retained(groups[k])))
  {
    hide AccumulateRetained; hide LoadRoot; hide GroupAt; hide Retained; hide StoreHolds; hide Base; hide Types;
    var base := Base(family, k);
    SlotHolds(family, d.store, groups, j);
    var d1 := LoadRootRuns(family, d, j, base, groups[k]);
    AccumulateRuns(family, d1, base, groups[k], total);
    d' := Local(d1, 2, I32(Wrap(total + Retained(groups[k]))));
  }

  lemma {:induction false} SkipRuns(types: seq<Type>, body: Prog, d: Data)
    ensures Eval(types, When(body), Pushed(d, I32(0))) == Some(d)
  {
  }

  lemma {:induction false} EnterRuns(types: seq<Type>, body: Prog, d: Data, d': Data)
    requires Eval(types, body, d) == Some(d') && d'.stack == d.stack
    ensures Eval(types, When(body), Pushed(d, I32(1))) == Some(d')
  {
    assert Pushed(d, I32(1)).(stack := d.stack) == d;
  }

  lemma {:induction false} RingFullRuns(types: seq<Type>, d: Data, i: u32)
    requires NineLocals(d) && d.locals[0] == I32(i)
    ensures Eval(types, Ops([LocalGet(0), Const(1024), I32GeU]), d) == Some(Pushed(d, I32(Truth(i >= ROOTS))))
  {
  }

  /** The allocate phase reads the root it is about to displace, if there is one. */
  lemma {:induction false} DisplaceRuns(family: Family, d: Data, i: u32, h: History) returns (d': Data)
    requires Holding(family, d, h.groups) && |h.groups| == i
    requires d.locals[0] == I32(i) && d.locals[2] == I32(h.total) && d.locals[3] == I32(i % ROOTS)
    ensures Eval(Types(family), Then(Ops([LocalGet(0), Const(1024), I32GeU]), When(ReadSlot(family))), d) == Some(d')
    ensures SameExcept(d, d', 2) && d'.store == d.store && d'.locals[2] == I32(Carried(Allocate, i, h))
  {
    hide EvalOps; hide ReadSlot; hide Retained; hide GroupAt;
    var types := Types(family);
    RingFullRuns(types, d, i);
    if i >= ROOTS {
      SlotOwner(h.groups, i % ROOTS, i - ROOTS);
      d' := ReadSlotRuns(family, d, h.groups, i % ROOTS, i - ROOTS, h.total);
      EnterRuns(types, ReadSlot(family), d, d');
    } else {
      d' := d;
      SkipRuns(types, ReadSlot(family), d);
    }
  }

  /** Creating the next group keeps the layout. */
  lemma {:induction false} AppendRuns(family: Family, d: Data, i: u32, groups: seq<Group>, state: u32)
    returns (d': Data)
    requires Holding(family, d, groups) && |groups| == i
    requires d.locals[1] == I32(state) && d.locals[3] == I32(i % ROOTS)
    ensures Eval(Types(family), Create(family), d) == Some(d')
    ensures Holding(family, d', groups + [Fresh(family, state)]) && Loaded(family, d', Base(family, i))
      && SameExcept(d, d', 6)
  {
    hide GroupAt; hide Create; hide Types; hide Fresh;
    d' := CreateRuns(family, d, i % ROOTS, state);
    HeapAppend(family, d.store.heap, d'.store.heap, groups, Fresh(family, state));
    TablesAppend(family, d.store.tables, d'.store.tables, i);
    TableLengths(family, d'.store.tables, |groups| + 1);
  }

  lemma {:induction false} TableLengths(family: Family, tables: seq<seq<Val>>, count: nat)
    requires TablesHold(family, tables, count)
    ensures |tables| == TableCount(family) && forall t :: 0 <= t < |tables| ==> |tables[t]| == ROOTS
  {
  }

  /** What acquiring the group of iteration `i` leaves, in either phase. */
  ghost predicate HasGroup(family: Family, d: Data, d': Data, k: nat, groups: seq<Group>, total: u32)
  {
    && Holding(family, d', groups) && k < |groups| && Loaded(family, d', Base(family, k))
    && SameExcept(d, d', 2) && d'.locals[2] == I32(total)
  }

  lemma {:induction false} AcquireAllocateRuns(family: Family, d: Data, i: u32, h: History) returns (d': Data)
    requires Holding(family, d, h.groups) && |h.groups| == i
    requires d.locals[0] == I32(i) && d.locals[1] == I32(Next(h.state)) && d.locals[2] == I32(h.total)
      && d.locals[3] == I32(i % ROOTS)
    ensures Eval(Types(family), Acquire(family, Allocate), d) == Some(d')
    ensures HasGroup(family, d, d', i, Acquired(family, Allocate, h), Carried(Allocate, i, h))
  {
    hide EvalOps; hide StoreHolds; hide Fresh; hide Create; hide ReadSlot; hide Retained; hide Loaded; hide Types;
    hide Next;
    var d1 := DisplaceRuns(family, d, i, h);
    d' := AppendRuns(family, d1, i, h.groups, Next(h.state));
    Reassociate(Types(family), Ops([LocalGet(0), Const(1024), I32GeU]), When(ReadSlot(family)), Create(family), d);
  }

  lemma {:induction false} Reassociate(types: seq<Type>, a: Prog, b: Prog, c: Prog, d: Data)
    ensures Eval(types, Then(a, Then(b, c)), d) == Eval(types, Then(Then(a, b), c), d)
  {
    hide EvalOps;
  }

  lemma {:induction false} AcquireMutateRuns(family: Family, d: Data, i: u32, h: History) returns (d': Data)
    requires Holding(family, d, h.groups) && |h.groups| == ROOTS
    requires d.locals[2] == I32(h.total) && d.locals[3] == I32(i % ROOTS)
    ensures Eval(Types(family), Acquire(family, Mutate), d) == Some(d')
    ensures HasGroup(family, d, d', i % ROOTS, h.groups, h.total)
  {
    hide LoadRoot; hide GroupAt; hide StoreHolds; hide Base; hide Types; hide Loaded;
    var k := i % ROOTS;
    SlotOwner(h.groups, k, k);
    SlotHolds(family, d.store, h.groups, k);
    d' := LoadRootRuns(family, d, k, Base(family, k), h.groups[k]);
  }

  lemma {:induction false} AcquireRuns(family: Family, phase: Phase, d: Data, i: u32, h: History) returns (d': Data)
    requires Holding(family, d, h.groups) && Ready(family, phase, i, h)
    requires d.locals[0] == I32(i) && d.locals[1] == I32(Next(h.state)) && d.locals[2] == I32(h.total)
      && d.locals[3] == I32(i % ROOTS)
    ensures Eval(Types(family), Acquire(family, phase), d) == Some(d')
    ensures HasGroup(family, d, d', Current(phase, i), Acquired(family, phase, h), Carried(phase, i, h))
  {
    hide EvalOps; hide StoreHolds; hide Fresh; hide Acquire; hide Types; hide Next; hide Retained; hide HasGroup;
    if phase == Allocate {
      d' := AcquireAllocateRuns(family, d, i, h);
    } else {
      d' := AcquireMutateRuns(family, d, i, h);
    }
  }

  lemma {:induction false} ValueRuns(types: seq<Type>, d: Data, i: u32, state: u32)
    requires NineLocals(d) && d.locals[0] == I32(i) && d.locals[1] == I32(state)
    ensures Eval(types, Ops([LocalGet(1), LocalGet(0), I32Add, LocalSet(5)]), d)
      == Some(Local(d, 5, I32(Wrap(state + i))))
  {
  }

  lemma {:induction false} TotalRuns(types: seq<Type>, d: Data)
    requires NineLocals(d)
    ensures Eval(types, Ops([LocalGet(2)]), d) == Some(Pushed(d, d.locals[2]))
  {
  }

  /** Rewriting the loaded group rewrites that group of the history. */
  lemma {:induction false} TouchedHolds(family: Family, d: Data, d': Data, groups: seq<Group>, k: nat, g: Group)
    requires Holding(family, d, groups) && k < |groups| && Shaped(family, g)
    requires Touched(family, d, d', Base(family, k), g)
    ensures Holding(family, d', groups[k := g])
  {
    hide GroupAt; hide TablesHold;
    HeapUpdate(family, d.store.heap, d'.store.heap, groups, k, g);
  }

  lemma {:induction false} WorkRuns(family: Family, d: Data, i: u32, k: nat, groups: seq<Group>, state: u32, total: u32)
    returns (d': Data)
    requires Holding(family, d, groups) && k < |groups| && Loaded(family, d, Base(family, k))
    requires d.locals[0] == I32(i) && d.locals[1] == I32(state) && d.locals[2] == I32(total)
    ensures Eval(Types(family), Work(family), d) == Some(d')
    ensures var written := Written(groups[k], state, i);
            && Holding(family, d', groups[k := written])
            && d'.stack == d.stack && d'.store.globals == d.store.globals
            && d'.locals[0] == I32(i) && d'.locals[1] == I32(state)
            && d'.locals[2] == I32(Wrap(total + Observed(written, i)))
  {
    hide EvalOps; hide Touch; hide Types; hide Base; hide StoreHolds; hide Written; hide Observed; hide GroupAt;
    var types, base := Types(family), Base(family, k);
    ValueRuns(types, d, i, state);
    var d1 := Local(d, 5, I32(Wrap(state + i)));
    TotalRuns(types, d1);
    var d2 := Pushed(d1, I32(total));
    GroupHolds(family, d.store, groups, k);
    var d3 := TouchRuns(family, d2, base, groups[k], state, i);
    var written := Written(groups[k], state, i);
    WrittenShaped(family, groups[k], state, i);
    TouchedHolds(family, d2, d3, groups, k, written);
    var d4 := d3.(stack := d.stack);
    AddSetRuns(types, d4, total, Observed(written, i));
    assert d3 == Pushed(d4, I32(total));
    d' := Local(d4, 2, I32(Wrap(total + Observed(written, i))));
  }

  lemma {:induction false} GroupHolds(family: Family, store: Store, groups: seq<Group>, k: nat)
    requires StoreHolds(family, store, groups) && k < |groups|
    ensures GroupAt(store.heap, Base(family, k), groups[k])
  {
    hide GroupAt;
  }

  lemma {:induction false} WrittenShaped(family: Family, g: Group, state: u32, i: nat)
    requires Shaped(family, g)
    ensures Shaped(family, Written(g, state, i))
  {
  }

  lemma {:induction false} MainBodyRuns(types: seq<Type>, a: Prog, b: Prog, c: Prog, e: Prog, f: Prog, d: Data,
                                        d1: Data, d2: Data, d3: Data, d4: Data)
    requires Eval(types, a, d) == Some(d1) && Eval(types, b, d1) == Some(d2)
    requires Eval(types, c, d2) == Some(d3) && Eval(types, e, d3) == Some(d4)
    ensures Eval(types, Then(a, Then(b, Then(c, Then(e, f)))), d) == Eval(types, f, d4)
  {
    hide EvalOps;
    Sequence(types, a, Then(b, Then(c, Then(e, f))), d, d1);
    Sequence(types, b, Then(c, Then(e, f)), d1, d2);
    Sequence(types, c, Then(e, f), d2, d3);
  }

  /** The generator step and the slot computation that open a turn. */
  lemma {:induction false} OpenTurn(types: seq<Type>, d: Data, i: u32, x: u32) returns (d1: Data, d2: Data)
    requires NineLocals(d) && d.locals[0] == I32(i) && d.locals[1] == I32(x)
    ensures Eval(types, LcgStep(), d) == Some(d1) && Eval(types, Slot(), d1) == Some(d2)
    ensures d2 == Local(Local(d, 1, I32(Next(x))), 3, I32(i % ROOTS))
  {
    hide EvalOps; hide Next;
    LcgStepRuns(types, d, x);
    d1 := Local(d, 1, I32(Next(x)));
    SlotRuns(types, d1, i);
    d2 := Local(d1, 3, I32(i % ROOTS));
  }

  /** Iteration `i` of the main loop takes the machine from the head of iteration `i` to the head
      of iteration `i + 1`, with the history advanced as specified. */
  lemma {:induction false} MainTurn(family: Family, phase: Phase, n: u32, d: Data, i: u32, h: History)
    returns (d': Data)
    requires AtHead(family, d, i, h) && i < n && Ready(family, phase, i, h)
    ensures AtHead(family, d', i + 1, Iteration(family, phase, i, h))
    ensures d'.stack == d.stack && d'.store.globals == d.store.globals
    ensures Eval(Types(family), MainBody(family, phase, n), d) == Some(Pushed(d', I32(Truth(i + 1 < n))))
  {
    hide EvalOps; hide Types; hide StoreHolds; hide Acquire; hide LcgStep; hide Slot; hide Advance; hide Work;
    hide Written;
    hide Observed; hide Loaded; hide Next; hide Carried; hide Acquired; hide Valid; hide Eval;
    var types := Types(family);
    var d1, d2 := OpenTurn(types, d, i, h.state);
    var d3 := AcquireRuns(family, phase, d2, i, h);
    var d4 := WorkRuns(family, d3, i, Current(phase, i), Acquired(family, phase, h), Next(h.state),
                       Carried(phase, i, h));
    MainBodyRuns(types, LcgStep(), Slot(), Acquire(family, phase), Work(family), Advance(n), d, d1, d2, d3, d4);
    AdvanceRuns(types, d4, i, n);
    d' := Local(d4, 0, I32(i + 1));
  }

  /** One turn of the mutate phase's set-up loop. */
  lemma {:induction false} SetUpTurn(family: Family, d: Data, i: u32) returns (d': Data)
    requires i < ROOTS && AtHead(family, d, i, SetUp(family, i))
    ensures AtHead(family, d', i + 1, SetUp(family, i + 1))
    ensures d'.stack == d.stack && d'.store.globals == d.store.globals
    ensures Eval(Types(family), SetUpBody(family), d) == Some(Pushed(d', I32(Truth(i + 1 < 1024))))
  {
    hide EvalOps; hide Eval; hide Types; hide StoreHolds; hide Create; hide Fresh; hide LcgStep; hide Slot;
    hide Advance; hide Loaded; hide Next; hide Valid;
    var types, h := Types(family), SetUp(family, i);
    var d1, d2 := OpenTurn(types, d, i, h.state);
    var d3 := AppendRuns(family, d2, i, h.groups, Next(h.state));
    AdvanceRuns(types, d3, i, 1024);
    d' := Local(d3, 0, I32(i + 1));
    Sequence(types, LcgStep(), Then(Slot(), Then(Create(family), Advance(1024))), d, d1);
    Sequence(types, Slot(), Then(Create(family), Advance(1024)), d1, d2);
    Sequence(types, Create(family), Advance(1024), d2, d3);
  }

  /** At the head of the final traversal, with the first `j` slots summed up. */
  ghost predicate AtFinalHead(family: Family, d: Data, j: nat, h: History)
  {
    && Holding(family, d, h.groups) && j <= ROOTS <= |h.groups|
    && d.locals[0] == I32(j) && d.locals[1] == I32(h.state) && d.locals[2] == I32(RootSum(h.groups, j))
  }

  /** One turn of the final traversal. */
  lemma {:induction false} FinalTurn(family: Family, d: Data, j: u32, h: History) returns (d': Data)
    requires AtFinalHead(family, d, j, h) && j < ROOTS
    ensures AtFinalHead(family, d', j + 1, h)
    ensures d'.stack == d.stack && d'.store == d.store
    ensures Eval(Types(family), FinalBody(family), d) == Some(Pushed(d', I32(Truth(j + 1 < 1024))))
  {
    hide EvalOps; hide Types; hide StoreHolds; hide ReadSlot; hide Slot; hide Advance; hide Retained;
    var types := Types(family);
    SlotRuns(types, d, j);
    var d1 := Local(d, 3, I32(j));
    var d2 := ReadSlotRuns(family, d1, h.groups, j, Owner(|h.groups|, j), RootSum(h.groups, j));
    AdvanceRuns(types, d2, j, 1024);
    d' := Local(d2, 0, I32(j + 1));
    Sequence(types, Slot(), Then(ReadSlot(family), Advance(1024)), d, d1);
    Sequence(types, ReadSlot(family), Advance(1024), d1, d2);
  }
}
