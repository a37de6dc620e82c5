/** Closed forms for the dynamic heap operations of the emitted program, and
    the proof that the machine executes exactly that many. */
module OperationCounts {
  import opened Wrappers
  import opened Lcg
  import opened Machine
  import opened Straight
  import opened Families
  import opened Fragments
  import opened CountProofs
  import opened RunProofs
  import Oracle

  /** The counted source operations. */
  datatype Kind =
    | StructNews | ArrayNews
    | StructGetScalars | StructGetReferences | StructSetScalars | StructSetReferences
    | ArrayGetScalars | ArrayGetReferences | ArraySetScalars | ArraySetReferences
    | ArrayLens | TableGets | TableSets | RefCasts | RefAsNonNulls | RefEqs

  /** The kind an instruction counts as; accesses are classified by the storage of field or element. */
  function KindOf(family: Family, op: Op): (k: Option<Kind>)
  {
    match op
    case StructNew(_) => Some(StructNews)
    case ArrayNew(_) => Some(ArrayNews)
    case StructGet(_, f) => Some(if f == 0 then StructGetScalars else StructGetReferences)
    case StructSet(_, f) => Some(if f == 0 then StructSetScalars else StructSetReferences)
    case ArrayGet(_) => Some(if family.ReferenceArray? then ArrayGetReferences else ArrayGetScalars)
    case ArraySet(_) => Some(if family.ReferenceArray? then ArraySetReferences else ArraySetScalars)
    case ArrayLen => Some(ArrayLens)
    case TableGet(_) => Some(TableGets)
    case TableSet(_) => Some(TableSets)
    case RefCast(_) => Some(RefCasts)
    case RefAsNonNull => Some(RefAsNonNulls)
    case RefEq => Some(RefEqs)
    case _ => None
  }

  /** The instructions of one kind. */
  function OfKind(family: Family, kind: Kind): (w: Watch) { (op: Op) => KindOf(family, op) == Some(kind) }

  /** `w` counts nothing but heap and table operations. */
  ghost predicate HeapOnly(w: Watch)
  {
    forall op: Op :: (op.I32Const? || op.LocalGet? || op.LocalSet? || op.GlobalGet? || op.GlobalSet? || IsBinary(op)
                      || op.RefNull?)
                 ==> Marks(w, op) == 0
  }

  lemma {:induction false} KindsAreHeapOnly(family: Family, kind: Kind)
    ensures HeapOnly(OfKind(family, kind))
  {
  }

  // ----- What each fragment executes -----

  /** Two, three and four instructions with symbolic immediates. */
  lemma {:induction false} TallyFour(a: Op, b: Op, c: Op, d: Op, w: Watch)
    ensures Tally([a, b], 0, w) == Marks(w, a) + Marks(w, b)
    ensures Tally([a, b, c], 0, w) == Marks(w, a) + Marks(w, b) + Marks(w, c)
    ensures Tally([a, b, c, d], 0, w) == Marks(w, a) + Marks(w, b) + Marks(w, c) + Marks(w, d)
  {
    hide Marks;
    assert Tally([a, b], 1, w) == Marks(w, b);
    assert Tally([a, b, c], 2, w) == Marks(w, c);
    assert Tally([a, b, c], 1, w) == Marks(w, b) + Marks(w, c);
    assert Tally([a, b, c, d], 3, w) == Marks(w, d);
    assert Tally([a, b, c, d], 2, w) == Marks(w, c) + Marks(w, d);
    assert Tally([a, b, c, d], 1, w) == Marks(w, b) + Marks(w, c) + Marks(w, d);
  }

  lemma {:induction false} CreateCycleMarks(w: Watch)
    requires HeapOnly(w)
    ensures Static(CreateCycle(), w) == 2 * Marks(w, StructNew(0)) + Marks(w, StructSet(0, 1))
  {
    hide Marks;
  }

  lemma {:induction false} StoreSlotMarks(table: nat, local: nat, w: Watch)
    requires HeapOnly(w)
    ensures Static(StoreSlot(table, local), w) == Marks(w, TableSet(table))
  {
    hide Marks;
    TallyFour(LocalGet(3), LocalGet(local), TableSet(table), Drop, w);
  }

  /** Heap operations of one group creation. */
  function CreateMarks(family: Family, w: Watch): (n: nat)
  {
    match family
    case MutableStruct => Marks(w, StructNew(0)) + Marks(w, TableSet(0))
    case ReferenceCycle => 2 * Marks(w, StructNew(0)) + Marks(w, StructSet(0, 1)) + Marks(w, TableSet(0))
    case NumericArray => Marks(w, ArrayNew(0)) + Marks(w, TableSet(0))
    case ReferenceArray =>
      2 * Marks(w, StructNew(0)) + Marks(w, StructSet(0, 1)) + Marks(w, ArrayNew(1)) + Marks(w, TableSet(0))
        + Marks(w, TableSet(1))
  }

  lemma {:induction false} CreateStatic(family: Family, w: Watch)
    requires HeapOnly(w)
    ensures Static(Create(family), w) == CreateMarks(family, w)
  {
    hide Marks; hide CreateCycle; hide StoreSlot;
    CreateCycleMarks(w);
    StoreSlotMarks(0, 6, w);
    StoreSlotMarks(0, 8, w);
    StoreSlotMarks(1, 6, w);
  }

  lemma {:induction false} GetFieldMarks(field: nat, local: nat, w: Watch)
    requires HeapOnly(w)
    ensures Static(GetField(field, local), w) == Marks(w, StructGet(0, field))
  {
    hide Marks;
    TallyFour(LocalGet(local), StructGet(0, field), Drop, Drop, w);
  }

  lemma {:induction false} SetFieldMarks(field: nat, value: nat, w: Watch)
    requires HeapOnly(w)
    ensures Static(SetField(field, value), w) == Marks(w, StructSet(0, field))
  {
    hide Marks;
    TallyFour(LocalGet(6), LocalGet(value), StructSet(0, field), Drop, w);
  }

  lemma {:induction false} LoadSlotMarks(table: nat, typ: nat, local: nat, w: Watch)
    requires HeapOnly(w)
    ensures Static(LoadSlot(table, typ, local), w) == Marks(w, TableGet(table)) + Marks(w, RefCast(typ))
  {
    hide Marks;
    TallyFour(LocalGet(3), TableGet(table), RefCast(typ), LocalSet(local), w);
  }

  /** Heap operations of one root load. */
  function LoadMarks(family: Family, w: Watch): (n: nat)
  {
    match family
    case MutableStruct => Marks(w, TableGet(0)) + Marks(w, RefCast(0))
    case ReferenceCycle => Marks(w, TableGet(0)) + Marks(w, RefCast(0)) + Marks(w, StructGet(0, 1))
      + Marks(w, RefAsNonNull)
    case NumericArray => Marks(w, TableGet(0)) + Marks(w, RefCast(0))
    case ReferenceArray =>
      Marks(w, TableGet(0)) + Marks(w, RefCast(1)) + Marks(w, TableGet(1)) + Marks(w, RefCast(0))
      + Marks(w, StructGet(0, 1)) + Marks(w, RefAsNonNull)
  }

  lemma {:induction false} LoadPartnerMarks(w: Watch)
    requires HeapOnly(w)
    ensures Static(LoadPartner(), w) == Marks(w, StructGet(0, 1)) + Marks(w, RefAsNonNull)
  {
    hide Marks; hide GetField;
    GetFieldMarks(1, 6, w);
  }

  lemma {:induction false} LoadStatic(family: Family, w: Watch)
    requires HeapOnly(w)
    ensures Static(LoadRoot(family), w) == LoadMarks(family, w)
  {
    hide Marks; hide LoadSlot; hide LoadPartner;
    LoadPartnerMarks(w);
    LoadSlotMarks(0, 0, 6, w);
    LoadSlotMarks(0, 0, 8, w);
    LoadSlotMarks(0, 1, 8, w);
    LoadSlotMarks(1, 0, 6, w);
  }

  lemma {:induction false} CycleCheckMarks(w: Watch)
    requires HeapOnly(w)
    ensures Static(CycleCheck(), w) == Marks(w, StructGet(0, 1)) + Marks(w, RefEq)
  {
    hide Marks;
    assert Static(TrapUnlessEqual(), w) == 0;
  }

  lemma {:induction false} LengthCheckMarks(w: Watch)
    requires HeapOnly(w)
    ensures Static(LengthCheck(), w) == Marks(w, ArrayLen)
  {
    hide Marks;
    assert Static(TrapUnlessEqual(), w) == 0;
  }

  /** What one unrolled element read executes. */
  function ElementMarks(family: Family, w: Watch): (n: nat)
  {
    if family.ReferenceArray? then Marks(w, ArrayGet(1)) + Marks(w, StructGet(0, 0)) else Marks(w, ArrayGet(0))
  }

  lemma {:induction false} ReadElementMarks(family: Family, j: nat, w: Watch)
    requires HeapOnly(w)
    ensures Static(ReadElement(family, j), w) == ElementMarks(family, w)
  {
    hide Marks;
    TallyFour(LocalGet(8), Const(j), ArrayGet(if family.ReferenceArray? then 1 else 0), Drop, w);
    TallyFour(StructGet(0, 0), I32Add, Drop, Drop, w);
  }

  lemma {:induction false} ReadElementsMarks(family: Family, n: nat, w: Watch)
    requires HeapOnly(w)
    ensures Static(ReadElements(family, n), w) == n * ElementMarks(family, w)
    decreases n
  {
    hide Marks; hide ReadElement; hide ElementMarks;
    if n == 0 {
      assert Static(Ops([Const(0)]), w) == 0;
    } else {
      ReadElementsMarks(family, n - 1, w);
      ReadElementMarks(family, n - 1, w);
      MulNext(n - 1, ElementMarks(family, w));
    }
  }

  lemma {:induction false} MulNext(k: nat, x: nat)
    ensures (k + 1) * x == k * x + x && 0 * x == 0
  {
  }

  /** Heap operations of one complete readback. */
  function ReadMarks(family: Family, w: Watch): (n: nat)
  {
    match family
    case MutableStruct => Marks(w, StructGet(0, 0))
    case ReferenceCycle => 2 * Marks(w, StructGet(0, 0)) + Marks(w, StructGet(0, 1)) + Marks(w, RefEq)
    case NumericArray => Marks(w, ArrayLen) + 8 * Marks(w, ArrayGet(0))
    case ReferenceArray =>
      Marks(w, ArrayLen) + 8 * Marks(w, ArrayGet(1)) + 8 * Marks(w, StructGet(0, 0)) + Marks(w, StructGet(0, 1))
        + Marks(w, RefEq)
  }

  lemma {:induction false} ReadStatic(family: Family, w: Watch)
    requires HeapOnly(w)
    ensures Static(RetainedCode(family), w) == ReadMarks(family, w)
  {
    hide Marks; hide GetField; hide CycleCheck; hide LengthCheck; hide ReadElements;
    GetFieldMarks(0, 6, w);
    GetFieldMarks(0, 7, w);
    CycleCheckMarks(w);
    LengthCheckMarks(w);
    ReadElementsMarks(family, WIDTH, w);
    if family.ReferenceCycle? {
      assert Static(Then(GetField(0, 7), Then(Ops([I32Add]), CycleCheck())), w)
          == Marks(w, StructGet(0, 0)) + Marks(w, StructGet(0, 1)) + Marks(w, RefEq);
    }
  }

  /** Heap operations of one mutation. */
  function WorkMarks(family: Family, w: Watch): (n: nat)
  {
    match family
    case MutableStruct => Marks(w, StructSet(0, 0)) + Marks(w, StructGet(0, 0))
    case ReferenceCycle =>
      Marks(w, StructSet(0, 0)) + 2 * Marks(w, StructSet(0, 1)) + 3 * Marks(w, StructGet(0, 0))
        + 3 * Marks(w, StructGet(0, 1)) + Marks(w, RefEq)
    case NumericArray => 2 * Marks(w, ArraySet(0)) + 2 * Marks(w, ArrayGet(0)) + Marks(w, ArrayLen)
    case ReferenceArray =>
      Marks(w, StructSet(0, 0)) + 2 * Marks(w, ArraySet(1)) + 2 * Marks(w, ArrayGet(1)) + 2 * Marks(w, StructGet(0, 0))
      + Marks(w, ArrayLen) + Marks(w, StructGet(0, 1)) + Marks(w, RefEq)
  }

  lemma {:induction false} ObserveCycleMarks(w: Watch)
    requires HeapOnly(w)
    ensures Static(ObserveCycle(), w)
      == 2 * Marks(w, StructSet(0, 1)) + 3 * Marks(w, StructGet(0, 0)) + 3 * Marks(w, StructGet(0, 1)) + Marks(w, RefEq)
  {
    hide Marks; hide GetField; hide SetField; hide CycleCheck;
    SetFieldMarks(1, 6, w);
    SetFieldMarks(1, 7, w);
    GetFieldMarks(0, 6, w);
    GetFieldMarks(1, 6, w);
    CycleCheckMarks(w);
    TallyFour(StructGet(0, 0), I32Add, Drop, Drop, w);
  }

  lemma {:induction false} FollowingIndexMarks(w: Watch)
    requires HeapOnly(w)
    ensures Static(FollowingIndex(), w) == 0
  {
    hide Marks;
  }

  lemma {:induction false} WriteMarks(family: Family, w: Watch)
    requires HeapOnly(w) && HasArray(family)
    ensures Static(WriteElements(family), w) == 2 * Marks(w, ArraySet(ArrayIndex(family)))
  {
    hide Marks; hide FollowingIndex; hide Tally;
    FollowingIndexMarks(w);
    TallyFour(LocalGet(8), LocalGet(4), LocalGet(7), ArraySet(1), w);
    TallyFour(LocalGet(6), ArraySet(1), Drop, Drop, w);
    TallyFour(LocalGet(8), LocalGet(4), Drop, Drop, w);
    TallyFour(LocalGet(1), Const(SALT), I32Xor, ArraySet(0), w);
    TallyFour(LocalGet(5), ArraySet(0), Drop, Drop, w);
    var put := Then(FollowingIndex(), Ops([LocalGet(5), ArraySet(0)]));
    StaticThen(FollowingIndex(), Ops([LocalGet(5), ArraySet(0)]), w);
    StaticThen(Ops([LocalGet(1), Const(SALT), I32Xor, ArraySet(0)]), put, w);
    StaticThen(Ops([LocalGet(8), LocalGet(4)]), Then(Ops([LocalGet(1), Const(SALT), I32Xor, ArraySet(0)]), put), w);
  }

  lemma {:induction false} TallyOne(a: Op, w: Watch)
    ensures Tally([a], 0, w) == Marks(w, a)
  {
    hide Marks;
    assert Tally([a], 1, w) == 0;
  }

  lemma {:induction false} ObserveNumbersMarks(w: Watch)
    requires HeapOnly(w)
    ensures Static(ObserveElements(NumericArray), w) == 2 * Marks(w, ArrayGet(0)) + Marks(w, ArrayLen)
  {
    hide Marks; hide FollowingIndex; hide Tally;
    FollowingIndexMarks(w);
    TallyFour(LocalGet(8), LocalGet(4), ArrayGet(0), Drop, w);
    TallyFour(ArrayGet(0), I32Add, Drop, Drop, w);
    TallyFour(LocalGet(8), ArrayLen, I32Add, Drop, w);
  }

  lemma {:induction false} ObserveLinksMarks(w: Watch)
    requires HeapOnly(w)
    ensures Static(ObserveElements(ReferenceArray), w)
      == 2 * Marks(w, ArrayGet(1)) + Marks(w, ArrayLen) + 2 * Marks(w, StructGet(0, 0))
  {
    hide Marks; hide FollowingIndex; hide Tally;
    FollowingIndexMarks(w);
    TallyFour(LocalGet(8), LocalGet(4), ArrayGet(1), Drop, w);
    TallyOne(StructGet(0, 0), w);
    TallyOne(ArrayGet(1), w);
    TallyFour(StructGet(0, 0), I32Add, Drop, Drop, w);
    TallyFour(LocalGet(8), ArrayLen, I32Add, Drop, w);
  }

  lemma {:induction false} TouchPlainStatic(w: Watch)
    requires HeapOnly(w)
    ensures Static(Touch(MutableStruct), w) == WorkMarks(MutableStruct, w)
    ensures Static(Touch(ReferenceCycle), w) == WorkMarks(ReferenceCycle, w)
  {
    hide Marks; hide GetField; hide SetField; hide ObserveCycle; hide HeapOnly;
    SetFieldMarks(0, 5, w);
    GetFieldMarks(0, 6, w);
    ObserveCycleMarks(w);
  }

  lemma {:induction false} TouchArraysStatic(w: Watch)
    requires HeapOnly(w)
    ensures Static(Touch(NumericArray), w) == WorkMarks(NumericArray, w)
    ensures Static(Touch(ReferenceArray), w) == WorkMarks(ReferenceArray, w)
  {
    hide Marks; hide SetField; hide CycleCheck; hide WriteElements; hide ObserveElements; hide HeapOnly; hide Static;
    SetFieldMarks(0, 5, w);
    CycleCheckMarks(w);
    SelectMarks(w);
    var select := Ops([LocalGet(0), Const(7), I32And, LocalSet(4)]);
    WriteMarks(NumericArray, w);
    ObserveNumbersMarks(w);
    StaticThen(WriteElements(NumericArray), ObserveElements(NumericArray), w);
    StaticThen(select, Then(WriteElements(NumericArray), ObserveElements(NumericArray)), w);
    WriteMarks(ReferenceArray, w);
    ObserveLinksMarks(w);
    var observe := Then(ObserveElements(ReferenceArray), CycleCheck());
    StaticThen(ObserveElements(ReferenceArray), CycleCheck(), w);
    StaticThen(WriteElements(ReferenceArray), observe, w);
    StaticThen(select, Then(WriteElements(ReferenceArray), observe), w);
    StaticThen(SetField(0, 5), Then(select, Then(WriteElements(ReferenceArray), observe)), w);
  }

  lemma {:induction false} SelectMarks(w: Watch)
    requires HeapOnly(w)
    ensures Static(Ops([LocalGet(0), Const(7), I32And, LocalSet(4)]), w) == 0
    ensures Static(Ops([LocalGet(1), LocalGet(0), I32Add, LocalSet(5)]), w) == 0
  {
    hide Marks;
  }

  lemma {:induction false} WorkStatic(family: Family, w: Watch)
    requires HeapOnly(w)
    ensures Static(Work(family), w) == WorkMarks(family, w)
  {
    hide Static; hide Touch; hide WorkMarks; hide HeapOnly;
    TouchPlainStatic(w);
    TouchArraysStatic(w);
    SelectMarks(w);
    QuietOps(w);
    var add := Ops([I32Add, LocalSet(2)]);
    StaticThen(Touch(family), add, w);
    StaticThen(Ops([LocalGet(2)]), Then(Touch(family), add), w);
    StaticThen(Ops([LocalGet(1), LocalGet(0), I32Add, LocalSet(5)]), Then(Ops([LocalGet(2)]), Then(Touch(family), add)),
               w);
  }

  lemma {:induction false} QuietTurn(n: nat, w: Watch)
    requires HeapOnly(w)
    ensures Static(LcgStep(), w) == 0 && Static(Slot(), w) == 0 && Static(Advance(n), w) == 0
  {
    hide Marks;
    TallyFour(LocalGet(0), Const(n), I32LtU, Drop, w);
  }

  lemma {:induction false} QuietEnds(w: Watch)
    requires HeapOnly(w)
    ensures Static(Prologue(), w) == 0 && Static(ResetIndex(), w) == 0 && Static(PublishSteps(), w) == 0
  {
    hide Marks;
  }

  lemma {:induction false} QuietCheck(get: Op, x: u32, w: Watch)
    requires HeapOnly(w) && (get.LocalGet? || get.GlobalGet?)
    ensures Static(Then(Ops([get, Const(x)]), TrapUnlessEqual()), w) == 0
    ensures Static(Then(Ops([Const(x)]), TrapUnlessEqual()), w) == 0
  {
    hide Marks;
    TallyFour(get, Const(x), Drop, Drop, w);
    TallyOne(Const(x), w);
    assert Static(TrapUnlessEqual(), w) == 0;
  }

  lemma {:induction false} QuietEpilogue(e: Checksums, w: Watch)
    requires HeapOnly(w)
    ensures Static(Epilogue(e), w) == 0 && Static(CheckResult(e), w) == 0
  {
    hide Marks; hide Static; hide TrapUnlessEqual;
    QuietCheck(LocalGet(1), e.lastLcg, w);
    QuietCheck(GlobalGet(0), e.step, w);
    QuietCheck(GlobalGet(1), e.root, w);
    QuietCheck(GlobalGet(1), e.result, w);
    var last := Ops([GlobalGet(0), GlobalGet(1), I32Xor]);
    StaticThen(CheckGlobal(1, e.root), last, w);
    StaticThen(CheckGlobal(0, e.step), Then(CheckGlobal(1, e.root), last), w);
    StaticThen(CheckLocal(1, e.lastLcg), Then(CheckGlobal(0, e.step), Then(CheckGlobal(1, e.root), last)), w);
    StaticThen(Ops([LocalGet(2), GlobalSet(1)]),
               Then(CheckLocal(1, e.lastLcg), Then(CheckGlobal(0, e.step), Then(CheckGlobal(1, e.root), last))), w);
    QuietOps(w);
  }

  lemma {:induction false} QuietOps(w: Watch)
    requires HeapOnly(w)
    ensures Static(Ops([GlobalGet(0), GlobalGet(1), I32Xor]), w) == 0
      && Static(Ops([LocalGet(2), GlobalSet(1)]), w) == 0
    ensures Static(Ops([LocalGet(2)]), w) == 0 && Static(Ops([I32Add, LocalSet(2)]), w) == 0
    ensures Static(Ops([LocalGet(0), Const(1024), I32GeU]), w) == 0
  {
    hide Marks;
  }

  // ----- The whole run -----

  lemma {:induction false} TurnsIs(k: nat, x: nat)
    ensures Turns(k, x) == k * x
    decreases k
  {
    if k > 0 {
      TurnsIs(k - 1, x);
      MulNext(k - 1, x);
    }
  }

  /** Iterations from `i` on that displace a root. */
  function Displacing(phase: Phase, n: nat, i: nat): (k: nat)
  {
    if phase == Mutate || i >= n then 0 else if n <= ROOTS then 0 else n - (if i < ROOTS then ROOTS else i)
  }

  lemma {:induction false} MainHitsIs(family: Family, phase: Phase, n: nat, i: nat, w: Watch)
    requires i <= n
    ensures MainHits(family, phase, n, i, w)
         == (n - i) * Static(MainBody(family, phase, n), w) + Displacing(phase, n, i) * Static(ReadSlot(family), w)
    decreases n - i
  {
    hide Static; hide MainBody; hide ReadSlot;
    var x, y := Static(MainBody(family, phase, n), w), Static(ReadSlot(family), w);
    if i == n {
      MulNext(0, x);
      MulNext(0, y);
    } else {
      MainHitsIs(family, phase, n, i + 1, w);
      MulNext(n - i - 1, x);
      MulNext(Displacing(phase, n, i + 1), y);
      MulNext(0, y);
    }
  }

  /** `groups` groups are created, `displaced` old roots are read, roots are loaded `loads` times and read
      back completely `readback` times. */
  datatype Totals = Totals(groups: nat, displaced: nat, loads: nat, readback: nat)

  function TotalsOf(phase: Phase, n: nat): (t: Totals)
    requires n >= ROOTS
  {
    var displaced := if phase == Allocate then n - ROOTS else 0;
    Totals(if phase == Allocate then n else ROOTS, displaced,
           if phase == Allocate then displaced + ROOTS else n + ROOTS, displaced + ROOTS)
  }

  lemma {:induction false} ReadSlotStatic(family: Family, w: Watch)
    requires HeapOnly(w)
    ensures Static(ReadSlot(family), w) == Static(LoadRoot(family), w) + Static(RetainedCode(family), w)
  {
    hide LoadRoot; hide RetainedCode; hide Static; hide HeapOnly;
    QuietOps(w);
    var add := Ops([I32Add, LocalSet(2)]);
    StaticThen(RetainedCode(family), add, w);
    StaticThen(Ops([LocalGet(2)]), Then(RetainedCode(family), add), w);
    StaticThen(LoadRoot(family), AccumulateRetained(family), w);
  }

  lemma {:induction false} AcquireStatic(family: Family, phase: Phase, w: Watch)
    requires HeapOnly(w)
    ensures Static(Acquire(family, phase), w)
      == if phase == Allocate then Static(Create(family), w) else Static(LoadRoot(family), w)
  {
    hide LoadRoot; hide Create; hide HeapOnly; hide ReadSlot; hide Tally;
    QuietOps(w);
  }

  lemma {:induction false} BodyStatic(family: Family, phase: Phase, n: nat, w: Watch)
    requires HeapOnly(w)
    ensures Static(MainBody(family, phase, n), w) == Static(Acquire(family, phase), w) + Static(Work(family), w)
    ensures Static(SetUpBody(family), w) == Static(Create(family), w)
    ensures Static(FinalBody(family), w) == Static(ReadSlot(family), w)
  {
    hide Static; hide ReadSlot; hide Acquire; hide Create; hide Work; hide LcgStep; hide Slot; hide Advance;
    hide HeapOnly;
    QuietTurn(n, w);
    QuietTurn(1024, w);
    var acquire, work, advance := Acquire(family, phase), Work(family), Advance(n);
    StaticThen(LcgStep(), Then(Slot(), Then(acquire, Then(work, advance))), w);
    StaticThen(Slot(), Then(acquire, Then(work, advance)), w);
    StaticThen(acquire, Then(work, advance), w);
    StaticThen(work, advance, w);
    StaticThen(LcgStep(), Then(Slot(), Then(Create(family), Advance(1024))), w);
    StaticThen(Slot(), Then(Create(family), Advance(1024)), w);
    StaticThen(Create(family), Advance(1024), w);
    StaticThen(Slot(), Then(ReadSlot(family), Advance(1024)), w);
    StaticThen(ReadSlot(family), Advance(1024), w);
  }

  /** What the machine executes, in terms of the totals. */
  lemma {:induction false} HitsByTotals(family: Family, phase: Phase, n: nat, e: Checksums, w: Watch)
    requires n >= ROOTS && HeapOnly(w)
    ensures var t := TotalsOf(phase, n);
            ProgramHits(family, phase, n, e, w)
            == t.groups * Static(Create(family), w) + t.loads * Static(LoadRoot(family), w)
               + t.readback * Static(RetainedCode(family), w) + n * Static(Work(family), w)
  {
    hide Static; hide Create; hide LoadRoot; hide RetainedCode; hide Work; hide Turns; hide MainHits; hide HeapOnly;
    QuietEnds(w);
    QuietEpilogue(e, w);
    BodyStatic(family, phase, n, w);
    AcquireStatic(family, phase, w);
    ReadSlotStatic(family, w);
    MainHitsIs(family, phase, n, 0, w);
    var create, load, read, work := Static(Create(family), w), Static(LoadRoot(family), w),
      Static(RetainedCode(family), w), Static(Work(family), w);
    TurnsIs(ROOTS, create);
    TurnsIs(ROOTS, load + read);
    Distribute(phase, n, create, load, read, work);
  }

  lemma {:induction false} Distribute(phase: Phase, n: nat, create: nat, load: nat, read: nat, work: nat)
    requires n >= ROOTS
    ensures var t := TotalsOf(phase, n);
            (if phase == Mutate then ROOTS * create else 0)
            + (n * ((if phase == Allocate then create else load) + work) + Displacing(phase, n, 0) * (load + read))
            + ROOTS * (load + read)
            == t.groups * create + t.loads * load + t.readback * read + n * work
  {
    var k := n - ROOTS;
    assert k * (load + read) == k * load + k * read;
    assert n * (create + work) == n * create + n * work;
    assert n * (load + work) == n * load + n * work;
    assert (k + ROOTS) * load == k * load + ROOTS * load && (k + ROOTS) * read == k * read + ROOTS * read;
    assert (n + ROOTS) * load == n * load + ROOTS * load;
  }

  // ----- The audited formulas -----

  /** The closed form for one kind of operation, as audited for each family. */
  function SourceCount(family: Family, phase: Phase, n: nat, kind: Kind): (count: nat)
    requires n >= ROOTS
  {
    var t := TotalsOf(phase, n);
    match kind
    case StructNews =>
      (match family case MutableStruct => t.groups case NumericArray => 0 case _ => 2 * t.groups)
    case ArrayNews => if HasArray(family) then t.groups else 0
    case StructGetScalars =>
      (match family
       case MutableStruct => n + t.readback
       case ReferenceCycle => 3 * n + 2 * t.readback
       case NumericArray => 0
       case ReferenceArray => 2 * n + 8 * t.readback)
    case StructGetReferences =>
      (match family
       case ReferenceCycle => 3 * n + t.loads + t.readback
       case ReferenceArray => n + t.loads + t.readback
       case _ => 0)
    case StructSetScalars => if family.NumericArray? then 0 else n
    case StructSetReferences =>
      (match family case ReferenceCycle => t.groups + 2 * n case ReferenceArray => t.groups case _ => 0)
    case ArrayGetScalars => if family.NumericArray? then 2 * n + 8 * t.readback else 0
    case ArrayGetReferences => if family.ReferenceArray? then 2 * n + 8 * t.readback else 0
    case ArraySetScalars => if family.NumericArray? then 2 * n else 0
    case ArraySetReferences => if family.ReferenceArray? then 2 * n else 0
    case ArrayLens => if HasArray(family) then n + t.readback else 0
    case TableGets => if family.ReferenceArray? then 2 * t.loads else t.loads
    case TableSets => if family.ReferenceArray? then 2 * t.groups else t.groups
    case RefCasts => if family.ReferenceArray? then 2 * t.loads else t.loads
    case RefAsNonNulls => if HasRefs(family) then t.loads else 0
    case RefEqs => if HasRefs(family) then n + t.readback else 0
  }

  /** Operations of one kind in one creation, load, readback and mutation. */
  datatype Costs = Costs(create: nat, load: nat, read: nat, work: nat)

  function CostsOf(family: Family, kind: Kind): (c: Costs)
  {
    var w := OfKind(family, kind);
    Costs(CreateMarks(family, w), LoadMarks(family, w), ReadMarks(family, w), WorkMarks(family, w))
  }

  function CostTable(family: Family, kind: Kind): (c: Costs)
  {
    var refs, arrays, tables := if HasRefs(family) then 1 else 0, if HasArray(family) then 1 else 0, TableCount(family);
    match kind
    case StructNews => Costs(if family.NumericArray? then 0 else 1 + refs, 0, 0, 0)
    case ArrayNews => Costs(arrays, 0, 0, 0)
    case StructGetScalars =>
      (match family
       case MutableStruct => Costs(0, 0, 1, 1)
       case ReferenceCycle => Costs(0, 0, 2, 3)
       case NumericArray => Costs(0, 0, 0, 0)
       case ReferenceArray => Costs(0, 0, 8, 2))
    case StructGetReferences => Costs(0, refs, refs, if family.ReferenceCycle? then 3 else refs)
    case StructSetScalars => Costs(0, 0, 0, if family.NumericArray? then 0 else 1)
    case StructSetReferences => Costs(refs, 0, 0, if family.ReferenceCycle? then 2 else 0)
    case ArrayGetScalars => if family.NumericArray? then Costs(0, 0, 8, 2) else Costs(0, 0, 0, 0)
    case ArrayGetReferences => if family.ReferenceArray? then Costs(0, 0, 8, 2) else Costs(0, 0, 0, 0)
    case ArraySetScalars => Costs(0, 0, 0, if family.NumericArray? then 2 else 0)
    case ArraySetReferences => Costs(0, 0, 0, if family.ReferenceArray? then 2 else 0)
    case ArrayLens => Costs(0, 0, arrays, arrays)
    case TableGets => Costs(0, tables, 0, 0)
    case TableSets => Costs(tables, 0, 0, 0)
    case RefCasts => Costs(0, tables, 0, 0)
    case RefAsNonNulls => Costs(0, refs, 0, 0)
    case RefEqs => Costs(0, 0, refs, refs)
  }

  function Is(kind: Kind, k: Kind): (n: nat) { if kind == k then 1 else 0 }

  lemma {:induction false} KindMark(family: Family, kind: Kind, op: Op, k: Kind)
    requires KindOf(family, op) == Some(k)
    ensures Marks(OfKind(family, kind), op) == Is(kind, k)
  {
    hide KindOf;
  }

  lemma {:induction false} StructKindMarks(family: Family, kind: Kind)
    ensures var w := OfKind(family, kind);
            && Marks(w, StructNew(0)) == Is(kind, StructNews)
            && Marks(w, StructGet(0, 0)) == Is(kind, StructGetScalars)
            && Marks(w, StructGet(0, 1)) == Is(kind, StructGetReferences)
            && Marks(w, StructSet(0, 0)) == Is(kind, StructSetScalars)
            && Marks(w, StructSet(0, 1)) == Is(kind, StructSetReferences)
  {
    hide Marks; hide OfKind; hide Is;
    KindMark(family, kind, StructNew(0), StructNews);
    KindMark(family, kind, StructGet(0, 0), StructGetScalars);
    KindMark(family, kind, StructGet(0, 1), StructGetReferences);
    KindMark(family, kind, StructSet(0, 0), StructSetScalars);
    KindMark(family, kind, StructSet(0, 1), StructSetReferences);
  }

  lemma {:induction false} ArrayKindMarks(family: Family, kind: Kind, t: nat)
    ensures var w, links := OfKind(family, kind), family.ReferenceArray?;
            && Marks(w, ArrayNew(t)) == Is(kind, ArrayNews) && Marks(w, ArrayLen) == Is(kind, ArrayLens)
            && Marks(w, ArrayGet(t)) == Is(kind, if links then ArrayGetReferences else ArrayGetScalars)
            && Marks(w, ArraySet(t)) == Is(kind, if links then ArraySetReferences else ArraySetScalars)
  {
    hide Marks; hide OfKind; hide Is;
    var links := family.ReferenceArray?;
    KindMark(family, kind, ArrayNew(t), ArrayNews);
    KindMark(family, kind, ArrayLen, ArrayLens);
    KindMark(family, kind, ArrayGet(t), if links then ArrayGetReferences else ArrayGetScalars);
    KindMark(family, kind, ArraySet(t), if links then ArraySetReferences else ArraySetScalars);
  }

  lemma {:induction false} TableKindMarks(family: Family, kind: Kind, t: nat)
    ensures var w := OfKind(family, kind);
            && Marks(w, TableGet(t)) == Is(kind, TableGets) && Marks(w, TableSet(t)) == Is(kind, TableSets)
            && Marks(w, RefCast(t)) == Is(kind, RefCasts)
            && Marks(w, RefAsNonNull) == Is(kind, RefAsNonNulls) && Marks(w, RefEq) == Is(kind, RefEqs)
  {
    hide Marks; hide OfKind; hide Is;
    KindMark(family, kind, TableGet(t), TableGets);
    KindMark(family, kind, TableSet(t), TableSets);
    KindMark(family, kind, RefCast(t), RefCasts);
    KindMark(family, kind, RefAsNonNull, RefAsNonNulls);
    KindMark(family, kind, RefEq, RefEqs);
  }

  lemma {:induction false} CostTableIs(family: Family, kind: Kind)
    ensures CostsOf(family, kind) == CostTable(family, kind)
  {
    hide Marks; hide OfKind; hide CostTable; hide Is; hide KindOf;
    StructKindMarks(family, kind);
    ArrayKindMarks(family, kind, 0);
    ArrayKindMarks(family, kind, 1);
    TableKindMarks(family, kind, 0);
    TableKindMarks(family, kind, 1);
    CostTableSums(family, kind);
  }

  lemma {:induction false} CostTableSums(family: Family, kind: Kind)
    ensures var links := family.ReferenceArray?;
            var getK := if links then ArrayGetReferences else ArrayGetScalars;
            var setK := if links then ArraySetReferences else ArraySetScalars;
            CostTable(family, kind) == match family
              case MutableStruct =>
                Costs(Is(kind, StructNews) + Is(kind, TableSets), Is(kind, TableGets) + Is(kind, RefCasts),
                      Is(kind, StructGetScalars), Is(kind, StructSetScalars) + Is(kind, StructGetScalars))
              case ReferenceCycle =>
                Costs(2 * Is(kind, StructNews) + Is(kind, StructSetReferences) + Is(kind, TableSets),
                      Is(kind, TableGets) + Is(kind, RefCasts) + Is(kind, StructGetReferences)
                        + Is(kind, RefAsNonNulls),
                      2 * Is(kind, StructGetScalars) + Is(kind, StructGetReferences) + Is(kind, RefEqs),
                      Is(kind, StructSetScalars) + 2 * Is(kind, StructSetReferences) + 3 * Is(kind, StructGetScalars)
                      + 3 * Is(kind, StructGetReferences) + Is(kind, RefEqs))
              case NumericArray =>
                Costs(Is(kind, ArrayNews) + Is(kind, TableSets), Is(kind, TableGets) + Is(kind, RefCasts),
                      Is(kind, ArrayLens) + 8 * Is(kind, getK),
                      2 * Is(kind, setK) + 2 * Is(kind, getK) + Is(kind, ArrayLens))
              case ReferenceArray =>
                Costs(2 * Is(kind, StructNews) + Is(kind, StructSetReferences) + Is(kind, ArrayNews)
                      + 2 * Is(kind, TableSets),
                      2 * Is(kind, TableGets) + 2 * Is(kind, RefCasts) + Is(kind, StructGetReferences)
                        + Is(kind, RefAsNonNulls),
                      Is(kind, ArrayLens) + 8 * Is(kind, getK) + 8 * Is(kind, StructGetScalars)
                        + Is(kind, StructGetReferences) + Is(kind, RefEqs),
                      Is(kind, StructSetScalars) + 2 * Is(kind, setK) + 2 * Is(kind, getK)
                        + 2 * Is(kind, StructGetScalars)
                      + Is(kind, ArrayLens) + Is(kind, StructGetReferences) + Is(kind, RefEqs))
  {
  }

  lemma {:induction false} FormulaIsWeighted(family: Family, phase: Phase, n: nat, kind: Kind)
    requires n >= ROOTS
    ensures var t, c := TotalsOf(phase, n), CostTable(family, kind);
            SourceCount(family, phase, n, kind)
              == t.groups * c.create + t.loads * c.load + t.readback * c.read + n * c.work
  {
    var t, c := TotalsOf(phase, n), CostTable(family, kind);
    SmallProducts(t.groups, c.create);
    SmallProducts(t.loads, c.load);
    SmallProducts(t.readback, c.read);
    SmallProducts(n, c.work);
  }

  lemma {:induction false} SmallProducts(x: nat, k: nat)
    ensures k == 0 ==> x * k == 0
    ensures k == 1 ==> x * k == x
    ensures k == 2 ==> x * k == 2 * x
    ensures k == 3 ==> x * k == 3 * x
    ensures k == 8 ==> x * k == 8 * x
  {
  }

  /** Main result. In the one run of the emitted program, each kind of heap operation is executed exactly as
      often as its closed form says, for every family, phase and iteration count. */
  lemma {:induction false} FormulasAreExact(family: Family, phase: Phase, n: u32, kind: Kind) returns (store: Store)
    requires n >= ROOTS
    ensures Reaches(Program(family, phase, n, Expected(family, phase, n)), Boot(family), Halted(Empty, store),
                    OfKind(family, kind), SourceCount(family, phase, n, kind))
  {
    hide Reaches; hide Program; hide Boot; hide Expected; hide SourceCount; hide ProgramHits; hide Static; hide Create;
    hide LoadRoot;
    hide RetainedCode; hide Work; hide CreateMarks; hide LoadMarks; hide ReadMarks; hide WorkMarks; hide HeapOnly;
    hide OfKind; hide CostTable;
    var w := OfKind(family, kind);
    var e := Expected(family, phase, n);
    store := ProgramHalts(family, phase, n, w);
    KindsAreHeapOnly(family, kind);
    HitsByTotals(family, phase, n, e, w);
    CreateStatic(family, w);
    LoadStatic(family, w);
    ReadStatic(family, w);
    WorkStatic(family, w);
    CostTableIs(family, kind);
    FormulaIsWeighted(family, phase, n, kind);
  }

  /** The allocation totals of the formulas are the oracle's planned allocations. */
  lemma {:induction false} AllocationsAgree(family: Family, phase: Phase, n: nat)
    requires n >= ROOTS
    ensures SourceCount(family, phase, n, StructNews) + SourceCount(family, phase, n, ArrayNews)
         == Oracle.Reported(family, phase, n).plannedAllocations
    ensures TotalsOf(phase, n).groups == Oracle.Reported(family, phase, n).allocationGroups
    ensures TotalsOf(phase, n).displaced == Oracle.Reported(family, phase, n).overwrittenRootGroups
    ensures Oracle.Reported(family, phase, n).mainAllocations ==
      if phase == Allocate then SourceCount(family, phase, n, StructNews) + SourceCount(family, phase, n, ArrayNews)
        else 0
  {
    hide Expected;
  }
}
