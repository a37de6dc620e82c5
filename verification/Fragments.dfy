/** The instruction fragments of the general-family generator, as loop-free
    code. Locals: 0 index, 1 generator state, 2 accumulator, 3 slot, 4 selected
    element, 5 written value, 6 node A, 7 node B, 8 array. */
module Fragments {
  import opened Lcg
  import opened Machine
  import opened Straight
  import opened Families

  predicate HasRefs(family: Family) { family.ReferenceCycle? || family.ReferenceArray? }
  predicate HasArray(family: Family) { family.NumericArray? || family.ReferenceArray? }
  function ArrayIndex(family: Family): (t: nat) { if family.ReferenceArray? then 1 else 0 }

  /** The declared heap types. */
  function Types(family: Family): (r: seq<Type>)
  {
    match family
    case MutableStruct => [StructType([Scalar])]
    case ReferenceCycle => [StructType([Scalar, Reference])]
    case NumericArray => [ArrayType(Scalar)]
    case ReferenceArray => [StructType([Scalar, Reference]), ArrayType(Reference)]
  }

  function Signed32(value: int): (r: int)
    ensures -0x8000_0000 <= r < 0x8000_0000 && Wrap(r) == Wrap(value)
  {
    var v := Wrap(value);
    if v < 0x8000_0000 then v else v - 0x1_0000_0000
  }

  function Const(value: int): (op: Op) { I32Const(Signed32(value)) }

  // ----- Shared fragments -----

  function LcgStep(): Prog
  {
    Ops([LocalGet(1), Const(1664525), I32Mul, Const(1013904223), I32Add, LocalSet(1)])
  }

  function Slot(): Prog { Ops([LocalGet(0), Const(1023), I32And, LocalSet(3)]) }

  function TrapUnlessEqual(): Prog { Then(Ops([I32Ne]), When(Ops([Unreachable]))) }

  function GetField(field: nat, local: nat): Prog { Ops([LocalGet(local), StructGet(0, field)]) }

  function SetField(field: nat, value: nat): Prog { Ops([LocalGet(6), LocalGet(value), StructSet(0, field)]) }

  function LoadSlot(table: nat, typ: nat, local: nat): Prog
  {
    Ops([LocalGet(3), TableGet(table), RefCast(typ), LocalSet(local)])
  }

  function StoreSlot(table: nat, local: nat): Prog { Ops([LocalGet(3), LocalGet(local), TableSet(table)]) }

  function LoadPartner(): Prog { Then(GetField(1, 6), Ops([RefAsNonNull, LocalSet(7)])) }

  function LoadRoot(family: Family): Prog
  {
    match family
    case MutableStruct => LoadSlot(0, 0, 6)
    case ReferenceCycle => Then(LoadSlot(0, 0, 6), LoadPartner())
    case NumericArray => LoadSlot(0, 0, 8)
    case ReferenceArray => Then(LoadSlot(0, 1, 8), Then(LoadSlot(1, 0, 6), LoadPartner()))
  }

  /** Node A with a null edge, node B with an edge to A, then the edge from A to B. */
  function CreateCycle(): Prog
  {
    Then(Ops([LocalGet(1), RefNull, StructNew(0), LocalSet(6)]),
    Then(Ops([LocalGet(1), Const(3), I32Mul, Const(17), I32Add]),
    Then(Ops([LocalGet(6), StructNew(0), LocalSet(7)]),
    SetField(1, 7))))
  }

  function Create(family: Family): Prog
  {
    match family
    case MutableStruct => Then(Ops([LocalGet(1), StructNew(0), LocalSet(6)]), StoreSlot(0, 6))
    case ReferenceCycle => Then(CreateCycle(), StoreSlot(0, 6))
    case NumericArray => Then(Ops([LocalGet(1), Const(8), ArrayNew(0), LocalSet(8)]), StoreSlot(0, 8))
    case ReferenceArray =>
      Then(CreateCycle(),
      Then(Ops([LocalGet(6), Const(8), ArrayNew(1), LocalSet(8)]),
      Then(StoreSlot(0, 8), StoreSlot(1, 6))))
  }

  function CycleCheck(): Prog
  {
    Then(Ops([LocalGet(7), StructGet(0, 1), LocalGet(6), RefEq, Const(1)]), TrapUnlessEqual())
  }

  /** Read element `j` (through the reference it holds, if any) and add it. */
  function ReadElement(family: Family, j: nat): Prog
  {
    if family.ReferenceArray?
    then Then(Ops([LocalGet(8), Const(j), ArrayGet(1)]), Ops([StructGet(0, 0), I32Add]))
    else Then(Ops([LocalGet(8), Const(j), ArrayGet(0)]), Ops([I32Add]))
  }

  /** The first `n` unrolled element reads. */
  function ReadElements(family: Family, n: nat): Prog
  {
    if n == 0 then Ops([Const(0)]) else Then(ReadElements(family, n - 1), ReadElement(family, n - 1))
  }

  function LengthCheck(): Prog { Then(Ops([LocalGet(8), ArrayLen, Const(8)]), TrapUnlessEqual()) }

  /** Leave the retained checksum of the loaded group on the operand stack. */
  function RetainedCode(family: Family): Prog
  {
    match family
    case MutableStruct => GetField(0, 6)
    case ReferenceCycle => Then(GetField(0, 6), Then(GetField(0, 7), Then(Ops([I32Add]), CycleCheck())))
    case NumericArray => Then(LengthCheck(), ReadElements(family, WIDTH))
    case ReferenceArray => Then(LengthCheck(), Then(ReadElements(family, WIDTH), CycleCheck()))
  }

  function AccumulateRetained(family: Family): Prog
  {
    Then(Ops([LocalGet(2)]), Then(RetainedCode(family), Ops([I32Add, LocalSet(2)])))
  }

  /** Increment the index and compare it with the limit; `br_if 0` follows. */
  function Advance(limit: nat): Prog
  {
    Then(Ops([LocalGet(0), Const(1), I32Add, LocalSet(0)]), Ops([LocalGet(0), Const(limit), I32LtU]))
  }

  // ----- The main loop -----

  function FollowingIndex(): Prog
  {
    Then(Ops([LocalGet(8), LocalGet(4), Const(1), I32Add]), Ops([Const(7), I32And]))
  }

  /** Write the selected element and the one after it. */
  function WriteElements(family: Family): Prog
  {
    if family.ReferenceArray?
    then Then(Ops([LocalGet(8), LocalGet(4), LocalGet(7), ArraySet(1)]),
         Then(FollowingIndex(), Ops([LocalGet(6), ArraySet(1)])))
    else Then(Ops([LocalGet(8), LocalGet(4)]), Then(Ops([LocalGet(1), Const(SALT), I32Xor, ArraySet(0)]),
         Then(FollowingIndex(), Ops([LocalGet(5), ArraySet(0)]))))
  }

  /** Read both back, add them and the array length. */
  function ObserveElements(family: Family): Prog
  {
    if family.ReferenceArray?
    then Then(Ops([LocalGet(8), LocalGet(4), ArrayGet(1)]), Then(Ops([StructGet(0, 0)]),
         Then(FollowingIndex(),
         Then(Ops([ArrayGet(1)]), Then(Ops([StructGet(0, 0), I32Add]),
         Ops([LocalGet(8), ArrayLen, I32Add]))))))
    else Then(Ops([LocalGet(8), LocalGet(4), ArrayGet(0)]),
         Then(FollowingIndex(),
         Then(Ops([ArrayGet(0), I32Add]),
         Ops([LocalGet(8), ArrayLen, I32Add]))))
  }

  /** A.next = A, observe A twice; restore A.next = B, observe B. */
  function ObserveCycle(): Prog
  {
    Then(SetField(1, 6),
    Then(GetField(0, 6),
    Then(GetField(1, 6), Then(Ops([StructGet(0, 0), I32Add]),
    Then(SetField(1, 7),
    Then(GetField(1, 6), Then(Ops([StructGet(0, 0), I32Add]),
    CycleCheck())))))))
  }

  /** Mutate the loaded group and leave what was observed on the operand stack. */
  function Touch(family: Family): Prog
  {
    match family
    case MutableStruct => Then(SetField(0, 5), GetField(0, 6))
    case ReferenceCycle => Then(SetField(0, 5), ObserveCycle())
    case NumericArray =>
      Then(Ops([LocalGet(0), Const(7), I32And, LocalSet(4)]),
      Then(WriteElements(family), ObserveElements(family)))
    case ReferenceArray =>
      Then(SetField(0, 5),
      Then(Ops([LocalGet(0), Const(7), I32And, LocalSet(4)]),
      Then(WriteElements(family), Then(ObserveElements(family), CycleCheck()))))
  }

  function ReadSlot(family: Family): Prog
  {
    Then(LoadRoot(family), AccumulateRetained(family))
  }

  /** Bring the group of this iteration into locals 6 to 8. */
  function Acquire(family: Family, phase: Phase): Prog
  {
    if phase == Allocate
    then Then(Ops([LocalGet(0), Const(1024), I32GeU]), Then(When(ReadSlot(family)), Create(family)))
    else LoadRoot(family)
  }

  /** Compute the value to write, mutate the group and accumulate what was observed. */
  function Work(family: Family): Prog
  {
    Then(Ops([LocalGet(1), LocalGet(0), I32Add, LocalSet(5)]),
    Then(Ops([LocalGet(2)]), Then(Touch(family), Ops([I32Add, LocalSet(2)]))))
  }

  function MainBody(family: Family, phase: Phase, n: nat): Prog
  {
    Then(LcgStep(), Then(Slot(), Then(Acquire(family, phase), Then(Work(family), Advance(n)))))
  }

  function SetUpBody(family: Family): Prog
  {
    Then(LcgStep(), Then(Slot(), Then(Create(family), Advance(1024))))
  }

  function FinalBody(family: Family): Prog
  {
    Then(Slot(), Then(ReadSlot(family), Advance(1024)))
  }

  function CheckLocal(local: nat, expected: u32): Prog
  {
    Then(Ops([LocalGet(local), Const(expected)]), TrapUnlessEqual())
  }

  function CheckGlobal(global: nat, expected: u32): Prog
  {
    Then(Ops([GlobalGet(global), Const(expected)]), TrapUnlessEqual())
  }

  function Prologue(): Prog { Ops([Const(SEED), LocalSet(1)]) }

  function ResetIndex(): Prog { Ops([Const(0), LocalSet(0)]) }

  function PublishSteps(): Prog { Ops([LocalGet(2), GlobalSet(0), Const(0), LocalSet(2), Const(0), LocalSet(0)]) }

  function Epilogue(expected: Checksums): Prog
  {
    Then(Ops([LocalGet(2), GlobalSet(1)]),
    Then(CheckLocal(1, expected.lastLcg),
    Then(CheckGlobal(0, expected.step),
    Then(CheckGlobal(1, expected.root),
    Ops([GlobalGet(0), GlobalGet(1), I32Xor])))))
  }

  /** The body of the exported `run`. */
  function RunCode(family: Family, phase: Phase, n: nat, expected: Checksums): (r: seq<Token>)
  {
    Flat(Prologue())
    + (if phase == Mutate then LoopTokens(SetUpBody(family)) + Flat(ResetIndex()) else [])
    + LoopTokens(MainBody(family, phase, n))
    + Flat(PublishSteps())
    + LoopTokens(FinalBody(family))
    + Flat(Epilogue(expected))
    + [End]
  }

  /** The body of `_start`: call `run` and check what it returned. */
  function StartCode(expected: Checksums): (r: seq<Token>)
  {
    [Call(0)] + Flat(Then(Ops([Const(expected.result)]), TrapUnlessEqual())) + [End]
  }

  const RUN_LOCALS: seq<Val> := [I32(0), I32(0), I32(0), I32(0), I32(0), I32(0), Null, Null, Null]

  function Program(family: Family, phase: Phase, n: nat, expected: Checksums): (m: Module)
  {
    Module(Types(family), [Func(0, RUN_LOCALS, true, RunCode(family, phase, n, expected)),
                           Func(0, [], false, StartCode(expected))])
  }

  function TableCount(family: Family): (n: nat) { if family.ReferenceArray? then 2 else 1 }

  function InitialStore(family: Family): (s: Store)
  {
    Store(seq(TableCount(family), _ => seq(ROOTS, _ => Null)), [I32(0), I32(0)], [])
  }
}
