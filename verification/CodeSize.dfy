/** How long the emitted functions are: every instruction takes at most six bytes, and the
    longest stream has fewer than three hundred instructions. */
module CodeSize {
  import opened Lcg
  import opened Machine
  import opened Straight
  import opened Families
  import opened Fragments
  import opened Codec
  import opened Instructions

  // ----- Six bytes -----

  /** The heap instructions of the generator have small immediates. */
  predicate BriefOp(op: Op)
  {
    && Emitted(Plain(op))
    && (HeapOp(op) && !op.ArrayLen? ==> op.typ < 128) && (op.StructGet? || op.StructSet? ==> op.field < 128)
    && (op.LocalGet? || op.LocalSet? ==> op.local <= MASK) && (op.GlobalGet? || op.GlobalSet? ==> op.global <= MASK)
    && (op.TableGet? || op.TableSet? ==> op.table <= MASK)
  }

  predicate Brief(t: Token)
  {
    Emitted(t) && (t.Plain? ==> BriefOp(t.op)) && (t.BrIf? ==> t.depth <= MASK) && (t.Call? ==> t.callee <= MASK)
  }

  lemma {:induction false} HeapSize(op: Op)
    requires BriefOp(op) && HeapOp(op)
    ensures |EncodeOp(op)| <= 6
  {
    UlebSize(22);
    UlebSize(0);
    UlebSize(2);
    UlebSize(5);
    UlebSize(6);
    UlebSize(11);
    UlebSize(14);
    UlebSize(15);
    if !op.ArrayLen? {
      UlebSize(op.typ);
      if op.StructGet? || op.StructSet? {
        UlebSize(op.field);
      }
    }
    hide Uleb;
  }

  lemma {:induction false} BriefSize(t: Token)
    requires Brief(t)
    ensures |EncodeToken(t)| <= 6
  {
    hide Uleb; hide Sleb;
    if t.Plain? && HeapOp(t.op) {
      HeapSize(t.op);
    } else if t.Plain? && t.op.I32Const? {
      SlebSize(t.op.value);
    } else {
      IndexSize(t);
    }
  }

  lemma {:induction false} IndexSize(t: Token)
    requires Brief(t) && (t.Plain? ==> !HeapOp(t.op) && !t.op.I32Const?)
    ensures |EncodeToken(t)| <= 6
  {
    hide Uleb;
    match t
    case BrIf(k) => UlebLength(k);
    case Call(f) => UlebLength(f);
    case Plain(LocalGet(i)) => UlebLength(i);
    case Plain(LocalSet(i)) => UlebLength(i);
    case Plain(GlobalGet(i)) => UlebLength(i);
    case Plain(GlobalSet(i)) => UlebLength(i);
    case Plain(TableGet(i)) => UlebLength(i);
    case Plain(TableSet(i)) => UlebLength(i);
    case _ =>
  }

  ghost predicate AllBrief(ts: seq<Token>) { forall k :: 0 <= k < |ts| ==> Brief(ts[k]) }

  lemma {:induction false} EncodedSize(ts: seq<Token>)
    requires AllBrief(ts)
    ensures AllEmitted(ts) && |Encode(ts)| <= 6 * |ts|
  {
    hide EncodeToken; hide Brief;
    forall k | 0 <= k < |ts| ensures Emitted(ts[k]) {
      BriefIsEmitted(ts[k]);
    }
    if ts != [] {
      BriefSize(ts[0]);
      EncodedSize(ts[1..]);
    }
  }

  lemma {:induction false} BriefIsEmitted(t: Token)
    requires Brief(t)
    ensures Emitted(t)
  {
  }

  // ----- Bounded fragments -----

  /** At most `n` instructions, all of them brief. */
  ghost predicate Within(p: Prog, n: nat) { |Flat(p)| <= n && AllBrief(Flat(p)) }

  ghost predicate BriefOps(ops: seq<Op>) { forall k :: 0 <= k < |ops| ==> BriefOp(ops[k]) }

  lemma {:induction false} WithinOps(ops: seq<Op>)
    requires BriefOps(ops)
    ensures Within(Ops(ops), |ops|)
  {
    hide BriefOp;
    forall k | 0 <= k < |ops| ensures Brief(Plain(ops[k])) {
      BriefPlain(ops[k]);
    }
  }

  lemma {:induction false} BriefPlain(op: Op)
    requires BriefOp(op)
    ensures Brief(Plain(op))
  {
  }

  lemma {:induction false} WithinThen(p: Prog, m: nat, q: Prog, n: nat)
    requires Within(p, m) && Within(q, n)
    ensures Within(Then(p, q), m + n)
  {
    hide Brief;
  }

  lemma {:induction false} WithinWhen(p: Prog, n: nat)
    requires Within(p, n)
    ensures Within(When(p), n + 2)
  {
    hide BriefOp;
  }

  lemma {:induction false} WithinMore(p: Prog, m: nat, n: nat)
    requires Within(p, m) && m <= n
    ensures Within(p, n)
  {
  }

  lemma {:induction false} ConstBrief(v: int)
    ensures BriefOp(Const(v))
  {
  }

  // ----- The fragments -----

  lemma {:induction false} CheckFits()
    ensures Within(TrapUnlessEqual(), 4)
  {
    hide Within; hide Flat;
    WithinOps([I32Ne]);
    WithinOps([Unreachable]);
    WithinWhen(Ops([Unreachable]), 1);
    WithinThen(Ops([I32Ne]), 1, When(Ops([Unreachable])), 3);
  }

  /** The two- to four-instruction pieces the fragments share. */
  lemma {:induction false} PieceFits(typ: nat, table: nat, field: nat, local: nat)
    requires typ < 128 && field < 128 && table <= MASK && local <= MASK
    ensures Within(LoadSlot(table, typ, local), 4) && Within(StoreSlot(table, local), 3)
    ensures Within(GetField(field, local), 2) && Within(SetField(field, local), 3)
  {
    hide Within; hide Flat;
    WithinOps(LoadSlot(table, typ, local).ops);
    WithinOps(StoreSlot(table, local).ops);
    WithinOps(GetField(field, local).ops);
    WithinOps(SetField(field, local).ops);
  }

  lemma {:induction false} LoadRootFits(family: Family)
    ensures Within(LoadRoot(family), 12)
  {
    hide Within; hide Flat; hide LoadSlot; hide StoreSlot; hide GetField; hide SetField;
    PieceFits(0, 0, 1, 6);
    PieceFits(0, 0, 0, 8);
    PieceFits(1, 0, 0, 8);
    PieceFits(0, 1, 0, 6);
    WithinOps([RefAsNonNull, LocalSet(7)]);
    WithinThen(GetField(1, 6), 2, Ops([RefAsNonNull, LocalSet(7)]), 2);
    match family
    case MutableStruct => WithinMore(LoadSlot(0, 0, 6), 4, 12);
    case NumericArray => WithinMore(LoadSlot(0, 0, 8), 4, 12);
    case ReferenceCycle =>
      WithinThen(LoadSlot(0, 0, 6), 4, LoadPartner(), 4);
      WithinMore(LoadRoot(family), 8, 12);
    case ReferenceArray =>
      WithinThen(LoadSlot(1, 0, 6), 4, LoadPartner(), 4);
      WithinThen(LoadSlot(0, 1, 8), 4, Then(LoadSlot(1, 0, 6), LoadPartner()), 8);
  }

  lemma {:induction false} CreateCycleFits()
    ensures Within(CreateCycle(), 15)
  {
    ConstBrief(3);
    ConstBrief(17);
    var a, v := Ops([LocalGet(1), RefNull, StructNew(0), LocalSet(6)]),
      Ops([LocalGet(1), Const(3), I32Mul, Const(17), I32Add]);
    var b, link := Ops([LocalGet(6), StructNew(0), LocalSet(7)]), SetField(1, 7);
    hide Within; hide Flat; hide Const; hide SetField;
    WithinOps(a.ops);
    WithinOps(v.ops);
    WithinOps(b.ops);
    PieceFits(0, 0, 1, 7);
    WithinThen(b, 3, link, 3);
    WithinThen(v, 5, Then(b, link), 6);
    WithinThen(a, 4, Then(v, Then(b, link)), 11);
  }

  lemma {:induction false} CreateFits(family: Family)
    ensures Within(Create(family), 25)
  {
    CreateCycleFits();
    ConstBrief(8);
    var single, numbers := Ops([LocalGet(1), StructNew(0), LocalSet(6)]),
      Ops([LocalGet(1), Const(8), ArrayNew(0), LocalSet(8)]);
    var links := Ops([LocalGet(6), Const(8), ArrayNew(1), LocalSet(8)]);
    hide Within; hide Flat; hide CreateCycle; hide Const; hide LoadSlot; hide StoreSlot; hide GetField; hide SetField;
    match family
    case MutableStruct =>
      WithinOps(single.ops);
      PieceFits(0, 0, 0, 6);
      WithinThen(single, 3, StoreSlot(0, 6), 3);
      WithinMore(Create(family), 6, 25);
    case ReferenceCycle =>
      PieceFits(0, 0, 0, 6);
      WithinThen(CreateCycle(), 15, StoreSlot(0, 6), 3);
      WithinMore(Create(family), 18, 25);
    case NumericArray =>
      WithinOps(numbers.ops);
      PieceFits(0, 0, 0, 8);
      WithinThen(numbers, 4, StoreSlot(0, 8), 3);
      WithinMore(Create(family), 7, 25);
    case ReferenceArray =>
      WithinOps(links.ops);
      PieceFits(0, 0, 0, 8);
      PieceFits(0, 1, 0, 6);
      WithinThen(StoreSlot(0, 8), 3, StoreSlot(1, 6), 3);
      WithinThen(links, 4, Then(StoreSlot(0, 8), StoreSlot(1, 6)), 6);
      WithinThen(CreateCycle(), 15, Then(links, Then(StoreSlot(0, 8), StoreSlot(1, 6))), 10);
  }

  lemma {:induction false} CycleCheckFits()
    ensures Within(CycleCheck(), 9)
  {
    CheckFits();
    ConstBrief(1);
    var read := Ops([LocalGet(7), StructGet(0, 1), LocalGet(6), RefEq, Const(1)]);
    hide Within; hide Flat; hide TrapUnlessEqual; hide Const;
    WithinOps(read.ops);
    WithinThen(read, 5, TrapUnlessEqual(), 4);
  }

  lemma {:induction false} LengthCheckFits()
    ensures Within(LengthCheck(), 7)
  {
    CheckFits();
    ConstBrief(8);
    var read := Ops([LocalGet(8), ArrayLen, Const(8)]);
    hide Within; hide Flat; hide TrapUnlessEqual; hide Const;
    WithinOps(read.ops);
    WithinThen(read, 3, TrapUnlessEqual(), 4);
  }

  lemma {:induction false} ReadElementFits(family: Family, j: nat)
    ensures Within(ReadElement(family, j), 5)
  {
    ConstBrief(j);
    var t := if family.ReferenceArray? then 1 else 0;
    var get := Ops([LocalGet(8), Const(j), ArrayGet(t)]);
    hide Within; hide Flat; hide Const;
    WithinOps(get.ops);
    WithinOps([StructGet(0, 0), I32Add]);
    WithinOps([I32Add]);
    if family.ReferenceArray? {
      WithinThen(get, 3, Ops([StructGet(0, 0), I32Add]), 2);
    } else {
      WithinThen(get, 3, Ops([I32Add]), 1);
      WithinMore(ReadElement(family, j), 4, 5);
    }
  }

  lemma {:induction false} ReadElementsFit(family: Family, n: nat)
    ensures Within(ReadElements(family, n), 1 + 5 * n)
  {
    if n == 0 {
      ConstBrief(0);
      WithinOps([Const(0)]);
    } else {
      hide Within; hide Flat; hide ReadElement;
      ReadElementsFit(family, n - 1);
      ReadElementFits(family, n - 1);
      WithinThen(ReadElements(family, n - 1), 1 + 5 * (n - 1), ReadElement(family, n - 1), 5);
    }
  }

  lemma {:induction false} RetainedFits(family: Family)
    ensures Within(RetainedCode(family), 57)
  {
    LengthCheckFits();
    CycleCheckFits();
    ReadElementsFit(family, WIDTH);
    hide Within; hide Flat; hide LengthCheck; hide CycleCheck; hide ReadElements; hide LoadSlot; hide StoreSlot;
    hide GetField; hide SetField;
    PieceFits(0, 0, 0, 6);
    PieceFits(0, 0, 0, 7);
    WithinOps([I32Add]);
    match family
    case MutableStruct => WithinMore(GetField(0, 6), 2, 57);
    case ReferenceCycle =>
      WithinThen(Ops([I32Add]), 1, CycleCheck(), 9);
      WithinThen(GetField(0, 7), 2, Then(Ops([I32Add]), CycleCheck()), 10);
      WithinThen(GetField(0, 6), 2, Then(GetField(0, 7), Then(Ops([I32Add]), CycleCheck())), 12);
      WithinMore(RetainedCode(family), 14, 57);
    case NumericArray =>
      WithinThen(LengthCheck(), 7, ReadElements(family, WIDTH), 41);
      WithinMore(RetainedCode(family), 48, 57);
    case ReferenceArray =>
      WithinThen(ReadElements(family, WIDTH), 41, CycleCheck(), 9);
      WithinThen(LengthCheck(), 7, Then(ReadElements(family, WIDTH), CycleCheck()), 50);
  }

  lemma {:induction false} ReadSlotFits(family: Family)
    ensures Within(ReadSlot(family), 72)
  {
    LoadRootFits(family);
    RetainedFits(family);
    hide Within; hide Flat; hide LoadRoot; hide RetainedCode;
    WithinOps([LocalGet(2)]);
    WithinOps([I32Add, LocalSet(2)]);
    WithinThen(RetainedCode(family), 57, Ops([I32Add, LocalSet(2)]), 2);
    WithinThen(Ops([LocalGet(2)]), 1, Then(RetainedCode(family), Ops([I32Add, LocalSet(2)])), 59);
    WithinThen(LoadRoot(family), 12, AccumulateRetained(family), 60);
  }

  lemma {:induction false} AdvanceFits(n: nat)
    ensures Within(Advance(n), 7)
  {
    ConstBrief(1);
    ConstBrief(n);
    var step, compare := Ops([LocalGet(0), Const(1), I32Add, LocalSet(0)]), Ops([LocalGet(0), Const(n), I32LtU]);
    hide Within; hide Flat; hide Const;
    WithinOps(step.ops);
    WithinOps(compare.ops);
    WithinThen(step, 4, compare, 3);
  }

  lemma {:induction false} HeadFits()
    ensures Within(LcgStep(), 6) && Within(Slot(), 4)
  {
    ConstBrief(1664525);
    ConstBrief(1013904223);
    ConstBrief(1023);
    hide Const;
    WithinOps(LcgStep().ops);
    WithinOps(Slot().ops);
  }

  // ----- The work of one iteration -----

  lemma {:induction false} FollowingFits()
    ensures Within(FollowingIndex(), 6)
  {
    ConstBrief(1);
    ConstBrief(7);
    hide Within; hide Flat; hide Const;
    WithinOps([LocalGet(8), LocalGet(4), Const(1), I32Add]);
    WithinOps([Const(7), I32And]);
    WithinThen(Ops([LocalGet(8), LocalGet(4), Const(1), I32Add]), 4, Ops([Const(7), I32And]), 2);
  }

  lemma {:induction false} WriteFits(family: Family)
    ensures Within(WriteElements(family), 14)
  {
    FollowingFits();
    ConstBrief(SALT);
    var links, a := Ops([LocalGet(8), LocalGet(4), LocalGet(7), ArraySet(1)]), Ops([LocalGet(6), ArraySet(1)]);
    var at, salted := Ops([LocalGet(8), LocalGet(4)]), Ops([LocalGet(1), Const(SALT), I32Xor, ArraySet(0)]);
    var value, f := Ops([LocalGet(5), ArraySet(0)]), FollowingIndex();
    hide Within; hide Flat; hide FollowingIndex; hide Const;
    if family.ReferenceArray? {
      WithinOps(links.ops);
      WithinOps(a.ops);
      WithinThen(f, 6, a, 2);
      WithinThen(links, 4, Then(f, a), 8);
      WithinMore(WriteElements(family), 12, 14);
    } else {
      WithinOps(at.ops);
      WithinOps(salted.ops);
      WithinOps(value.ops);
      WithinThen(f, 6, value, 2);
      WithinThen(salted, 4, Then(f, value), 8);
      WithinThen(at, 2, Then(salted, Then(f, value)), 12);
    }
  }

  lemma {:induction false} ObserveFits(family: Family)
    ensures Within(ObserveElements(family), 16)
  {
    FollowingFits();
    var t, f := if family.ReferenceArray? then 1 else 0, FollowingIndex();
    var first, field := Ops([LocalGet(8), LocalGet(4), ArrayGet(t)]), Ops([StructGet(0, 0)]);
    var get, through := Ops([ArrayGet(1)]), Ops([StructGet(0, 0), I32Add]);
    var plain, length := Ops([ArrayGet(0), I32Add]), Ops([LocalGet(8), ArrayLen, I32Add]);
    hide Within; hide Flat; hide FollowingIndex;
    WithinOps(first.ops);
    WithinOps(length.ops);
    if family.ReferenceArray? {
      WithinOps(field.ops);
      WithinOps(get.ops);
      WithinOps(through.ops);
      WithinThen(through, 2, length, 3);
      WithinThen(get, 1, Then(through, length), 5);
      WithinThen(f, 6, Then(get, Then(through, length)), 6);
      WithinThen(field, 1, Then(f, Then(get, Then(through, length))), 12);
      WithinThen(first, 3, Then(field, Then(f, Then(get, Then(through, length)))), 13);
    } else {
      WithinOps(plain.ops);
      WithinThen(plain, 2, length, 3);
      WithinThen(f, 6, Then(plain, length), 5);
      WithinThen(first, 3, Then(f, Then(plain, length)), 11);
      WithinMore(ObserveElements(family), 14, 16);
    }
  }

  lemma {:induction false} ObserveCycleFits()
    ensures Within(ObserveCycle(), 29)
  {
    CycleCheckFits();
    var add := Ops([StructGet(0, 0), I32Add]);
    var loop, restore, value, next := SetField(1, 6), SetField(1, 7), GetField(0, 6), GetField(1, 6);
    hide Within; hide Flat; hide CycleCheck; hide LoadSlot; hide StoreSlot; hide GetField; hide SetField;
    WithinOps(add.ops);
    PieceFits(0, 0, 1, 6);
    PieceFits(0, 0, 1, 7);
    PieceFits(0, 0, 0, 6);
    var last := Then(restore, Then(next, Then(add, CycleCheck())));
    WithinThen(add, 2, CycleCheck(), 9);
    WithinThen(next, 2, Then(add, CycleCheck()), 11);
    WithinThen(restore, 3, Then(next, Then(add, CycleCheck())), 13);
    WithinThen(add, 2, last, 16);
    WithinThen(next, 2, Then(add, last), 18);
    WithinThen(value, 2, Then(next, Then(add, last)), 20);
    WithinThen(loop, 3, Then(value, Then(next, Then(add, last))), 22);
    WithinMore(ObserveCycle(), 25, 29);
  }

  lemma {:induction false} TouchFits(family: Family)
    ensures Within(Touch(family), 46)
  {
    WriteFits(family);
    ObserveFits(family);
    ObserveCycleFits();
    CycleCheckFits();
    ConstBrief(7);
    var select, put, get := Ops([LocalGet(0), Const(7), I32And, LocalSet(4)]), SetField(0, 5), GetField(0, 6);
    hide Within; hide Flat; hide WriteElements; hide ObserveElements; hide ObserveCycle; hide CycleCheck;
    hide Const; hide LoadSlot; hide StoreSlot; hide GetField; hide SetField;
    WithinOps(select.ops);
    PieceFits(0, 0, 0, 5);
    PieceFits(0, 0, 0, 6);
    var write, observe, check := WriteElements(family), ObserveElements(family), CycleCheck();
    match family
    case MutableStruct =>
      WithinThen(put, 3, get, 2);
      WithinMore(Touch(family), 5, 46);
    case ReferenceCycle =>
      WithinThen(put, 3, ObserveCycle(), 29);
      WithinMore(Touch(family), 32, 46);
    case NumericArray =>
      WithinThen(write, 14, observe, 16);
      WithinThen(select, 4, Then(write, observe), 30);
      WithinMore(Touch(family), 34, 46);
    case ReferenceArray =>
      WithinThen(observe, 16, check, 9);
      WithinThen(write, 14, Then(observe, check), 25);
      WithinThen(select, 4, Then(write, Then(observe, check)), 39);
      WithinThen(put, 3, Then(select, Then(write, Then(observe, check))), 43);
  }

  lemma {:induction false} WorkFits(family: Family)
    ensures Within(Work(family), 53)
  {
    TouchFits(family);
    var value, total, add := Ops([LocalGet(1), LocalGet(0), I32Add, LocalSet(5)]), Ops([LocalGet(2)]),
      Ops([I32Add, LocalSet(2)]);
    hide Within; hide Flat; hide Touch;
    WithinOps(value.ops);
    WithinOps(total.ops);
    WithinOps(add.ops);
    WithinThen(Touch(family), 46, add, 2);
    WithinThen(total, 1, Then(Touch(family), add), 48);
    WithinThen(value, 4, Then(total, Then(Touch(family), add)), 49);
  }

  /** The allocate phase reads the displaced group and creates one; the mutate phase only loads. */
  function AcquireBound(phase: Phase): (n: nat) { if phase == Allocate then 102 else 12 }

  lemma {:induction false} AcquireFits(family: Family, phase: Phase)
    ensures Within(Acquire(family, phase), AcquireBound(phase))
  {
    LoadRootFits(family);
    ReadSlotFits(family);
    CreateFits(family);
    ConstBrief(1024);
    var full := Ops([LocalGet(0), Const(1024), I32GeU]);
    hide Within; hide Flat; hide LoadRoot; hide ReadSlot; hide Create; hide Const;
    WithinOps(full.ops);
    WithinWhen(ReadSlot(family), 72);
    WithinThen(When(ReadSlot(family)), 74, Create(family), 25);
    WithinThen(full, 3, Then(When(ReadSlot(family)), Create(family)), 99);
  }

  // ----- The functions -----

  lemma {:induction false} MainFits(family: Family, phase: Phase, n: nat)
    ensures Within(MainBody(family, phase, n), 70 + AcquireBound(phase))
  {
    HeadFits();
    AcquireFits(family, phase);
    WorkFits(family);
    AdvanceFits(n);
    hide Within; hide Flat; hide LcgStep; hide Slot; hide Acquire; hide Work; hide Advance; hide AcquireBound;
    var k, acquire, work, advance := AcquireBound(phase), Acquire(family, phase), Work(family), Advance(n);
    WithinThen(work, 53, advance, 7);
    WithinThen(acquire, k, Then(work, advance), 60);
    WithinThen(Slot(), 4, Then(acquire, Then(work, advance)), k + 60);
    WithinThen(LcgStep(), 6, Then(Slot(), Then(acquire, Then(work, advance))), k + 64);
  }

  lemma {:induction false} LoopsFit(family: Family)
    ensures Within(SetUpBody(family), 42) && Within(FinalBody(family), 83)
  {
    HeadFits();
    CreateFits(family);
    ReadSlotFits(family);
    AdvanceFits(1024);
    hide Within; hide Flat; hide LcgStep; hide Slot; hide Create; hide ReadSlot; hide Advance;
    WithinThen(Create(family), 25, Advance(1024), 7);
    WithinThen(Slot(), 4, Then(Create(family), Advance(1024)), 32);
    WithinThen(LcgStep(), 6, Then(Slot(), Then(Create(family), Advance(1024))), 36);
    WithinThen(ReadSlot(family), 72, Advance(1024), 7);
    WithinThen(Slot(), 4, Then(ReadSlot(family), Advance(1024)), 79);
  }

  lemma {:induction false} EndsFit()
    ensures Within(Prologue(), 2) && Within(ResetIndex(), 2) && Within(PublishSteps(), 6)
  {
    ConstBrief(SEED);
    ConstBrief(0);
    hide Const;
    WithinOps(Prologue().ops);
    WithinOps(ResetIndex().ops);
    WithinOps(PublishSteps().ops);
  }

  lemma {:induction false} CompareFits(get: Op, value: int)
    requires BriefOp(get)
    ensures Within(Then(Ops([get, Const(value)]), TrapUnlessEqual()), 6)
  {
    CheckFits();
    ConstBrief(value);
    hide Within; hide Flat; hide TrapUnlessEqual; hide Const;
    WithinOps([get, Const(value)]);
    WithinThen(Ops([get, Const(value)]), 2, TrapUnlessEqual(), 4);
  }

  lemma {:induction false} EpilogueFits(e: Checksums)
    ensures Within(Epilogue(e), 23)
  {
    CompareFits(LocalGet(1), e.lastLcg);
    CompareFits(GlobalGet(0), e.step);
    CompareFits(GlobalGet(1), e.root);
    var state, step, root := CheckLocal(1, e.lastLcg), CheckGlobal(0, e.step), CheckGlobal(1, e.root);
    assert Within(state, 6) && Within(step, 6) && Within(root, 6);
    var publish, last := Ops([LocalGet(2), GlobalSet(1)]), Ops([GlobalGet(0), GlobalGet(1), I32Xor]);
    hide Within; hide Flat; hide CheckLocal; hide CheckGlobal;
    WithinOps(publish.ops);
    WithinOps(last.ops);
    WithinThen(root, 6, last, 3);
    WithinThen(step, 6, Then(root, last), 9);
    WithinThen(state, 6, Then(step, Then(root, last)), 15);
    WithinThen(publish, 2, Then(state, Then(step, Then(root, last))), 21);
  }

  lemma {:induction false} LoopFits(body: Prog, n: nat)
    requires Within(body, n)
    ensures |LoopTokens(body)| <= n + 3 && AllBrief(LoopTokens(body))
  {
    hide BriefOp;
  }

  /** Fewer than three hundred instructions, each of at most six bytes. */
  lemma {:induction false} RunSize(family: Family, phase: Phase, n: nat, e: Checksums)
    ensures |RunCode(family, phase, n, e)| <= 293 && AllBrief(RunCode(family, phase, n, e))
  {
    MainFits(family, phase, n);
    LoopsFit(family);
    EndsFit();
    EpilogueFits(e);
    hide MainBody; hide SetUpBody; hide FinalBody; hide Epilogue; hide Prologue; hide ResetIndex; hide PublishSteps;
    hide LoopTokens; hide Flat; hide Brief;
    BriefEnd();
    LoopFits(MainBody(family, phase, n), 70 + AcquireBound(phase));
    LoopFits(SetUpBody(family), 42);
    LoopFits(FinalBody(family), 83);
  }

  lemma {:induction false} BriefEnd()
    ensures AllBrief([End]) && AllBrief([Call(0)])
  {
  }

  lemma {:induction false} StartSize(e: Checksums)
    ensures |StartCode(e)| <= 7 && AllBrief(StartCode(e))
  {
    CheckFits();
    ConstBrief(e.result);
    WithinOps([Const(e.result)]);
    WithinThen(Ops([Const(e.result)]), 1, TrapUnlessEqual(), 4);
    BriefEnd();
    hide Brief; hide Flat; hide Const; hide TrapUnlessEqual;
  }

  /** The bytes of the two functions. */
  lemma {:induction false} FunctionSizes(family: Family, phase: Phase, n: nat, e: Checksums)
    ensures AllEmitted(RunCode(family, phase, n, e)) && |Encode(RunCode(family, phase, n, e))| <= 1758
    ensures AllEmitted(StartCode(e)) && |Encode(StartCode(e))| <= 42
  {
    hide RunCode; hide StartCode; hide Encode; hide Brief;
    RunSize(family, phase, n, e);
    StartSize(e);
    EncodedSize(RunCode(family, phase, n, e));
    EncodedSize(StartCode(e));
  }
}
