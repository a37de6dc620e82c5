/** What each small fragment does to the machine data. */
module FragmentProofs {
  import opened Wrappers
  import opened Bits
  import opened Lcg
  import opened Machine
  import opened Straight
  import opened Families
  import opened Fragments

  // ----- Shorthands on data -----

  function Local(d: Data, k: nat, v: Val): (r: Data)
    requires k < |d.locals|
  {
    d.(locals := d.locals[k := v])
  }

  function Pushed(d: Data, v: Val): (r: Data) { d.(stack := Push(d.stack, v)) }

  function WithHeap(d: Data, heap: seq<Object>): (r: Data) { d.(store := d.store.(heap := heap)) }

  function WithTable(d: Data, t: nat, table: seq<Val>): (r: Data)
    requires t < |d.store.tables|
  {
    d.(store := d.store.(tables := d.store.tables[t := table]))
  }

  predicate NineLocals(d: Data) { |d.locals| == 9 }

  predicate NodeType(types: seq<Type>) { |types| > 0 && types[0] == StructType([Scalar, Reference]) }

  /** Two fragments in sequence. */
  lemma {:induction false} Sequence(types: seq<Type>, a: Prog, b: Prog, d: Data, d': Data)
    requires Eval(types, a, d) == Some(d')
    ensures Eval(types, Then(a, b), d) == Eval(types, b, d')
  {
  }

  /** One instruction of a fragment. */
  lemma {:induction false} Execute(types: seq<Type>, ops: seq<Op>, k: nat, d: Data, d': Data)
    requires k < |ops| && Do(types, ops[k], d) == Ok(d')
    ensures EvalOps(types, ops, k, d) == EvalOps(types, ops, k + 1, d')
  {
  }

  lemma {:induction false} Executed(types: seq<Type>, ops: seq<Op>, d: Data)
    ensures EvalOps(types, ops, |ops|, d) == Some(d)
  {
  }

  // ----- Shared fragments -----

  lemma {:induction false} LcgStepRuns(types: seq<Type>, d: Data, x: u32)
    requires NineLocals(d) && d.locals[1] == I32(x)
    ensures Eval(types, LcgStep(), d) == Some(Local(d, 1, I32(Next(x))))
  {
    hide Wrap;
    var ops := [LocalGet(1), Const(A), I32Mul, Const(C), I32Add, LocalSet(1)];
    AffineOps(types, ops, d, x, A, C);
    Execute(types, ops, 5, Pushed(d, I32(Next(x))), Local(d, 1, I32(Next(x))));
  }

  lemma {:induction false} ConstValue(v: u32)
    ensures Const(v) == I32Const(Signed32(v)) && Wrap(Signed32(v)) == v
  {
  }

  /** `local 1 * a + c`, the shape of the generator step and of the partner value. */
  lemma {:induction false} AffineOps(types: seq<Type>, ops: seq<Op>, d: Data, x: u32, a: u32, c: u32)
    requires NineLocals(d) && d.locals[1] == I32(x) && |ops| >= 5
    requires ops[0] == LocalGet(1) && ops[1] == Const(a) && ops[2] == I32Mul && ops[3] == Const(c) && ops[4] == I32Add
    ensures EvalOps(types, ops, 0, d) == EvalOps(types, ops, 5, Pushed(d, I32(Wrap(x * a + c))))
  {
    hide Wrap; hide Const; hide EvalOps;
    ConstValue(a);
    ConstValue(c);
    var p := Wrap(x * a);
    Execute(types, ops, 0, d, Pushed(d, I32(x)));
    Execute(types, ops, 1, Pushed(d, I32(x)), Pushed(Pushed(d, I32(x)), I32(a)));
    Execute(types, ops, 2, Pushed(Pushed(d, I32(x)), I32(a)), Pushed(d, I32(p)));
    Execute(types, ops, 3, Pushed(d, I32(p)), Pushed(Pushed(d, I32(p)), I32(c)));
    Execute(types, ops, 4, Pushed(Pushed(d, I32(p)), I32(c)), Pushed(d, I32(Wrap(p + c))));
    WrapAdd(x * a, c);
  }

  lemma {:induction false} SlotRuns(types: seq<Type>, d: Data, i: u32)
    requires NineLocals(d) && d.locals[0] == I32(i)
    ensures Eval(types, Slot(), d) == Some(Local(d, 3, I32(i % ROOTS)))
  {
    MaskValues(i);
    hide And;
  }

  lemma {:induction false} TrapUnlessEqualRuns(types: seq<Type>, d: Data, x: u32)
    ensures Eval(types, TrapUnlessEqual(), Pushed(Pushed(d, I32(x)), I32(x))) == Some(d)
  {
    var d2 := Pushed(Pushed(d, I32(x)), I32(x));
    assert Eval(types, Ops([I32Ne]), d2) == Some(Pushed(d, I32(0)));
  }

  lemma {:induction false} GetFieldRuns(types: seq<Type>, d: Data, field: nat, local: nat, a: nat)
    requires local < |d.locals| && d.locals[local] == Addr(a)
    requires |types| > 0 && types[0].StructType? && IsStruct(d.store.heap, a, 0, field)
    ensures Eval(types, GetField(field, local), d) == Some(Pushed(d, d.store.heap[a].fields[field]))
  {
    var ops := [LocalGet(local), StructGet(0, field)];
    assert EvalOps(types, ops, 1, Pushed(d, Addr(a))) == Some(Pushed(d, d.store.heap[a].fields[field]));
  }

  lemma {:induction false} SetFieldRuns(types: seq<Type>, d: Data, field: nat, value: nat, a: nat)
    requires NineLocals(d) && d.locals[6] == Addr(a) && value < 9
    requires |types| > 0 && types[0].StructType? && field < |types[0].fields|
    requires Fits(d.locals[value], types[0].fields[field]) && IsStruct(d.store.heap, a, 0, field)
    ensures Eval(types, SetField(field, value), d)
      == Some(WithHeap(d, PutStruct(d.store.heap, a, field, d.locals[value])))
  {
    var ops := [LocalGet(6), LocalGet(value), StructSet(0, field)];
    Execute(types, ops, 0, d, Pushed(d, Addr(a)));
    Execute(types, ops, 1, Pushed(d, Addr(a)), Pushed(Pushed(d, Addr(a)), d.locals[value]));
    Execute(types, ops, 2, Pushed(Pushed(d, Addr(a)), d.locals[value]),
            WithHeap(d, PutStruct(d.store.heap, a, field, d.locals[value])));
  }

  lemma {:induction false} LoadSlotRuns(types: seq<Type>, d: Data, table: nat, typ: nat, local: nat, j: u32, a: nat)
    requires NineLocals(d) && local < 9 && d.locals[3] == I32(j)
    requires table < |d.store.tables| && j < |d.store.tables[table]| && d.store.tables[table][j] == Addr(a)
    requires typ < |types| && a < |d.store.heap| && d.store.heap[a].typ == typ
    ensures Eval(types, LoadSlot(table, typ, local), d) == Some(Local(d, local, Addr(a)))
  {
    var ops := [LocalGet(3), TableGet(table), RefCast(typ), LocalSet(local)];
    Execute(types, ops, 0, d, Pushed(d, I32(j)));
    Execute(types, ops, 1, Pushed(d, I32(j)), Pushed(d, Addr(a)));
    Execute(types, ops, 2, Pushed(d, Addr(a)), Pushed(d, Addr(a)));
    Execute(types, ops, 3, Pushed(d, Addr(a)), Local(d, local, Addr(a)));
  }

  lemma {:induction false} StoreSlotRuns(types: seq<Type>, d: Data, table: nat, local: nat, j: u32)
    requires NineLocals(d) && local < 9 && d.locals[3] == I32(j) && !d.locals[local].I32?
    requires table < |d.store.tables| && j < |d.store.tables[table]|
    ensures Eval(types, StoreSlot(table, local), d)
         == Some(WithTable(d, table, d.store.tables[table][j := d.locals[local]]))
  {
    var ops := [LocalGet(3), LocalGet(local), TableSet(table)];
    Execute(types, ops, 0, d, Pushed(d, I32(j)));
    Execute(types, ops, 1, Pushed(d, I32(j)), Pushed(Pushed(d, I32(j)), d.locals[local]));
    Execute(types, ops, 2, Pushed(Pushed(d, I32(j)), d.locals[local]),
            WithTable(d, table, d.store.tables[table][j := d.locals[local]]));
  }

  lemma {:induction false} LoadPartnerRuns(types: seq<Type>, d: Data, a: nat, b: nat)
    requires NineLocals(d) && d.locals[6] == Addr(a) && NodeType(types)
    requires IsStruct(d.store.heap, a, 0, 1) && d.store.heap[a].fields[1] == Addr(b)
    ensures Eval(types, LoadPartner(), d) == Some(Local(d, 7, Addr(b)))
  {
    GetFieldRuns(types, d, 1, 6, a);
  }

  lemma {:induction false} CycleCheckRuns(types: seq<Type>, d: Data, a: nat, b: nat)
    requires NineLocals(d) && d.locals[6] == Addr(a) && d.locals[7] == Addr(b) && NodeType(types)
    requires IsStruct(d.store.heap, b, 0, 1) && d.store.heap[b].fields[1] == Addr(a)
    ensures Eval(types, CycleCheck(), d) == Some(d)
  {
    assert Eval(types, Ops([LocalGet(7), StructGet(0, 1), LocalGet(6), RefEq, Const(1)]), d)
        == Some(Pushed(Pushed(d, I32(1)), I32(1)));
    TrapUnlessEqualRuns(types, d, 1);
  }

  lemma {:induction false} LengthCheckRuns(types: seq<Type>, d: Data, a: nat)
    requires NineLocals(d) && d.locals[8] == Addr(a)
    requires a < |d.store.heap| && d.store.heap[a].Array? && |d.store.heap[a].elems| == 8
    ensures Eval(types, LengthCheck(), d) == Some(d)
  {
    assert Eval(types, Ops([LocalGet(8), ArrayLen, Const(8)]), d) == Some(Pushed(Pushed(d, I32(8)), I32(8)));
    TrapUnlessEqualRuns(types, d, 8);
  }

  lemma {:induction false} IncrementRuns(types: seq<Type>, d: Data, i: u32)
    requires NineLocals(d) && d.locals[0] == I32(i) && i + 1 < MODULUS
    ensures Eval(types, Ops([LocalGet(0), Const(1), I32Add, LocalSet(0)]), d) == Some(Local(d, 0, I32(i + 1)))
  {
  }

  lemma {:induction false} BelowLimitRuns(types: seq<Type>, d: Data, i: u32, limit: u32)
    requires NineLocals(d) && d.locals[0] == I32(i)
    ensures Eval(types, Ops([LocalGet(0), Const(limit), I32LtU]), d) == Some(Pushed(d, I32(Truth(i < limit))))
  {
    var ops := [LocalGet(0), Const(limit), I32LtU];
    Execute(types, ops, 0, d, Pushed(d, I32(i)));
    Execute(types, ops, 1, Pushed(d, I32(i)), Pushed(Pushed(d, I32(i)), I32(limit)));
    Execute(types, ops, 2, Pushed(Pushed(d, I32(i)), I32(limit)), Pushed(d, I32(Truth(i < limit))));
  }

  lemma {:induction false} AdvanceRuns(types: seq<Type>, d: Data, i: u32, limit: u32)
    requires NineLocals(d) && d.locals[0] == I32(i) && i < limit
    ensures Eval(types, Advance(limit), d) == Some(Pushed(Local(d, 0, I32(i + 1)), I32(Truth(i + 1 < limit))))
  {
    hide EvalOps;
    IncrementRuns(types, d, i);
    BelowLimitRuns(types, Local(d, 0, I32(i + 1)), i + 1, limit);
  }

  // ----- Creation -----

  lemma {:induction false} NewSingleRuns(types: seq<Type>, d: Data, v: u32)
    requires NineLocals(d) && d.locals[1] == I32(v) && |types| > 0 && types[0] == StructType([Scalar])
    ensures Eval(types, Ops([LocalGet(1), StructNew(0), LocalSet(6)]), d)
         == Some(Local(WithHeap(d, d.store.heap + [Struct(0, [I32(v)])]), 6, Addr(|d.store.heap|)))
  {
  }

  lemma {:induction false} NewARuns(types: seq<Type>, d: Data, v: u32)
    requires NineLocals(d) && d.locals[1] == I32(v) && NodeType(types)
    ensures Eval(types, Ops([LocalGet(1), RefNull, StructNew(0), LocalSet(6)]), d)
         == Some(Local(WithHeap(d, d.store.heap + [Struct(0, [I32(v), Null])]), 6, Addr(|d.store.heap|)))
  {
  }

  lemma {:induction false} PartnerRuns(types: seq<Type>, d: Data, v: u32)
    requires NineLocals(d) && d.locals[1] == I32(v)
    ensures Eval(types, Ops([LocalGet(1), Const(3), I32Mul, Const(17), I32Add]), d) == Some(Pushed(d, I32(Partner(v))))
  {
    hide Wrap; hide EvalOps; hide Const;
    var ops := [LocalGet(1), Const(3), I32Mul, Const(17), I32Add];
    AffineOps(types, ops, d, v, 3, 17);
    Executed(types, ops, Pushed(d, I32(Partner(v))));
  }

  lemma {:induction false} NewBRuns(types: seq<Type>, d: Data, v: u32, a: nat)
    requires NineLocals(d) && d.locals[6] == Addr(a) && NodeType(types)
    ensures Eval(types, Ops([LocalGet(6), StructNew(0), LocalSet(7)]), Pushed(d, I32(v)))
         == Some(Local(WithHeap(d, d.store.heap + [Struct(0, [I32(v), Addr(a)])]), 7, Addr(|d.store.heap|)))
  {
  }

  lemma {:induction false} NewNumbersRuns(types: seq<Type>, d: Data, v: u32)
    requires NineLocals(d) && d.locals[1] == I32(v) && |types| > 0 && types[0] == ArrayType(Scalar)
    ensures Eval(types, Ops([LocalGet(1), Const(8), ArrayNew(0), LocalSet(8)]), d)
         == Some(Local(WithHeap(d, d.store.heap + [Array(0, seq(8, _ => I32(v)))]), 8, Addr(|d.store.heap|)))
  {
  }

  lemma {:induction false} NewLinksRuns(types: seq<Type>, d: Data, a: nat)
    requires NineLocals(d) && d.locals[6] == Addr(a) && |types| > 1 && types[1] == ArrayType(Reference)
    ensures Eval(types, Ops([LocalGet(6), Const(8), ArrayNew(1), LocalSet(8)]), d)
         == Some(Local(WithHeap(d, d.store.heap + [Array(1, seq(8, _ => Addr(a)))]), 8, Addr(|d.store.heap|)))
  {
  }

  // ----- Elements -----

  lemma {:induction false} GetElementRuns(types: seq<Type>, d: Data, t: nat, a: nat, j: nat)
    requires NineLocals(d) && d.locals[8] == Addr(a) && t < |types| && types[t].ArrayType?
    requires IsArray(d.store.heap, a, t) && j < 8 <= |d.store.heap[a].elems|
    ensures Eval(types, Ops([LocalGet(8), Const(j), ArrayGet(t)]), d) == Some(Pushed(d, d.store.heap[a].elems[j]))
  {
    var ops := [LocalGet(8), Const(j), ArrayGet(t)];
    Execute(types, ops, 0, d, Pushed(d, Addr(a)));
    Execute(types, ops, 1, Pushed(d, Addr(a)), Pushed(Pushed(d, Addr(a)), I32(j)));
    Execute(types, ops, 2, Pushed(Pushed(d, Addr(a)), I32(j)), Pushed(d, d.store.heap[a].elems[j]));
  }

  lemma {:induction false} AddRuns(types: seq<Type>, d: Data, x: u32, y: u32)
    ensures Eval(types, Ops([I32Add]), Pushed(Pushed(d, I32(x)), I32(y))) == Some(Pushed(d, I32(Wrap(x + y))))
  {
  }

  lemma {:induction false} NodeValueRuns(types: seq<Type>, d: Data, n: nat)
    requires NodeType(types) && IsStruct(d.store.heap, n, 0, 0)
    ensures Eval(types, Ops([StructGet(0, 0)]), Pushed(d, Addr(n))) == Some(Pushed(d, d.store.heap[n].fields[0]))
  {
  }

  lemma {:induction false} AddNodeRuns(types: seq<Type>, d: Data, sum: u32, n: nat, x: u32)
    requires NodeType(types) && IsStruct(d.store.heap, n, 0, 0) && d.store.heap[n].fields[0] == I32(x)
    ensures Eval(types, Ops([StructGet(0, 0), I32Add]), Pushed(Pushed(d, I32(sum)), Addr(n)))
         == Some(Pushed(d, I32(Wrap(sum + x))))
  {
  }

  lemma {:induction false} SelectRuns(types: seq<Type>, d: Data, i: u32)
    requires NineLocals(d) && d.locals[0] == I32(i)
    ensures Eval(types, Ops([LocalGet(0), Const(7), I32And, LocalSet(4)]), d) == Some(Local(d, 4, I32(i % 8)))
  {
    MaskValues(i);
    hide And;
  }

  lemma {:induction false} FollowingIndexRuns(types: seq<Type>, d: Data, a: nat, s: u32)
    requires NineLocals(d) && d.locals[8] == Addr(a) && d.locals[4] == I32(s) && s < 8
    ensures Eval(types, FollowingIndex(), d) == Some(Pushed(Pushed(d, Addr(a)), I32((s + 1) % 8)))
  {
    assert Eval(types, Ops([LocalGet(8), LocalGet(4), Const(1), I32Add]), d)
        == Some(Pushed(Pushed(d, Addr(a)), I32(s + 1)));
    MaskRuns(types, Pushed(d, Addr(a)), s + 1);
  }

  lemma {:induction false} MaskRuns(types: seq<Type>, d: Data, x: u32)
    ensures Eval(types, Ops([Const(7), I32And]), Pushed(d, I32(x))) == Some(Pushed(d, I32(x % 8)))
  {
    MaskValues(x);
    hide And;
  }

  lemma {:induction false} AddLengthRuns(types: seq<Type>, d: Data, a: nat, sum: u32)
    requires NineLocals(d) && d.locals[8] == Addr(a)
    requires a < |d.store.heap| && d.store.heap[a].Array? && |d.store.heap[a].elems| == 8
    ensures Eval(types, Ops([LocalGet(8), ArrayLen, I32Add]), Pushed(d, I32(sum)))
      == Some(Pushed(d, I32(Wrap(sum + 8))))
  {
  }

  lemma {:induction false} SelectedRuns(types: seq<Type>, d: Data, a: nat, s: u32)
    requires NineLocals(d) && d.locals[8] == Addr(a) && d.locals[4] == I32(s)
    ensures Eval(types, Ops([LocalGet(8), LocalGet(4)]), d) == Some(Pushed(Pushed(d, Addr(a)), I32(s)))
  {
  }

  lemma {:induction false} WriteNumberRuns(types: seq<Type>, d: Data, a: nat, s: u32, state: u32)
    requires NineLocals(d) && d.locals[1] == I32(state)
    requires |types| > 0 && types[0] == ArrayType(Scalar) && IsArray(d.store.heap, a, 0) && s < |d.store.heap[a].elems|
    ensures Eval(types, Ops([LocalGet(1), Const(SALT), I32Xor, ArraySet(0)]), Pushed(Pushed(d, Addr(a)), I32(s)))
         == Some(WithHeap(d, PutArray(d.store.heap, a, s, I32(Xor32(state, SALT)))))
  {
    hide Xor32; hide EvalOps; hide Const;
    ConstValue(SALT);
    var ops := [LocalGet(1), Const(SALT), I32Xor, ArraySet(0)];
    var d2 := Pushed(Pushed(d, Addr(a)), I32(s));
    Execute(types, ops, 0, d2, Pushed(d2, I32(state)));
    Execute(types, ops, 1, Pushed(d2, I32(state)), Pushed(Pushed(d2, I32(state)), I32(SALT)));
    Execute(types, ops, 2, Pushed(Pushed(d2, I32(state)), I32(SALT)), Pushed(d2, I32(Xor32(state, SALT))));
    Execute(types, ops, 3, Pushed(d2, I32(Xor32(state, SALT))),
            WithHeap(d, PutArray(d.store.heap, a, s, I32(Xor32(state, SALT)))));
    Executed(types, ops, WithHeap(d, PutArray(d.store.heap, a, s, I32(Xor32(state, SALT)))));
  }

  lemma {:induction false} WriteLinkRuns(types: seq<Type>, d: Data, a: nat, s: u32, b: nat)
    requires NineLocals(d) && d.locals[8] == Addr(a) && d.locals[4] == I32(s) && d.locals[7] == Addr(b)
    requires types == Types(ReferenceArray) && IsArray(d.store.heap, a, 1) && s < |d.store.heap[a].elems|
    ensures Eval(types, Ops([LocalGet(8), LocalGet(4), LocalGet(7), ArraySet(1)]), d)
         == Some(WithHeap(d, PutArray(d.store.heap, a, s, Addr(b))))
  {
  }

  lemma {:induction false} PutNumberRuns(types: seq<Type>, d: Data, a: nat, s: u32, v: u32)
    requires NineLocals(d) && d.locals[5] == I32(v)
    requires |types| > 0 && types[0] == ArrayType(Scalar) && IsArray(d.store.heap, a, 0) && s < |d.store.heap[a].elems|
    ensures Eval(types, Ops([LocalGet(5), ArraySet(0)]), Pushed(Pushed(d, Addr(a)), I32(s)))
         == Some(WithHeap(d, PutArray(d.store.heap, a, s, I32(v))))
  {
  }

  lemma {:induction false} PutLinkRuns(types: seq<Type>, d: Data, a: nat, s: u32, n: nat)
    requires NineLocals(d) && d.locals[6] == Addr(n)
    requires types == Types(ReferenceArray) && IsArray(d.store.heap, a, 1) && s < |d.store.heap[a].elems|
    ensures Eval(types, Ops([LocalGet(6), ArraySet(1)]), Pushed(Pushed(d, Addr(a)), I32(s)))
         == Some(WithHeap(d, PutArray(d.store.heap, a, s, Addr(n))))
  {
  }

  lemma {:induction false} PickRuns(types: seq<Type>, d: Data, t: nat, a: nat, s: u32)
    requires NineLocals(d) && d.locals[8] == Addr(a) && d.locals[4] == I32(s) && t < |types| && types[t].ArrayType?
    requires IsArray(d.store.heap, a, t) && s < |d.store.heap[a].elems|
    ensures Eval(types, Ops([LocalGet(8), LocalGet(4), ArrayGet(t)]), d) == Some(Pushed(d, d.store.heap[a].elems[s]))
  {
    var ops := [LocalGet(8), LocalGet(4), ArrayGet(t)];
    Execute(types, ops, 0, d, Pushed(d, Addr(a)));
    Execute(types, ops, 1, Pushed(d, Addr(a)), Pushed(Pushed(d, Addr(a)), I32(s)));
    Execute(types, ops, 2, Pushed(Pushed(d, Addr(a)), I32(s)), Pushed(d, d.store.heap[a].elems[s]));
  }

  lemma {:induction false} FetchElementRuns(types: seq<Type>, d: Data, t: nat, a: nat, s: u32)
    requires t < |types| && types[t].ArrayType? && IsArray(d.store.heap, a, t) && s < |d.store.heap[a].elems|
    ensures Eval(types, Ops([ArrayGet(t)]), Pushed(Pushed(d, Addr(a)), I32(s)))
      == Some(Pushed(d, d.store.heap[a].elems[s]))
  {
    var ops := [ArrayGet(t)];
    Execute(types, ops, 0, Pushed(Pushed(d, Addr(a)), I32(s)), Pushed(d, d.store.heap[a].elems[s]));
  }

  lemma {:induction false} FetchAddRuns(types: seq<Type>, d: Data, a: nat, s: u32, sum: u32, x: u32)
    requires |types| > 0 && types[0] == ArrayType(Scalar) && IsArray(d.store.heap, a, 0) && s < |d.store.heap[a].elems|
    requires d.store.heap[a].elems[s] == I32(x)
    ensures Eval(types, Ops([ArrayGet(0), I32Add]), Pushed(Pushed(Pushed(d, I32(sum)), Addr(a)), I32(s)))
         == Some(Pushed(d, I32(Wrap(sum + x))))
  {
  }
}
