/** The generator of the general-family modules: every instruction is appended to a
    byte buffer and to the instruction list at once. */
module Generator {
  import opened Wrappers
  import opened Lcg
  import opened Machine
  import opened Straight
  import opened Families
  import opened Fragments
  import opened Codec
  import opened Instructions

  // ----- The code buffer -----

  class Code {
    var binary: seq<byte>
    var wat: seq<Token>

    constructor ()
      ensures Valid() && wat == []
    {
      binary, wat := [], [];
    }

    /** The buffer is the encoding of the list. */
    ghost predicate Valid()
      reads this
    {
      AllEmitted(wat) && binary == Encode(wat)
    }

    method Emit(text: Token, data: seq<byte>)
      requires Valid() && Emitted(text) && data == EncodeToken(text)
      modifies this
      ensures Valid() && wat == old(wat) + [text]
    {
      hide EncodeToken; hide Encode;
      EncodeAppend(wat, text);
      wat := wat + [text];
      binary := binary + data;
    }

    method I32(value: int)
      requires Valid()
      modifies this
      ensures Valid() && wat == old(wat) + [Plain(Const(value))]
    {
      var v := Signed32(value);
      var data := EncodeSleb(v);
      Emit(Plain(I32Const(v)), [0x41] + data);
    }

    method Index(value: nat) returns (data: seq<byte>)
      requires value <= MASK
      ensures data == Uleb(value)
    {
      var encoded := EncodeUleb(value);
      data := encoded.value;
    }

    method Get(local: nat)
      requires Valid() && local <= MASK
      modifies this
      ensures Valid() && wat == old(wat) + [Plain(LocalGet(local))]
    {
      var data := Index(local);
      Emit(Plain(LocalGet(local)), [0x20] + data);
    }

    method Set(local: nat)
      requires Valid() && local <= MASK
      modifies this
      ensures Valid() && wat == old(wat) + [Plain(LocalSet(local))]
    {
      var data := Index(local);
      Emit(Plain(LocalSet(local)), [0x21] + data);
    }

    method Op(text: Token, opcode: byte)
      requires Valid() && Emitted(text) && EncodeToken(text) == [opcode]
      modifies this
      ensures Valid() && wat == old(wat) + [text]
    {
      Emit(text, [opcode]);
    }

    /** A heap instruction: prefix, opcode and immediates. */
    method Gc(op: Machine.Op, opcode: nat, immediates: seq<nat>)
      requires Valid() && Emitted(Plain(op)) && opcode <= MASK
      requires forall k :: 0 <= k < |immediates| ==> immediates[k] <= MASK
      requires EncodeOp(op) == [0xFB] + Uleb(opcode) + Ulebs(immediates)
      modifies this
      ensures Valid() && wat == old(wat) + [Plain(op)]
    {
      hide Uleb; hide EncodeOp;
      var code := Index(opcode);
      var data := [0xFB] + code;
      for k := 0 to |immediates|
        modifies {}
        invariant data == [0xFB] + Uleb(opcode) + Ulebs(immediates[..k])
      {
        var immediate := Index(immediates[k]);
        assert immediates[..k + 1][..k] == immediates[..k];
        data := data + immediate;
      }
      assert immediates[..|immediates|] == immediates;
      assert data == EncodeToken(Plain(op));
      Emit(Plain(op), data);
    }
  }

  function Ulebs(values: seq<nat>): (r: seq<byte>)
  {
    if values == [] then [] else Ulebs(values[..|values| - 1]) + Uleb(values[|values| - 1])
  }

  lemma {:induction false} Ulebs1(x: nat)
    ensures Ulebs([]) == [] && Ulebs([x]) == Uleb(x)
  {
    assert [x][..0] == [];
  }

  lemma {:induction false} Ulebs2(x: nat, y: nat)
    ensures Ulebs([x, y]) == Uleb(x) + Uleb(y)
  {
    assert [x, y][..1] == [x];
    Ulebs1(x);
  }

  // ----- Appending -----

  lemma {:induction false} JoinThen(w: seq<Token>, p: Prog, q: Prog)
    ensures (w + Flat(p)) + Flat(q) == w + Flat(Then(p, q))
  {
    hide Flat;
    FlatThen(p, q);
  }

  lemma {:induction false} FlatThen(p: Prog, q: Prog)
    ensures Flat(Then(p, q)) == Flat(p) + Flat(q)
  {
  }

  lemma {:induction false} Join3(w: seq<Token>, p: Prog, q: Prog, r: Prog)
    ensures w + Flat(p) + Flat(q) + Flat(r) == w + Flat(Then(p, Then(q, r)))
  {
    hide Flat;
    JoinThen(w + Flat(p), q, r);
    JoinThen(w, p, Then(q, r));
  }

  lemma {:induction false} Join4(w: seq<Token>, p: Prog, q: Prog, r: Prog, s: Prog)
    ensures w + Flat(p) + Flat(q) + Flat(r) + Flat(s) == w + Flat(Then(p, Then(q, Then(r, s))))
  {
    hide Flat;
    Join3(w + Flat(p), q, r, s);
    JoinThen(w, p, Then(q, Then(r, s)));
  }

  lemma {:induction false} Join5(w: seq<Token>, p: Prog, q: Prog, r: Prog, s: Prog, t: Prog)
    ensures w + Flat(p) + Flat(q) + Flat(r) + Flat(s) + Flat(t) == w + Flat(Then(p, Then(q, Then(r, Then(s, t)))))
  {
    hide Flat;
    Join4(w + Flat(p), q, r, s, t);
    JoinThen(w, p, Then(q, Then(r, Then(s, t))));
  }

  // ----- Heap instructions -----

  method EmitStructGet(c: Code, field: nat)
    requires c.Valid() && field <= 1
    modifies c
    ensures c.Valid() && c.wat == old(c.wat) + [Plain(StructGet(0, field))]
  {
    hide Uleb; hide Ulebs;
    Ulebs2(0, field);
    assert [0xFB] + Uleb(2) + (Uleb(0) + Uleb(field)) == [0xFB] + Uleb(2) + Uleb(0) + Uleb(field);
    c.Gc(StructGet(0, field), 2, [0, field]);
  }

  method EmitStructSet(c: Code, field: nat)
    requires c.Valid() && field <= 1
    modifies c
    ensures c.Valid() && c.wat == old(c.wat) + [Plain(StructSet(0, field))]
  {
    hide Uleb; hide Ulebs;
    Ulebs2(0, field);
    assert [0xFB] + Uleb(5) + (Uleb(0) + Uleb(field)) == [0xFB] + Uleb(5) + Uleb(0) + Uleb(field);
    c.Gc(StructSet(0, field), 5, [0, field]);
  }

  /** A heap instruction with at most one immediate. */
  method EmitTyped(c: Code, op: Machine.Op, opcode: nat)
    requires c.Valid()
    requires (op.RefCast? && opcode == 22) || (op.StructNew? && opcode == 0) || (op.ArrayNew? && opcode == 6)
          || (op.ArrayGet? && opcode == 11) || (op.ArraySet? && opcode == 14)
    requires op.typ <= 1
    modifies c
    ensures c.Valid() && c.wat == old(c.wat) + [Plain(op)]
  {
    hide Uleb; hide Ulebs;
    Ulebs1(op.typ);
    c.Gc(op, opcode, [op.typ]);
  }

  method EmitArrayLen(c: Code)
    requires c.Valid()
    modifies c
    ensures c.Valid() && c.wat == old(c.wat) + [Plain(ArrayLen)]
  {
    hide Uleb; hide Ulebs;
    Ulebs1(0);
    c.Gc(ArrayLen, 15, []);
  }

  /** `local.get` and `struct.get`. */
  method EmitGetField(c: Code, field: nat, local: nat)
    requires c.Valid() && field <= 1 && local <= 8
    modifies c
    ensures c.Valid() && c.wat == old(c.wat) + Flat(GetField(field, local))
  {
    ghost var w := c.wat;
    c.Get(local);
    EmitStructGet(c, field);
    assert c.wat == w + PlainTokens([LocalGet(local), StructGet(0, field)]);
  }

  method EmitSetField(c: Code, field: nat, value: nat)
    requires c.Valid() && field <= 1 && value <= 8
    modifies c
    ensures c.Valid() && c.wat == old(c.wat) + Flat(SetField(field, value))
  {
    ghost var w := c.wat;
    c.Get(6);
    c.Get(value);
    EmitStructSet(c, field);
    assert c.wat == w + PlainTokens([LocalGet(6), LocalGet(value), StructSet(0, field)]);
  }

  method EmitTrapUnlessEqual(c: Code)
    requires c.Valid()
    modifies c
    ensures c.Valid() && c.wat == old(c.wat) + Flat(TrapUnlessEqual())
  {
    ghost var w := c.wat;
    c.Op(Plain(I32Ne), 0x47);
    c.Emit(If, [0x04, 0x40]);
    c.Op(Plain(Unreachable), 0x00);
    c.Op(End, 0x0B);
    assert Flat(TrapUnlessEqual()) == [Plain(I32Ne), If, Plain(Unreachable), End];
  }

  // ----- Shared fragments -----

  method EmitLcg(c: Code)
    requires c.Valid()
    modifies c
    ensures c.Valid() && c.wat == old(c.wat) + Flat(LcgStep())
  {
    hide Const;
    ghost var w := c.wat;
    c.Get(1);
    c.I32(1664525);
    c.Op(Plain(I32Mul), 0x6C);
    ghost var half := c.wat;
    assert half == w + PlainTokens([LocalGet(1), Const(1664525), I32Mul]);
    c.I32(1013904223);
    c.Op(Plain(I32Add), 0x6A);
    c.Set(1);
    assert c.wat == w + PlainTokens([LocalGet(1), Const(1664525), I32Mul, Const(1013904223), I32Add, LocalSet(1)]);
  }

  method EmitSlot(c: Code)
    requires c.Valid()
    modifies c
    ensures c.Valid() && c.wat == old(c.wat) + Flat(Slot())
  {
    ghost var w := c.wat;
    c.Get(0);
    c.I32(ROOTS - 1);
    c.Op(Plain(I32And), 0x71);
    c.Set(3);
    assert c.wat == w + PlainTokens([LocalGet(0), Const(1023), I32And, LocalSet(3)]);
  }

  method EmitLoadSlot(c: Code, table: nat, typ: nat, local: nat)
    requires c.Valid() && table <= 1 && typ <= 1 && local <= 8
    modifies c
    ensures c.Valid() && c.wat == old(c.wat) + Flat(LoadSlot(table, typ, local))
  {
    ghost var w := c.wat;
    c.Get(3);
    UlebSize(table);
    c.Emit(Plain(TableGet(table)), [0x25, table]);
    EmitTyped(c, RefCast(typ), 22);
    c.Set(local);
    assert c.wat == w + PlainTokens([LocalGet(3), TableGet(table), RefCast(typ), LocalSet(local)]);
  }

  method EmitStoreSlot(c: Code, table: nat, local: nat)
    requires c.Valid() && table <= 1 && local <= 8
    modifies c
    ensures c.Valid() && c.wat == old(c.wat) + Flat(StoreSlot(table, local))
  {
    ghost var w := c.wat;
    c.Get(3);
    c.Get(local);
    UlebSize(table);
    c.Emit(Plain(TableSet(table)), [0x26, table]);
    assert c.wat == w + PlainTokens([LocalGet(3), LocalGet(local), TableSet(table)]);
  }

  method EmitLoadPartner(c: Code)
    requires c.Valid()
    modifies c
    ensures c.Valid() && c.wat == old(c.wat) + Flat(LoadPartner())
  {
    ghost var w := c.wat;
    EmitGetField(c, 1, 6);
    ghost var w1 := c.wat;
    c.Op(Plain(RefAsNonNull), 0xD4);
    c.Set(7);
    assert c.wat == w1 + PlainTokens([RefAsNonNull, LocalSet(7)]);
    JoinThen(w, GetField(1, 6), Ops([RefAsNonNull, LocalSet(7)]));
  }

  /** Loads the group of the slot into its locals. */
  method EmitLoadRoot(c: Code, family: Family)
    requires c.Valid()
    modifies c
    ensures c.Valid() && c.wat == old(c.wat) + Flat(LoadRoot(family))
  {
    hide Flat;
    ghost var w := c.wat;
    var heap := if HasArray(family) then ArrayIndex(family) else 0;
    EmitLoadSlot(c, 0, heap, if HasArray(family) then 8 else 6);
    if family.ReferenceArray? {
      EmitLoadSlot(c, 1, 0, 6);
    }
    if HasRefs(family) {
      EmitLoadPartner(c);
    }
    if family.ReferenceCycle? {
      JoinThen(w, LoadSlot(0, 0, 6), LoadPartner());
    } else if family.ReferenceArray? {
      Join3(w, LoadSlot(0, 1, 8), LoadSlot(1, 0, 6), LoadPartner());
    }
  }

  method EmitCreateCycle(c: Code)
    requires c.Valid()
    modifies c
    ensures c.Valid() && c.wat == old(c.wat) + Flat(CreateCycle())
  {
    hide Flat; hide Const;
    ghost var w := c.wat;
    EmitNodeA(c);
    EmitPartnerValue(c);
    EmitNodeB(c);
    EmitSetField(c, 1, 7);
    Join4(w, Ops([LocalGet(1), RefNull, StructNew(0), LocalSet(6)]),
          Ops([LocalGet(1), Const(3), I32Mul, Const(17), I32Add]), Ops([LocalGet(6), StructNew(0), LocalSet(7)]),
          SetField(1, 7));
  }

  method EmitNodeA(c: Code)
    requires c.Valid()
    modifies c
    ensures c.Valid() && c.wat == old(c.wat) + Flat(Ops([LocalGet(1), RefNull, StructNew(0), LocalSet(6)]))
  {
    ghost var w := c.wat;
    c.Get(1);
    c.Emit(Plain(RefNull), [0xD0, 0x00]);
    EmitTyped(c, StructNew(0), 0);
    c.Set(6);
    assert c.wat == w + PlainTokens([LocalGet(1), RefNull, StructNew(0), LocalSet(6)]);
  }

  method EmitPartnerValue(c: Code)
    requires c.Valid()
    modifies c
    ensures c.Valid() && c.wat == old(c.wat) + Flat(Ops([LocalGet(1), Const(3), I32Mul, Const(17), I32Add]))
  {
    hide Const;
    ghost var w := c.wat;
    c.Get(1);
    c.I32(3);
    c.Op(Plain(I32Mul), 0x6C);
    c.I32(17);
    c.Op(Plain(I32Add), 0x6A);
    assert c.wat == w + PlainTokens([LocalGet(1), Const(3), I32Mul, Const(17), I32Add]);
  }

  method EmitNodeB(c: Code)
    requires c.Valid()
    modifies c
    ensures c.Valid() && c.wat == old(c.wat) + Flat(Ops([LocalGet(6), StructNew(0), LocalSet(7)]))
  {
    ghost var w := c.wat;
    c.Get(6);
    EmitTyped(c, StructNew(0), 0);
    c.Set(7);
    assert c.wat == w + PlainTokens([LocalGet(6), StructNew(0), LocalSet(7)]);
  }

  method EmitNewArray(c: Code, initial: nat, typ: nat)
    requires c.Valid() && initial <= 8 && typ <= 1
    modifies c
    ensures c.Valid() && c.wat == old(c.wat) + Flat(Ops([LocalGet(initial), Const(8), ArrayNew(typ), LocalSet(8)]))
  {
    hide Const;
    ghost var w := c.wat;
    c.Get(initial);
    c.I32(WIDTH);
    EmitTyped(c, ArrayNew(typ), 6);
    c.Set(8);
    assert c.wat == w + PlainTokens([LocalGet(initial), Const(8), ArrayNew(typ), LocalSet(8)]);
  }

  method EmitNewStruct(c: Code)
    requires c.Valid()
    modifies c
    ensures c.Valid() && c.wat == old(c.wat) + Flat(Ops([LocalGet(1), StructNew(0), LocalSet(6)]))
  {
    ghost var w := c.wat;
    c.Get(1);
    EmitTyped(c, StructNew(0), 0);
    c.Set(6);
    assert c.wat == w + PlainTokens([LocalGet(1), StructNew(0), LocalSet(6)]);
  }

  /** Allocates a group and stores it in the slot. */
  method EmitCreate(c: Code, family: Family)
    requires c.Valid()
    modifies c
    ensures c.Valid() && c.wat == old(c.wat) + Flat(Create(family))
  {
    hide Flat; hide Const;
    ghost var w := c.wat;
    if HasRefs(family) {
      EmitCreateCycle(c);
      if HasArray(family) {
        EmitNewArray(c, 6, 1);
      }
    } else if HasArray(family) {
      EmitNewArray(c, 1, 0);
    } else {
      EmitNewStruct(c);
    }
    EmitStoreSlot(c, 0, if HasArray(family) then 8 else 6);
    if family.ReferenceArray? {
      EmitStoreSlot(c, 1, 6);
    }
    match family
    case MutableStruct => JoinThen(w, Ops([LocalGet(1), StructNew(0), LocalSet(6)]), StoreSlot(0, 6));
    case ReferenceCycle => JoinThen(w, CreateCycle(), StoreSlot(0, 6));
    case NumericArray => JoinThen(w, Ops([LocalGet(1), Const(8), ArrayNew(0), LocalSet(8)]), StoreSlot(0, 8));
    case ReferenceArray =>
      Join4(w, CreateCycle(), Ops([LocalGet(6), Const(8), ArrayNew(1), LocalSet(8)]), StoreSlot(0, 8), StoreSlot(1, 6));
  }

  lemma {:induction false} OneOp(w: seq<Token>, a: Op)
    ensures w + [Plain(a)] == w + Flat(Ops([a]))
  {
    assert PlainTokens([a]) == [Plain(a)];
  }

  lemma {:induction false} TwoOps(w: seq<Token>, a: Op, b: Op)
    ensures w + [Plain(a)] + [Plain(b)] == w + Flat(Ops([a, b]))
  {
    assert PlainTokens([a, b]) == [Plain(a), Plain(b)];
  }

  lemma {:induction false} ThreeOps(w: seq<Token>, a: Op, b: Op, c: Op)
    ensures w + [Plain(a)] + [Plain(b)] + [Plain(c)] == w + Flat(Ops([a, b, c]))
  {
    assert PlainTokens([a, b, c]) == [Plain(a), Plain(b), Plain(c)];
  }

  lemma {:induction false} FourOps(w: seq<Token>, a: Op, b: Op, c: Op, d: Op)
    ensures w + [Plain(a)] + [Plain(b)] + [Plain(c)] + [Plain(d)] == w + Flat(Ops([a, b, c, d]))
  {
    assert PlainTokens([a, b, c, d]) == [Plain(a), Plain(b), Plain(c), Plain(d)];
  }

  // ----- Readback -----

  method EmitCycleCheck(c: Code)
    requires c.Valid()
    modifies c
    ensures c.Valid() && c.wat == old(c.wat) + Flat(CycleCheck())
  {
    hide Const;
    ghost var w := c.wat;
    c.Get(7);
    EmitStructGet(c, 1);
    c.Get(6);
    c.Op(Plain(RefEq), 0xD3);
    c.I32(1);
    assert c.wat == w + PlainTokens([LocalGet(7), StructGet(0, 1), LocalGet(6), RefEq, Const(1)]);
    EmitTrapUnlessEqual(c);
    JoinThen(w, Ops([LocalGet(7), StructGet(0, 1), LocalGet(6), RefEq, Const(1)]), TrapUnlessEqual());
  }

  method EmitLengthCheck(c: Code)
    requires c.Valid()
    modifies c
    ensures c.Valid() && c.wat == old(c.wat) + Flat(LengthCheck())
  {
    hide Const; hide Flat;
    ghost var w := c.wat;
    c.Get(8);
    EmitArrayLen(c);
    c.I32(WIDTH);
    ThreeOps(w, LocalGet(8), ArrayLen, Const(8));
    EmitTrapUnlessEqual(c);
    JoinThen(w, Ops([LocalGet(8), ArrayLen, Const(8)]), TrapUnlessEqual());
  }

  method EmitReadElement(c: Code, family: Family, j: nat)
    requires c.Valid() && HasArray(family)
    modifies c
    ensures c.Valid() && c.wat == old(c.wat) + Flat(ReadElement(family, j))
  {
    hide Const; hide Flat;
    ghost var w := c.wat;
    var t := ArrayIndex(family);
    c.Get(8);
    c.I32(j);
    EmitTyped(c, ArrayGet(t), 11);
    ThreeOps(w, LocalGet(8), Const(j), ArrayGet(t));
    ghost var w1 := c.wat;
    if HasRefs(family) {
      EmitStructGet(c, 0);
    }
    c.Op(Plain(I32Add), 0x6A);
    if HasRefs(family) {
      TwoOps(w1, StructGet(0, 0), I32Add);
      JoinThen(w, Ops([LocalGet(8), Const(j), ArrayGet(1)]), Ops([StructGet(0, 0), I32Add]));
    } else {
      OneOp(w1, I32Add);
      JoinThen(w, Ops([LocalGet(8), Const(j), ArrayGet(0)]), Ops([I32Add]));
    }
  }

  method EmitReadElements(c: Code, family: Family)
    requires c.Valid() && HasArray(family)
    modifies c
    ensures c.Valid() && c.wat == old(c.wat) + Flat(ReadElements(family, WIDTH))
  {
    hide Flat; hide Const; hide ReadElement;
    ghost var w := c.wat;
    c.I32(0);
    ReadNone(family);
    for j := 0 to WIDTH
      modifies c
      invariant c.Valid() && c.wat == w + Flat(ReadElements(family, j))
    {
      EmitReadElement(c, family, j);
      JoinThen(w, ReadElements(family, j), ReadElement(family, j));
    }
  }

  lemma {:induction false} ReadNone(family: Family)
    ensures Flat(ReadElements(family, 0)) == [Plain(Const(0))]
  {
    hide Const;
    assert PlainTokens([Const(0)]) == [Plain(Const(0))];
  }

  /** Leaves the retained checksum of the loaded group on the operand stack. */
  method EmitRetained(c: Code, family: Family)
    requires c.Valid()
    modifies c
    ensures c.Valid() && c.wat == old(c.wat) + Flat(RetainedCode(family))
  {
    hide Flat; hide ReadElements;
    ghost var w := c.wat;
    if !HasArray(family) {
      EmitGetField(c, 0, 6);
      if HasRefs(family) {
        EmitGetField(c, 0, 7);
        ghost var w1 := c.wat;
        c.Op(Plain(I32Add), 0x6A);
        OneOp(w1, I32Add);
      }
    } else {
      EmitLengthCheck(c);
      EmitReadElements(c, family);
    }
    if HasRefs(family) {
      EmitCycleCheck(c);
    }
    match family
    case MutableStruct =>
    case ReferenceCycle => Join4(w, GetField(0, 6), GetField(0, 7), Ops([I32Add]), CycleCheck());
    case NumericArray => JoinThen(w, LengthCheck(), ReadElements(family, WIDTH));
    case ReferenceArray => Join3(w, LengthCheck(), ReadElements(family, WIDTH), CycleCheck());
  }

  method EmitAccumulateRetained(c: Code, family: Family)
    requires c.Valid()
    modifies c
    ensures c.Valid() && c.wat == old(c.wat) + Flat(AccumulateRetained(family))
  {
    hide Flat; hide RetainedCode;
    ghost var w := c.wat;
    c.Get(2);
    OneOp(w, LocalGet(2));
    EmitRetained(c, family);
    ghost var w2 := c.wat;
    c.Op(Plain(I32Add), 0x6A);
    c.Set(2);
    TwoOps(w2, I32Add, LocalSet(2));
    Join3(w, Ops([LocalGet(2)]), RetainedCode(family), Ops([I32Add, LocalSet(2)]));
  }

  /** The increment and comparison at the end of a loop body, and the loop's end. */
  method EmitAdvance(c: Code, limit: nat)
    requires c.Valid()
    modifies c
    ensures c.Valid() && c.wat == old(c.wat) + Flat(Advance(limit)) + [BrIf(0), End]
  {
    hide Flat; hide Const;
    ghost var w := c.wat;
    c.Get(0);
    c.I32(1);
    c.Op(Plain(I32Add), 0x6A);
    c.Set(0);
    FourOps(w, LocalGet(0), Const(1), I32Add, LocalSet(0));
    EmitCompare(c, limit);
    JoinThen(w, Ops([LocalGet(0), Const(1), I32Add, LocalSet(0)]), Ops([LocalGet(0), Const(limit), I32LtU]));
    ghost var w2 := c.wat;
    UlebSize(0);
    c.Emit(BrIf(0), [0x0D, 0x00]);
    c.Op(End, 0x0B);
    assert c.wat == w2 + [BrIf(0), End];
  }

  method EmitCompare(c: Code, limit: nat)
    requires c.Valid()
    modifies c
    ensures c.Valid() && c.wat == old(c.wat) + Flat(Ops([LocalGet(0), Const(limit), I32LtU]))
  {
    hide Flat; hide Const;
    ghost var w := c.wat;
    c.Get(0);
    c.I32(limit);
    c.Op(Plain(I32LtU), 0x49);
    ThreeOps(w, LocalGet(0), Const(limit), I32LtU);
  }

  // ----- The work of one iteration -----

  method EmitFollowingIndex(c: Code)
    requires c.Valid()
    modifies c
    ensures c.Valid() && c.wat == old(c.wat) + Flat(FollowingIndex())
  {
    hide Flat; hide Const;
    ghost var w := c.wat;
    c.Get(8);
    c.Get(4);
    c.I32(1);
    c.Op(Plain(I32Add), 0x6A);
    FourOps(w, LocalGet(8), LocalGet(4), Const(1), I32Add);
    ghost var w1 := c.wat;
    c.I32(WIDTH - 1);
    c.Op(Plain(I32And), 0x71);
    TwoOps(w1, Const(7), I32And);
    JoinThen(w, Ops([LocalGet(8), LocalGet(4), Const(1), I32Add]), Ops([Const(7), I32And]));
  }

  method EmitWriteElements(c: Code, family: Family)
    requires c.Valid() && HasArray(family)
    modifies c
    ensures c.Valid() && c.wat == old(c.wat) + Flat(WriteElements(family))
  {
    hide Flat; hide Const; hide FollowingIndex;
    ghost var w := c.wat;
    c.Get(8);
    c.Get(4);
    if HasRefs(family) {
      c.Get(7);
      EmitTyped(c, ArraySet(1), 14);
      FourOps(w, LocalGet(8), LocalGet(4), LocalGet(7), ArraySet(1));
    } else {
      TwoOps(w, LocalGet(8), LocalGet(4));
      EmitSalted(c);
    }
    EmitFollowingIndex(c);
    ghost var w2 := c.wat;
    c.Get(if HasRefs(family) then 6 else 5);
    EmitTyped(c, ArraySet(ArrayIndex(family)), 14);
    if HasRefs(family) {
      TwoOps(w2, LocalGet(6), ArraySet(1));
      Join3(w, Ops([LocalGet(8), LocalGet(4), LocalGet(7), ArraySet(1)]), FollowingIndex(),
            Ops([LocalGet(6), ArraySet(1)]));
    } else {
      TwoOps(w2, LocalGet(5), ArraySet(0));
      Join4(w, Ops([LocalGet(8), LocalGet(4)]), Ops([LocalGet(1), Const(SALT), I32Xor, ArraySet(0)]), FollowingIndex(),
            Ops([LocalGet(5), ArraySet(0)]));
    }
  }

  method EmitSalted(c: Code)
    requires c.Valid()
    modifies c
    ensures c.Valid() && c.wat == old(c.wat) + Flat(Ops([LocalGet(1), Const(SALT), I32Xor, ArraySet(0)]))
  {
    hide Flat; hide Const;
    ghost var w := c.wat;
    c.Get(1);
    c.I32(2781028135);
    c.Op(Plain(I32Xor), 0x73);
    EmitTyped(c, ArraySet(0), 14);
    FourOps(w, LocalGet(1), Const(SALT), I32Xor, ArraySet(0));
  }

  method EmitObserveElements(c: Code, family: Family)
    requires c.Valid() && HasArray(family)
    modifies c
    ensures c.Valid() && c.wat == old(c.wat) + Flat(ObserveElements(family))
  {
    hide Flat; hide FollowingIndex;
    ghost var w := c.wat;
    var t := ArrayIndex(family);
    c.Get(8);
    c.Get(4);
    EmitTyped(c, ArrayGet(t), 11);
    ThreeOps(w, LocalGet(8), LocalGet(4), ArrayGet(t));
    if HasRefs(family) {
      OneOp(c.wat, StructGet(0, 0));
      EmitStructGet(c, 0);
    }
    EmitFollowingIndex(c);
    ghost var w2 := c.wat;
    EmitTyped(c, ArrayGet(t), 11);
    if HasRefs(family) {
      OneOp(w2, ArrayGet(1));
      EmitThroughField(c);
      EmitPlusLength(c);
      JoinObserved(w, w2, c.wat);
    } else {
      c.Op(Plain(I32Add), 0x6A);
      TwoOps(w2, ArrayGet(0), I32Add);
      EmitPlusLength(c);
      Join4(w, Ops([LocalGet(8), LocalGet(4), ArrayGet(0)]), FollowingIndex(), Ops([ArrayGet(0), I32Add]),
            Ops([LocalGet(8), ArrayLen, I32Add]));
    }
  }

  method EmitPlusLength(c: Code)
    requires c.Valid()
    modifies c
    ensures c.Valid() && c.wat == old(c.wat) + Flat(Ops([LocalGet(8), ArrayLen, I32Add]))
  {
    hide Flat;
    ghost var w := c.wat;
    c.Get(8);
    EmitArrayLen(c);
    c.Op(Plain(I32Add), 0x6A);
    ThreeOps(w, LocalGet(8), ArrayLen, I32Add);
  }

  lemma {:induction false} JoinObserved(w: seq<Token>, w2: seq<Token>, after: seq<Token>)
    requires w2 == w + Flat(Ops([LocalGet(8), LocalGet(4), ArrayGet(1)])) + Flat(Ops([StructGet(0, 0)]))
      + Flat(FollowingIndex())
    requires after == w2 + Flat(Ops([ArrayGet(1)])) + Flat(Ops([StructGet(0, 0), I32Add]))
      + Flat(Ops([LocalGet(8), ArrayLen, I32Add]))
    ensures after == w + Flat(ObserveElements(ReferenceArray))
  {
    hide Flat; hide FollowingIndex;
    var a, b, f := Ops([LocalGet(8), LocalGet(4), ArrayGet(1)]), Ops([StructGet(0, 0)]), FollowingIndex();
    var d, e, g := Ops([ArrayGet(1)]), Ops([StructGet(0, 0), I32Add]), Ops([LocalGet(8), ArrayLen, I32Add]);
    Join3(w2, d, e, g);
    Join4(w, a, b, f, Then(d, Then(e, g)));
  }

  method EmitObserveCycle(c: Code)
    requires c.Valid()
    modifies c
    ensures c.Valid() && c.wat == old(c.wat) + Flat(ObserveCycle())
  {
    hide Flat; hide CycleCheck; hide GetField; hide SetField;
    ghost var w := c.wat;
    ghost var add := Ops([StructGet(0, 0), I32Add]);
    EmitSetField(c, 1, 6);
    EmitGetField(c, 0, 6);
    EmitGetField(c, 1, 6);
    EmitThroughField(c);
    ghost var w1 := c.wat;
    EmitSetField(c, 1, 7);
    EmitGetField(c, 1, 6);
    EmitThroughField(c);
    EmitCycleCheck(c);
    Join4(w1, SetField(1, 7), GetField(1, 6), add, CycleCheck());
    Join5(w, SetField(1, 6), GetField(0, 6), GetField(1, 6), add,
          Then(SetField(1, 7), Then(GetField(1, 6), Then(add, CycleCheck()))));
  }

  method EmitThroughField(c: Code)
    requires c.Valid()
    modifies c
    ensures c.Valid() && c.wat == old(c.wat) + Flat(Ops([StructGet(0, 0), I32Add]))
  {
    hide Flat;
    ghost var w := c.wat;
    EmitStructGet(c, 0);
    c.Op(Plain(I32Add), 0x6A);
    TwoOps(w, StructGet(0, 0), I32Add);
  }

  method EmitSelected(c: Code)
    requires c.Valid()
    modifies c
    ensures c.Valid() && c.wat == old(c.wat) + Flat(Ops([LocalGet(0), Const(7), I32And, LocalSet(4)]))
  {
    hide Flat; hide Const;
    ghost var w := c.wat;
    c.Get(0);
    c.I32(WIDTH - 1);
    c.Op(Plain(I32And), 0x71);
    c.Set(4);
    FourOps(w, LocalGet(0), Const(7), I32And, LocalSet(4));
  }

  /** Mutates the loaded group and leaves what was observed on the operand stack. */
  method EmitTouch(c: Code, family: Family)
    requires c.Valid()
    modifies c
    ensures c.Valid() && c.wat == old(c.wat) + Flat(Touch(family))
  {
    hide Flat; hide CycleCheck; hide GetField; hide SetField; hide ObserveCycle; hide WriteElements;
    hide ObserveElements; hide Const;
    ghost var w := c.wat;
    ghost var select := Ops([LocalGet(0), Const(7), I32And, LocalSet(4)]);
    if family.MutableStruct? {
      EmitSetField(c, 0, 5);
      EmitGetField(c, 0, 6);
      JoinThen(w, SetField(0, 5), GetField(0, 6));
    } else if family.ReferenceCycle? {
      EmitSetField(c, 0, 5);
      EmitObserveCycle(c);
      JoinThen(w, SetField(0, 5), ObserveCycle());
    } else {
      if HasRefs(family) {
        EmitSetField(c, 0, 5);
      }
      EmitSelected(c);
      EmitWriteElements(c, family);
      EmitObserveElements(c, family);
      if HasRefs(family) {
        EmitCycleCheck(c);
        Join5(w, SetField(0, 5), select, WriteElements(family), ObserveElements(family), CycleCheck());
      } else {
        Join3(w, select, WriteElements(family), ObserveElements(family));
      }
    }
  }

  // ----- Loops -----

  method EmitReadSlot(c: Code, family: Family)
    requires c.Valid()
    modifies c
    ensures c.Valid() && c.wat == old(c.wat) + Flat(ReadSlot(family))
  {
    hide Flat; hide LoadRoot; hide AccumulateRetained;
    ghost var w := c.wat;
    EmitLoadRoot(c, family);
    EmitAccumulateRetained(c, family);
    JoinThen(w, LoadRoot(family), AccumulateRetained(family));
  }

  /** Brings the group of this iteration into its locals. */
  method EmitAcquire(c: Code, family: Family, phase: Phase)
    requires c.Valid()
    modifies c
    ensures c.Valid() && c.wat == old(c.wat) + Flat(Acquire(family, phase))
  {
    hide Flat; hide LoadRoot; hide ReadSlot; hide Create; hide Const;
    ghost var w := c.wat;
    if phase == Allocate {
      c.Get(0);
      c.I32(ROOTS);
      c.Op(Plain(I32GeU), 0x4F);
      ThreeOps(w, LocalGet(0), Const(1024), I32GeU);
      ghost var w1 := c.wat;
      c.Emit(If, [0x04, 0x40]);
      EmitReadSlot(c, family);
      c.Op(End, 0x0B);
      JoinWhen(w1, ReadSlot(family));
      EmitCreate(c, family);
      Join3(w, Ops([LocalGet(0), Const(1024), I32GeU]), When(ReadSlot(family)), Create(family));
    } else {
      EmitLoadRoot(c, family);
    }
  }

  lemma {:induction false} JoinWhen(w: seq<Token>, p: Prog)
    ensures w + [If] + Flat(p) + [End] == w + Flat(When(p))
  {
    assert Flat(When(p)) == [If] + Flat(p) + [End];
  }

  method EmitWork(c: Code, family: Family)
    requires c.Valid()
    modifies c
    ensures c.Valid() && c.wat == old(c.wat) + Flat(Work(family))
  {
    hide Flat; hide Touch;
    ghost var w := c.wat;
    c.Get(1);
    c.Get(0);
    c.Op(Plain(I32Add), 0x6A);
    c.Set(5);
    FourOps(w, LocalGet(1), LocalGet(0), I32Add, LocalSet(5));
    ghost var w1 := c.wat;
    c.Get(2);
    OneOp(w1, LocalGet(2));
    EmitTouch(c, family);
    ghost var w2 := c.wat;
    c.Op(Plain(I32Add), 0x6A);
    c.Set(2);
    TwoOps(w2, I32Add, LocalSet(2));
    Join4(w, Ops([LocalGet(1), LocalGet(0), I32Add, LocalSet(5)]), Ops([LocalGet(2)]), Touch(family),
          Ops([I32Add, LocalSet(2)]));
  }

  lemma {:induction false} JoinLoop(w: seq<Token>, body: Prog)
    ensures w + [Loop] + Flat(body) + [BrIf(0), End] == w + LoopTokens(body)
  {
    hide Flat;
  }

  method EmitSetUpLoop(c: Code, family: Family)
    requires c.Valid()
    modifies c
    ensures c.Valid() && c.wat == old(c.wat) + LoopTokens(SetUpBody(family))
  {
    hide Flat; hide LcgStep; hide Slot; hide Create; hide Advance; hide LoopTokens;
    ghost var w := c.wat;
    c.Emit(Loop, [0x03, 0x40]);
    EmitLcg(c);
    EmitSlot(c);
    EmitCreate(c, family);
    EmitAdvance(c, ROOTS);
    Join4(w + [Loop], LcgStep(), Slot(), Create(family), Advance(1024));
    JoinLoop(w, SetUpBody(family));
  }

  method EmitMainLoop(c: Code, family: Family, phase: Phase, n: nat)
    requires c.Valid()
    modifies c
    ensures c.Valid() && c.wat == old(c.wat) + LoopTokens(MainBody(family, phase, n))
  {
    hide Flat; hide LcgStep; hide Slot; hide Acquire; hide Work; hide Advance; hide LoopTokens;
    ghost var w := c.wat;
    c.Emit(Loop, [0x03, 0x40]);
    EmitLcg(c);
    EmitSlot(c);
    EmitAcquire(c, family, phase);
    EmitWork(c, family);
    EmitAdvance(c, n);
    Join5(w + [Loop], LcgStep(), Slot(), Acquire(family, phase), Work(family), Advance(n));
    JoinLoop(w, MainBody(family, phase, n));
  }

  method EmitFinalLoop(c: Code, family: Family)
    requires c.Valid()
    modifies c
    ensures c.Valid() && c.wat == old(c.wat) + LoopTokens(FinalBody(family))
  {
    hide Flat; hide Slot; hide ReadSlot; hide Advance; hide LoopTokens;
    ghost var w := c.wat;
    c.Emit(Loop, [0x03, 0x40]);
    EmitSlot(c);
    EmitReadSlot(c, family);
    EmitAdvance(c, ROOTS);
    Join3(w + [Loop], Slot(), ReadSlot(family), Advance(1024));
    JoinLoop(w, FinalBody(family));
  }

  // ----- The two functions -----

  method EmitPublishSteps(c: Code)
    requires c.Valid()
    modifies c
    ensures c.Valid() && c.wat == old(c.wat) + Flat(PublishSteps())
  {
    hide Const;
    ghost var w := c.wat;
    c.Get(2);
    UlebSize(0);
    c.Emit(Plain(GlobalSet(0)), [0x24, 0x00]);
    EmitClear(c, 2);
    assert c.wat == w + PlainTokens([LocalGet(2), GlobalSet(0), Const(0), LocalSet(2)]);
    EmitClear(c, 0);
    assert c.wat == w + PlainTokens([LocalGet(2), GlobalSet(0), Const(0), LocalSet(2), Const(0), LocalSet(0)]);
  }

  /** Zero into a local. */
  method EmitClear(c: Code, local: nat)
    requires c.Valid() && local <= 8
    modifies c
    ensures c.Valid() && c.wat == old(c.wat) + [Plain(Const(0))] + [Plain(LocalSet(local))]
  {
    hide Const;
    c.I32(0);
    c.Set(local);
  }

  /** A value that must equal the expected one. */
  method EmitCheckGlobal(c: Code, global: nat, expected: u32)
    requires c.Valid() && global <= 1
    modifies c
    ensures c.Valid() && c.wat == old(c.wat) + Flat(CheckGlobal(global, expected))
  {
    hide Flat; hide Const; hide TrapUnlessEqual;
    ghost var w := c.wat;
    var data := c.Index(global);
    c.Emit(Plain(GlobalGet(global)), [0x23] + data);
    c.I32(expected);
    TwoOps(w, GlobalGet(global), Const(expected));
    EmitTrapUnlessEqual(c);
    JoinThen(w, Ops([GlobalGet(global), Const(expected)]), TrapUnlessEqual());
  }

  method EmitCheckState(c: Code, expected: u32)
    requires c.Valid()
    modifies c
    ensures c.Valid() && c.wat == old(c.wat) + Flat(CheckLocal(1, expected))
  {
    hide Flat; hide Const; hide TrapUnlessEqual;
    ghost var w := c.wat;
    c.Get(1);
    c.I32(expected);
    TwoOps(w, LocalGet(1), Const(expected));
    EmitTrapUnlessEqual(c);
    JoinThen(w, Ops([LocalGet(1), Const(expected)]), TrapUnlessEqual());
  }

  method EmitEpilogue(c: Code, e: Checksums)
    requires c.Valid()
    modifies c
    ensures c.Valid() && c.wat == old(c.wat) + Flat(Epilogue(e))
  {
    hide Flat; hide CheckLocal; hide CheckGlobal;
    ghost var w := c.wat;
    UlebSize(0);
    UlebSize(1);
    c.Get(2);
    c.Emit(Plain(GlobalSet(1)), [0x24, 0x01]);
    TwoOps(w, LocalGet(2), GlobalSet(1));
    EmitCheckState(c, e.lastLcg);
    EmitCheckGlobal(c, 0, e.step);
    EmitCheckGlobal(c, 1, e.root);
    ghost var w1 := c.wat;
    c.Emit(Plain(GlobalGet(0)), [0x23, 0x00]);
    c.Emit(Plain(GlobalGet(1)), [0x23, 0x01]);
    c.Op(Plain(I32Xor), 0x73);
    ThreeOps(w1, GlobalGet(0), GlobalGet(1), I32Xor);
    Join5(w, Ops([LocalGet(2), GlobalSet(1)]), CheckLocal(1, e.lastLcg), CheckGlobal(0, e.step), CheckGlobal(1, e.root),
          Ops([GlobalGet(0), GlobalGet(1), I32Xor]));
  }

  /** Everything before the main loop. */
  method EmitBeginning(family: Family, phase: Phase) returns (c: Code)
    ensures fresh(c) && c.Valid()
    ensures c.wat == Flat(Prologue()) + (if phase == Mutate then LoopTokens(SetUpBody(family)) + Flat(ResetIndex())
                                         else [])
  {
    hide Flat; hide Const; hide SetUpBody; hide LoopTokens;
    c := new Code();
    c.I32(123456789);
    c.Set(1);
    TwoOps([], Const(SEED), LocalSet(1));
    ghost var w := c.wat;
    assert w == Flat(Prologue());
    if phase == Mutate {
      EmitSetUpLoop(c, family);
      ghost var w1 := c.wat;
      EmitClear(c, 0);
      TwoOps(w1, Const(0), LocalSet(0));
      assert w + LoopTokens(SetUpBody(family)) + Flat(ResetIndex())
        == w + (LoopTokens(SetUpBody(family)) + Flat(ResetIndex()));
    }
  }

  /** The body of `run`. */
  method EmitRun(family: Family, phase: Phase, n: nat, e: Checksums) returns (c: Code)
    ensures fresh(c) && c.Valid() && c.wat == RunCode(family, phase, n, e)
  {
    hide Flat; hide MainBody; hide FinalBody; hide SetUpBody; hide LoopTokens; hide Epilogue; hide PublishSteps;
    hide Prologue; hide ResetIndex;
    c := EmitBeginning(family, phase);
    EmitMainLoop(c, family, phase, n);
    EmitPublishSteps(c);
    EmitFinalLoop(c, family);
    EmitEpilogue(c, e);
    c.Op(End, 0x0B);
  }

  /** The body of `_start`. */
  method EmitStart(e: Checksums) returns (c: Code)
    ensures fresh(c) && c.Valid() && c.wat == StartCode(e)
  {
    hide Flat; hide Const; hide TrapUnlessEqual;
    c := new Code();
    UlebSize(0);
    c.Emit(Call(0), [0x10, 0x00]);
    ghost var w := c.wat;
    c.I32(e.result);
    OneOp(w, Const(e.result));
    EmitTrapUnlessEqual(c);
    JoinThen(w, Ops([Const(e.result)]), TrapUnlessEqual());
    c.Op(End, 0x0B);
  }
}
