/** The exception leaf: `run` calls `step` in a protected block, `step` throws its
    result whenever its argument has four zero low bits, and `run` counts what it
    catches and checks the count and the checksum before it returns. */
module EhLeaf {
  import opened Wrappers
  import opened Bits
  import opened Lcg
  import opened Period
  import opened Machine
  import opened Straight

  // ----- The guest -----

  function NextOps(): (r: seq<Op>)
  {
    [LocalGet(0), I32Const(A), I32Mul, I32Const(C), I32Add, LocalSet(1), LocalGet(0), I32Const(15), I32And, I32Eqz]
  }

  function StepCode(): (r: seq<Token>)
  {
    PlainTokens(NextOps()) + [If, Plain(LocalGet(1)), Throw, End, Plain(LocalGet(1)), End]
  }

  function ResetOps(): (r: seq<Op>) { [I32Const(0), GlobalSet(0), I32Const(0), GlobalSet(1)] }

  function LimitOps(n: nat): (r: seq<Op>) { [LocalGet(0), I32Const(n), I32GeU] }

  /** The protected call and the two ways out of it. */
  function GuardTokens(): (r: seq<Token>)
  {
    [BrIf(1), Block(true), Block(true), TryTable(true, 0), Plain(LocalGet(1)), Call(0), End, Br(1), End]
  }

  function CaughtOps(): (r: seq<Op>) { [GlobalGet(0), I32Const(1), I32Add, GlobalSet(0)] }

  function AdvanceOps(): (r: seq<Op>) { [LocalSet(1), LocalGet(0), I32Const(1), I32Add, LocalSet(0)] }

  function Check(get: Op, value: nat): (p: Prog)
  {
    Then(Ops([get, I32Const(value), I32Ne]), When(Ops([Unreachable])))
  }

  function Closing(catches: nat, checksum: nat): (p: Prog)
  {
    Then(Ops([LocalGet(1), GlobalSet(1)]),
         Then(Check(GlobalGet(0), catches), Then(Check(LocalGet(1), checksum), Ops([LocalGet(1)]))))
  }

  function RunCode(n: nat, catches: nat, checksum: nat): (r: seq<Token>)
  {
    PlainTokens(ResetOps()) + ([Block(false), Loop] + (PlainTokens(LimitOps(n)) + (GuardTokens() +
    (PlainTokens(CaughtOps()) + ([End] + (PlainTokens(AdvanceOps()) + ([Br(0), End, End] +
    (Flat(Closing(catches, checksum)) + [End]))))))))
  }

  function Guest(n: nat, catches: nat, checksum: nat): (m: Module)
  {
    Module([], [Func(1, [I32(0)], true, StepCode()),
                Func(0, [I32(0), I32(0)], true, RunCode(n, catches, checksum)),
                Func(0, [], false, [Call(1), Plain(Drop), End])])
  }

  function Globals(catches: u32, checksum: u32): (s: Store) { Store([], [I32(catches), I32(checksum)], []) }

  /** The guest about to run `_start`. */
  function Initial(): (c: Config) { Running(2, 0, Nil, Data(Empty, [], Globals(0, 0)), Nil) }

  // ----- The leaf -----

  /** The state of `run` outside the leaf, `labels` in place of its own. */
  function InRun(pc: nat, labels: List<Label>, stack: Stack, locals: seq<Val>, store: Store,
                 cs: List<Caller>): (c: Config)
  {
    Running(1, pc, labels, Data(stack, locals, store), cs)
  }

  /** The end of the protected call: a caught value continues at the handler's target,
      a returned one after the call. */
  lemma {:induction false} Leaf(m: Module, v: u32, store: Store, f: Caller, cs: List<Caller>)
    requires |m.funcs| > 0 && m.funcs[0] == Func(1, [I32(0)], true, StepCode())
    ensures var c := Running(0, 0, Nil, Data(Empty, [I32(v), I32(0)], store), Cons(f, cs));
            Leads(m, c, if v % 16 == 0 then Unwind(0, Nil, I32(Next(v)), [I32(v), I32(Next(v))], store, Cons(f, cs))
                        else Running(f.func, f.pc, f.labels, Data(Push(f.stack, I32(Next(v))), f.locals, store), cs))
  {
    hide Unwind; hide Run;
    var c := Running(0, 0, Nil, Data(Empty, [I32(v), I32(0)], store), Cons(f, cs));
    var d := Data(Push(Empty, I32(Truth(v % 16 == 0))), [I32(v), I32(Next(v))], store);
    LeafParts();
    LeafNext(m.types, v, store);
    LeadsOps(m, c, NextOps(), d);
    var c1 := Moved(c, 10, d);
    if v % 16 == 0 {
      LeafThrows(m, v, store, Cons(f, cs));
      LeadsTrans(m, c, c1, Unwind(0, Nil, I32(Next(v)), [I32(v), I32(Next(v))], store, Cons(f, cs)));
    } else {
      LeafReturns(m, v, store, f, cs);
      LeadsTrans(m, c, c1, Running(f.func, f.pc, f.labels, Data(Push(f.stack, I32(Next(v))), f.locals, store), cs));
    }
  }

  lemma {:induction false} LeafParts()
    ensures var code := StepCode();
            |code| == 16 && At(code, 0, PlainTokens(NextOps())) && code[10] == If && code[11] == Plain(LocalGet(1))
            && code[12] == Throw && code[13] == End && code[14] == Plain(LocalGet(1)) && code[15] == End
  {
    var tail := [If, Plain(LocalGet(1)), Throw, End, Plain(LocalGet(1)), End];
    assert StepCode()[0..|PlainTokens(NextOps())|] == PlainTokens(NextOps());
    assert forall k :: 0 <= k < 6 ==> StepCode()[10 + k] == tail[k];
  }

  lemma {:induction false} LeafNext(types: seq<Type>, v: u32, store: Store)
    ensures EvalOps(types, NextOps(), 0, Data(Empty, [I32(v), I32(0)], store)) ==
            Some(Data(Push(Empty, I32(Truth(v % 16 == 0))), [I32(v), I32(Next(v))], store))
  {
    hide And; hide Wrap; hide Next;
    MaskValues(v);
    LeafWraps(v);
    var ops, locals := NextOps(), [I32(v), I32(Next(v))];
    var product := Data(Push(Empty, I32(Wrap(v * A))), [I32(v), I32(0)], store);
    assert locals == [I32(v), I32(0)][1 := I32(Next(v))];
    assert EvalOps(types, ops, 8, Data(Push(Push(Empty, I32(v)), I32(15)), locals, store)) ==
           Some(Data(Push(Empty, I32(Truth(v % 16 == 0))), locals, store));
    assert EvalOps(types, ops, 6, Data(Empty, locals, store)) ==
           EvalOps(types, ops, 8, Data(Push(Push(Empty, I32(v)), I32(15)), locals, store));
    assert EvalOps(types, ops, 3, product) == EvalOps(types, ops, 6, Data(Empty, locals, store));
    assert EvalOps(types, ops, 0, Data(Empty, [I32(v), I32(0)], store)) == EvalOps(types, ops, 3, product);
  }

  lemma {:induction false} LeafWraps(v: u32)
    ensures Wrap(A) == A && Wrap(C) == C && Wrap(15) == 15 && Wrap(Wrap(v * A) + C) == Next(v)
  {
    WrapAdd(v * A, C);
  }

  lemma {:induction false} LeafThrows(m: Module, v: u32, store: Store, callers: List<Caller>)
    requires |m.funcs| > 0 && m.funcs[0] == Func(1, [I32(0)], true, StepCode())
    ensures var locals := [I32(v), I32(Next(v))];
            Leads(m, Running(0, 10, Nil, Data(Push(Empty, I32(1)), locals, store), callers),
                  Unwind(0, Nil, I32(Next(v)), locals, store, callers))
  {
    hide FindEnd; hide Run; hide Next;
    LeafParts();
    var locals := [I32(v), I32(Next(v))];
    var c := Running(0, 10, Nil, Data(Push(Empty, I32(1)), locals, store), callers);
    var after := FindEnd(StepCode(), 11, 0) + 1;
    var inside := Cons(Label(after, Empty, false, None), Nil);
    var c1 := Running(0, 11, inside, Data(Empty, locals, store), callers);
    var c2 := Running(0, 12, inside, Data(Push(Empty, I32(Next(v))), locals, store), callers);
    LeadsStep(m, c);
    assert Step(m, c) == c1;
    LeadsStep(m, c1);
    assert Step(m, c1) == c2;
    LeadsStep(m, c2);
    assert Step(m, c2) == Unwind(0, Nil, I32(Next(v)), locals, store, callers);
    LeadsTrans(m, c, c1, c2);
    LeadsTrans(m, c, c2, Step(m, c2));
  }

  lemma {:induction false} LeafReturns(m: Module, v: u32, store: Store, f: Caller, cs: List<Caller>)
    requires |m.funcs| > 0 && m.funcs[0] == Func(1, [I32(0)], true, StepCode())
    ensures Leads(m, Running(0, 10, Nil, Data(Push(Empty, I32(0)), [I32(v), I32(Next(v))], store), Cons(f, cs)),
                  Running(f.func, f.pc, f.labels, Data(Push(f.stack, I32(Next(v))), f.locals, store), cs))
  {
    hide FindEnd; hide Run; hide Next;
    LeafParts();
    LeafEnd();
    var locals := [I32(v), I32(Next(v))];
    var c := Running(0, 10, Nil, Data(Push(Empty, I32(0)), locals, store), Cons(f, cs));
    var c1 := Running(0, 14, Nil, Data(Empty, locals, store), Cons(f, cs));
    var c2 := Running(0, 15, Nil, Data(Push(Empty, I32(Next(v))), locals, store), Cons(f, cs));
    LeadsStep(m, c);
    assert Step(m, c) == c1;
    LeadsStep(m, c1);
    assert Step(m, c1) == c2;
    LeadsStep(m, c2);
    LeadsTrans(m, c, c1, c2);
    LeadsTrans(m, c, c2, Step(m, c2));
  }

  lemma {:induction false} LeafEnd()
    ensures FindEnd(StepCode(), 11, 0) == 13
  {
    LeafParts();
    var code := StepCode();
    assert FindEnd(code, 13, 0) == 13;
    assert FindEnd(code, 12, 0) == 13;
  }

  // ----- The parts of `run` -----

  /** Where the parts of `run` lie. */
  ghost predicate Layout(code: seq<Token>, n: nat, catches: nat, checksum: nat)
  {
    && At(code, 0, PlainTokens(ResetOps())) && At(code, 4, [Block(false), Loop])
    && At(code, 6, PlainTokens(LimitOps(n))) && At(code, 9, GuardTokens())
    && At(code, 18, PlainTokens(CaughtOps())) && At(code, 22, [End])
    && At(code, 23, PlainTokens(AdvanceOps())) && At(code, 28, [Br(0), End, End])
    && At(code, 31, Flat(Closing(catches, checksum))) && At(code, 31 + |Flat(Closing(catches, checksum))|, [End])
  }

  lemma {:induction false} RunLayout(n: nat, catches: nat, checksum: nat)
    ensures Layout(RunCode(n, catches, checksum), n, catches, checksum)
  {
    hide At; hide Closing;
    var code := RunCode(n, catches, checksum);
    var r9 := Flat(Closing(catches, checksum)) + [End];
    var r8 := [Br(0), End, End] + r9;
    var r7 := PlainTokens(AdvanceOps()) + r8;
    var r6 := [End] + r7;
    var r5 := PlainTokens(CaughtOps()) + r6;
    var r4 := GuardTokens() + r5;
    var r3 := PlainTokens(LimitOps(n)) + r4;
    var r2 := [Block(false), Loop] + r3;
    AtWhole(code);
    AtSplit(code, 0, PlainTokens(ResetOps()), r2);
    AtSplit(code, 4, [Block(false), Loop], r3);
    AtSplit(code, 6, PlainTokens(LimitOps(n)), r4);
    AtSplit(code, 9, GuardTokens(), r5);
    AtSplit(code, 18, PlainTokens(CaughtOps()), r6);
    AtSplit(code, 22, [End], r7);
    AtSplit(code, 23, PlainTokens(AdvanceOps()), r8);
    AtSplit(code, 28, [Br(0), End, End], r9);
    AtSplit(code, 31, Flat(Closing(catches, checksum)), [End]);
  }

  lemma {:induction false} AtWhole(code: seq<Token>)
    ensures At(code, 0, code)
  {
    assert code[0..|code|] == code;
  }

  /** The control instructions of `run`. */
  lemma {:induction false} Controls(code: seq<Token>, n: nat, catches: nat, checksum: nat)
    requires Layout(code, n, catches, checksum)
    ensures |code| > 31 && code[4] == Block(false) && code[5] == Loop && code[9] == BrIf(1)
    ensures code[10] == Block(true) && code[11] == Block(true) && code[12] == TryTable(true, 0)
    ensures code[13] == Plain(LocalGet(1)) && code[14] == Call(0) && code[15] == End && code[16] == Br(1)
      && code[17] == End
    ensures code[22] == End && code[28] == Br(0) && code[29] == End && code[30] == End
  {
    AtIndex(code, 4, [Block(false), Loop], 0);
    AtIndex(code, 4, [Block(false), Loop], 1);
    forall k | 0 <= k < 9 ensures code[9 + k] == GuardTokens()[k] {
      AtIndex(code, 9, GuardTokens(), k);
    }
    AtIndex(code, 22, [End], 0);
    forall k | 0 <= k < 3 ensures code[28 + k] == [Br(0), End, End][k] {
      AtIndex(code, 28, [Br(0), End, End], k);
    }
  }

  /** The ends that the blocks of `run` run to. */
  lemma {:induction false} Ends(code: seq<Token>, n: nat, catches: nat, checksum: nat)
    requires Layout(code, n, catches, checksum)
    ensures FindEnd(code, 13, 0) == 15 && FindEnd(code, 12, 0) == 17 && FindEnd(code, 11, 0) == 22
      && FindEnd(code, 5, 0) == 30
  {
    hide At;
    Controls(code, n, catches, checksum);
    InnerEnds(code, 0);
    FindEndPast(code, 3);
    FindEndSkipsOps(code, 18, CaughtOps(), 0, 0);
    FindEndSkipsOps(code, 18, CaughtOps(), 0, 1);
    FindEndSkipsOps(code, 18, CaughtOps(), 0, 2);
    FindEndSkipsOps(code, 6, LimitOps(n), 0, 1);
    FindEndSkipsOps(code, 23, AdvanceOps(), 0, 1);
    MiddleEnds(code);
    OuterEnds(code);
  }

  /** From inside `try_table` to its `end`, and past it. */
  lemma {:induction false} InnerEnds(code: seq<Token>, d: nat)
    requires |code| > 31 && code[12] == TryTable(true, 0) && code[13] == Plain(LocalGet(1)) && code[14] == Call(0)
    requires code[15] == End && code[16] == Br(1)
    ensures FindEnd(code, 13, 0) == 15 && FindEnd(code, 12, d) == FindEnd(code, 17, d)
    ensures FindEnd(code, 12, d + 1) == FindEnd(code, 17, d + 1)
  {
    FindEndPast(code, d);
    FindEndPast(code, d + 1);
    assert FindEnd(code, 14, 0) == FindEnd(code, 15, 0) == 15;
  }

  lemma {:induction false} FindEndPast(code: seq<Token>, d: nat)
    requires |code| > 31 && code[12] == TryTable(true, 0) && code[13] == Plain(LocalGet(1)) && code[14] == Call(0)
    requires code[15] == End && code[16] == Br(1)
    ensures FindEnd(code, 12, d) == FindEnd(code, 17, d)
  {
    assert FindEnd(code, 13, d + 1) == FindEnd(code, 14, d + 1) == FindEnd(code, 15, d + 1);
    assert FindEnd(code, 15, d + 1) == FindEnd(code, 16, d) == FindEnd(code, 17, d);
  }

  lemma {:induction false} MiddleEnds(code: seq<Token>)
    requires |code| > 31 && code[11] == Block(true) && code[17] == End && code[22] == End
    requires FindEnd(code, 12, 0) == FindEnd(code, 17, 0) && FindEnd(code, 12, 1) == FindEnd(code, 17, 1)
    requires FindEnd(code, 18, 0) == FindEnd(code, 22, 0)
    ensures FindEnd(code, 12, 0) == 17 && FindEnd(code, 11, 0) == 22
  {
  }

  lemma {:induction false} OuterEnds(code: seq<Token>)
    requires |code| > 31 && code[5] == Loop && code[9] == BrIf(1) && code[10] == Block(true) && code[11] == Block(true)
    requires code[17] == End && code[22] == End && code[28] == Br(0) && code[29] == End && code[30] == End
    requires FindEnd(code, 6, 1) == FindEnd(code, 9, 1) && FindEnd(code, 18, 2) == FindEnd(code, 22, 2)
    requires FindEnd(code, 23, 1) == FindEnd(code, 28, 1)
    requires FindEnd(code, 12, 3) == FindEnd(code, 17, 3)
    ensures FindEnd(code, 5, 0) == 30
  {
    assert FindEnd(code, 9, 1) == FindEnd(code, 10, 1) == FindEnd(code, 11, 2) == FindEnd(code, 12, 3);
    assert FindEnd(code, 17, 3) == FindEnd(code, 18, 2) && FindEnd(code, 22, 2) == FindEnd(code, 23, 1);
    assert FindEnd(code, 28, 1) == FindEnd(code, 29, 1) == FindEnd(code, 30, 0) == 30;
  }

  // ----- One turn of the loop -----

  function DoneLabels(): (l: List<Label>) { Cons(Label(31, Empty, false, None), Nil) }
  function LoopLabels(): (l: List<Label>) { Cons(Label(5, Empty, false, None), DoneLabels()) }
  function AfterLabels(): (l: List<Label>) { Cons(Label(23, Empty, true, None), LoopLabels()) }
  function CaughtLabels(): (l: List<Label>) { Cons(Label(18, Empty, true, None), AfterLabels()) }
  function TryLabels(): (l: List<Label>) { Cons(Label(16, Empty, true, Some(0)), CaughtLabels()) }

  ghost predicate IsGuest(m: Module, n: nat, catches: nat, checksum: nat)
  {
    && |m.funcs| == 3 && m.funcs[0] == Func(1, [I32(0)], true, StepCode())
    && m.funcs[1] == Func(0, [I32(0), I32(0)], true, RunCode(n, catches, checksum))
    && m.funcs[2] == Func(0, [], false, [Call(1), Plain(Drop), End])
  }

  function One(v: u32): (s: Stack) { Push(Empty, I32(v)) }

  lemma {:induction false} LimitRuns(types: seq<Type>, n: u32, i: u32, v: u32, store: Store)
    ensures EvalOps(types, LimitOps(n), 0, Data(Empty, [I32(i), I32(v)], store)) ==
            Some(Data(One(Truth(i >= n)), [I32(i), I32(v)], store))
  {
    var ops, locals := LimitOps(n), [I32(i), I32(v)];
    assert EvalOps(types, ops, 3, Data(One(Truth(i >= n)), locals, store))
      == Some(Data(One(Truth(i >= n)), locals, store));
    assert EvalOps(types, ops, 2, Data(Push(One(i), I32(n)), locals, store)) ==
           EvalOps(types, ops, 3, Data(One(Truth(i >= n)), locals, store));
    assert EvalOps(types, ops, 1, Data(One(i), locals, store))
      == EvalOps(types, ops, 2, Data(Push(One(i), I32(n)), locals, store));
  }

  /** The loop head: past the limit the block is left, otherwise the body begins. */
  lemma {:induction false} Head(m: Module, n: u32, catches: nat, checksum: nat, i: u32, v: u32, store: Store,
                                cs: List<Caller>)
    requires IsGuest(m, n, catches, checksum)
    ensures var locals := [I32(i), I32(v)];
            Leads(m, InRun(5, DoneLabels(), Empty, locals, store, cs),
                  if i >= n then InRun(31, Nil, Empty, locals, store, cs)
                    else InRun(10, LoopLabels(), Empty, locals, store, cs))
  {
    hide Run; hide RunCode; hide At; hide EvalOps;
    var locals := [I32(i), I32(v)];
    RunLayout(n, catches, checksum);
    Controls(m.funcs[1].code, n, catches, checksum);
    var c := InRun(5, DoneLabels(), Empty, locals, store, cs);
    var c1 := InRun(6, LoopLabels(), Empty, locals, store, cs);
    LeadsStep(m, c);
    assert Step(m, c) == c1;
    LimitRuns(m.types, n, i, v, store);
    LeadsOps(m, c1, LimitOps(n), Data(One(Truth(i >= n)), locals, store));
    var c2 := InRun(9, LoopLabels(), One(Truth(i >= n)), locals, store, cs);
    assert Moved(c1, 9, Data(One(Truth(i >= n)), locals, store)) == c2;
    LeadsStep(m, c2);
    LeadsTrans(m, c, c1, c2);
    LeadsTrans(m, c, c2, Step(m, c2));
  }

  /** Three blocks are entered and the leaf is called. */
  lemma {:induction false} Protect(m: Module, n: u32, catches: nat, checksum: nat, i: u32, v: u32, store: Store,
                                   cs: List<Caller>)
    requires IsGuest(m, n, catches, checksum)
    ensures var locals := [I32(i), I32(v)];
            Leads(m, InRun(10, LoopLabels(), Empty, locals, store, cs),
                  Running(0, 0, Nil, Data(Empty, [I32(v), I32(0)], store),
                          Cons(Caller(1, 15, TryLabels(), Empty, locals), cs)))
  {
    hide Run; hide RunCode; hide At; hide FindEnd; hide StepCode;
    var locals := [I32(i), I32(v)];
    RunLayout(n, catches, checksum);
    Controls(m.funcs[1].code, n, catches, checksum);
    Ends(m.funcs[1].code, n, catches, checksum);
    var c0 := InRun(10, LoopLabels(), Empty, locals, store, cs);
    var c1 := InRun(11, AfterLabels(), Empty, locals, store, cs);
    var c2 := InRun(12, CaughtLabels(), Empty, locals, store, cs);
    var c3 := InRun(13, TryLabels(), Empty, locals, store, cs);
    LeadsStep(m, c0);
    assert Step(m, c0) == c1;
    LeadsStep(m, c1);
    assert Step(m, c1) == c2;
    LeadsStep(m, c2);
    assert Step(m, c2) == c3;
    LeadsTrans(m, c0, c1, c2);
    LeadsTrans(m, c0, c2, c3);
    CallLeaf(m, i, v, store, cs);
    LeadsTrans(m, c0, c3, Running(0, 0, Nil, Data(Empty, [I32(v), I32(0)], store),
                                  Cons(Caller(1, 15, TryLabels(), Empty, locals), cs)));
  }

  lemma {:induction false} CallLeaf(m: Module, i: u32, v: u32, store: Store, cs: List<Caller>)
    requires |m.funcs| == 3 && m.funcs[0] == Func(1, [I32(0)], true, StepCode())
    requires |m.funcs[1].code| > 31 && m.funcs[1].code[13] == Plain(LocalGet(1)) && m.funcs[1].code[14] == Call(0)
    ensures var locals := [I32(i), I32(v)];
            Leads(m, InRun(13, TryLabels(), Empty, locals, store, cs),
                  Running(0, 0, Nil, Data(Empty, [I32(v), I32(0)], store),
                          Cons(Caller(1, 15, TryLabels(), Empty, locals), cs)))
  {
    hide Run; hide StepCode;
    var locals := [I32(i), I32(v)];
    var c3 := InRun(13, TryLabels(), Empty, locals, store, cs);
    var c4 := InRun(14, TryLabels(), One(v), locals, store, cs);
    LeadsStep(m, c3);
    assert Step(m, c3) == c4;
    LeadsStep(m, c4);
    assert [I32(v)] + [I32(0)] == [I32(v), I32(0)];
    LeadsTrans(m, c3, c4, Step(m, c4));
  }

  /** A thrown value arrives at the handler with the operands of the protected block. */
  lemma {:induction false} Thrown(x: u32, leaf: seq<Val>, locals: seq<Val>, store: Store, cs: List<Caller>)
    ensures Unwind(0, Nil, I32(x), leaf, store, Cons(Caller(1, 15, TryLabels(), Empty, locals), cs)) ==
            InRun(18, AfterLabels(), One(x), locals, store, cs)
  {
  }

  lemma {:induction false} CaughtRuns(types: seq<Type>, x: u32, locals: seq<Val>, k: u32, s: u32)
    ensures EvalOps(types, CaughtOps(), 0, Data(One(x), locals, Globals(k, s))) ==
            Some(Data(One(x), locals, Globals(Wrap(k + 1), s)))
  {
    hide Wrap;
    WrapIsIdentity(1);
    assert [I32(k), I32(s)][0 := I32(Wrap(k + 1))] == [I32(Wrap(k + 1)), I32(s)];
  }

  /** The handler counts the exception and keeps its value. */
  lemma {:induction false} Caught(m: Module, n: u32, catches: nat, checksum: nat, x: u32, locals: seq<Val>, k: u32,
                                  s: u32, cs: List<Caller>)
    requires IsGuest(m, n, catches, checksum)
    ensures Leads(m, InRun(18, AfterLabels(), One(x), locals, Globals(k, s), cs),
                  InRun(23, LoopLabels(), One(x), locals, Globals(Wrap(k + 1), s), cs))
  {
    hide Run; hide RunCode; hide At; hide EvalOps; hide Wrap;
    RunLayout(n, catches, checksum);
    Controls(m.funcs[1].code, n, catches, checksum);
    var c := InRun(18, AfterLabels(), One(x), locals, Globals(k, s), cs);
    var d := Data(One(x), locals, Globals(Wrap(k + 1), s));
    CaughtRuns(m.types, x, locals, k, s);
    LeadsOps(m, c, CaughtOps(), d);
    var c1 := InRun(22, AfterLabels(), One(x), locals, Globals(Wrap(k + 1), s), cs);
    assert Moved(c, 22, d) == c1;
    LeadsStep(m, c1);
    LeadsTrans(m, c, c1, Step(m, c1));
  }

  /** A returned value leaves the protected block. */
  lemma {:induction false} Returned(m: Module, n: u32, catches: nat, checksum: nat, x: u32, locals: seq<Val>,
                                    store: Store, cs: List<Caller>)
    requires IsGuest(m, n, catches, checksum)
    ensures Leads(m, InRun(15, TryLabels(), One(x), locals, store, cs),
                  InRun(23, LoopLabels(), One(x), locals, store, cs))
  {
    hide Run; hide RunCode; hide At;
    RunLayout(n, catches, checksum);
    Controls(m.funcs[1].code, n, catches, checksum);
    var c := InRun(15, TryLabels(), One(x), locals, store, cs);
    var c1 := InRun(16, CaughtLabels(), One(x), locals, store, cs);
    LeadsStep(m, c);
    assert Step(m, c) == c1;
    LeadsStep(m, c1);
    LeadsTrans(m, c, c1, Step(m, c1));
  }

  lemma {:induction false} AdvanceRuns(types: seq<Type>, x: u32, i: u32, v: u32, store: Store)
    ensures EvalOps(types, AdvanceOps(), 0, Data(One(x), [I32(i), I32(v)], store)) ==
            Some(Data(Empty, [I32(Wrap(i + 1)), I32(x)], store))
  {
    hide Wrap;
    WrapIsIdentity(1);
    assert [I32(i), I32(v)][1 := I32(x)][0 := I32(Wrap(i + 1))] == [I32(Wrap(i + 1)), I32(x)];
  }

  lemma {:induction false} Advance(m: Module, n: u32, catches: nat, checksum: nat, x: u32, i: u32, v: u32, store: Store,
                                   cs: List<Caller>)
    requires IsGuest(m, n, catches, checksum)
    ensures Leads(m, InRun(23, LoopLabels(), One(x), [I32(i), I32(v)], store, cs),
                  InRun(5, DoneLabels(), Empty, [I32(Wrap(i + 1)), I32(x)], store, cs))
  {
    hide Run; hide RunCode; hide At; hide EvalOps; hide Wrap;
    RunLayout(n, catches, checksum);
    Controls(m.funcs[1].code, n, catches, checksum);
    var c := InRun(23, LoopLabels(), One(x), [I32(i), I32(v)], store, cs);
    var d := Data(Empty, [I32(Wrap(i + 1)), I32(x)], store);
    AdvanceRuns(m.types, x, i, v, store);
    LeadsOps(m, c, AdvanceOps(), d);
    var c1 := InRun(28, LoopLabels(), Empty, [I32(Wrap(i + 1)), I32(x)], store, cs);
    assert Moved(c, 28, d) == c1;
    LeadsStep(m, c1);
    LeadsTrans(m, c, c1, Step(m, c1));
  }

  /** Among the first `i` states, how many have four zero low bits. */
  function Throws(i: nat): (k: nat)
    ensures k <= i
  {
    if i == 0 then 0 else Throws(i - 1) + if Iterate(0, i - 1) % 16 == 0 then 1 else 0
  }

  /** `run` at its loop head after `i` turns. */
  function AtTurn(i: u32, cs: List<Caller>): (c: Config)
  {
    InRun(5, DoneLabels(), Empty, [I32(i), I32(Iterate(0, i))], Globals(Throws(i), 0), cs)
  }

  lemma {:induction false} Turn(m: Module, n: u32, catches: nat, checksum: nat, i: nat, cs: List<Caller>)
    requires IsGuest(m, n, catches, checksum) && i < n
    ensures Leads(m, AtTurn(i, cs), AtTurn(i + 1, cs))
  {
    hide IsGuest; hide Leads; hide Unwind; hide Wrap; hide Next; hide InRun;
    var v, k := Iterate(0, i), Throws(i);
    var x := Next(v);
    var locals, store, c := [I32(i), I32(v)], Globals(k, 0), AtTurn(i, cs);
    var f := Caller(1, 15, TryLabels(), Empty, locals);
    var leaf := Running(0, 0, Nil, Data(Empty, [I32(v), I32(0)], store), Cons(f, cs));
    var guarded := InRun(10, LoopLabels(), Empty, locals, store, cs);
    Head(m, n, catches, checksum, i, v, store, cs);
    Protect(m, n, catches, checksum, i, v, store, cs);
    LeadsTrans(m, c, guarded, leaf);
    var k' := if v % 16 == 0 then k + 1 else k;
    Counts(i);
    var resumed := InRun(23, LoopLabels(), One(x), locals, Globals(k', 0), cs);
    LeafTurn(m, n, catches, checksum, v, k, locals, cs);
    LeadsTrans(m, c, leaf, resumed);
    Advance(m, n, catches, checksum, x, i, v, Globals(k', 0), cs);
    LeadsTrans(m, c, resumed, AtTurn(i + 1, cs));
  }

  lemma {:induction false} Counts(i: nat)
    requires i < 0xFFFF_FFFF
    ensures Wrap(i + 1) == i + 1 && Iterate(0, i + 1) == Next(Iterate(0, i))
    ensures Throws(i + 1) == Throws(i) + if Iterate(0, i) % 16 == 0 then 1 else 0
  {
    hide Next;
  }

  /** The leaf from its call to the point where `run` has its value again. */
  lemma {:induction false} LeafTurn(m: Module, n: u32, catches: nat, checksum: nat, v: u32, k: u32, locals: seq<Val>,
                                    cs: List<Caller>)
    requires IsGuest(m, n, catches, checksum) && k < 0xFFFF_FFFF
    ensures var f := Caller(1, 15, TryLabels(), Empty, locals);
            Leads(m, Running(0, 0, Nil, Data(Empty, [I32(v), I32(0)], Globals(k, 0)), Cons(f, cs)),
                  InRun(23, LoopLabels(), One(Next(v)), locals, Globals(if v % 16 == 0 then k + 1 else k, 0), cs))
  {
    hide Leads; hide Unwind; hide Next; hide StepCode; hide RunCode;
    var f, x, store := Caller(1, 15, TryLabels(), Empty, locals), Next(v), Globals(k, 0);
    var leaf := Running(0, 0, Nil, Data(Empty, [I32(v), I32(0)], store), Cons(f, cs));
    Leaf(m, v, store, f, cs);
    if v % 16 == 0 {
      Thrown(x, [I32(v), I32(x)], locals, store, cs);
      Caught(m, n, catches, checksum, x, locals, k, 0, cs);
      LeadsTrans(m, leaf, InRun(18, AfterLabels(), One(x), locals, store, cs),
                 InRun(23, LoopLabels(), One(x), locals, Globals(k + 1, 0), cs));
    } else {
      Returned(m, n, catches, checksum, x, locals, store, cs);
      LeadsTrans(m, leaf, InRun(15, TryLabels(), One(x), locals, store, cs),
                 InRun(23, LoopLabels(), One(x), locals, store, cs));
    }
  }

  // ----- The whole run -----

  lemma {:induction false} AllTurns(m: Module, n: u32, catches: nat, checksum: nat, i: nat, cs: List<Caller>)
    requires IsGuest(m, n, catches, checksum) && i <= n
    ensures Leads(m, AtTurn(0, cs), AtTurn(i, cs))
    decreases i
  {
    hide IsGuest; hide Leads; hide AtTurn;
    if i == 0 {
      LeadsSelf(m, AtTurn(0, cs));
    } else {
      AllTurns(m, n, catches, checksum, i - 1, cs);
      Turn(m, n, catches, checksum, i - 1, cs);
      LeadsTrans(m, AtTurn(0, cs), AtTurn(i - 1, cs), AtTurn(i, cs));
    }
  }

  lemma {:induction false} CheckEvaluates(types: seq<Type>, get: Op, value: u32, d: Data, x: u32)
    requires Do(types, get, d) == Ok(d.(stack := Push(d.stack, I32(x))))
    ensures EvalOps(types, [get, I32Const(value), I32Ne], 0, d)
      == Some(d.(stack := Push(d.stack, I32(Truth(x != value)))))
  {
    var ops := [get, I32Const(value), I32Ne];
    var d1 := d.(stack := Push(d.stack, I32(x)));
    var d2 := d.(stack := Push(d1.stack, I32(value)));
    var d3 := d.(stack := Push(d.stack, I32(Truth(x != value))));
    assert EvalOps(types, ops, 3, d3) == Some(d3);
    assert EvalOps(types, ops, 2, d2) == EvalOps(types, ops, 3, d3);
    assert EvalOps(types, ops, 1, d1) == EvalOps(types, ops, 2, d2);
  }

  lemma {:induction false} AtCheck(code: seq<Token>, pc: nat, get: Op, value: u32)
    requires At(code, pc, Flat(Check(get, value)))
    ensures |Flat(Check(get, value))| == 6 && pc + 6 <= |code|
      && At(code, pc, PlainTokens([get, I32Const(value), I32Ne]))
    ensures code[pc + 3] == If && code[pc + 4] == Plain(Unreachable) && code[pc + 5] == End
  {
    assert Flat(Check(get, value)) == PlainTokens([get, I32Const(value), I32Ne]) + Flat(When(Ops([Unreachable])));
    AtSplit(code, pc, PlainTokens([get, I32Const(value), I32Ne]), Flat(When(Ops([Unreachable]))));
    AtWhen(code, pc + 3, Ops([Unreachable]));
    AtIndex(code, pc + 4, PlainTokens([Unreachable]), 0);
  }

  /** A check passes without a trace if the value is the expected one and traps otherwise. */
  lemma {:induction false} CheckRuns(m: Module, c: Config, get: Op, value: u32, x: u32)
    requires c.Running? && c.func < |m.funcs| && At(m.funcs[c.func].code, c.pc, Flat(Check(get, value)))
    requires Do(m.types, get, c.data) == Ok(c.data.(stack := Push(c.data.stack, I32(x))))
    ensures Leads(m, c, if x == value then Moved(c, c.pc + 6, c.data) else Trapped)
  {
    hide Run; hide FindEnd; hide EvalOps; hide Flat; hide At;
    var code := m.funcs[c.func].code;
    AtCheck(code, c.pc, get, value);
    CheckEvaluates(m.types, get, value, c.data, x);
    var d := c.data.(stack := Push(c.data.stack, I32(Truth(x != value))));
    LeadsOps(m, c, [get, I32Const(value), I32Ne], d);
    var c1 := Moved(c, c.pc + 3, d);
    CheckEnd(code, c.pc);
    LeadsStep(m, c1);
    LeadsTrans(m, c, c1, Step(m, c1));
    if x != value {
      var c2 := Step(m, c1);
      LeadsStep(m, c2);
      LeadsTrans(m, c, c2, Step(m, c2));
    }
  }

  lemma {:induction false} CheckEnd(code: seq<Token>, pc: nat)
    requires pc + 6 <= |code| && code[pc + 4] == Plain(Unreachable) && code[pc + 5] == End
    ensures FindEnd(code, pc + 4, 0) == pc + 5
  {
    assert FindEnd(code, pc + 5, 0) == pc + 5;
  }

  lemma {:induction false} AtClosing(code: seq<Token>, catches: nat, checksum: nat)
    requires At(code, 31, Flat(Closing(catches, checksum)))
    ensures At(code, 31, PlainTokens([LocalGet(1), GlobalSet(1)])) && At(code, 33, Flat(Check(GlobalGet(0), catches)))
    ensures At(code, 39, Flat(Check(LocalGet(1), checksum))) && At(code, 45, PlainTokens([LocalGet(1)]))
    ensures |Flat(Closing(catches, checksum))| == 15
  {
    hide At;
    var last := Ops([LocalGet(1)]);
    var second := Then(Check(LocalGet(1), checksum), last);
    var first := Then(Check(GlobalGet(0), catches), second);
    AtSplit(code, 31, Flat(Ops([LocalGet(1), GlobalSet(1)])), Flat(first));
    CheckLength(GlobalGet(0), catches);
    CheckLength(LocalGet(1), checksum);
    AtSplit(code, 33, Flat(Check(GlobalGet(0), catches)), Flat(second));
    AtSplit(code, 39, Flat(Check(LocalGet(1), checksum)), Flat(last));
  }

  lemma {:induction false} LastTokens(code: seq<Token>, n: nat, catches: nat, checksum: nat)
    requires Layout(code, n, catches, checksum)
    ensures |code| > 46 && code[45] == Plain(LocalGet(1)) && code[46] == End
  {
    hide Flat; hide Closing;
    AtClosing(code, catches, checksum);
    AtIndex(code, 45, PlainTokens([LocalGet(1)]), 0);
    AtIndex(code, 46, [End], 0);
  }

  lemma {:induction false} CheckLength(get: Op, value: nat)
    ensures |Flat(Check(get, value))| == 6
  {
  }

  /** The checksum is published, then both checks decide whether `run` goes on to return. */
  lemma {:induction false} Close(m: Module, n: u32, catches: u32, checksum: u32, i: u32, v: u32, k: u32,
                                 cs: List<Caller>)
    requires IsGuest(m, n, catches, checksum)
    ensures var locals := [I32(i), I32(v)];
            Leads(m, InRun(31, Nil, Empty, locals, Globals(k, 0), cs),
                  if k == catches && v == checksum then InRun(45, Nil, Empty, locals, Globals(k, v), cs) else Trapped)
  {
    hide Leads; hide RunCode; hide At; hide EvalOps; hide Closing; hide Check; hide Flat; hide StepCode;
    var locals, code := [I32(i), I32(v)], m.funcs[1].code;
    RunLayout(n, catches, checksum);
    AtClosing(code, catches, checksum);
    var c := InRun(31, Nil, Empty, locals, Globals(k, 0), cs);
    var c1 := InRun(33, Nil, Empty, locals, Globals(k, v), cs);
    PublishRuns(m.types, i, v, k);
    LeadsOps(m, c, [LocalGet(1), GlobalSet(1)], Data(Empty, locals, Globals(k, v)));
    assert Moved(c, 33, Data(Empty, locals, Globals(k, v))) == c1;
    CheckRuns(m, c1, GlobalGet(0), catches, k);
    if k == catches {
      var c2 := InRun(39, Nil, Empty, locals, Globals(k, v), cs);
      LeadsTrans(m, c, c1, c2);
      CheckRuns(m, c2, LocalGet(1), checksum, v);
      LeadsTrans(m, c, c2, if v == checksum then InRun(45, Nil, Empty, locals, Globals(k, v), cs) else Trapped);
    } else {
      LeadsTrans(m, c, c1, Trapped);
    }
  }

  lemma {:induction false} PublishRuns(types: seq<Type>, i: u32, v: u32, k: u32)
    ensures EvalOps(types, [LocalGet(1), GlobalSet(1)], 0, Data(Empty, [I32(i), I32(v)], Globals(k, 0))) ==
            Some(Data(Empty, [I32(i), I32(v)], Globals(k, v)))
  {
    assert [I32(k), I32(0)][1 := I32(v)] == [I32(k), I32(v)];
  }

  /** From the last instruction of `run` back through `_start`. */
  lemma {:induction false} Leave(m: Module, n: u32, catches: u32, checksum: u32, i: u32, v: u32, store: Store)
    requires IsGuest(m, n, catches, checksum)
    ensures Leads(m, InRun(45, Nil, Empty, [I32(i), I32(v)], store, StartCaller()), Halted(Empty, store))
  {
    hide Run; hide RunCode; hide StepCode; hide At; hide Closing;
    var code, locals := m.funcs[1].code, [I32(i), I32(v)];
    RunLayout(n, catches, checksum);
    LastTokens(code, n, catches, checksum);
    var c := InRun(45, Nil, Empty, locals, store, StartCaller());
    var c1 := InRun(46, Nil, One(v), locals, store, StartCaller());
    var c2 := Running(2, 1, Nil, Data(One(v), [], store), Nil);
    var c3 := Running(2, 2, Nil, Data(Empty, [], store), Nil);
    LeadsStep(m, c);
    assert Step(m, c) == c1;
    LeadsStep(m, c1);
    assert Step(m, c1) == c2;
    LeadsStep(m, c2);
    assert Step(m, c2) == c3;
    LeadsStep(m, c3);
    LeadsTrans(m, c, c1, c2);
    LeadsTrans(m, c, c2, c3);
    LeadsTrans(m, c, c3, Step(m, c3));
  }

  function StartCaller(): (cs: List<Caller>) { Cons(Caller(2, 1, Nil, Empty, []), Nil) }

  lemma {:induction false} ResetRuns(types: seq<Type>)
    ensures EvalOps(types, ResetOps(), 0, Data(Empty, [I32(0), I32(0)], Globals(0, 0))) ==
            Some(Data(Empty, [I32(0), I32(0)], Globals(0, 0)))
  {
    assert [I32(0), I32(0)][0 := I32(0)] == [I32(0), I32(0)] && [I32(0), I32(0)][1 := I32(0)] == [I32(0), I32(0)];
  }

  /** `_start` calls `run`, which clears its globals and enters the loop's block. */
  lemma {:induction false} Begin(m: Module, n: u32, catches: nat, checksum: nat)
    requires IsGuest(m, n, catches, checksum)
    ensures Leads(m, Initial(), AtTurn(0, StartCaller()))
  {
    hide Run; hide RunCode; hide StepCode; hide At; hide EvalOps; hide FindEnd;
    RunLayout(n, catches, checksum);
    Controls(m.funcs[1].code, n, catches, checksum);
    Ends(m.funcs[1].code, n, catches, checksum);
    var c0, locals := Initial(), [I32(0), I32(0)];
    var c1 := InRun(0, Nil, Empty, locals, Globals(0, 0), StartCaller());
    var c2 := InRun(4, Nil, Empty, locals, Globals(0, 0), StartCaller());
    LeadsStep(m, c0);
    assert Step(m, c0) == c1;
    ResetRuns(m.types);
    LeadsOps(m, c1, ResetOps(), Data(Empty, locals, Globals(0, 0)));
    assert Moved(c1, 4, Data(Empty, locals, Globals(0, 0))) == c2;
    LeadsStep(m, c2);
    assert Step(m, c2) == AtTurn(0, StartCaller());
    LeadsTrans(m, c0, c1, c2);
    LeadsTrans(m, c0, c2, AtTurn(0, StartCaller()));
  }

  /** What any guest of this shape does: it halts with its counts published if both
      constants are right, and traps if either is wrong. */
  lemma {:induction false} GuestOutcome(n: u32, catches: u32, checksum: u32)
    ensures Leads(Guest(n, catches, checksum), Initial(),
                  if catches == Throws(n) && checksum == Iterate(0, n) then Halted(Empty, Globals(catches, checksum))
                    else Trapped)
  {
    hide Leads; hide RunCode; hide StepCode; hide Iterate; hide Throws;
    var m, cs := Guest(n, catches, checksum), StartCaller();
    var v, k := Iterate(0, n), Throws(n);
    var locals := [I32(n), I32(v)];
    Begin(m, n, catches, checksum);
    AllTurns(m, n, catches, checksum, n, cs);
    LeadsTrans(m, Initial(), AtTurn(0, cs), AtTurn(n, cs));
    Head(m, n, catches, checksum, n, v, Globals(k, 0), cs);
    LeadsTrans(m, Initial(), AtTurn(n, cs), InRun(31, Nil, Empty, locals, Globals(k, 0), cs));
    Close(m, n, catches, checksum, n, v, k, cs);
    if k == catches && v == checksum {
      LeadsTrans(m, Initial(), InRun(31, Nil, Empty, locals, Globals(k, 0), cs),
                 InRun(45, Nil, Empty, locals, Globals(k, v), cs));
      Leave(m, n, catches, checksum, n, v, Globals(k, v));
      LeadsTrans(m, Initial(), InRun(45, Nil, Empty, locals, Globals(k, v), cs), Halted(Empty, Globals(k, v)));
    } else {
      LeadsTrans(m, Initial(), InRun(31, Nil, Empty, locals, Globals(k, 0), cs), Trapped);
    }
  }

  // ----- The contract -----

  /** From zero the low four bits return exactly every sixteen steps. */
  lemma {:induction false} ThrowsAre(i: nat)
    ensures Throws(i) == (i + 15) / 16
    decreases i
  {
    hide Iterate;
    if i > 0 {
      ThrowsAre(i - 1);
      ZeroEvery16(i - 1);
    }
  }

  lemma {:induction false} ZeroEvery16(i: nat)
    ensures Iterate(0, i) % 16 == 0 <==> i % 16 == 0
  {
    Pow2Values();
    IterateReturnsIff(0, i, 4);
  }

  predicate Legal(n: int) { 16 <= n < 0x8000_0000 && n % 16 == 0 }

  /** For every legal count the built guest catches `n / 16` exceptions, publishes the
      composed checksum and never traps; with a wrong checksum it traps. */
  lemma {:induction false} SelfChecks(n: nat, wrong: u32)
    requires Legal(n)
    ensures Leads(Guest(n, n / 16, Iterate(0, n)), Initial(), Halted(Empty, Globals(n / 16, Iterate(0, n))))
    ensures wrong != Iterate(0, n) ==> Leads(Guest(n, n / 16, wrong), Initial(), Trapped)
  {
    hide Leads; hide Guest;
    ThrowsAre(n);
    GuestOutcome(n, n / 16, Iterate(0, n));
    GuestOutcome(n, n / 16, wrong);
  }

  /** At no point of the run has the guest trapped or left valid behaviour. */
  lemma {:induction false} NeverTraps(n: nat, k: nat)
    requires Legal(n)
    ensures var c := Run(Guest(n, n / 16, Iterate(0, n)), Initial(), k); c.Running? || c.Halted?
  {
    hide Run; hide Guest; hide Iterate;
    var m, w := Guest(n, n / 16, Iterate(0, n)), _ => false;
    SelfChecks(n, 0);
    var j: nat :| Run(m, Initial(), j) == Halted(Empty, Globals(n / 16, Iterate(0, n)));
    if j <= k {
      RunAdd(m, Initial(), j, k - j, w);
      FinalStays(m, Run(m, Initial(), j), k - j, w);
    } else if Final(Run(m, Initial(), k)) {
      RunAdd(m, Initial(), k, j - k, w);
      FinalStays(m, Run(m, Initial(), k), j - k, w);
    }
  }

  // ----- The scalar contract and the generator -----

  /** The low bits visited in `k` steps from zero. */
  ghost function Visited(k: nat): (s: set<nat>) { set j | 0 <= j < k :: Iterate(0, j) % 16 }

  /** No residue repeats within sixteen steps. */
  lemma {:induction false} VisitsNew(k: nat)
    requires k < 16
    ensures Iterate(0, k) % 16 !in Visited(k) && Visited(k + 1) == Visited(k) + {Iterate(0, k) % 16}
  {
    hide Iterate;
    forall j | 0 <= j < k ensures Iterate(0, j) % 16 != Iterate(0, k) % 16 {
      IterateAdd(0, j, k - j);
      Pow2Values();
      IterateReturnsIff(Iterate(0, j), k - j, 4);
    }
  }

  lemma {:induction false} LowStep(k: nat)
    ensures (Iterate(0, k) % 16 * A + C) % 16 == Iterate(0, k + 1) % 16
  {
    hide Next;
    LowNext(Iterate(0, k));
  }

  lemma {:induction false} LowNext(x: u32)
    ensures (x % 16 * A + C) % 16 == Next(x) % 16
  {
    hide Wrap;
    var q, t := x / 16, x % 16 * A + C;
    DivModUnique(x * A + C, 16, q * A + t / 16, t % 16);
    LowWord(x * A + C);
  }

  lemma {:induction false} LowWord(y: nat)
    ensures Wrap(y) % 16 == y % 16
  {
    var q, r := y / MODULUS, y % MODULUS;
    DivModUnique(y, 16, 0x1000_0000 * q + r / 16, r % 16);
  }

  /** The low-bit cycle is walked once and found complete. */
  method LowCycle() returns (ok: bool)
    ensures ok
  {
    hide Iterate;
    var state: nat, visited := 0, {};
    CycleStart();
    for k := 0 to 16
      invariant state == Iterate(0, k) % 16 && visited == Visited(k) && |visited| == k
    {
      VisitsNew(k);
      LowStep(k);
      visited := visited + {state};
      state := (state * A + C) % 16;
    }
    ZeroEvery16(16);
    ok := |visited| == 16 && state == 0;
  }

  lemma {:induction false} CycleStart()
    ensures Iterate(0, 0) % 16 == 0 && Visited(0) == {}
  {
  }

  /** Checksum and catch count by composing affine steps. */
  method Contract(n: int) returns (r: Result<(u32, nat)>)
    ensures Legal(n) ==> r.Success? && r.value.0 == Iterate(0, n) && r.value.1 == n / 16
    ensures !Legal(n) ==> r.Failure?
  {
    hide Pending; hide MaskedCompose;
    if n < 16 || n >= 0x8000_0000 || n % 16 != 0 {
      return Failure("iterations must be a positive multiple of 16 below 2^31");
    }
    var result, power := Affine(1, 0), STEP;
    var bits: nat := n;
    ghost var done, pow := 0, 1;
    PendingStart(n);
    while bits != 0
      invariant Pending(result, done, power, pow, bits, n) && result.add < MODULUS
    {
      PendingRound(result, done, power, pow, bits, n);
      if bits % 2 == 1 {
        MaskedBelow(power, result);
        result := TakePower(result, power);
        done := pow + done;
      }
      power := SquarePower(power);
      pow := pow + pow;
      bits := bits / 2;
    }
    PendingDone(result, done, power, pow, n, 0);
    var complete := LowCycle();
    if !complete {
      return Failure("independent low-bit cycle proof failed");
    }
    r := Success((result.add, n / 16));
  }

  lemma {:induction false} MaskedBelow(f: Affine, g: Affine)
    ensures MaskedCompose(f, g).add < MODULUS
  {
  }

  /** The generated guest passes its own checks, and the variant with a flipped
      checksum bit is caught by them. */
  method Build(n: int, bad: bool) returns (r: Result<Module>)
    ensures !Legal(n) ==> r.Failure?
    ensures Legal(n) ==> r.Success? && Leads(r.value, Initial(),
      if bad then Trapped else Halted(Empty, Globals(n / 16, Iterate(0, n))))
  {
    hide Leads; hide Guest;
    var contract := Contract(n);
    if contract.Failure? {
      return Failure(contract.reason);
    }
    var (checksum, catches) := contract.value;
    var checked := Xor32(checksum, if bad then 1 else 0);
    FlipsOneBit(checksum);
    SelfChecks(n, checked);
    r := Success(Guest(n, catches, checked));
  }

  /** The flipped variant differs in bit 0 only. */
  lemma {:induction false} FlipsOneBit(x: u32)
    ensures Xor32(x, 1) == (if x % 2 == 0 then x + 1 else x - 1) && Xor32(x, 0) == x
  {
    hide Pow2;
    XorUnits(x);
    XorZero(x / 2);
    XorZero(x);
  }

  lemma {:induction false} XorUnits(x: nat)
    ensures Xor(x, 1) == (x + 1) % 2 + 2 * Xor(x / 2, 0)
  {
  }

  lemma {:induction false} XorZero(x: nat)
    ensures Xor(x, 0) == x
  {
    if x > 0 {
      XorZero(x / 2);
    }
  }
}
