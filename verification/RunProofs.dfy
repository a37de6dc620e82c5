/** The whole emitted program: from `_start` it halts without a trap, with
    empty operands, and its globals hold the specified checksums. */
module RunProofs {
  import opened Wrappers
  import opened Lcg
  import opened Machine
  import opened Straight
  import opened Families
  import opened Fragments
  import opened FragmentProofs
  import opened Layout
  import opened TurnProofs
  import opened CountProofs

  // ----- Segments and loops -----

  /** Straight code whose `if`s only guard traps. */
  lemma {:induction false} Segment(m: Module, c: Config, p: Prog, d': Data, w: Watch)
    requires Holds(m, c, p) && Eval(m.types, p, c.data) == Some(d') && Guarded(p)
    ensures Reaches(m, c, Moved(c, c.pc + |Flat(p)|, d'), w, Static(p, w))
  {
    hide Reaches; hide Eval; hide Guarded;
    Runs(m, c, p, w);
    CountGuarded(m.types, p, c.data, w);
  }

  /** `k` turns of `x` hits each. */
  function Turns(k: nat, x: nat): (r: nat) { if k == 0 then 0 else x + Turns(k - 1, x) }

  /** Hits of the main loop from iteration `i` on. */
  function MainHits(family: Family, phase: Phase, n: nat, i: nat, w: Watch): (r: nat)
    decreases n - i
  {
    if i >= n then 0 else TurnCount(family, phase, n, i, w) + MainHits(family, phase, n, i + 1, w)
  }

  ghost predicate LoopAt(m: Module, c: Config, family: Family, body: Prog)
  {
    c.Running? && c.func < |m.funcs| && m.types == Types(family) && At(m.funcs[c.func].code, c.pc, LoopTokens(body))
  }

  lemma {:induction false} MainLoopTurn(m: Module, c: Config, family: Family, phase: Phase, n: u32, i: u32, w: Watch)
    returns (d': Data)
    requires LoopAt(m, c, family, MainBody(family, phase, n)) && i < n
    requires AtHead(family, c.data, i, After(family, phase, i))
    ensures AtHead(family, d', i + 1, After(family, phase, i + 1))
    ensures d'.stack == c.data.stack && d'.store.globals == c.data.store.globals
    ensures var size := |LoopTokens(MainBody(family, phase, n))|;
            Reaches(m, c, Moved(c, if i + 1 < n then c.pc else c.pc + size, d'), w, TurnCount(family, phase, n, i, w))
  {
    hide Reaches; hide MainBody; hide Eval; hide Count; hide StoreHolds; hide Iteration; hide TurnCount;
    hide LoopTokens;
    hide At; hide Types; hide After; hide Ready;
    AfterNext(family, phase, i);
    d' := MainTurn(family, phase, n, c.data, i, After(family, phase, i));
    LoopTurn(m, c, MainBody(family, phase, n), d', Truth(i + 1 < n), w);
    MainTurnCount(family, phase, n, c.data, i, After(family, phase, i).state, w);
  }

  lemma {:induction false} MainLoop(m: Module, c: Config, family: Family, phase: Phase, n: u32, i: u32, w: Watch)
    returns (d': Data)
    requires LoopAt(m, c, family, MainBody(family, phase, n)) && i < n
    requires AtHead(family, c.data, i, After(family, phase, i))
    ensures AtHead(family, d', n, After(family, phase, n))
    ensures d'.stack == c.data.stack && d'.store.globals == c.data.store.globals
    ensures Reaches(m, c, Moved(c, c.pc + |LoopTokens(MainBody(family, phase, n))|, d'), w,
                    MainHits(family, phase, n, i, w))
    decreases n - i
  {
    hide Reaches; hide MainBody; hide TurnCount; hide LoopTokens; hide At; hide Types; hide After; hide AtHead;
    d' := MainLoopTurn(m, c, family, phase, n, i, w);
    if i + 1 < n {
      var c1 := Moved(c, c.pc, d');
      d' := MainLoop(m, c1, family, phase, n, i + 1, w);
      Transitive(m, c, c1, Moved(c, c.pc + |LoopTokens(MainBody(family, phase, n))|, d'), w,
                 TurnCount(family, phase, n, i, w), MainHits(family, phase, n, i + 1, w));
    }
  }

  lemma {:induction false} SetUpLoop(m: Module, c: Config, family: Family, i: u32, w: Watch) returns (d': Data)
    requires LoopAt(m, c, family, SetUpBody(family)) && i < ROOTS && AtHead(family, c.data, i, SetUp(family, i))
    ensures AtHead(family, d', ROOTS, SetUp(family, ROOTS))
    ensures d'.stack == c.data.stack && d'.store.globals == c.data.store.globals
    ensures Reaches(m, c, Moved(c, c.pc + |LoopTokens(SetUpBody(family))|, d'), w,
                    Turns(ROOTS - i, Static(SetUpBody(family), w)))
    decreases ROOTS - i
  {
    hide Reaches; hide SetUpBody; hide Eval; hide Count; hide StoreHolds; hide Static; hide LoopTokens; hide At;
    hide Types; hide SetUp;
    var body := SetUpBody(family);
    var d1 := SetUpTurn(family, c.data, i);
    LoopTurn(m, c, body, d1, Truth(i + 1 < 1024), w);
    SetUpBodyGuarded(family);
    CountGuarded(m.types, body, c.data, w);
    if i + 1 == ROOTS {
      d' := d1;
    } else {
      var c1 := Moved(c, c.pc, d1);
      d' := SetUpLoop(m, c1, family, i + 1, w);
      Transitive(m, c, c1, Moved(c, c.pc + |LoopTokens(body)|, d'), w, Static(body, w),
                 Turns(ROOTS - i - 1, Static(body, w)));
    }
  }

  lemma {:induction false} FinalLoop(m: Module, c: Config, family: Family, j: u32, h: History, w: Watch)
    returns (d': Data)
    requires LoopAt(m, c, family, FinalBody(family)) && j < ROOTS && AtFinalHead(family, c.data, j, h)
    ensures AtFinalHead(family, d', ROOTS, h)
    ensures d'.stack == c.data.stack && d'.store == c.data.store
    ensures Reaches(m, c, Moved(c, c.pc + |LoopTokens(FinalBody(family))|, d'), w,
                    Turns(ROOTS - j, Static(FinalBody(family), w)))
    decreases ROOTS - j
  {
    hide Reaches; hide FinalBody; hide Eval; hide Count; hide StoreHolds; hide Static; hide LoopTokens; hide At;
    hide Types; hide RootSum;
    var body := FinalBody(family);
    var d1 := FinalTurn(family, c.data, j, h);
    LoopTurn(m, c, body, d1, Truth(j + 1 < 1024), w);
    FinalBodyGuarded(family);
    CountGuarded(m.types, body, c.data, w);
    if j + 1 == ROOTS {
      d' := d1;
    } else {
      var c1 := Moved(c, c.pc, d1);
      d' := FinalLoop(m, c1, family, j + 1, h, w);
      Transitive(m, c, c1, Moved(c, c.pc + |LoopTokens(body)|, d'), w, Static(body, w),
                 Turns(ROOTS - j - 1, Static(body, w)));
    }
  }

  // ----- The parts of `run` -----

  /** The mutate phase's set-up, empty in the allocate phase. */
  function SetUpTokens(family: Family, phase: Phase): (r: seq<Token>)
  {
    if phase == Mutate then LoopTokens(SetUpBody(family)) + Flat(ResetIndex()) else []
  }

  lemma {:induction false} PartsAt(code: seq<Token>, a: seq<Token>, b: seq<Token>, c: seq<Token>, d: seq<Token>,
                                   e: seq<Token>, f: seq<Token>, g: seq<Token>)
    requires code == a + b + c + d + e + f + g
    ensures At(code, 0, a) && At(code, |a|, b) && At(code, |a| + |b|, c) && At(code, |a| + |b| + |c|, d)
    ensures At(code, |a| + |b| + |c| + |d|, e) && At(code, |a| + |b| + |c| + |d| + |e|, f)
    ensures At(code, |a| + |b| + |c| + |d| + |e| + |f|, g)
  {
    assert code[0..|code|] == code;
    AtSplit(code, 0, a + b + c + d + e + f, g);
    AtSplit(code, 0, a + b + c + d + e, f);
    AtSplit(code, 0, a + b + c + d, e);
    AtSplit(code, 0, a + b + c, d);
    AtSplit(code, 0, a + b, c);
    AtSplit(code, 0, a, b);
  }

  lemma {:induction false} PrologueRuns(types: seq<Type>, d: Data)
    requires NineLocals(d)
    ensures Eval(types, Prologue(), d) == Some(Local(d, 1, I32(SEED))) && Guarded(Prologue())
  {
  }

  lemma {:induction false} ResetIndexRuns(types: seq<Type>, d: Data)
    requires NineLocals(d)
    ensures Eval(types, ResetIndex(), d) == Some(Local(d, 0, I32(0))) && Guarded(ResetIndex())
  {
  }

  lemma {:induction false} InitialHead(family: Family)
    ensures AtHead(family, Local(Data(Empty, RUN_LOCALS, InitialStore(family)), 1, I32(SEED)), 0, SetUp(family, 0))
  {
  }

  /** A configuration of `run` outside its loops. */
  function Here(pc: nat, d: Data, callers: List<Caller>): (c: Config) { Running(0, pc, Nil, d, callers) }

  /** `run` belongs to the module as function 0. */
  ghost predicate Contains(m: Module, family: Family, phase: Phase, n: nat, e: Checksums)
  {
    |m.funcs| > 0 && m.types == Types(family) && m.funcs[0].code == RunCode(family, phase, n, e) && m.funcs[0].result
  }

  lemma {:induction false} ResetHead(family: Family, d: Data)
    requires AtHead(family, d, ROOTS, SetUp(family, ROOTS))
    ensures AtHead(family, Local(d, 0, I32(0)), 0, After(family, Mutate, 0))
  {
    hide StoreHolds; hide SetUp;
  }

  /** The set-up loop and the index reset of the mutate phase. */
  lemma {:induction false} ReachMutate(m: Module, c: Config, family: Family, w: Watch) returns (d': Data)
    requires LoopAt(m, c, family, SetUpBody(family)) && AtHead(family, c.data, 0, SetUp(family, 0))
    requires At(m.funcs[c.func].code, c.pc + |LoopTokens(SetUpBody(family))|, Flat(ResetIndex()))
    ensures AtHead(family, d', 0, After(family, Mutate, 0)) && d'.stack == c.data.stack
    ensures Reaches(m, c, Moved(c, c.pc + |LoopTokens(SetUpBody(family))| + |Flat(ResetIndex())|, d'), w,
                    SetUpHits(family, Mutate, w))
  {
    hide Reaches; hide Static; hide SetUpBody; hide At; hide AtHead; hide ResetIndex; hide LoopTokens; hide Flat;
    hide SetUp; hide After; hide Turns;
    var d1 := SetUpLoop(m, c, family, 0, w);
    var c1 := Moved(c, c.pc + |LoopTokens(SetUpBody(family))|, d1);
    d' := ResetRuns(m, c1, family, w);
    Transitive(m, c, c1, Moved(c1, c1.pc + |Flat(ResetIndex())|, d'), w, Turns(ROOTS, Static(SetUpBody(family), w)),
               Static(ResetIndex(), w));
  }

  lemma {:induction false} ResetRuns(m: Module, c: Config, family: Family, w: Watch) returns (d': Data)
    requires Holds(m, c, ResetIndex()) && AtHead(family, c.data, ROOTS, SetUp(family, ROOTS))
    ensures AtHead(family, d', 0, After(family, Mutate, 0)) && d'.stack == c.data.stack
    ensures Reaches(m, c, Moved(c, c.pc + |Flat(ResetIndex())|, d'), w, Static(ResetIndex(), w))
  {
    hide Reaches; hide Eval; hide Static; hide At; hide AtHead; hide ResetIndex; hide Flat; hide SetUp; hide After;
    hide Guarded;
    HeadLocals(family, c.data, ROOTS, SetUp(family, ROOTS));
    ResetIndexRuns(m.types, c.data);
    d' := Local(c.data, 0, I32(0));
    ResetHead(family, c.data);
    Segment(m, c, ResetIndex(), d', w);
  }

  lemma {:induction false} HeadLocals(family: Family, d: Data, i: nat, h: History)
    requires AtHead(family, d, i, h)
    ensures NineLocals(d) && |d.store.globals| == 2 && d.locals[1] == I32(h.state) && d.locals[2] == I32(h.total)
  {
    hide StoreHolds;
  }

  /** Where `run` starts. */
  function Entry(family: Family, callers: List<Caller>): (c: Config)
  {
    Here(0, Data(Empty, RUN_LOCALS, InitialStore(family)), callers)
  }

  /** The prologue leads to the head of the set-up. */
  lemma {:induction false} ReachSetUp(m: Module, family: Family, callers: List<Caller>, w: Watch) returns (d: Data)
    requires |m.funcs| > 0 && At(m.funcs[0].code, 0, Flat(Prologue()))
    ensures AtHead(family, d, 0, SetUp(family, 0)) && d.stack == Empty
    ensures Reaches(m, Entry(family, callers), Here(|Flat(Prologue())|, d, callers), w, Static(Prologue(), w))
  {
    hide Reaches; hide Eval; hide Static; hide At; hide AtHead; hide Prologue; hide InitialStore; hide Flat; hide SetUp;
    hide Guarded;
    var c0 := Entry(family, callers);
    PrologueRuns(m.types, c0.data);
    d := Local(c0.data, 1, I32(SEED));
    Segment(m, c0, Prologue(), d, w);
    InitialHead(family);
  }

  /** Prologue and set-up lead to the head of iteration 0. */
  lemma {:induction false} ReachMain(m: Module, family: Family, phase: Phase, callers: List<Caller>, w: Watch)
    returns (d': Data)
    requires |m.funcs| > 0 && m.types == Types(family)
    requires At(m.funcs[0].code, 0, Flat(Prologue()))
    requires At(m.funcs[0].code, |Flat(Prologue())|, SetUpTokens(family, phase))
    ensures AtHead(family, d', 0, After(family, phase, 0)) && d'.stack == Empty
    ensures Reaches(m, Entry(family, callers), Here(|Flat(Prologue())| + |SetUpTokens(family, phase)|, d', callers), w,
                    Static(Prologue(), w) + SetUpHits(family, phase, w))
  {
    hide Reaches; hide Static; hide At; hide Types; hide AtHead; hide Prologue; hide Entry; hide Flat; hide SetUp;
    hide SetUpBody; hide LoopTokens; hide SetUpHits; hide ResetIndex;
    d' := ReachSetUp(m, family, callers, w);
    NoSetUpHits(family, w);
    if phase == Mutate {
      var c1 := Here(|Flat(Prologue())|, d', callers);
      AtSplit(m.funcs[0].code, c1.pc, LoopTokens(SetUpBody(family)), Flat(ResetIndex()));
      d' := ReachMutate(m, c1, family, w);
      Transitive(m, Entry(family, callers), c1, Here(c1.pc + |SetUpTokens(family, Mutate)|, d', callers), w,
                 Static(Prologue(), w), SetUpHits(family, Mutate, w));
    }
  }

  lemma {:induction false} NoSetUpHits(family: Family, w: Watch)
    ensures SetUpHits(family, Allocate, w) == 0
  {
  }

  function SetUpHits(family: Family, phase: Phase, w: Watch): (n: nat)
  {
    if phase == Mutate then Turns(ROOTS, Static(SetUpBody(family), w)) + Static(ResetIndex(), w) else 0
  }

  // ----- After the main loop -----

  lemma {:induction false} PublishRuns(types: seq<Type>, d: Data, total: u32)
    requires NineLocals(d) && |d.store.globals| == 2 && d.locals[2] == I32(total)
    ensures Guarded(PublishSteps())
    ensures var d' := d.(store := d.store.(globals := d.store.globals[0 := I32(total)]));
            Eval(types, PublishSteps(), d) == Some(Local(Local(d', 2, I32(0)), 0, I32(0)))
  {
  }

  lemma {:induction false} CheckLocalRuns(types: seq<Type>, d: Data, x: u32)
    requires NineLocals(d) && d.locals[1] == I32(x)
    ensures Eval(types, CheckLocal(1, x), d) == Some(d)
  {
    var ops := [LocalGet(1), Const(x)];
    Execute(types, ops, 0, d, Pushed(d, I32(x)));
    Execute(types, ops, 1, Pushed(d, I32(x)), Pushed(Pushed(d, I32(x)), I32(x)));
    TrapUnlessEqualRuns(types, d, x);
  }

  lemma {:induction false} CheckGlobalRuns(types: seq<Type>, d: Data, k: nat, x: u32)
    requires k < |d.store.globals| && d.store.globals[k] == I32(x)
    ensures Eval(types, CheckGlobal(k, x), d) == Some(d)
  {
    var ops := [GlobalGet(k), Const(x)];
    Execute(types, ops, 0, d, Pushed(d, I32(x)));
    Execute(types, ops, 1, Pushed(d, I32(x)), Pushed(Pushed(d, I32(x)), I32(x)));
    TrapUnlessEqualRuns(types, d, x);
  }

  lemma {:induction false} PublishRootRuns(types: seq<Type>, d: Data, root: u32)
    requires NineLocals(d) && |d.store.globals| == 2 && d.locals[2] == I32(root)
    ensures Eval(types, Ops([LocalGet(2), GlobalSet(1)]), d)
         == Some(d.(store := d.store.(globals := d.store.globals[1 := I32(root)])))
  {
  }

  lemma {:induction false} CombineRuns(types: seq<Type>, d: Data, x: u32, y: u32)
    requires |d.store.globals| == 2 && d.store.globals == [I32(x), I32(y)]
    ensures Eval(types, Ops([GlobalGet(0), GlobalGet(1), I32Xor]), d) == Some(Pushed(d, I32(Xor32(x, y))))
  {
    hide Xor32;
  }

  /** The embedded checks agree with the published checksums. */
  lemma {:induction false} EpilogueRuns(types: seq<Type>, d: Data, e: Checksums)
    requires NineLocals(d) && |d.store.globals| == 2 && d.store.globals[0] == I32(e.step)
    requires d.locals[1] == I32(e.lastLcg) && d.locals[2] == I32(e.root)
    ensures var d' := d.(store := d.store.(globals := [I32(e.step), I32(e.root)]));
            Eval(types, Epilogue(e), d) == Some(Pushed(d', I32(Xor32(e.step, e.root))))
  {
    hide EvalOps; hide CheckLocal; hide CheckGlobal; hide Xor32;
    PublishRootRuns(types, d, e.root);
    var d' := d.(store := d.store.(globals := [I32(e.step), I32(e.root)]));
    assert d.store.globals[1 := I32(e.root)] == [I32(e.step), I32(e.root)];
    CheckLocalRuns(types, d', e.lastLcg);
    CheckGlobalRuns(types, d', 0, e.step);
    CheckGlobalRuns(types, d', 1, e.root);
    CombineRuns(types, d', e.step, e.root);
    var last := Ops([GlobalGet(0), GlobalGet(1), I32Xor]);
    Sequence(types, CheckLocal(1, e.lastLcg), Then(CheckGlobal(0, e.step), Then(CheckGlobal(1, e.root), last)), d', d');
    Sequence(types, CheckGlobal(0, e.step), Then(CheckGlobal(1, e.root), last), d', d');
    Sequence(types, CheckGlobal(1, e.root), last, d', d');
  }

  /** A check traps on any other value than the embedded one. */
  lemma {:induction false} TrapUnlessEqualAborts(types: seq<Type>, d: Data, x: u32, y: u32)
    requires x != y
    ensures Aborts(types, TrapUnlessEqual(), Pushed(Pushed(d, I32(x)), I32(y)))
  {
    var d2 := Pushed(Pushed(d, I32(x)), I32(y));
    assert Eval(types, Ops([I32Ne]), d2) == Some(Pushed(d, I32(1)));
    assert Aborts(types, Ops([Unreachable]), d);
    assert Aborts(types, When(Ops([Unreachable])), Pushed(d, I32(1)));
  }

  lemma {:induction false} CheckAborts(types: seq<Type>, d: Data, get: Op, x: u32, y: u32)
    requires Do(types, get, d) == Ok(Pushed(d, I32(x))) && x != y
    ensures Aborts(types, Then(Ops([get, Const(y)]), TrapUnlessEqual()), d)
  {
    hide Const; hide EvalOps; hide AbortsOps; hide TrapUnlessEqual;
    ConstValue(y);
    var ops := [get, Const(y)];
    Execute(types, ops, 0, d, Pushed(d, I32(x)));
    Execute(types, ops, 1, Pushed(d, I32(x)), Pushed(Pushed(d, I32(x)), I32(y)));
    Executed(types, ops, Pushed(Pushed(d, I32(x)), I32(y)));
    TrapUnlessEqualAborts(types, d, x, y);
  }

  lemma {:induction false} AbortsFirst(types: seq<Type>, a: Prog, b: Prog, d: Data)
    requires Aborts(types, a, d)
    ensures Aborts(types, Then(a, b), d)
  {
  }

  lemma {:induction false} AbortsLater(types: seq<Type>, a: Prog, b: Prog, d: Data, d': Data)
    requires Eval(types, a, d) == Some(d') && Aborts(types, b, d')
    ensures Aborts(types, Then(a, b), d)
  {
  }

  /** The checks trap if one of the three constants differs from what was computed. */
  lemma {:induction false} ChecksAbort(types: seq<Type>, d: Data, e: Checksums, x: Checksums)
    requires NineLocals(d) && d.locals[1] == I32(x.lastLcg) && d.store.globals == [I32(x.step), I32(x.root)]
    requires e.lastLcg != x.lastLcg || e.step != x.step || e.root != x.root
    ensures var last := Ops([GlobalGet(0), GlobalGet(1), I32Xor]);
            Aborts(types, Then(CheckLocal(1, e.lastLcg), Then(CheckGlobal(0, e.step),
                                                              Then(CheckGlobal(1, e.root), last))), d)
  {
    var last := Ops([GlobalGet(0), GlobalGet(1), I32Xor]);
    var state, step, root := CheckLocal(1, e.lastLcg), CheckGlobal(0, e.step), CheckGlobal(1, e.root);
    if e.lastLcg != x.lastLcg {
      CheckAborts(types, d, LocalGet(1), x.lastLcg, e.lastLcg);
      hide Aborts; hide CheckLocal; hide CheckGlobal;
      AbortsFirst(types, state, Then(step, Then(root, last)), d);
    } else {
      CheckLocalRuns(types, d, e.lastLcg);
      if e.step != x.step {
        CheckAborts(types, d, GlobalGet(0), x.step, e.step);
        hide Aborts; hide CheckLocal; hide CheckGlobal; hide Eval;
        AbortsFirst(types, step, Then(root, last), d);
      } else {
        CheckGlobalRuns(types, d, 0, e.step);
        CheckAborts(types, d, GlobalGet(1), x.root, e.root);
        hide Aborts; hide CheckLocal; hide CheckGlobal; hide Eval;
        AbortsFirst(types, root, last, d);
        AbortsLater(types, step, Then(root, last), d, d);
      }
      hide Aborts; hide CheckLocal; hide CheckGlobal; hide Eval;
      AbortsLater(types, state, Then(step, Then(root, last)), d, d);
    }
  }

  lemma {:induction false} EpilogueAborts(types: seq<Type>, d: Data, e: Checksums, x: Checksums)
    requires NineLocals(d) && |d.store.globals| == 2 && d.store.globals[0] == I32(x.step)
    requires d.locals[1] == I32(x.lastLcg) && d.locals[2] == I32(x.root)
    requires e.lastLcg != x.lastLcg || e.step != x.step || e.root != x.root
    ensures Aborts(types, Epilogue(e), d)
  {
    hide Eval; hide Aborts; hide CheckLocal; hide CheckGlobal;
    PublishRootRuns(types, d, x.root);
    var d' := d.(store := d.store.(globals := [I32(x.step), I32(x.root)]));
    assert d.store.globals[1 := I32(x.root)] == [I32(x.step), I32(x.root)];
    ChecksAbort(types, d', e, x);
    AbortsLater(types, Ops([LocalGet(2), GlobalSet(1)]),
                Then(CheckLocal(1, e.lastLcg), Then(CheckGlobal(0, e.step), Then(CheckGlobal(1, e.root),
                     Ops([GlobalGet(0), GlobalGet(1), I32Xor])))), d, d');
  }

  lemma {:induction false} CheckGuarded(ops: seq<Op>)
    ensures Guarded(Then(Ops(ops), TrapUnlessEqual()))
  {
    var trap := When(Ops([Unreachable]));
    assert Guarded(trap);
    assert TrapUnlessEqual() == Then(Ops([I32Ne]), trap);
    assert Guarded(Then(Ops([I32Ne]), trap));
  }

  lemma {:induction false} GuardedThen(a: Prog, b: Prog)
    requires Guarded(a) && Guarded(b)
    ensures Guarded(Then(a, b))
  {
  }

  lemma {:induction false} EpilogueGuarded(e: Checksums)
    ensures Guarded(Epilogue(e))
  {
    hide Const; hide TrapUnlessEqual;
    var last := Ops([GlobalGet(0), GlobalGet(1), I32Xor]);
    var state, step, root := CheckLocal(1, e.lastLcg), CheckGlobal(0, e.step), CheckGlobal(1, e.root);
    CheckGuarded([LocalGet(1), Const(e.lastLcg)]);
    CheckGuarded([GlobalGet(0), Const(e.step)]);
    CheckGuarded([GlobalGet(1), Const(e.root)]);
    hide CheckLocal; hide CheckGlobal;
    GuardedThen(root, last);
    GuardedThen(step, Then(root, last));
    GuardedThen(state, Then(step, Then(root, last)));
    GuardedThen(Ops([LocalGet(2), GlobalSet(1)]), Then(state, Then(step, Then(root, last))));
  }

  lemma {:induction false} PublishedHead(family: Family, phase: Phase, n: u32, d: Data, d': Data)
    requires n >= ROOTS && AtHead(family, d, n, After(family, phase, n))
    requires d' == Local(Local(d.(store := d.store.(globals := d.store.globals[0 := d.locals[2]])), 2, I32(0)), 0,
                         I32(0))
    ensures AtFinalHead(family, d', 0, After(family, phase, n))
  {
    hide HeapHolds; hide TablesHold; hide After;
  }

  /** Publish the step checksum and traverse the ring. */
  lemma {:induction false} ReachEpilogue(m: Module, c: Config, family: Family, phase: Phase, n: u32, w: Watch)
    returns (d': Data)
    requires c.Running? && c.func < |m.funcs| && m.types == Types(family)
    requires n >= ROOTS && AtHead(family, c.data, n, After(family, phase, n))
    requires At(m.funcs[c.func].code, c.pc, Flat(PublishSteps()) + LoopTokens(FinalBody(family)))
    ensures AtFinalHead(family, d', ROOTS, After(family, phase, n)) && d'.stack == c.data.stack
    ensures |d'.store.globals| == 2 && d'.store.globals[0] == I32(After(family, phase, n).total)
    ensures Reaches(m, c, Moved(c, c.pc + |Flat(PublishSteps()) + LoopTokens(FinalBody(family))|, d'), w,
                    Static(PublishSteps(), w) + Turns(ROOTS, Static(FinalBody(family), w)))
  {
    hide Reaches; hide Eval; hide Static; hide FinalBody; hide At; hide Types; hide AtHead; hide AtFinalHead;
    hide PublishSteps;
    hide LoopTokens; hide Flat; hide After; hide Guarded; hide Turns;
    var h := After(family, phase, n);
    AtSplit(m.funcs[c.func].code, c.pc, Flat(PublishSteps()), LoopTokens(FinalBody(family)));
    HeadLocals(family, c.data, n, h);
    PublishRuns(m.types, c.data, h.total);
    var d1 := Local(Local(c.data.(store := c.data.store.(globals := c.data.store.globals[0 := I32(h.total)])), 2,
                          I32(0)), 0, I32(0));
    Segment(m, c, PublishSteps(), d1, w);
    PublishedHead(family, phase, n, c.data, d1);
    var c1 := Moved(c, c.pc + |Flat(PublishSteps())|, d1);
    d' := FinalLoop(m, c1, family, 0, h, w);
    Transitive(m, c, c1, Moved(c1, c1.pc + |LoopTokens(FinalBody(family))|, d'), w, Static(PublishSteps(), w),
               Turns(ROOTS, Static(FinalBody(family), w)));
  }

  lemma {:induction false} FinalLocals(family: Family, d: Data, h: History)
    requires AtFinalHead(family, d, ROOTS, h)
    ensures NineLocals(d) && d.locals[1] == I32(h.state) && |h.groups| >= ROOTS
      && d.locals[2] == I32(RootSum(h.groups, ROOTS))
  {
    hide StoreHolds; hide RootSum;
  }

  lemma {:induction false} ExpectedIs(family: Family, phase: Phase, n: nat)
    requires n >= ROOTS
    ensures var h, e := After(family, phase, n), Expected(family, phase, n);
            && |h.groups| >= ROOTS && e.step == h.total && e.root == RootSum(h.groups, ROOTS)
            && e.result == Xor32(e.step, e.root) && e.lastLcg == h.state
  {
    hide After; hide RootSum; hide Xor32;
  }

  /** What `run` executes up to the embedded checks, by its parts. */
  function CheckHits(family: Family, phase: Phase, n: nat, w: Watch): (r: nat)
  {
    Static(Prologue(), w) + SetUpHits(family, phase, w) + MainHits(family, phase, n, 0, w)
    + (Static(PublishSteps(), w) + Turns(ROOTS, Static(FinalBody(family), w)))
  }

  /** What `run` executes. */
  function RunHits(family: Family, phase: Phase, n: nat, e: Checksums, w: Watch): (r: nat)
  {
    CheckHits(family, phase, n, w) + Static(Epilogue(e), w)
  }

  /** The positions of the parts of `run`. */
  lemma {:induction false} RunCodeAt(family: Family, phase: Phase, n: nat, e: Checksums)
    returns (main: nat, publish: nat, check: nat)
    ensures var code := RunCode(family, phase, n, e);
            && main == |Flat(Prologue())| + |SetUpTokens(family, phase)|
            && publish == main + |LoopTokens(MainBody(family, phase, n))|
            && check == publish + |Flat(PublishSteps()) + LoopTokens(FinalBody(family))|
            && |code| == check + |Flat(Epilogue(e))| + 1
            && At(code, 0, Flat(Prologue())) && At(code, |Flat(Prologue())|, SetUpTokens(family, phase))
            && At(code, main, LoopTokens(MainBody(family, phase, n)))
            && At(code, publish, Flat(PublishSteps()) + LoopTokens(FinalBody(family)))
            && At(code, check, Flat(Epilogue(e))) && At(code, |code| - 1, [End])
  {
    hide Flat; hide LoopTokens; hide At;
    var code := RunCode(family, phase, n, e);
    var a, b, c, d, f, g := Flat(Prologue()), SetUpTokens(family, phase), LoopTokens(MainBody(family, phase, n)),
      Flat(PublishSteps()), LoopTokens(FinalBody(family)), Flat(Epilogue(e));
    main := |a| + |b|;
    publish := main + |c|;
    check := publish + |d + f|;
    assert code == a + b + c + (d + f) + g + [End] + [];
    PartsAt(code, a, b, c, d + f, g, [End], []);
  }

  /** The main loop and everything up to the embedded checks. */
  lemma {:induction false} ReachChecks(m: Module, c: Config, family: Family, phase: Phase, n: u32, w: Watch)
    returns (d': Data)
    requires c.Running? && c.func < |m.funcs| && m.types == Types(family)
    requires n >= ROOTS && AtHead(family, c.data, 0, After(family, phase, 0))
    requires At(m.funcs[c.func].code, c.pc, LoopTokens(MainBody(family, phase, n)))
    requires At(m.funcs[c.func].code, c.pc + |LoopTokens(MainBody(family, phase, n))|,
                Flat(PublishSteps()) + LoopTokens(FinalBody(family)))
    ensures AtFinalHead(family, d', ROOTS, After(family, phase, n)) && d'.stack == c.data.stack
    ensures |d'.store.globals| == 2 && d'.store.globals[0] == I32(After(family, phase, n).total)
    ensures Reaches(m, c, Moved(c, c.pc + |LoopTokens(MainBody(family, phase, n))| + |Flat(PublishSteps())
                                + LoopTokens(FinalBody(family))|, d'), w,
                    MainHits(family, phase, n, 0, w)
                      + (Static(PublishSteps(), w) + Turns(ROOTS, Static(FinalBody(family), w))))
  {
    hide Reaches; hide Static; hide MainBody; hide FinalBody; hide At; hide Types; hide AtHead; hide AtFinalHead;
    hide PublishSteps;
    hide LoopTokens; hide Flat; hide After; hide Turns; hide MainHits;
    var size := |LoopTokens(MainBody(family, phase, n))|;
    var d1 := MainLoop(m, c, family, phase, n, 0, w);
    var c1 := Moved(c, c.pc + size, d1);
    d' := ReachEpilogue(m, c1, family, phase, n, w);
    Transitive(m, c, c1, Moved(c1, c1.pc + |Flat(PublishSteps()) + LoopTokens(FinalBody(family))|, d'), w,
               MainHits(family, phase, n, 0, w),
               Static(PublishSteps(), w) + Turns(ROOTS, Static(FinalBody(family), w)));
  }

  /** The state in which `run` reaches its embedded checks. */
  ghost predicate AtChecks(family: Family, phase: Phase, n: nat, d: Data)
    requires n >= ROOTS
  {
    var e := Expected(family, phase, n);
    && d.stack == Empty && NineLocals(d) && d.locals[1] == I32(e.lastLcg) && d.locals[2] == I32(e.root)
    && |d.store.globals| == 2 && d.store.globals[0] == I32(e.step)
    && StoreHolds(family, d.store, After(family, phase, n).groups)
  }

  /** The store a run leaves: both checksums in the globals, every group in the heap, and the
      newest group of each slot in the tables. */
  ghost predicate Finished(family: Family, phase: Phase, n: nat, store: Store)
    requires n >= ROOTS
  {
    && store.globals == [I32(Expected(family, phase, n).step), I32(Expected(family, phase, n).root)]
    && StoreHolds(family, store, After(family, phase, n).groups)
  }

  lemma {:induction false} FinalStore(family: Family, d: Data, j: nat, h: History)
    requires AtFinalHead(family, d, j, h)
    ensures StoreHolds(family, d.store, h.groups)
  {
    hide StoreHolds;
  }

  lemma {:induction false} ChecksFrom(family: Family, phase: Phase, n: nat, d: Data)
    requires n >= ROOTS && AtFinalHead(family, d, ROOTS, After(family, phase, n)) && d.stack == Empty
    requires |d.store.globals| == 2 && d.store.globals[0] == I32(After(family, phase, n).total)
    ensures AtChecks(family, phase, n, d)
  {
    hide After; hide AtFinalHead; hide RootSum; hide Xor32; hide Expected; hide StoreHolds;
    ExpectedIs(family, phase, n);
    FinalLocals(family, d, After(family, phase, n));
    FinalStore(family, d, ROOTS, After(family, phase, n));
  }

  /** Whatever constants `run` embeds, it reaches its checks with the specified checksums. */
  lemma {:induction false} ReachEmbedded(m: Module, family: Family, phase: Phase, n: u32, e: Checksums,
                                         callers: List<Caller>, w: Watch) returns (check: nat, d: Data)
    requires n >= ROOTS && Contains(m, family, phase, n, e)
    ensures AtChecks(family, phase, n, d)
    ensures var code := m.funcs[0].code;
            && |code| == check + |Flat(Epilogue(e))| + 1 && At(code, check, Flat(Epilogue(e)))
              && code[|code| - 1] == End
    ensures Reaches(m, Entry(family, callers), Here(check, d, callers), w, CheckHits(family, phase, n, w))
  {
    hide Reaches; hide Static; hide MainBody; hide FinalBody; hide At; hide Types; hide AtHead; hide AtFinalHead;
    hide PublishSteps; hide SetUpTokens; hide SetUpHits; hide LoopTokens; hide Flat; hide After; hide Turns;
    hide MainHits;
    hide Epilogue; hide Prologue; hide RunCode; hide Entry; hide AtChecks;
    var main, publish, at := RunCodeAt(family, phase, n, e);
    check := at;
    var d1 := ReachMain(m, family, phase, callers, w);
    var c1 := Here(main, d1, callers);
    d := ReachChecks(m, c1, family, phase, n, w);
    Transitive(m, Entry(family, callers), c1, Here(check, d, callers), w,
               Static(Prologue(), w) + SetUpHits(family, phase, w),
               MainHits(family, phase, n, 0, w)
                 + (Static(PublishSteps(), w) + Turns(ROOTS, Static(FinalBody(family), w))));
    ChecksFrom(family, phase, n, d);
    AtIndex(m.funcs[0].code, |m.funcs[0].code| - 1, [End], 0);
  }

  /** `run` embeds the right constants; the combined checksum is not among them. */
  predicate Matches(family: Family, phase: Phase, n: nat, e: Checksums)
    requires n >= ROOTS
  {
    var x := Expected(family, phase, n);
    e.lastLcg == x.lastLcg && e.step == x.step && e.root == x.root
  }

  lemma {:induction false} ChecksEvaluate(types: seq<Type>, family: Family, phase: Phase, n: nat, e: Checksums, d: Data)
    returns (d': Data)
    requires n >= ROOTS && AtChecks(family, phase, n, d) && Matches(family, phase, n, e)
    ensures var x := Expected(family, phase, n);
            d'.stack == Push(Empty, I32(x.result)) && Finished(family, phase, n, d'.store)
    ensures Eval(types, Epilogue(e), d) == Some(d')
  {
    hide Epilogue; hide Expected; hide Eval; hide Xor32; hide After; hide HeapHolds; hide TablesHold;
    ExpectedIs(family, phase, n);
    EpilogueRuns(types, d, e);
    d' := Pushed(d.(store := d.store.(globals := [I32(e.step), I32(e.root)])), I32(Xor32(e.step, e.root)));
  }

  /** The right constants pass the checks. */
  lemma {:induction false} ChecksPass(m: Module, c: Config, family: Family, phase: Phase, n: nat, e: Checksums,
                                      w: Watch)
    returns (d': Data)
    requires n >= ROOTS && Holds(m, c, Epilogue(e)) && AtChecks(family, phase, n, c.data)
      && Matches(family, phase, n, e)
    ensures var x := Expected(family, phase, n);
            d'.stack == Push(Empty, I32(x.result)) && Finished(family, phase, n, d'.store)
    ensures Reaches(m, c, Moved(c, c.pc + |Flat(Epilogue(e))|, d'), w, Static(Epilogue(e), w))
  {
    hide Finished; hide Reaches; hide Static; hide At; hide Flat; hide Epilogue; hide Expected; hide Eval;
    hide Guarded; hide AtChecks;
    hide Matches;
    d' := ChecksEvaluate(m.types, family, phase, n, e, c.data);
    EpilogueGuarded(e);
    Segment(m, c, Epilogue(e), d', w);
  }

  /** With the right constants `run` reaches its final `end` with exactly the return value on
      the operand stack. */
  lemma {:induction false} ReachEnd(m: Module, family: Family, phase: Phase, n: u32, e: Checksums,
                                    callers: List<Caller>, w: Watch) returns (d': Data)
    requires n >= ROOTS && Contains(m, family, phase, n, e) && Matches(family, phase, n, e)
    ensures var x := Expected(family, phase, n);
            d'.stack == Push(Empty, I32(x.result)) && Finished(family, phase, n, d'.store)
    ensures |m.funcs[0].code| > 0 && m.funcs[0].code[|m.funcs[0].code| - 1] == End
    ensures Reaches(m, Entry(family, callers), Here(|m.funcs[0].code| - 1, d', callers), w,
                    RunHits(family, phase, n, e, w))
  {
    hide Finished; hide Reaches; hide Static; hide At; hide Types; hide Flat; hide CheckHits; hide Epilogue;
    hide Expected; hide Entry;
    hide RunCode; hide AtChecks; hide Matches;
    var check, d := ReachEmbedded(m, family, phase, n, e, callers, w);
    var c := Here(check, d, callers);
    d' := ChecksPass(m, c, family, phase, n, e, w);
    Transitive(m, Entry(family, callers), c, Here(|m.funcs[0].code| - 1, d', callers), w,
               CheckHits(family, phase, n, w), Static(Epilogue(e), w));
  }

  /** With a wrong constant `run` traps at its checks. */
  lemma {:induction false} RunTraps(m: Module, family: Family, phase: Phase, n: u32, e: Checksums,
                                    callers: List<Caller>)
    requires n >= ROOTS && Contains(m, family, phase, n, e) && !Matches(family, phase, n, e)
    ensures Leads(m, Entry(family, callers), Trapped)
  {
    hide Reaches; hide Leads; hide At; hide Types; hide Flat; hide CheckHits; hide Epilogue; hide Aborts; hide Expected;
    hide Entry; hide RunCode;
    var w := (op: Op) => false;
    var check, d := ReachEmbedded(m, family, phase, n, e, callers, w);
    var c := Here(check, d, callers);
    LeadsReaches(m, Entry(family, callers), c, w, CheckHits(family, phase, n, w));
    EpilogueAborts(m.types, d, e, Expected(family, phase, n));
    Traps(m, c, Epilogue(e));
    LeadsTrans(m, Entry(family, callers), c, Trapped);
  }

  // ----- From `_start` -----

  /** Execution begins in `_start` with the initial store. */
  function Boot(family: Family): (c: Config) { Running(1, 0, Nil, Data(Empty, [], InitialStore(family)), Nil) }

  function CheckResult(e: Checksums): (p: Prog) { Then(Ops([Const(e.result)]), TrapUnlessEqual()) }

  lemma {:induction false} CheckResultRuns(types: seq<Type>, d: Data, e: Checksums)
    ensures Eval(types, CheckResult(e), Pushed(d, I32(e.result))) == Some(d) && Guarded(CheckResult(e))
  {
    var ops := [Const(e.result)];
    Execute(types, ops, 0, Pushed(d, I32(e.result)), Pushed(Pushed(d, I32(e.result)), I32(e.result)));
    TrapUnlessEqualRuns(types, d, e.result);
    assert Guarded(TrapUnlessEqual());
  }

  lemma {:induction false} StartCodeAt(e: Checksums)
    ensures var code, k := StartCode(e), |Flat(CheckResult(e))|;
            |code| == k + 2 && code[0] == Call(0) && At(code, 1, Flat(CheckResult(e))) && code[k + 1] == End
  {
    hide Flat;
    var code := StartCode(e);
    assert code[0..|code|] == code;
    AtSplit(code, 0, [Call(0)] + Flat(CheckResult(e)), [End]);
    AtSplit(code, 0, [Call(0)], Flat(CheckResult(e)));
  }

  /** What `_start` leaves behind when it calls `run`. */
  function StartCaller(): (cs: List<Caller>) { Cons(Caller(1, 1, Nil, Empty, []), Nil) }

  /** The call enters `run`. */
  lemma {:induction false} CallRun(family: Family, phase: Phase, n: nat, e: Checksums, w: Watch)
    ensures Reaches(Program(family, phase, n, e), Boot(family), Entry(family, StartCaller()), w, 0)
  {
    hide RunCode; hide InitialStore; hide Reaches; hide Types;
    StartCodeAt(e);
    ReachesStep(Program(family, phase, n, e), Boot(family), w);
  }

  /** Back in `_start` with what `run` returned. */
  function Back(x: u32, store: Store): (c: Config)
  {
    Running(1, 1, Nil, Pushed(Data(Empty, [], store), I32(x)), Nil)
  }

  /** `run` returns its value to `_start`. */
  lemma {:induction false} ReturnToStart(m: Module, d: Data, x: u32, w: Watch)
    requires |m.funcs| > 1 && m.funcs[0].result && d.stack == Push(Empty, I32(x))
    requires |m.funcs[0].code| > 0 && m.funcs[0].code[|m.funcs[0].code| - 1] == End
    ensures Reaches(m, Here(|m.funcs[0].code| - 1, d, StartCaller()), Back(x, d.store), w, 0)
  {
    hide Reaches;
    ReachesStep(m, Here(|m.funcs[0].code| - 1, d, StartCaller()), w);
  }

  /** `_start` holds its check. */
  lemma {:induction false} StartHolds(family: Family, phase: Phase, n: nat, e: Checksums, x: u32, store: Store)
    ensures Holds(Program(family, phase, n, e), Back(x, store), CheckResult(e))
  {
    hide RunCode; hide Types; hide Flat; hide CheckResult; hide At; hide StartCode;
    StartCodeAt(e);
  }

  /** The returned value passes the check of `_start`, which ends. */
  lemma {:induction false} CheckAndHalt(family: Family, phase: Phase, n: nat, e: Checksums, store: Store, w: Watch)
    ensures Reaches(Program(family, phase, n, e), Back(e.result, store), Halted(Empty, store), w,
                    Static(CheckResult(e), w))
  {
    hide RunCode; hide Reaches; hide Types; hide Eval; hide Static; hide Flat; hide CheckResult; hide Guarded; hide At;
    var m, d := Program(family, phase, n, e), Data(Empty, [], store);
    var c := Back(e.result, store);
    StartHolds(family, phase, n, e, e.result, store);
    StartCodeAt(e);
    CheckResultRuns(m.types, d, e);
    Segment(m, c, CheckResult(e), d, w);
    var c2 := Running(1, |Flat(CheckResult(e))| + 1, Nil, d, Nil);
    ReachesStep(m, c2, w);
    Transitive(m, c, c2, Halted(Empty, store), w, Static(CheckResult(e), w), 0);
  }

  /** Any other value traps there. */
  lemma {:induction false} CheckTraps(family: Family, phase: Phase, n: nat, e: Checksums, x: u32, store: Store)
    requires x != e.result
    ensures Leads(Program(family, phase, n, e), Back(x, store), Trapped)
  {
    hide RunCode; hide Leads; hide Types; hide Flat; hide StartCode; hide At;
    var m, d := Program(family, phase, n, e), Data(Empty, [], store);
    StartHolds(family, phase, n, e, x, store);
    ResultAborts(m.types, d, e, x);
    Traps(m, Back(x, store), CheckResult(e));
  }

  lemma {:induction false} ResultAborts(types: seq<Type>, d: Data, e: Checksums, x: u32)
    requires x != e.result
    ensures Aborts(types, CheckResult(e), Pushed(d, I32(x)))
  {
    hide Const; hide EvalOps; hide TrapUnlessEqual;
    ConstValue(e.result);
    var ops := [Const(e.result)];
    Execute(types, ops, 0, Pushed(d, I32(x)), Pushed(Pushed(d, I32(x)), I32(e.result)));
    Executed(types, ops, Pushed(Pushed(d, I32(x)), I32(e.result)));
    TrapUnlessEqualAborts(types, d, x, e.result);
  }

  /** How often the whole program executes `w`. */
  function ProgramHits(family: Family, phase: Phase, n: nat, e: Checksums, w: Watch): (r: nat)
  {
    RunHits(family, phase, n, e, w) + Static(CheckResult(e), w)
  }

  /** With the right constants `run` returns the specified result to `_start`. */
  lemma {:induction false} ReachBack(family: Family, phase: Phase, n: u32, e: Checksums, w: Watch)
    returns (store: Store)
    requires n >= ROOTS && Matches(family, phase, n, e)
    ensures var x := Expected(family, phase, n);
            && Finished(family, phase, n, store)
            && Reaches(Program(family, phase, n, e), Boot(family), Back(x.result, store), w,
                       RunHits(family, phase, n, e, w))
  {
    hide Finished; hide Program; hide Reaches; hide RunCode; hide Types; hide Expected; hide RunHits; hide Boot;
    hide Entry;
    hide Matches;
    hide Back;
    var m, x := Program(family, phase, n, e), Expected(family, phase, n);
    ProgramContains(family, phase, n, e);
    CallRun(family, phase, n, e, w);
    var d := ReachEnd(m, family, phase, n, e, StartCaller(), w);
    store := d.store;
    var c := Here(|m.funcs[0].code| - 1, d, StartCaller());
    Transitive(m, Boot(family), Entry(family, StartCaller()), c, w, 0, RunHits(family, phase, n, e, w));
    ReturnToStart(m, d, x.result, w);
    Transitive(m, Boot(family), c, Back(x.result, store), w, RunHits(family, phase, n, e, w), 0);
  }

  /** Main result. For every family and phase and every iteration count from the ring size up to the
      32-bit range, the emitted program started at `_start` halts: no instruction traps or is
      invalid, every embedded check succeeds, the operand stack is empty at the end, and the exported
      globals hold the specified step and root checksums. It executes `w` exactly `ProgramHits` times. */
  lemma {:induction false} ProgramHalts(family: Family, phase: Phase, n: u32, w: Watch) returns (store: Store)
    requires n >= ROOTS
    ensures var e := Expected(family, phase, n);
            && Finished(family, phase, n, store)
            && Reaches(Program(family, phase, n, e), Boot(family), Halted(Empty, store), w,
                       ProgramHits(family, phase, n, e, w))
  {
    hide Finished; hide Program; hide Reaches; hide Static; hide CheckResult; hide Expected; hide RunHits; hide Boot;
    hide Back;
    var e := Expected(family, phase, n);
    store := ReachBack(family, phase, n, e, w);
    CheckAndHalt(family, phase, n, e, store, w);
    Transitive(Program(family, phase, n, e), Boot(family), Back(e.result, store), Halted(Empty, store), w,
               RunHits(family, phase, n, e, w), Static(CheckResult(e), w));
  }

  /** The converse. Whatever checksums are embedded, the program halts if they are the specified
      ones and traps if any of the four differs: the embedded checks are complete. */
  lemma {:induction false} ProgramOutcome(family: Family, phase: Phase, n: u32, e: Checksums) returns (store: Store)
    requires n >= ROOTS
    ensures Finished(family, phase, n, store)
    ensures Leads(Program(family, phase, n, e), Boot(family),
                  if e == Expected(family, phase, n) then Halted(Empty, store) else Trapped)
  {
    hide Finished; hide RunCode; hide StartCode; hide Types; hide Leads; hide Reaches; hide Expected; hide Boot;
    hide Back; hide Entry;
    hide ProgramHits; hide RunHits;
    var w := (op: Op) => false;
    var m, x := Program(family, phase, n, e), Expected(family, phase, n);
    store := ProgramHalts(family, phase, n, w);
    if e == x {
      LeadsReaches(m, Boot(family), Halted(Empty, store), w, ProgramHits(family, phase, n, e, w));
    } else if !Matches(family, phase, n, e) {
      CallRun(family, phase, n, e, w);
      LeadsReaches(m, Boot(family), Entry(family, StartCaller()), w, 0);
      RunTraps(m, family, phase, n, e, StartCaller());
      LeadsTrans(m, Boot(family), Entry(family, StartCaller()), Trapped);
    } else {
      store := ReachBack(family, phase, n, e, w);
      LeadsReaches(m, Boot(family), Back(x.result, store), w, RunHits(family, phase, n, e, w));
      CheckTraps(family, phase, n, e, x.result, store);
      LeadsTrans(m, Boot(family), Back(x.result, store), Trapped);
    }
  }

  /** Every final configuration of the program is that halt: a trap is never reached. */
  lemma {:induction false} ProgramNeverTraps(family: Family, phase: Phase, n: u32, k: nat)
    requires n >= ROOTS
    ensures var c := Run(Program(family, phase, n, Expected(family, phase, n)), Boot(family), k);
            c.Running? || (c.Halted? && c.stack == Empty)
  {
    hide Expected; hide Program; hide Boot; hide Run; hide ProgramHits; hide Hits;
    var m, w := Program(family, phase, n, Expected(family, phase, n)), (op: Op) => false;
    var store := ProgramHalts(family, phase, n, w);
    var c := Run(m, Boot(family), k);
    if Final(c) {
      assert Reaches(m, Boot(family), c, w, Hits(m, Boot(family), k, w));
      OutcomeUnique(m, Boot(family), c, Halted(Empty, store), w, Hits(m, Boot(family), k, w),
                    ProgramHits(family, phase, n, Expected(family, phase, n), w));
    }
  }

  lemma {:induction false} HostReturn(m: Module, d: Data, w: Watch)
    requires |m.funcs| > 0 && m.funcs[0].result && d.stack.Push? && d.stack.below == Empty
    requires |m.funcs[0].code| > 0 && m.funcs[0].code[|m.funcs[0].code| - 1] == End
    ensures Reaches(m, Here(|m.funcs[0].code| - 1, d, Nil), Halted(d.stack, d.store), w, 0)
  {
    hide Reaches;
    ReachesStep(m, Here(|m.funcs[0].code| - 1, d, Nil), w);
  }

  lemma {:induction false} RunReturnsIn(m: Module, family: Family, phase: Phase, n: u32, e: Checksums, w: Watch)
    returns (store: Store)
    requires n >= ROOTS && Contains(m, family, phase, n, e) && Matches(family, phase, n, e)
    ensures var x := Expected(family, phase, n);
            && Finished(family, phase, n, store)
            && Reaches(m, Entry(family, Nil), Halted(Push(Empty, I32(x.result)), store), w,
                       RunHits(family, phase, n, e, w))
  {
    hide Finished; hide RunCode; hide Reaches; hide Types; hide Expected; hide RunHits; hide Entry; hide Matches;
    var d := ReachEnd(m, family, phase, n, e, Nil, w);
    store := d.store;
    HostReturn(m, d, w);
    Transitive(m, Entry(family, Nil), Here(|m.funcs[0].code| - 1, d, Nil), Halted(d.stack, store), w,
               RunHits(family, phase, n, e, w), 0);
  }

  lemma {:induction false} ProgramContains(family: Family, phase: Phase, n: nat, e: Checksums)
    ensures Contains(Program(family, phase, n, e), family, phase, n, e) && |Program(family, phase, n, e).funcs| == 2
  {
    hide RunCode; hide StartCode; hide Types;
  }

  /** Called directly by the host, `run` halts with the specified result as its only operand. */
  lemma {:induction false} RunReturns(family: Family, phase: Phase, n: u32, w: Watch) returns (store: Store)
    requires n >= ROOTS
    ensures var e := Expected(family, phase, n);
            && Finished(family, phase, n, store) && IsXor(e.result, e.step, e.root)
            && Reaches(Program(family, phase, n, e), Entry(family, Nil), Halted(Push(Empty, I32(e.result)), store), w,
                       RunHits(family, phase, n, e, w))
  {
    hide Finished; hide Program; hide Reaches; hide Expected; hide RunHits; hide Entry; hide Xor32; hide IsXor;
    hide Contains;
    var e := Expected(family, phase, n);
    ResultBits(family, phase, n);
    ProgramContains(family, phase, n, e);
    store := RunReturnsIn(Program(family, phase, n, e), family, phase, n, e, w);
  }
}
