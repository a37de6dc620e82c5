/** Loop-free code: its evaluation on machine data, its flat instruction
    stream, and the proof that the machine runs the stream as evaluated. */
module Straight {
  import opened Wrappers
  import opened Lcg
  import opened Machine

  /** Plain instructions, sequencing and `if ... end`. */
  datatype Prog = Ops(ops: seq<Op>) | Then(first: Prog, second: Prog) | When(body: Prog)

  function PlainTokens(ops: seq<Op>): (r: seq<Token>)
    ensures |r| == |ops|
    ensures forall k :: 0 <= k < |ops| ==> r[k] == Plain(ops[k])
  {
    seq(|ops|, k requires 0 <= k < |ops| => Plain(ops[k]))
  }

  function Flat(p: Prog): (r: seq<Token>)
  {
    match p
    case Ops(ops) => PlainTokens(ops)
    case Then(a, b) => Flat(a) + Flat(b)
    case When(body) => [If] + Flat(body) + [End]
  }

  // ----- Evaluation -----

  /** The instructions from `k` on; `None` if one traps or is invalid. */
  function EvalOps(types: seq<Type>, ops: seq<Op>, k: nat, d: Data): (r: Option<Data>)
    requires k <= |ops|
    decreases |ops| - k
  {
    if k == |ops| then Some(d)
    else match Do(types, ops[k], d)
      case Ok(d') => EvalOps(types, ops, k + 1, d')
      case _ => None
  }

  function Eval(types: seq<Type>, p: Prog, d: Data): (r: Option<Data>)
    decreases p
  {
    match p
    case Ops(ops) => EvalOps(types, ops, 0, d)
    case Then(a, b) =>
      (match Eval(types, a, d)
       case Some(d') => Eval(types, b, d')
       case None => None)
    case When(body) =>
      if !d.stack.Push? || !d.stack.top.I32? then None
      else
        var popped := d.(stack := d.stack.below);
        if d.stack.top.n == 0 then Some(popped)
        else match Eval(types, body, popped)
          case Some(d') => if d'.stack == popped.stack then Some(d') else None
          case None => None
  }

  /** Occurrences of `w` from position `k` on. */
  function Tally(ops: seq<Op>, k: nat, w: Watch): (n: nat)
    requires k <= |ops|
    decreases |ops| - k
  {
    if k == |ops| then 0 else Marks(w, ops[k]) + Tally(ops, k + 1, w)
  }

  /** How often evaluating `p` from `d` executes `w`. */
  function Count(types: seq<Type>, p: Prog, d: Data, w: Watch): (n: nat)
    decreases p
  {
    match p
    case Ops(ops) => Tally(ops, 0, w)
    case Then(a, b) =>
      Count(types, a, d, w) +
      (match Eval(types, a, d)
       case Some(d') => Count(types, b, d', w)
       case None => 0)
    case When(body) =>
      if d.stack.Push? && d.stack.top.I32? && d.stack.top.n != 0
      then Count(types, body, d.(stack := d.stack.below), w) else 0
  }

  // ----- The stream inside a function body -----

  ghost predicate At(code: seq<Token>, pc: nat, part: seq<Token>)
  {
    pc + |part| <= |code| && code[pc..pc + |part|] == part
  }

  lemma {:induction false} AtSplit(code: seq<Token>, pc: nat, a: seq<Token>, b: seq<Token>)
    requires At(code, pc, a + b)
    ensures At(code, pc, a) && At(code, pc + |a|, b)
  {
    var whole := code[pc..pc + |a + b|];
    assert whole[..|a|] == a == code[pc..pc + |a|];
    assert whole[|a|..] == b == code[pc + |a|..pc + |a| + |b|];
  }

  lemma {:induction false} AtIndex(code: seq<Token>, pc: nat, part: seq<Token>, k: nat)
    requires At(code, pc, part) && k < |part|
    ensures code[pc + k] == part[k]
  {
    assert code[pc..pc + |part|][k] == code[pc + k];
  }

  /** Loop-free code opens and closes its blocks in pairs. */
  lemma {:induction false} FindEndSkips(code: seq<Token>, pc: nat, p: Prog, depth: nat)
    requires At(code, pc, Flat(p))
    ensures FindEnd(code, pc, depth) == FindEnd(code, pc + |Flat(p)|, depth)
    decreases p
  {
    hide FindEnd; hide At;
    match p
    case Ops(ops) => FindEndSkipsOps(code, pc, ops, 0, depth);
    case Then(a, b) =>
      AtSplit(code, pc, Flat(a), Flat(b));
      FindEndSkips(code, pc, a, depth);
      FindEndSkips(code, pc + |Flat(a)|, b, depth);
    case When(body) =>
      AtWhen(code, pc, body);
      FindEndSkips(code, pc + 1, body, depth + 1);
      FindEndAround(code, pc, |Flat(body)|, depth);
  }

  lemma {:induction false} FindEndAround(code: seq<Token>, pc: nat, n: nat, depth: nat)
    requires pc + n + 1 < |code| && code[pc] == If && code[pc + 1 + n] == End
    requires FindEnd(code, pc + 1, depth + 1) == FindEnd(code, pc + 1 + n, depth + 1)
    ensures FindEnd(code, pc, depth) == FindEnd(code, pc + n + 2, depth)
  {
  }

  lemma {:induction false} FindEndSkipsOps(code: seq<Token>, pc: nat, ops: seq<Op>, k: nat, depth: nat)
    requires k <= |ops| && At(code, pc, PlainTokens(ops))
    ensures FindEnd(code, pc + k, depth) == FindEnd(code, pc + |ops|, depth)
    decreases |ops| - k
  {
    if k < |ops| {
      AtIndex(code, pc, PlainTokens(ops), k);
      FindEndSkipsOps(code, pc, ops, k + 1, depth);
    }
  }

  lemma {:induction false} AtWhen(code: seq<Token>, pc: nat, body: Prog)
    requires At(code, pc, Flat(When(body)))
    ensures code[pc] == If && At(code, pc + 1, Flat(body))
    ensures pc + 1 + |Flat(body)| < |code| && code[pc + 1 + |Flat(body)|] == End
    ensures pc + |Flat(When(body))| == pc + 1 + |Flat(body)| + 1
  {
    AtSplit(code, pc, [If] + Flat(body), [End]);
    AtSplit(code, pc, [If], Flat(body));
    AtIndex(code, pc, [If], 0);
    AtIndex(code, pc + 1 + |Flat(body)|, [End], 0);
  }

  // ----- Simulation -----

  /** `c` moved to `pc` with data `d`. */
  function Moved(c: Config, pc: nat, d: Data): (r: Config)
    requires c.Running?
  {
    c.(pc := pc, data := d)
  }

  ghost predicate Holds(m: Module, c: Config, p: Prog)
  {
    c.Running? && c.func < |m.funcs| && At(m.funcs[c.func].code, c.pc, Flat(p))
  }

  lemma {:induction false} RunsOp(m: Module, c: Config, op: Op, d': Data, w: Watch)
    requires Fetches(m, c) && Fetch(m, c) == Plain(op) && Do(m.types, op, c.data) == Ok(d')
    ensures Reaches(m, c, Moved(c, c.pc + 1, d'), w, Marks(w, op))
  {
    hide Do; hide Reaches;
    ReachesStep(m, c, w);
  }

  lemma {:induction false} RunsOps(m: Module, c: Config, ops: seq<Op>, k: nat, d: Data, w: Watch)
    requires k <= |ops| && c.Running? && c.func < |m.funcs|
    requires At(m.funcs[c.func].code, c.pc, PlainTokens(ops))
    requires EvalOps(m.types, ops, k, d).Some?
    ensures Reaches(m, Moved(c, c.pc + k, d), Moved(c, c.pc + |ops|, EvalOps(m.types, ops, k, d).value), w,
                    Tally(ops, k, w))
    decreases |ops| - k
  {
    hide Do; hide Reaches; hide Step;
    if k == |ops| {
      ReachesSelf(m, Moved(c, c.pc + k, d), w);
    } else {
      AtIndex(m.funcs[c.func].code, c.pc, PlainTokens(ops), k);
      var here := Moved(c, c.pc + k, d);
      var d' := Do(m.types, ops[k], d).data;
      RunsOp(m, here, ops[k], d', w);
      RunsOps(m, c, ops, k + 1, d', w);
      Transitive(m, here, Moved(c, c.pc + k + 1, d'), Moved(c, c.pc + |ops|, EvalOps(m.types, ops, k, d).value), w,
                 Marks(w, ops[k]), Tally(ops, k + 1, w));
    }
  }

  /** The machine runs loop-free code as it evaluates, and executes `w` as often. */
  lemma {:induction false} Runs(m: Module, c: Config, p: Prog, w: Watch)
    requires Holds(m, c, p) && Eval(m.types, p, c.data).Some?
    ensures Reaches(m, c, Moved(c, c.pc + |Flat(p)|, Eval(m.types, p, c.data).value), w, Count(m.types, p, c.data, w))
    decreases p
  {
    hide Reaches; hide EvalOps; hide At;
    var code := m.funcs[c.func].code;
    match p
    case Ops(ops) =>
      RunsOps(m, c, ops, 0, c.data, w);
      assert Moved(c, c.pc + 0, c.data) == c;
    case Then(a, b) =>
      AtSplit(code, c.pc, Flat(a), Flat(b));
      Runs(m, c, a, w);
      var c' := Moved(c, c.pc + |Flat(a)|, Eval(m.types, a, c.data).value);
      Runs(m, c', b, w);
      Transitive(m, c, c', Moved(c, c.pc + |Flat(p)|, Eval(m.types, p, c.data).value), w,
                 Count(m.types, a, c.data, w), Count(m.types, b, c'.data, w));
    case When(body) =>
      RunsWhen(m, c, body, w);
  }

  /** Inside the `if` that `c` stands at. */
  function Within(c: Config, after: nat, pc: nat, d: Data): (r: Config)
    requires c.Running? && c.data.stack.Push?
  {
    c.(pc := pc, labels := Cons(Label(after, c.data.stack.below, false, None), c.labels), data := d)
  }

  lemma {:induction false} StepIf(m: Module, c: Config, after: nat, w: Watch)
    requires Fetches(m, c) && Fetch(m, c) == If && c.data.stack.Push? && c.data.stack.top.I32?
    requires FindEnd(m.funcs[c.func].code, c.pc + 1, 0) + 1 == after
    ensures var d := c.data.(stack := c.data.stack.below);
            Reaches(m, c, if c.data.stack.top.n != 0 then Within(c, after, c.pc + 1, d) else Moved(c, after, d), w, 0)
  {
    hide Reaches; hide FindEnd;
    ReachesStep(m, c, w);
  }

  lemma {:induction false} StepEndIf(m: Module, c: Config, pc: nat, d: Data, w: Watch)
    requires c.Running? && c.data.stack.Push? && d.stack == c.data.stack.below
    requires c.func < |m.funcs| && pc < |m.funcs[c.func].code| && m.funcs[c.func].code[pc] == End
    ensures Reaches(m, Within(c, pc + 1, pc, d), Moved(c, pc + 1, d), w, 0)
  {
    hide Reaches;
    ReachesStep(m, Within(c, pc + 1, pc, d), w);
  }

  lemma {:induction false} RunsWhen(m: Module, c: Config, body: Prog, w: Watch)
    requires Holds(m, c, When(body)) && Eval(m.types, When(body), c.data).Some?
    ensures Reaches(m, c, Moved(c, c.pc + |Flat(When(body))|, Eval(m.types, When(body), c.data).value), w,
                    Count(m.types, When(body), c.data, w))
    decreases When(body), 0
  {
    hide Reaches; hide FindEnd; hide At;
    var code, n := m.funcs[c.func].code, |Flat(body)|;
    var end := c.pc + 1 + n;
    AtWhen(code, c.pc, body);
    FindEndSkips(code, c.pc + 1, body, 0);
    FindEndHere(code, end);
    StepIf(m, c, end + 1, w);
    if c.data.stack.top.n != 0 {
      var d := c.data.(stack := c.data.stack.below);
      var c1 := Within(c, end + 1, c.pc + 1, d);
      Runs(m, c1, body, w);
      var d' := Eval(m.types, body, d).value;
      Transitive(m, c, c1, Within(c, end + 1, end, d'), w, 0, Count(m.types, body, d, w));
      StepEndIf(m, c, end, d', w);
      Transitive(m, c, Within(c, end + 1, end, d'), Moved(c, end + 1, d'), w, Count(m.types, body, d, w), 0);
    }
  }

  lemma {:induction false} FindEndHere(code: seq<Token>, pc: nat)
    requires pc < |code| && code[pc] == End
    ensures FindEnd(code, pc, 0) == pc
  {
  }

  // ----- One turn of `loop body br_if 0 end` -----

  function LoopTokens(body: Prog): (r: seq<Token>)
  {
    [Loop] + Flat(body) + [BrIf(0), End]
  }

  lemma {:induction false} AtLoop(code: seq<Token>, pc: nat, body: Prog)
    requires At(code, pc, LoopTokens(body))
    ensures |LoopTokens(body)| == |Flat(body)| + 3 && pc + |Flat(body)| + 3 <= |code|
    ensures code[pc] == Loop && At(code, pc + 1, Flat(body))
    ensures code[pc + 1 + |Flat(body)|] == BrIf(0) && code[pc + 2 + |Flat(body)|] == End
  {
    var n := |Flat(body)|;
    AtSplit(code, pc, [Loop] + Flat(body), [BrIf(0), End]);
    AtSplit(code, pc, [Loop], Flat(body));
    AtIndex(code, pc, [Loop], 0);
    AtIndex(code, pc + 1 + n, [BrIf(0), End], 0);
    AtIndex(code, pc + 1 + n, [BrIf(0), End], 1);
  }

  /** Inside the loop that starts at `head`, at `pc` with data `d`. */
  function Inside(c: Config, pc: nat, d: Data): (r: Config)
    requires c.Running?
  {
    c.(pc := pc, labels := Cons(Label(c.pc, c.data.stack, false, None), c.labels), data := d)
  }

  lemma {:induction false} EnterLoop(m: Module, c: Config, w: Watch)
    requires Fetches(m, c) && Fetch(m, c) == Loop
    ensures Reaches(m, c, Inside(c, c.pc + 1, c.data), w, 0)
  {
    ReachesStep(m, c, w);
  }

  /** `br_if 0` and, if it falls through, the loop's `end`. */
  lemma {:induction false} LeaveOrRepeat(m: Module, c: Config, pc: nat, d: Data, flag: u32, w: Watch)
    requires c.Running? && c.func < |m.funcs| && d.stack == c.data.stack
    requires pc + 1 < |m.funcs[c.func].code|
    requires m.funcs[c.func].code[pc] == BrIf(0) && m.funcs[c.func].code[pc + 1] == End
    ensures Reaches(m, Inside(c, pc, d.(stack := Push(d.stack, I32(flag)))),
                    Moved(c, if flag != 0 then c.pc else pc + 2, d), w, 0)
  {
    var c1 := Inside(c, pc, d.(stack := Push(d.stack, I32(flag))));
    ReachesStep(m, c1, w);
    if flag == 0 {
      var c2 := Inside(c, pc + 1, d);
      assert Step(m, c1) == c2;
      ReachesStep(m, c2, w);
      assert Step(m, c2) == Moved(c, pc + 2, d);
      Transitive(m, c1, c2, Step(m, c2), w, 0, 0);
    }
  }

  /** From the loop head: a non-zero flag returns to the head, a zero flag leaves the loop. */
  lemma {:induction false} LoopTurn(m: Module, c: Config, body: Prog, d': Data, flag: u32, w: Watch)
    requires c.Running? && c.func < |m.funcs| && At(m.funcs[c.func].code, c.pc, LoopTokens(body))
    requires Eval(m.types, body, c.data) == Some(d'.(stack := Push(d'.stack, I32(flag))))
    requires d'.stack == c.data.stack
    ensures Reaches(m, c, Moved(c, if flag != 0 then c.pc else c.pc + |LoopTokens(body)|, d'), w,
                    Count(m.types, body, c.data, w))
  {
    hide Eval; hide Count; hide Flat; hide Reaches;
    var n := |Flat(body)|;
    AtLoop(m.funcs[c.func].code, c.pc, body);
    var c1 := Inside(c, c.pc + 1, c.data);
    EnterLoop(m, c, w);
    Runs(m, c1, body, w);
    var k := Count(m.types, body, c.data, w);
    var c2 := Inside(c, c.pc + 1 + n, Eval(m.types, body, c.data).value);
    Transitive(m, c, c1, c2, w, 0, k);
    LeaveOrRepeat(m, c, c.pc + 1 + n, d', flag, w);
    Transitive(m, c, c2, Moved(c, if flag != 0 then c.pc else c.pc + |LoopTokens(body)|, d'), w, k, 0);
  }

  // ----- Traps -----

  lemma {:induction false} LeadsOps(m: Module, c: Config, ops: seq<Op>, d: Data)
    requires c.Running? && c.func < |m.funcs| && At(m.funcs[c.func].code, c.pc, PlainTokens(ops))
    requires EvalOps(m.types, ops, 0, c.data) == Some(d)
    ensures Leads(m, c, Moved(c, c.pc + |ops|, d))
  {
    hide EvalOps; hide At;
    var w := _ => false;
    RunsOps(m, c, ops, 0, c.data, w);
    assert Moved(c, c.pc + 0, c.data) == c;
    var k: nat :| Run(m, c, k) == Moved(c, c.pc + |ops|, d) && Hits(m, c, k, w) == Tally(ops, 0, w);
  }

  /** The instructions from `k` on trap. */
  predicate AbortsOps(types: seq<Type>, ops: seq<Op>, k: nat, d: Data)
    requires k <= |ops|
    decreases |ops| - k
  {
    k < |ops| &&
    match Do(types, ops[k], d)
    case Ok(d') => AbortsOps(types, ops, k + 1, d')
    case Trap => true
    case Invalid => false
  }

  /** Evaluation ends in a trap. */
  predicate Aborts(types: seq<Type>, p: Prog, d: Data)
    decreases p
  {
    match p
    case Ops(ops) => AbortsOps(types, ops, 0, d)
    case Then(a, b) =>
      Aborts(types, a, d) || (Eval(types, a, d).Some? && Aborts(types, b, Eval(types, a, d).value))
    case When(body) =>
      && d.stack.Push? && d.stack.top.I32? && d.stack.top.n != 0
      && Aborts(types, body, d.(stack := d.stack.below))
  }

  lemma {:induction false} TrapsOps(m: Module, c: Config, ops: seq<Op>, k: nat, d: Data)
    requires k <= |ops| && c.Running? && c.func < |m.funcs|
    requires At(m.funcs[c.func].code, c.pc, PlainTokens(ops)) && AbortsOps(m.types, ops, k, d)
    ensures Leads(m, Moved(c, c.pc + k, d), Trapped)
    decreases |ops| - k
  {
    hide Do; hide Leads;
    AtIndex(m.funcs[c.func].code, c.pc, PlainTokens(ops), k);
    var here := Moved(c, c.pc + k, d);
    LeadsStep(m, here);
    if Do(m.types, ops[k], d).Ok? {
      var d' := Do(m.types, ops[k], d).data;
      TrapsOps(m, c, ops, k + 1, d');
      LeadsTrans(m, here, Moved(c, c.pc + k + 1, d'), Trapped);
    }
  }

  lemma {:induction false} LeadsProg(m: Module, c: Config, p: Prog)
    requires Holds(m, c, p) && Eval(m.types, p, c.data).Some?
    ensures Leads(m, c, Moved(c, c.pc + |Flat(p)|, Eval(m.types, p, c.data).value))
  {
    hide Leads; hide Reaches; hide At; hide Eval; hide Count;
    var w := _ => false;
    Runs(m, c, p, w);
    LeadsReaches(m, c, Moved(c, c.pc + |Flat(p)|, Eval(m.types, p, c.data).value), w, Count(m.types, p, c.data, w));
  }

  /** Where evaluation traps, the machine traps. */
  lemma {:induction false} Traps(m: Module, c: Config, p: Prog)
    requires Holds(m, c, p) && Aborts(m.types, p, c.data)
    ensures Leads(m, c, Trapped)
    decreases p
  {
    hide Leads; hide At; hide AbortsOps; hide EvalOps;
    var code := m.funcs[c.func].code;
    match p
    case Ops(ops) =>
      TrapsOps(m, c, ops, 0, c.data);
      assert Moved(c, c.pc + 0, c.data) == c;
    case Then(a, b) =>
      AtSplit(code, c.pc, Flat(a), Flat(b));
      if Aborts(m.types, a, c.data) {
        Traps(m, c, a);
      } else {
        LeadsProg(m, c, a);
        var c' := Moved(c, c.pc + |Flat(a)|, Eval(m.types, a, c.data).value);
        Traps(m, c', b);
        LeadsTrans(m, c, c', Trapped);
      }
    case When(body) =>
      AtWhen(code, c.pc, body);
      var after := FindEnd(code, c.pc + 1, 0) + 1;
      var w := _ => false;
      StepIf(m, c, after, w);
      var c' := Within(c, after, c.pc + 1, c.data.(stack := c.data.stack.below));
      LeadsReaches(m, c, c', w, 0);
      Traps(m, c', body);
      LeadsTrans(m, c, c', Trapped);
  }
}
