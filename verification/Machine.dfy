/** A small WebAssembly Core 3 machine: operand stack, locals, tables, globals,
    a heap of structs and arrays, structured control on a flat instruction
    stream, calls and exceptions. One step executes one instruction. */
module Machine {
  import opened Wrappers
  import opened Bits
  import opened Lcg

  // ----- Values and state -----

  datatype Val = I32(n: u32) | Null | Addr(a: nat)

  datatype Object = Struct(typ: nat, fields: seq<Val>) | Array(typ: nat, elems: seq<Val>)

  /** Storage of a field or an element. */
  datatype Storage = Scalar | Reference

  datatype Type = StructType(fields: seq<Storage>) | ArrayType(elem: Storage)

  predicate Fits(v: Val, s: Storage) { v.I32? <==> s.Scalar? }

  datatype Stack = Empty | Push(below: Stack, top: Val)

  datatype Store = Store(tables: seq<seq<Val>>, globals: seq<Val>, heap: seq<Object>)

  /** What a plain instruction reads and writes. */
  datatype Data = Data(stack: Stack, locals: seq<Val>, store: Store)

  // ----- Plain instructions -----

  datatype Op =
    | I32Const(value: int)
    | LocalGet(local: nat) | LocalSet(local: nat)
    | GlobalGet(global: nat) | GlobalSet(global: nat)
    | TableGet(table: nat) | TableSet(table: nat)
    | I32Add | I32Mul | I32And | I32Xor | I32Ne | I32GeU | I32LtU | I32Eqz
    | RefNull | RefEq | RefAsNonNull | RefCast(typ: nat)
    | StructNew(typ: nat) | StructGet(typ: nat, field: nat) | StructSet(typ: nat, field: nat)
    | ArrayNew(typ: nat) | ArrayGet(typ: nat) | ArraySet(typ: nat) | ArrayLen
    | Drop | Unreachable

  /** `Invalid` is a step that validation excludes; `Trap` is a run-time trap. */
  datatype Effect = Ok(data: Data) | Trap | Invalid

  predicate IsBinary(op: Op)
  {
    op.I32Add? || op.I32Mul? || op.I32And? || op.I32Xor? || op.I32Ne? || op.I32GeU? || op.I32LtU?
  }

  function Binary(op: Op, x: u32, y: u32): (r: u32)
    requires IsBinary(op)
  {
    match op
    case I32Add => Wrap(x + y)
    case I32Mul => Wrap(x * y)
    case I32And => And(x, y)
    case I32Xor => Xor32(x, y)
    case I32Ne => Truth(x != y)
    case I32GeU => Truth(x >= y)
    case I32LtU => Truth(x < y)
  }

  function Truth(b: bool): (r: u32) { if b then 1 else 0 }

  function DoBinary(op: Op, d: Data): (e: Effect)
    requires IsBinary(op)
  {
    match d.stack
    case Push(Push(s, I32(x)), I32(y)) => Ok(d.(stack := Push(s, I32(Binary(op, x, y)))))
    case _ => Invalid
  }

  predicate IsStruct(heap: seq<Object>, a: nat, t: nat, f: nat)
  {
    a < |heap| && heap[a].Struct? && heap[a].typ == t && f < |heap[a].fields|
  }

  predicate IsArray(heap: seq<Object>, a: nat, t: nat)
  {
    a < |heap| && heap[a].Array? && heap[a].typ == t
  }

  function PutStruct(heap: seq<Object>, a: nat, f: nat, v: Val): (h: seq<Object>)
    requires a < |heap| && heap[a].Struct? && f < |heap[a].fields|
  {
    heap[a := heap[a].(fields := heap[a].fields[f := v])]
  }

  function PutArray(heap: seq<Object>, a: nat, i: nat, v: Val): (h: seq<Object>)
    requires a < |heap| && heap[a].Array? && i < |heap[a].elems|
  {
    heap[a := heap[a].(elems := heap[a].elems[i := v])]
  }

  function DoVariable(op: Op, d: Data): (e: Effect)
    requires op.LocalGet? || op.LocalSet? || op.GlobalGet? || op.GlobalSet?
  {
    match op
    case LocalGet(k) =>
      if k < |d.locals| then Ok(d.(stack := Push(d.stack, d.locals[k]))) else Invalid
    case LocalSet(k) =>
      if k < |d.locals| && d.stack.Push?
      then Ok(d.(stack := d.stack.below, locals := d.locals[k := d.stack.top])) else Invalid
    case GlobalGet(k) =>
      if k < |d.store.globals| then Ok(d.(stack := Push(d.stack, d.store.globals[k]))) else Invalid
    case GlobalSet(k) =>
      if k < |d.store.globals| && d.stack.Push?
      then Ok(d.(stack := d.stack.below,
                   store := d.store.(globals := d.store.globals[k := d.stack.top]))) else Invalid
  }

  function DoTable(op: Op, d: Data): (e: Effect)
    requires op.TableGet? || op.TableSet?
  {
    if op.table >= |d.store.tables| then Invalid
    else
      var table := d.store.tables[op.table];
      match (op, d.stack)
      case (TableGet(_), Push(s, I32(i))) =>
        if i < |table| then Ok(d.(stack := Push(s, table[i]))) else Trap
      case (TableSet(t), Push(Push(s, I32(i)), v)) =>
        if v.I32? then Invalid
        else if i < |table|
        then Ok(d.(stack := s, store := d.store.(tables := d.store.tables[t := table[i := v]])))
        else Trap
      case _ => Invalid
  }

  function DoReference(types: seq<Type>, op: Op, d: Data): (e: Effect)
    requires op.RefNull? || op.RefEq? || op.RefAsNonNull? || op.RefCast?
  {
    match (op, d.stack)
    case (RefNull, s) => Ok(d.(stack := Push(s, Null)))
    case (RefEq, Push(Push(s, v), w)) =>
      if v.I32? || w.I32? then Invalid else Ok(d.(stack := Push(s, I32(Truth(v == w)))))
    case (RefAsNonNull, Push(_, v)) =>
      if v.I32? then Invalid else if v.Null? then Trap else Ok(d)
    case (RefCast(t), Push(_, v)) =>
      if v.I32? || t >= |types| then Invalid
      else if v.Addr? && v.a < |d.store.heap| && d.store.heap[v.a].typ == t then Ok(d)
      else Trap
    case _ => Invalid
  }

  function DoStruct(types: seq<Type>, op: Op, d: Data): (e: Effect)
    requires op.StructNew? || op.StructGet? || op.StructSet?
  {
    if op.typ >= |types| || !types[op.typ].StructType? then Invalid
    else
      var fields := types[op.typ].fields;
      var heap := d.store.heap;
      match (op, d.stack)
      case (StructNew(t), Push(s, v)) =>
        if |fields| == 1 && Fits(v, fields[0])
        then Ok(d.(stack := Push(s, Addr(|heap|)), store := d.store.(heap := heap + [Struct(t, [v])])))
        else if |fields| == 2 && s.Push? && Fits(s.top, fields[0]) && Fits(v, fields[1])
        then Ok(d.(stack := Push(s.below, Addr(|heap|)),
                     store := d.store.(heap := heap + [Struct(t, [s.top, v])])))
        else Invalid
      case (StructGet(t, f), Push(s, Addr(a))) =>
        if IsStruct(heap, a, t, f) then Ok(d.(stack := Push(s, heap[a].fields[f]))) else Invalid
      case (StructGet(_, _), Push(_, Null)) => Trap
      case (StructSet(t, f), Push(Push(s, Addr(a)), v)) =>
        if IsStruct(heap, a, t, f) && f < |fields| && Fits(v, fields[f])
        then Ok(d.(stack := s, store := d.store.(heap := PutStruct(heap, a, f, v)))) else Invalid
      case (StructSet(_, _), Push(Push(_, Null), _)) => Trap
      case _ => Invalid
  }

  function DoArray(types: seq<Type>, op: Op, d: Data): (e: Effect)
    requires op.ArrayNew? || op.ArrayGet? || op.ArraySet?
  {
    if op.typ >= |types| || !types[op.typ].ArrayType? then Invalid
    else
      var elem := types[op.typ].elem;
      var heap := d.store.heap;
      match (op, d.stack)
      case (ArrayNew(t), Push(Push(s, v), I32(n))) =>
        if Fits(v, elem)
        then Ok(d.(stack := Push(s, Addr(|heap|)),
                     store := d.store.(heap := heap + [Array(t, seq(n, _ => v))])))
        else Invalid
      case (ArrayGet(t), Push(Push(s, Addr(a)), I32(i))) =>
        if !IsArray(heap, a, t) then Invalid
        else if i < |heap[a].elems| then Ok(d.(stack := Push(s, heap[a].elems[i]))) else Trap
      case (ArrayGet(_), Push(Push(_, Null), I32(_))) => Trap
      case (ArraySet(t), Push(Push(Push(s, Addr(a)), I32(i)), v)) =>
        if !IsArray(heap, a, t) || !Fits(v, elem) then Invalid
        else if i < |heap[a].elems|
        then Ok(d.(stack := s, store := d.store.(heap := PutArray(heap, a, i, v)))) else Trap
      case (ArraySet(_), Push(Push(Push(_, Null), I32(_)), _)) => Trap
      case _ => Invalid
  }

  function Do(types: seq<Type>, op: Op, d: Data): (e: Effect)
  {
    match op
    case I32Const(n) => Ok(d.(stack := Push(d.stack, I32(Wrap(n)))))
    case LocalGet(_) => DoVariable(op, d)
    case LocalSet(_) => DoVariable(op, d)
    case GlobalGet(_) => DoVariable(op, d)
    case GlobalSet(_) => DoVariable(op, d)
    case TableGet(_) => DoTable(op, d)
    case TableSet(_) => DoTable(op, d)
    case I32Eqz =>
      if d.stack.Push? && d.stack.top.I32?
      then Ok(d.(stack := Push(d.stack.below, I32(Truth(d.stack.top.n == 0))))) else Invalid
    case RefNull => DoReference(types, op, d)
    case RefEq => DoReference(types, op, d)
    case RefAsNonNull => DoReference(types, op, d)
    case RefCast(_) => DoReference(types, op, d)
    case StructNew(_) => DoStruct(types, op, d)
    case StructGet(_, _) => DoStruct(types, op, d)
    case StructSet(_, _) => DoStruct(types, op, d)
    case ArrayNew(_) => DoArray(types, op, d)
    case ArrayGet(_) => DoArray(types, op, d)
    case ArraySet(_) => DoArray(types, op, d)
    case ArrayLen =>
      (match d.stack
       case Push(s, Addr(a)) =>
         if a < |d.store.heap| && d.store.heap[a].Array?
         then Ok(d.(stack := Push(s, I32(Wrap(|d.store.heap[a].elems|))))) else Invalid
       case Push(_, Null) => Trap
       case _ => Invalid)
    case Drop => if d.stack.Push? then Ok(d.(stack := d.stack.below)) else Invalid
    case Unreachable => Trap
    case _ => DoBinary(op, d)
  }

  // ----- Control -----

  datatype Token =
    | Plain(op: Op)
    | If | Loop | Block(result: bool) | TryTable(result: bool, handler: nat)
    | Br(depth: nat) | BrIf(depth: nat) | Call(callee: nat) | Throw | End

  datatype List<T> = Nil | Cons(head: T, tail: List<T>)

  /** A branch to the label continues at `target` above the `saved` operands. */
  datatype Label = Label(target: nat, saved: Stack, result: bool, handler: Option<nat>)

  datatype Func = Func(params: nat, locals: seq<Val>, result: bool, code: seq<Token>)

  datatype Module = Module(types: seq<Type>, funcs: seq<Func>)

  datatype Caller = Caller(func: nat, pc: nat, labels: List<Label>, stack: Stack, locals: seq<Val>)

  datatype Config =
    | Running(func: nat, pc: nat, labels: List<Label>, data: Data, callers: List<Caller>)
    | Halted(stack: Stack, store: Store)
    | Trapped
    | Stuck

  /** Position of the `end` that closes the block containing `pc`, `depth` blocks further out. */
  function FindEnd(code: seq<Token>, pc: nat, depth: nat): (r: nat)
    decreases |code| - pc
  {
    if pc >= |code| then pc
    else match code[pc]
      case End => if depth == 0 then pc else FindEnd(code, pc + 1, depth - 1)
      case If => FindEnd(code, pc + 1, depth + 1)
      case Loop => FindEnd(code, pc + 1, depth + 1)
      case Block(_) => FindEnd(code, pc + 1, depth + 1)
      case TryTable(_, _) => FindEnd(code, pc + 1, depth + 1)
      case _ => FindEnd(code, pc + 1, depth)
  }

  function Branch(c: Config, k: nat): (r: Config)
    requires c.Running?
    decreases k
  {
    match c.labels
    case Nil => Stuck
    case Cons(l, outer) =>
      if k > 0 then Branch(c.(labels := outer), k - 1)
      else if !l.result then c.(pc := l.target, labels := outer, data := c.data.(stack := l.saved))
      else if c.data.stack.Push?
      then c.(pc := l.target, labels := outer, data := c.data.(stack := Push(l.saved, c.data.stack.top)))
      else Stuck
  }

  /** Carry a thrown value to the nearest handler of this frame or of a caller. */
  function Unwind(func: nat, labels: List<Label>, v: Val, locals: seq<Val>, store: Store,
                  callers: List<Caller>): (r: Config)
    decreases callers, labels
  {
    match labels
    case Cons(l, outer) =>
      if l.handler.Some?
      then Branch(Running(func, 0, outer, Data(Push(l.saved, v), locals, store), callers), l.handler.value)
      else Unwind(func, outer, v, locals, store, callers)
    case Nil =>
      match callers
      case Nil => Trapped
      case Cons(f, rest) => Unwind(f.func, f.labels, v, f.locals, store, rest)
  }

  /** The operands a block or a function leaves: exactly its results above `saved`. */
  predicate Balanced(stack: Stack, saved: Stack, result: bool)
  {
    if result then stack.Push? && stack.below == saved else stack == saved
  }

  function Return(m: Module, c: Config): (r: Config)
    requires c.Running? && c.func < |m.funcs|
  {
    var result := m.funcs[c.func].result;
    if !Balanced(c.data.stack, Empty, result) then Stuck
    else match c.callers
      case Nil => Halted(c.data.stack, c.data.store)
      case Cons(f, rest) =>
        var stack := if result then Push(f.stack, c.data.stack.top) else f.stack;
        Running(f.func, f.pc, f.labels, Data(stack, f.locals, c.data.store), rest)
  }

  function Enter(m: Module, c: Config, callee: nat): (r: Config)
    requires c.Running?
  {
    if callee >= |m.funcs| then Stuck
    else
      var f := m.funcs[callee];
      if f.params == 0 then
        Running(callee, 0, Nil, Data(Empty, f.locals, c.data.store),
                Cons(Caller(c.func, c.pc + 1, c.labels, c.data.stack, c.data.locals), c.callers))
      else if f.params == 1 && c.data.stack.Push? then
        Running(callee, 0, Nil, Data(Empty, [c.data.stack.top] + f.locals, c.data.store),
                Cons(Caller(c.func, c.pc + 1, c.labels, c.data.stack.below, c.data.locals), c.callers))
      else Stuck
  }

  function StepControl(m: Module, c: Config, token: Token): (r: Config)
    requires c.Running? && c.func < |m.funcs| && !token.Plain?
  {
    var code := m.funcs[c.func].code;
    var d := c.data;
    match token
    case Loop => c.(pc := c.pc + 1, labels := Cons(Label(c.pc, d.stack, false, None), c.labels))
    case Block(result) =>
      c.(pc := c.pc + 1,
         labels := Cons(Label(FindEnd(code, c.pc + 1, 0) + 1, d.stack, result, None), c.labels))
    case TryTable(result, h) =>
      c.(pc := c.pc + 1,
         labels := Cons(Label(FindEnd(code, c.pc + 1, 0) + 1, d.stack, result, Some(h)), c.labels))
    case If =>
      if !d.stack.Push? || !d.stack.top.I32? then Stuck
      else
        var after := FindEnd(code, c.pc + 1, 0) + 1;
        var popped := d.(stack := d.stack.below);
        if d.stack.top.n != 0
        then c.(pc := c.pc + 1, labels := Cons(Label(after, popped.stack, false, None), c.labels), data := popped)
        else c.(pc := after, data := popped)
    case Br(k) => Branch(c, k)
    case BrIf(k) =>
      if !d.stack.Push? || !d.stack.top.I32? then Stuck
      else
        var popped := c.(data := d.(stack := d.stack.below));
        if d.stack.top.n != 0 then Branch(popped, k) else popped.(pc := c.pc + 1)
    case Call(f) => Enter(m, c, f)
    case Throw =>
      if d.stack.Push? then Unwind(c.func, c.labels, d.stack.top, d.locals, d.store, c.callers) else Stuck
    case End =>
      match c.labels
      case Nil => Return(m, c)
      case Cons(l, outer) =>
        if Balanced(d.stack, l.saved, l.result) then c.(pc := c.pc + 1, labels := outer) else Stuck
  }

  predicate Fetches(m: Module, c: Config)
  {
    c.Running? && c.func < |m.funcs| && c.pc < |m.funcs[c.func].code|
  }

  function Fetch(m: Module, c: Config): (t: Token)
    requires Fetches(m, c)
  {
    m.funcs[c.func].code[c.pc]
  }

  function Step(m: Module, c: Config): (r: Config)
  {
    if !c.Running? then c
    else if !Fetches(m, c) then Stuck
    else match Fetch(m, c)
      case Plain(op) =>
        (match Do(m.types, op, c.data)
         case Ok(d) => c.(pc := c.pc + 1, data := d)
         case Trap => Trapped
         case Invalid => Stuck)
      case token => StepControl(m, c, token)
  }

  /** `k` steps. */
  function Run(m: Module, c: Config, k: nat): (r: Config)
    decreases k
  {
    if k == 0 then c else Run(m, Step(m, c), k - 1)
  }

  /** A class of instructions to count. */
  type Watch = Op -> bool

  function Marks(w: Watch, op: Op): (n: nat) { if w(op) then 1 else 0 }

  /** What the next step adds to the count. */
  function StepMarks(m: Module, c: Config, w: Watch): (n: nat)
  {
    if Fetches(m, c) && Fetch(m, c).Plain? then Marks(w, Fetch(m, c).op) else 0
  }

  /** How many of the next `k` steps execute an instruction of `w`. */
  function Hits(m: Module, c: Config, k: nat, w: Watch): (r: nat)
    decreases k
  {
    if k == 0 then 0
    else StepMarks(m, c, w) + Hits(m, Step(m, c), k - 1, w)
  }

  /** Some number of steps leads from `c` to `c'` and executes instructions of `w` exactly `n` times. */
  ghost predicate Reaches(m: Module, c: Config, c': Config, w: Watch, n: nat)
  {
    exists k: nat :: Run(m, c, k) == c' && Hits(m, c, k, w) == n
  }

  lemma {:induction false} RunAdd(m: Module, c: Config, j: nat, k: nat, w: Watch)
    ensures Run(m, c, j + k) == Run(m, Run(m, c, j), k)
    ensures Hits(m, c, j + k, w) == Hits(m, c, j, w) + Hits(m, Run(m, c, j), k, w)
    decreases j
  {
    if j > 0 {
      RunAdd(m, Step(m, c), j - 1, k, w);
    }
  }

  lemma {:induction false} Transitive(m: Module, c: Config, c': Config, end: Config, w: Watch, n: nat, n': nat)
    requires Reaches(m, c, c', w, n) && Reaches(m, c', end, w, n')
    ensures Reaches(m, c, end, w, n + n')
  {
    var j: nat :| Run(m, c, j) == c' && Hits(m, c, j, w) == n;
    var k: nat :| Run(m, c', k) == end && Hits(m, c', k, w) == n';
    RunAdd(m, c, j, k, w);
    assert Run(m, c, j + k) == end;
  }

  lemma {:induction false} ReachesSelf(m: Module, c: Config, w: Watch)
    ensures Reaches(m, c, c, w, 0)
  {
    assert Run(m, c, 0) == c && Hits(m, c, 0, w) == 0;
  }

  lemma {:induction false} ReachesStep(m: Module, c: Config, w: Watch)
    ensures Reaches(m, c, Step(m, c), w, StepMarks(m, c, w))
  {
    assert Run(m, Step(m, c), 0) == Step(m, c) && Hits(m, Step(m, c), 0, w) == 0;
    assert Run(m, c, 1) == Step(m, c);
  }

  // ----- A run has one outcome -----

  predicate Final(c: Config) { !c.Running? }

  lemma {:induction false} FinalStays(m: Module, c: Config, k: nat, w: Watch)
    requires Final(c)
    ensures Run(m, c, k) == c && Hits(m, c, k, w) == 0
  {
    if k > 0 {
      FinalStays(m, c, k - 1, w);
    }
  }

  /** Once a final configuration is reached, every longer run stays in it, so
      the outcome and the instruction count of a run are unique. */
  lemma {:induction false} OutcomeUnique(m: Module, c: Config, f: Config, g: Config, w: Watch, n: nat, n': nat)
    requires Reaches(m, c, f, w, n) && Reaches(m, c, g, w, n') && Final(f) && Final(g)
    ensures f == g && n == n'
  {
    var j: nat :| Run(m, c, j) == f && Hits(m, c, j, w) == n;
    var k: nat :| Run(m, c, k) == g && Hits(m, c, k, w) == n';
    if j <= k {
      RunAdd(m, c, j, k - j, w);
      FinalStays(m, f, k - j, w);
    } else {
      RunAdd(m, c, k, j - k, w);
      FinalStays(m, g, j - k, w);
    }
  }

  // ----- Runs without counting -----

  /** Some number of steps leads from `c` to `c'`. */
  ghost predicate Leads(m: Module, c: Config, c': Config)
  {
    exists k: nat :: Run(m, c, k) == c'
  }

  lemma {:induction false} LeadsTrans(m: Module, c: Config, c': Config, end: Config)
    requires Leads(m, c, c') && Leads(m, c', end)
    ensures Leads(m, c, end)
  {
    hide Run;
    var j: nat :| Run(m, c, j) == c';
    var k: nat :| Run(m, c', k) == end;
    RunAdd(m, c, j, k, _ => false);
    assert Run(m, c, j + k) == end;
  }

  lemma {:induction false} LeadsSelf(m: Module, c: Config)
    ensures Leads(m, c, c)
  {
    assert Run(m, c, 0) == c;
  }

  lemma {:induction false} LeadsStep(m: Module, c: Config)
    ensures Leads(m, c, Step(m, c))
  {
    hide Step;
    assert Run(m, c, 1) == Run(m, Step(m, c), 0);
  }

  lemma {:induction false} LeadsReaches(m: Module, c: Config, c': Config, w: Watch, n: nat)
    requires Reaches(m, c, c', w, n)
    ensures Leads(m, c, c')
  {
    var k: nat :| Run(m, c, k) == c' && Hits(m, c, k, w) == n;
  }
}
