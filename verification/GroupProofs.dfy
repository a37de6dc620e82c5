/** What the composite fragments do to a group of objects. */
module GroupProofs {
  import opened Wrappers
  import opened Lcg
  import opened Machine
  import opened Straight
  import opened Families
  import opened Fragments
  import opened FragmentProofs
  import opened Layout

  /** Locals 6 to 8 refer to the group at `base`. */
  ghost predicate Loaded(family: Family, d: Data, base: nat)
  {
    && NineLocals(d)
    && (!family.NumericArray? ==> d.locals[6] == Addr(base))
    && (HasRefs(family) ==> d.locals[7] == Addr(base + 1))
    && (family.NumericArray? ==> d.locals[8] == Addr(base))
    && (family.ReferenceArray? ==> d.locals[8] == Addr(base + 2))
  }

  /** Only locals 6 to 8 may differ. */
  ghost predicate KeepsLow(d: Data, d': Data)
  {
    NineLocals(d) && NineLocals(d') && d'.stack == d.stack && forall k :: 0 <= k < 6 ==> d'.locals[k] == d.locals[k]
  }

  // ----- Loading -----

  lemma {:induction false} LoadRootRuns(family: Family, d: Data, j: u32, base: nat, g: Group) returns (d': Data)
    requires NineLocals(d) && d.locals[3] == I32(j) && j < ROOTS
    requires |d.store.tables| == TableCount(family) && forall t :: 0 <= t < |d.store.tables| ==>
      |d.store.tables[t]| == ROOTS
    requires GroupAt(d.store.heap, base, g) && Shaped(family, g)
    requires d.store.tables[0][j] == Addr(if family.ReferenceArray? then base + 2 else base)
    requires family.ReferenceArray? ==> d.store.tables[1][j] == Addr(base)
    ensures Eval(Types(family), LoadRoot(family), d) == Some(d')
    ensures Loaded(family, d', base) && KeepsLow(d, d') && d'.store == d.store
  {
    hide EvalOps;
    var types := Types(family);
    match family
    case MutableStruct =>
      LoadSlotRuns(types, d, 0, 0, 6, j, base);
      d' := Local(d, 6, Addr(base));
    case NumericArray =>
      LoadSlotRuns(types, d, 0, 0, 8, j, base);
      d' := Local(d, 8, Addr(base));
    case ReferenceCycle =>
      LoadSlotRuns(types, d, 0, 0, 6, j, base);
      LoadPartnerRuns(types, Local(d, 6, Addr(base)), base, base + 1);
      d' := Local(Local(d, 6, Addr(base)), 7, Addr(base + 1));
    case ReferenceArray =>
      LoadSlotRuns(types, d, 0, 1, 8, j, base + 2);
      var d1 := Local(d, 8, Addr(base + 2));
      LoadSlotRuns(types, d1, 1, 0, 6, j, base);
      LoadPartnerRuns(types, Local(d1, 6, Addr(base)), base, base + 1);
      d' := Local(Local(d1, 6, Addr(base)), 7, Addr(base + 1));
  }

  // ----- Creating -----

  /** What creating a group at the end of the heap leaves. */
  ghost predicate Created(family: Family, d: Data, d': Data, j: nat, g: Group)
    requires |d.store.tables| == TableCount(family) && j < ROOTS
    requires forall t :: 0 <= t < |d.store.tables| ==> |d.store.tables[t]| == ROOTS
  {
    var base := |d.store.heap|;
    && Loaded(family, d', base) && KeepsLow(d, d') && d'.store.globals == d.store.globals
    && d.store.heap <= d'.store.heap && |d'.store.heap| == base + PerCreated(family) && GroupAt(d'.store.heap, base, g)
    && |d'.store.tables| == |d.store.tables|
    && d'.store.tables[0] == d.store.tables[0][j := Addr(if family.ReferenceArray? then base + 2 else base)]
    && (family.ReferenceArray? ==> d'.store.tables[1] == d.store.tables[1][j := Addr(base)])
  }

  lemma {:induction false} CreateCycleRuns(types: seq<Type>, d: Data, v: u32) returns (d': Data)
    requires NineLocals(d) && d.locals[1] == I32(v) && NodeType(types)
    ensures Eval(types, CreateCycle(), d) == Some(d')
    ensures KeepsLow(d, d') && d'.store.tables == d.store.tables && d'.store.globals == d.store.globals
    ensures d'.locals[6] == Addr(|d.store.heap|) && d'.locals[7] == Addr(|d.store.heap| + 1)
    ensures d'.store.heap == d.store.heap + [NodeObject(v, |d.store.heap| + 1), NodeObject(Partner(v), |d.store.heap|)]
  {
    hide EvalOps;
    var heap, a := d.store.heap, |d.store.heap|;
    NewARuns(types, d, v);
    var d1 := Local(WithHeap(d, heap + [Struct(0, [I32(v), Null])]), 6, Addr(a));
    PartnerRuns(types, d1, v);
    NewBRuns(types, d1, Partner(v), a);
    var d2 := Local(WithHeap(d1, d1.store.heap + [NodeObject(Partner(v), a)]), 7, Addr(a + 1));
    SetFieldRuns(types, d2, 1, 7, a);
    d' := WithHeap(d2, PutStruct(d2.store.heap, a, 1, Addr(a + 1)));
    assert [I32(v), Null][1 := Addr(a + 1)] == [I32(v), Addr(a + 1)];
    assert PutStruct(d2.store.heap, a, 1, Addr(a + 1)) == heap + [NodeObject(v, a + 1), NodeObject(Partner(v), a)];
  }

  lemma {:induction false} CreateRuns(family: Family, d: Data, j: u32, v: u32) returns (d': Data)
    requires NineLocals(d) && d.locals[1] == I32(v) && d.locals[3] == I32(j) && j < ROOTS
    requires |d.store.tables| == TableCount(family) && forall t :: 0 <= t < |d.store.tables| ==>
      |d.store.tables[t]| == ROOTS
    ensures Eval(Types(family), Create(family), d) == Some(d')
    ensures Created(family, d, d', j, Fresh(family, v))
  {
    hide EvalOps;
    var types := Types(family);
    var heap, base := d.store.heap, |d.store.heap|;
    match family
    case MutableStruct =>
      NewSingleRuns(types, d, v);
      var d1 := Local(WithHeap(d, heap + [Struct(0, [I32(v)])]), 6, Addr(base));
      StoreSlotRuns(types, d1, 0, 6, j);
      d' := WithTable(d1, 0, d1.store.tables[0][j := Addr(base)]);
    case NumericArray =>
      NewNumbersRuns(types, d, v);
      var cells := seq(8, _ => I32(v));
      var d1 := Local(WithHeap(d, heap + [Array(0, cells)]), 8, Addr(base));
      assert cells == CellValues(seq(WIDTH, _ => v));
      StoreSlotRuns(types, d1, 0, 8, j);
      d' := WithTable(d1, 0, d1.store.tables[0][j := Addr(base)]);
    case ReferenceCycle =>
      var d1 := CreateCycleRuns(types, d, v);
      StoreSlotRuns(types, d1, 0, 6, j);
      d' := WithTable(d1, 0, d1.store.tables[0][j := Addr(base)]);
    case ReferenceArray =>
      d' := CreateLinkedRuns(d, j, v);
  }

  lemma {:induction false} CreateLinkedRuns(d: Data, j: u32, v: u32) returns (d': Data)
    requires NineLocals(d) && d.locals[1] == I32(v) && d.locals[3] == I32(j) && j < ROOTS
    requires |d.store.tables| == 2 && forall t :: 0 <= t < |d.store.tables| ==> |d.store.tables[t]| == ROOTS
    ensures Eval(Types(ReferenceArray), Create(ReferenceArray), d) == Some(d')
    ensures Created(ReferenceArray, d, d', j, Fresh(ReferenceArray, v))
  {
    hide EvalOps;
    var types := Types(ReferenceArray);
    var heap, base := d.store.heap, |d.store.heap|;
    var d1 := CreateCycleRuns(types, d, v);
    NewLinksRuns(types, d1, base);
    var links := seq(8, _ => Addr(base));
    var d2 := Local(WithHeap(d1, d1.store.heap + [Array(1, links)]), 8, Addr(base + 2));
    assert links == EdgeValues(base, seq(WIDTH, _ => false));
    StoreSlotRuns(types, d2, 0, 8, j);
    var d3 := WithTable(d2, 0, d2.store.tables[0][j := Addr(base + 2)]);
    StoreSlotRuns(types, d3, 1, 6, j);
    d' := WithTable(d3, 1, d3.store.tables[1][j := Addr(base)]);
  }

  // ----- Reading back -----

  /** The values the unrolled element reads add up. */
  function ElementValues(g: Group): (r: seq<u32>)
    requires g.Numbers? || g.Linked?
  {
    if g.Numbers? then g.cells else Targets(g)
  }

  lemma {:induction false} ReadElementRuns(family: Family, d: Data, base: nat, g: Group, j: nat, sum: u32)
    requires HasArray(family) && Shaped(family, g) && Loaded(family, d, base) && GroupAt(d.store.heap, base, g)
      && j < WIDTH
    ensures Eval(Types(family), ReadElement(family, j), Pushed(d, I32(sum)))
         == Some(Pushed(d, I32(Wrap(sum + ElementValues(g)[j]))))
  {
    hide EvalOps;
    var types := Types(family);
    var d0 := Pushed(d, I32(sum));
    if family.NumericArray? {
      GetElementRuns(types, d0, 0, base, j);
      AddRuns(types, d, sum, g.cells[j]);
    } else {
      var node := if g.edges[j] then base + 1 else base;
      GetElementRuns(types, d0, 1, base + 2, j);
      AddNodeRuns(types, d, sum, node, Targets(g)[j]);
    }
  }

  lemma {:induction false} ReadElementsRuns(family: Family, d: Data, base: nat, g: Group, n: nat)
    requires HasArray(family) && Shaped(family, g) && Loaded(family, d, base) && GroupAt(d.store.heap, base, g)
      && n <= WIDTH
    ensures Eval(Types(family), ReadElements(family, n), d) == Some(Pushed(d, I32(Wrap(Sum(ElementValues(g)[..n])))))
    decreases n
  {
    hide GroupAt; hide Loaded; hide EvalOps; hide Wrap; hide ReadElement; hide Sum;
    if n == 0 {
      ZeroRuns(Types(family), d);
      assert ElementValues(g)[..0] == [];
    } else {
      ReadElementsRuns(family, d, base, g, n - 1);
      var before := Sum(ElementValues(g)[..n - 1]);
      ReadElementRuns(family, d, base, g, n - 1, Wrap(before));
      WrapAdd(before, ElementValues(g)[n - 1]);
      SumTake(ElementValues(g), n);
    }
  }

  lemma {:induction false} ZeroRuns(types: seq<Type>, d: Data)
    ensures Eval(types, Ops([Const(0)]), d) == Some(Pushed(d, I32(Wrap(Sum([])))))
  {
  }

  lemma {:induction false} SumTake(s: seq<u32>, n: nat)
    requires 0 < n <= |s|
    ensures Sum(s[..n]) == Sum(s[..n - 1]) + s[n - 1]
  {
    assert s[..n][..n - 1] == s[..n - 1];
  }

  lemma {:induction false} AllElements(g: Group)
    requires Shaped(NumericArray, g) || Shaped(ReferenceArray, g)
    ensures Retained(g) == Wrap(Sum(ElementValues(g)[..WIDTH]))
  {
    assert ElementValues(g)[..WIDTH] == ElementValues(g);
  }

  /** The emitted readback leaves the retained checksum of the loaded group. */
  lemma {:induction false} RetainedRuns(family: Family, d: Data, base: nat, g: Group)
    requires Shaped(family, g) && Loaded(family, d, base) && GroupAt(d.store.heap, base, g)
    ensures Eval(Types(family), RetainedCode(family), d) == Some(Pushed(d, I32(Retained(g))))
  {
    hide EvalOps;
    var types := Types(family);
    match family
    case MutableStruct =>
      GetFieldRuns(types, d, 0, 6, base);
    case ReferenceCycle =>
      GetFieldRuns(types, d, 0, 6, base);
      GetFieldRuns(types, Pushed(d, I32(g.a)), 0, 7, base + 1);
      AddRuns(types, d, g.a, g.b);
      CycleCheckRuns(types, Pushed(d, I32(Wrap(g.a + g.b))), base, base + 1);
    case NumericArray =>
      LengthCheckRuns(types, d, base);
      ReadElementsRuns(family, d, base, g, WIDTH);
      AllElements(g);
    case ReferenceArray =>
      LengthCheckRuns(types, d, base + 2);
      ReadElementsRuns(family, d, base, g, WIDTH);
      AllElements(g);
      CycleCheckRuns(types, Pushed(d, I32(Retained(g))), base, base + 1);
  }

  lemma {:induction false} AccumulateRuns(family: Family, d: Data, base: nat, g: Group, total: u32)
    requires Shaped(family, g) && Loaded(family, d, base) && GroupAt(d.store.heap, base, g) && d.locals[2] == I32(total)
    ensures Eval(Types(family), AccumulateRetained(family), d) == Some(Local(d, 2, I32(Wrap(total + Retained(g)))))
  {
    hide GroupAt; hide RetainedCode; hide Retained;
    var types := Types(family);
    var d1 := Pushed(d, I32(total));
    assert Eval(types, Ops([LocalGet(2)]), d) == Some(d1);
    assert Loaded(family, d1, base);
    RetainedRuns(family, d1, base, g);
    AddSetRuns(types, d, total, Retained(g));
  }

  lemma {:induction false} AddSetRuns(types: seq<Type>, d: Data, x: u32, y: u32)
    requires NineLocals(d)
    ensures Eval(types, Ops([I32Add, LocalSet(2)]), Pushed(Pushed(d, I32(x)), I32(y)))
      == Some(Local(d, 2, I32(Wrap(x + y))))
  {
  }

  // ----- Mutating -----

  /** What mutating the group at `base` leaves: the group rewritten, everything else as it was. */
  ghost predicate Touched(family: Family, d: Data, d': Data, base: nat, g: Group)
  {
    && NineLocals(d) && NineLocals(d') && d'.stack == d.stack
    && (forall k :: 0 <= k < 9 && k != 4 ==> d'.locals[k] == d.locals[k])
    && d'.store.tables == d.store.tables && d'.store.globals == d.store.globals
    && |d'.store.heap| == |d.store.heap| && GroupAt(d'.store.heap, base, g)
    && forall a :: 0 <= a < |d.store.heap| && !(base <= a < base + PerCreated(family)) ==>
      d'.store.heap[a] == d.store.heap[a]
  }

  lemma {:induction false} TouchStructRuns(d: Data, base: nat, g: Group, state: u32, i: u32) returns (d': Data)
    requires Shaped(MutableStruct, g) && Loaded(MutableStruct, d, base) && GroupAt(d.store.heap, base, g)
    requires d.locals[5] == I32(Wrap(state + i))
    ensures Touched(MutableStruct, d, d', base, Written(g, state, i))
    ensures Eval(Types(MutableStruct), Touch(MutableStruct), d)
      == Some(Pushed(d', I32(Observed(Written(g, state, i), i))))
  {
    hide EvalOps;
    var types := Types(MutableStruct);
    SetFieldRuns(types, d, 0, 5, base);
    d' := WithHeap(d, PutStruct(d.store.heap, base, 0, d.locals[5]));
    GetFieldRuns(types, d', 0, 6, base);
  }

  /** Writing A's field leaves both nodes nodes. */
  lemma {:induction false} PutNode(heap: seq<Object>, base: nat, a: u32, b: u32, field: nat, v: Val)
    requires base + 1 < |heap| && heap[base] == NodeObject(a, base + 1) && heap[base + 1] == NodeObject(b, base)
    requires field < 2
    ensures var h := PutStruct(heap, base, field, v);
            |h| == |heap| && h[base] == Struct(0, if field == 0 then [v, Addr(base + 1)] else [I32(a), v])
            && forall k :: 0 <= k < |heap| && k != base ==> h[k] == heap[k]
  {
  }

  /** The edge from A is turned to A and back to B; both readings are added. */
  lemma {:induction false} ObserveCycleRuns(types: seq<Type>, d: Data, base: nat, a: u32, b: u32)
    requires NodeType(types) && NineLocals(d) && d.locals[6] == Addr(base) && d.locals[7] == Addr(base + 1)
    requires GroupAt(d.store.heap, base, Pair(a, b))
    ensures Eval(types, ObserveCycle(), d) == Some(Pushed(d, I32(Wrap(2 * a + b))))
  {
    hide EvalOps;
    var heap := d.store.heap;
    SetFieldRuns(types, d, 1, 6, base);
    var d1 := WithHeap(d, PutStruct(heap, base, 1, Addr(base)));
    GetFieldRuns(types, d1, 0, 6, base);
    var d2 := Pushed(d1, I32(a));
    GetFieldRuns(types, d2, 1, 6, base);
    AddNodeRuns(types, d1, a, base, a);
    var d3 := Pushed(d1, I32(Wrap(a + a)));
    SetFieldRuns(types, d3, 1, 7, base);
    var d4 := Pushed(d, I32(Wrap(a + a)));
    assert heap[base].fields[1 := Addr(base)][1 := Addr(base + 1)] == heap[base].fields;
    assert PutStruct(d3.store.heap, base, 1, Addr(base + 1)) == heap;
    GetFieldRuns(types, d4, 1, 6, base);
    AddNodeRuns(types, d, Wrap(a + a), base + 1, b);
    WrapAdd(a + a, b);
    CycleCheckRuns(types, Pushed(d, I32(Wrap(2 * a + b))), base, base + 1);
  }

  lemma {:induction false} TouchCycleRuns(d: Data, base: nat, g: Group, state: u32, i: u32) returns (d': Data)
    requires Shaped(ReferenceCycle, g) && Loaded(ReferenceCycle, d, base) && GroupAt(d.store.heap, base, g)
    requires d.locals[5] == I32(Wrap(state + i))
    ensures Touched(ReferenceCycle, d, d', base, Written(g, state, i))
    ensures Eval(Types(ReferenceCycle), Touch(ReferenceCycle), d)
      == Some(Pushed(d', I32(Observed(Written(g, state, i), i))))
  {
    hide EvalOps; hide ObserveCycle;
    var types := Types(ReferenceCycle);
    SetFieldRuns(types, d, 0, 5, base);
    PutNode(d.store.heap, base, g.a, g.b, 0, d.locals[5]);
    d' := WithHeap(d, PutStruct(d.store.heap, base, 0, d.locals[5]));
    ObserveCycleRuns(types, d', base, Wrap(state + i), g.b);
  }

  lemma {:induction false} PutCell(heap: seq<Object>, base: nat, cells: seq<u32>, k: nat, x: u32)
    requires base < |heap| && heap[base] == Array(0, CellValues(cells)) && k < |cells|
    ensures PutArray(heap, base, k, I32(x)) == heap[base := Array(0, CellValues(cells[k := x]))]
  {
    assert CellValues(cells)[k := I32(x)] == CellValues(cells[k := x]);
  }

  lemma {:induction false} PutEdge(heap: seq<Object>, base: nat, edges: seq<bool>, k: nat, e: bool)
    requires base + 2 < |heap| && heap[base + 2] == Array(1, EdgeValues(base, edges)) && k < |edges|
    ensures PutArray(heap, base + 2, k, Addr(if e then base + 1 else base))
         == heap[base + 2 := Array(1, EdgeValues(base, edges[k := e]))]
  {
    assert EdgeValues(base, edges)[k := Addr(if e then base + 1 else base)] == EdgeValues(base, edges[k := e]);
  }

  lemma {:induction false} WriteNumbersRuns(d: Data, base: nat, g: Group, state: u32, i: u32) returns (d': Data)
    requires Shaped(NumericArray, g) && Loaded(NumericArray, d, base) && GroupAt(d.store.heap, base, g)
    requires d.locals[1] == I32(state) && d.locals[4] == I32(i % 8) && d.locals[5] == I32(Wrap(state + i))
    ensures Eval(Types(NumericArray), WriteElements(NumericArray), d) == Some(d')
    ensures d' == WithHeap(d, d.store.heap[base := Array(0, CellValues(Written(g, state, i).cells))])
  {
    hide EvalOps; hide Xor32;
    var types, s, heap := Types(NumericArray), i % 8, d.store.heap;
    SelectedRuns(types, d, base, s);
    WriteNumberRuns(types, d, base, s, state);
    PutCell(heap, base, g.cells, s, Xor32(state, SALT));
    var cells1 := g.cells[s := Xor32(state, SALT)];
    var d1 := WithHeap(d, heap[base := Array(0, CellValues(cells1))]);
    FollowingIndexRuns(types, d1, base, s);
    assert (s + 1) % 8 == (i + 1) % 8;
    PutNumberRuns(types, d1, base, (i + 1) % 8, Wrap(state + i));
    PutCell(d1.store.heap, base, cells1, (i + 1) % 8, Wrap(state + i));
    d' := WithHeap(d1, PutArray(d1.store.heap, base, (i + 1) % 8, I32(Wrap(state + i))));
  }

  lemma {:induction false} ObserveNumbersRuns(d: Data, base: nat, g: Group, i: u32)
    requires Shaped(NumericArray, g) && Loaded(NumericArray, d, base) && GroupAt(d.store.heap, base, g)
    requires d.locals[4] == I32(i % 8)
    ensures Eval(Types(NumericArray), ObserveElements(NumericArray), d) == Some(Pushed(d, I32(Observed(g, i))))
  {
    hide EvalOps;
    var types, s := Types(NumericArray), i % 8;
    var x: nat, y: nat := g.cells[s], g.cells[(i + 1) % 8];
    PickRuns(types, d, 0, base, s);
    FollowingIndexRuns(types, Pushed(d, I32(x)), base, s);
    assert (s + 1) % 8 == (i + 1) % 8;
    FetchAddRuns(types, d, base, (i + 1) % 8, x, y);
    AddLengthRuns(types, d, base, Wrap(x + y));
    WrapAdd(x + y, 8);
  }

  lemma {:induction false} TouchNumbersRuns(d: Data, base: nat, g: Group, state: u32, i: u32) returns (d': Data)
    requires Shaped(NumericArray, g) && Loaded(NumericArray, d, base) && GroupAt(d.store.heap, base, g)
    requires d.locals[0] == I32(i) && d.locals[1] == I32(state) && d.locals[5] == I32(Wrap(state + i))
    ensures Touched(NumericArray, d, d', base, Written(g, state, i))
    ensures Eval(Types(NumericArray), Touch(NumericArray), d)
      == Some(Pushed(d', I32(Observed(Written(g, state, i), i))))
  {
    hide EvalOps; hide Xor32; hide WriteElements; hide ObserveElements; hide Observed;
    var types := Types(NumericArray);
    SelectRuns(types, d, i);
    var d1 := Local(d, 4, I32(i % 8));
    d' := WriteNumbersRuns(d1, base, g, state, i);
    ObserveNumbersRuns(d', base, Written(g, state, i), i);
  }

  lemma {:induction false} WriteLinksRuns(d: Data, base: nat, a: u32, b: u32, edges: seq<bool>, i: u32)
    returns (d': Data)
    requires Loaded(ReferenceArray, d, base) && GroupAt(d.store.heap, base, Linked(a, b, edges)) && |edges| == WIDTH
    requires d.locals[4] == I32(i % 8)
    ensures Eval(Types(ReferenceArray), WriteElements(ReferenceArray), d) == Some(d')
    ensures var values := EdgeValues(base, edges[i % 8 := true][(i + 1) % 8 := false]);
            d' == WithHeap(d, d.store.heap[base + 2 := Array(1, values)])
  {
    hide EvalOps;
    var types, s, heap := Types(ReferenceArray), i % 8, d.store.heap;
    WriteLinkRuns(types, d, base + 2, s, base + 1);
    PutEdge(heap, base, edges, s, true);
    var edges1 := edges[s := true];
    var d1 := WithHeap(d, heap[base + 2 := Array(1, EdgeValues(base, edges1))]);
    FollowingIndexRuns(types, d1, base + 2, s);
    assert (s + 1) % 8 == (i + 1) % 8;
    PutLinkRuns(types, d1, base + 2, (i + 1) % 8, base);
    PutEdge(d1.store.heap, base, edges1, (i + 1) % 8, false);
    d' := WithHeap(d1, PutArray(d1.store.heap, base + 2, (i + 1) % 8, Addr(base)));
  }

  /** The selected element leads to B and the following one to A. */
  lemma {:induction false} ObserveLinksRuns(d: Data, base: nat, a: u32, b: u32, edges: seq<bool>, i: u32)
    requires Loaded(ReferenceArray, d, base) && GroupAt(d.store.heap, base, Linked(a, b, edges)) && |edges| == WIDTH
    requires d.locals[4] == I32(i % 8) && edges[i % 8] && !edges[(i + 1) % 8]
    ensures Eval(Types(ReferenceArray), ObserveElements(ReferenceArray), d) == Some(Pushed(d, I32(Wrap(b + a + WIDTH))))
  {
    hide EvalOps;
    var types, s := Types(ReferenceArray), i % 8;
    PickRuns(types, d, 1, base + 2, s);
    NodeValueRuns(types, d, base + 1);
    FollowingIndexRuns(types, Pushed(d, I32(b)), base + 2, s);
    assert (s + 1) % 8 == (i + 1) % 8;
    FetchElementRuns(types, Pushed(d, I32(b)), 1, base + 2, (i + 1) % 8);
    AddNodeRuns(types, d, b, base, a);
    AddLengthRuns(types, d, base + 2, Wrap(b + a));
    WrapAdd(b + a, 8);
  }

  lemma {:induction false} TouchLinkedRuns(d: Data, base: nat, g: Group, state: u32, i: u32) returns (d': Data)
    requires Shaped(ReferenceArray, g) && Loaded(ReferenceArray, d, base) && GroupAt(d.store.heap, base, g)
    requires d.locals[0] == I32(i) && d.locals[5] == I32(Wrap(state + i))
    ensures Touched(ReferenceArray, d, d', base, Written(g, state, i))
    ensures Eval(Types(ReferenceArray), Touch(ReferenceArray), d)
      == Some(Pushed(d', I32(Observed(Written(g, state, i), i))))
  {
    hide EvalOps; hide WriteElements; hide ObserveElements; hide CycleCheck;
    var types, value := Types(ReferenceArray), Wrap(state + i);
    SetFieldRuns(types, d, 0, 5, base);
    PutNode(d.store.heap, base, g.a, g.b, 0, I32(value));
    var d1 := WithHeap(d, PutStruct(d.store.heap, base, 0, I32(value)));
    SelectRuns(types, d1, i);
    var d2 := Local(d1, 4, I32(i % 8));
    d' := WriteLinksRuns(d2, base, value, g.b, g.edges, i);
    var g' := Written(g, state, i);
    ObserveLinksRuns(d', base, value, g.b, g'.edges, i);
    CycleCheckRuns(types, Pushed(d', I32(Wrap(g.b + value + WIDTH))), base, base + 1);
  }

  /** One mutation of the loaded group, in every family. */
  lemma {:induction false} TouchRuns(family: Family, d: Data, base: nat, g: Group, state: u32, i: u32)
    returns (d': Data)
    requires Shaped(family, g) && Loaded(family, d, base) && GroupAt(d.store.heap, base, g)
    requires d.locals[0] == I32(i) && d.locals[1] == I32(state) && d.locals[5] == I32(Wrap(state + i))
    ensures Touched(family, d, d', base, Written(g, state, i))
    ensures Eval(Types(family), Touch(family), d) == Some(Pushed(d', I32(Observed(Written(g, state, i), i))))
  {
    hide GroupAt; hide Loaded; hide Touch; hide Touched; hide Types; hide Written; hide Observed;
    match family
    case MutableStruct => d' := TouchStructRuns(d, base, g, state, i);
    case ReferenceCycle => d' := TouchCycleRuns(d, base, g, state, i);
    case NumericArray => d' := TouchNumbersRuns(d, base, g, state, i);
    case ReferenceArray => d' := TouchLinkedRuns(d, base, g, state, i);
  }
}
