/** A reader for modules of the generator's subset: from the bytes alone it recovers the
    heap types, the functions with their locals and instructions, the tables, the globals
    and the exports. On a built module it recovers exactly what was meant. */
module Loader {
  import opened Wrappers
  import opened Lcg
  import opened Machine
  import opened Families
  import opened Fragments
  import opened Codec
  import opened Instructions
  import opened ModuleBuild

  // ----- Readers -----

  /** A reader takes a value from the front of a byte string. */
  type Reader<T> = seq<byte> -> Option<Parsed<T>>

  /** Whatever follows, the value is taken and the rest left. */
  ghost predicate ReadsBack<T>(read: Reader<T>, bytes: seq<byte>, v: T)
  {
    forall rest: seq<byte> :: read(bytes + rest) == Some(Parsed(v, rest))
  }

  function TakeMany<T>(n: nat, s: seq<byte>, read: Reader<T>): (r: Option<Parsed<seq<T>>>)
  {
    if n == 0 then Some(Parsed([], s))
    else match read(s)
      case None => None
      case Some(p) =>
        match TakeMany(n - 1, p.rest, read)
        case None => None
        case Some(q) => Some(Parsed([p.value] + q.value, q.rest))
  }

  function TakeVector<T>(s: seq<byte>, read: Reader<T>): (r: Option<Parsed<seq<T>>>)
  {
    match ParseU(s)
    case None => None
    case Some(p) => TakeMany(p.value, p.rest, read)
  }

  /** A byte string preceded by its length. */
  function TakeBlock(s: seq<byte>): (r: Option<Parsed<seq<byte>>>)
  {
    match ParseU(s)
    case None => None
    case Some(p) =>
      if p.value > |p.rest| then None else Some(Parsed(p.rest[..p.value], p.rest[p.value..]))
  }

  /** A reader that has to use up the bytes. */
  function Whole<T>(p: Option<Parsed<T>>): (r: Option<T>)
  {
    if p.Some? && p.value.rest == [] then Some(p.value.value) else None
  }

  lemma {:induction false} ConcatFirst(items: seq<seq<byte>>)
    requires items != []
    ensures Concat(items) == items[0] + Concat(items[1..])
    decreases |items|
  {
    if |items| == 1 {
      OneItem(items[0]);
      assert items == [items[0]] && Concat(items[1..]) == [];
    } else {
      var init := items[..|items| - 1];
      ConcatFirst(init);
      assert items[1..][..|items| - 2] == init[1..];
    }
  }

  lemma {:induction false} ManyReadBack<T>(items: seq<seq<byte>>, vs: seq<T>, read: Reader<T>, rest: seq<byte>)
    requires |items| == |vs| && forall k :: 0 <= k < |vs| ==> ReadsBack(read, items[k], vs[k])
    ensures TakeMany(|vs|, Concat(items) + rest, read) == Some(Parsed(vs, rest))
    decreases |items|
  {
    if items == [] {
      assert Concat(items) + rest == rest;
    } else {
      ConcatFirst(items);
      var more := Concat(items[1..]) + rest;
      assert Concat(items) + rest == items[0] + more;
      assert ReadsBack(read, items[0], vs[0]);
      ManyReadBack(items[1..], vs[1..], read, rest);
      assert [vs[0]] + vs[1..] == vs;
    }
  }

  /** A vector is read back if its items are. */
  lemma {:induction false} VectorReadBack<T>(items: seq<seq<byte>>, vs: seq<T>, read: Reader<T>, rest: seq<byte>)
    requires |items| == |vs| && forall k :: 0 <= k < |vs| ==> ReadsBack(read, items[k], vs[k])
    ensures TakeVector(Vector(items) + rest, read) == Some(Parsed(vs, rest))
  {
    hide ReadsBack; hide Uleb; hide Concat; hide TakeMany;
    assert Vector(items) + rest == Uleb(|items|) + (Concat(items) + rest);
    ParseUleb(|items|, Concat(items) + rest);
    ManyReadBack(items, vs, read, rest);
  }

  lemma {:induction false} WholeVector<T>(items: seq<seq<byte>>, vs: seq<T>, read: Reader<T>)
    requires |items| == |vs| && forall k :: 0 <= k < |vs| ==> ReadsBack(read, items[k], vs[k])
    ensures Whole(TakeVector(Vector(items), read)) == Some(vs)
  {
    hide ReadsBack; hide Vector; hide TakeVector;
    VectorReadBack(items, vs, read, []);
    assert Vector(items) + [] == Vector(items);
  }

  lemma {:induction false} BlockReadBack(data: seq<byte>, rest: seq<byte>)
    ensures TakeBlock(Sized(data) + rest) == Some(Parsed(data, rest))
  {
    hide Uleb; hide ParseU;
    assert Sized(data) + rest == Uleb(|data|) + (data + rest);
    ParseUleb(|data|, data + rest);
  }

  // ----- Types -----

  datatype ValueType = IntType | RefType(index: nat)

  /** What a local of the type starts with. */
  function Default(t: ValueType): (v: Val) { if t.IntType? then I32(0) else Null }

  /** A nullable reference is followed by its heap type, a signed number. */
  function TakeValueType(s: seq<byte>): (r: Option<Parsed<ValueType>>)
  {
    if s == [] then None
    else if s[0] == 0x7F then Some(Parsed(IntType, s[1..]))
    else if s[0] == 0x63 then
      match ParseS(s[1..])
      case None => None
      case Some(p) => if p.value < 0 then None else Some(Parsed(RefType(p.value), p.rest))
    else None
  }

  /** A mutable field or element. */
  function TakeStorage(s: seq<byte>): (r: Option<Parsed<Storage>>)
  {
    match TakeValueType(s)
    case None => None
    case Some(p) =>
      if p.rest == [] || p.rest[0] != 0x01 then None
      else Some(Parsed(if p.value.IntType? then Scalar else Reference, p.rest[1..]))
  }

  function TakeHeapType(s: seq<byte>): (r: Option<Parsed<Type>>)
  {
    if s == [] then None
    else if s[0] == 0x5F then
      match TakeVector(s[1..], TakeStorage)
      case None => None
      case Some(p) => Some(Parsed(StructType(p.value), p.rest))
    else if s[0] == 0x5E then
      match TakeStorage(s[1..])
      case None => None
      case Some(p) => Some(Parsed(ArrayType(p.value), p.rest))
    else None
  }

  datatype Definition = Heap(typ: Type) | Signature(params: seq<ValueType>, results: seq<ValueType>)

  function TakeSignature(s: seq<byte>): (r: Option<Parsed<Definition>>)
  {
    match TakeVector(s, TakeValueType)
    case None => None
    case Some(p) =>
      match TakeVector(p.rest, TakeValueType)
      case None => None
      case Some(q) => Some(Parsed(Signature(p.value, q.value), q.rest))
  }

  /** A function type, or a heap type, alone or in a recursion group of one. */
  function TakeDefinition(s: seq<byte>): (r: Option<Parsed<Definition>>)
  {
    if s == [] then None
    else if s[0] == 0x60 then TakeSignature(s[1..])
    else
      match TakeHeapType(if |s| >= 2 && s[..2] == [0x4E, 0x01] then s[2..] else s)
      case None => None
      case Some(p) => Some(Parsed(Heap(p.value), p.rest))
  }

  lemma {:induction false} StorageReadBack(s: Storage)
    ensures ReadsBack(TakeStorage, StorageBytes(s), s)
  {
    forall rest: seq<byte> ensures TakeStorage(StorageBytes(s) + rest) == Some(Parsed(s, rest)) {
      var all := StorageBytes(s) + rest;
      if s.Scalar? {
        assert all[1..] == [0x01] + rest && all[1..][1..] == rest;
      } else {
        assert all[1..][1..] == [0x01] + rest && all[1..][1..][1..] == rest;
      }
    }
  }

  /** Every heap type is read back from its code. */
  lemma {:induction false} HeapTypeReadBack(t: Type, rest: seq<byte>)
    ensures TakeHeapType(TypeCode(t) + rest) == Some(Parsed(t, rest))
    ensures TypeCode(t) != [] && TypeCode(t)[0] != 0x4E && TypeCode(t)[0] != 0x60
  {
    hide TakeStorage; hide StorageBytes; hide TakeVector; hide Vector;
    var all := TypeCode(t) + rest;
    match t
    case StructType(fields) =>
      forall k | 0 <= k < |fields| ensures ReadsBack(TakeStorage, FieldBytes(fields)[k], fields[k]) {
        StorageReadBack(fields[k]);
      }
      VectorReadBack(FieldBytes(fields), fields, TakeStorage, rest);
      assert all[1..] == Vector(FieldBytes(fields)) + rest;
    case ArrayType(elem) =>
      StorageReadBack(elem);
      assert all[1..] == StorageBytes(elem) + rest;
  }

  /** So is its declaration, with and without a recursion group. */
  lemma {:induction false} HeapReadBack(t: Type, group: bool)
    ensures ReadsBack(TakeDefinition, (if group then [0x4E, 0x01] else []) + TypeCode(t), Heap(t))
  {
    hide TakeHeapType; hide TypeCode;
    var bytes := (if group then [0x4E, 0x01] else []) + TypeCode(t);
    forall rest: seq<byte> ensures TakeDefinition(bytes + rest) == Some(Parsed(Heap(t), rest)) {
      HeapTypeReadBack(t, rest);
      if group {
        assert (bytes + rest)[..2] == [0x4E, 0x01] && (bytes + rest)[2..] == TypeCode(t) + rest;
      } else {
        assert bytes + rest == TypeCode(t) + rest && (bytes + rest)[0] == TypeCode(t)[0];
        assert |bytes + rest| >= 2 ==> (bytes + rest)[..2][0] != 0x4E;
      }
    }
  }

  lemma {:induction false} SignatureReadBack(result: bool)
    ensures ReadsBack(TakeDefinition, if result then [0x60, 0x00, 0x01, 0x7F] else [0x60, 0x00, 0x00],
                      Signature([], if result then [IntType] else []))
  {
    var bytes: seq<byte> := if result then [0x60, 0x00, 0x01, 0x7F] else [0x60, 0x00, 0x00];
    forall rest: seq<byte> ensures TakeDefinition(bytes + rest)
                                   == Some(Parsed(Signature([], if result then [IntType] else []), rest)) {
      var s := (bytes + rest)[1..];
      if result {
        assert s[1..][1..][1..] == rest;
        assert TakeMany(0, rest, TakeValueType) == Some(Parsed([], rest));
        assert TakeValueType(s[1..][1..]) == Some(Parsed(IntType, rest)) && [IntType] + [] == [IntType];
        assert TakeMany(1, s[1..][1..], TakeValueType) == Some(Parsed([IntType], rest));
      } else {
        assert s[1..][1..] == rest;
      }
    }
  }

  function Declared(types: seq<Type>): (r: seq<Definition>)
    ensures |r| == |types|
  {
    seq(|types|, k requires 0 <= k < |types| => Heap(types[k]))
  }

  /** The types of a family's module. */
  function Definitions(family: Family): (r: seq<Definition>)
    ensures |r| == RunType(family) + 2
  {
    Declared(Types(family)) + [Signature([], [IntType]), Signature([], [])]
  }

  lemma {:induction false} TypesReadBack(family: Family)
    ensures Whole(TakeVector(Vector(TypeBytes(family)), TakeDefinition)) == Some(Definitions(family))
  {
    hide ReadsBack; hide TakeDefinition; hide TypeCode; hide Vector; hide TakeVector;
    TypesDeclared(family);
    hide Types; hide TypeBytes;
    var items, vs := TypeBytes(family), Definitions(family);
    forall k | 0 <= k < |vs| ensures ReadsBack(TakeDefinition, items[k], vs[k]) {
      if k < RunType(family) {
        HeapReadBack(Types(family)[k], HasRefs(family) && k == 0);
      } else {
        SignatureReadBack(k == RunType(family));
      }
    }
    WholeVector(items, vs, TakeDefinition);
  }

  // ----- Tables, globals and exports -----

  /** A table of any references, with its size. */
  function TakeTable(s: seq<byte>): (r: Option<Parsed<nat>>)
  {
    if |s| >= 2 && s[0] == 0x6E && s[1] == 0x00 then ParseU(s[2..]) else None
  }

  /** A mutable integer with a constant initial value. */
  function TakeGlobal(s: seq<byte>): (r: Option<Parsed<Val>>)
  {
    if |s| >= 3 && s[0] == 0x7F && s[1] == 0x01 && s[2] == 0x41 then
      match ParseS(s[3..])
      case None => None
      case Some(p) =>
        if p.rest == [] || p.rest[0] != 0x0B then None else Some(Parsed(I32(Wrap(p.value)), p.rest[1..]))
    else None
  }

  function TakeExport(s: seq<byte>): (r: Option<Parsed<Export>>)
  {
    match TakeBlock(s)
    case None => None
    case Some(p) =>
      if p.rest == [] then None
      else match ParseU(p.rest[1..])
        case None => None
        case Some(q) => Some(Parsed(Export(p.value, p.rest[0], q.value), q.rest))
  }

  lemma {:induction false} TableReadBack(size: nat)
    ensures ReadsBack(TakeTable, [0x6E, 0x00] + Uleb(size), size)
  {
    hide Uleb; hide ParseU;
    forall rest: seq<byte> ensures TakeTable([0x6E, 0x00] + Uleb(size) + rest) == Some(Parsed(size, rest)) {
      ParseUleb(size, rest);
      assert ([0x6E, 0x00] + Uleb(size) + rest)[2..] == Uleb(size) + rest;
    }
  }

  lemma {:induction false} GlobalReadBack()
    ensures ReadsBack(TakeGlobal, GLOBAL, I32(0))
  {
    forall rest: seq<byte> ensures TakeGlobal(GLOBAL + rest) == Some(Parsed(I32(0), rest)) {
      var s := (GLOBAL + rest)[3..];
      assert s[0] == 0 && s[1..][0] == 0x0B && s[1..][1..] == rest;
    }
  }

  lemma {:induction false} ExportReadBack(e: Export)
    ensures ReadsBack(TakeExport, ExportBytes(e), e)
  {
    hide Uleb; hide ParseU; hide TakeBlock;
    forall rest: seq<byte> ensures TakeExport(ExportBytes(e) + rest) == Some(Parsed(e, rest)) {
      var more := [e.kind] + Uleb(e.index) + rest;
      assert ExportBytes(e) + rest == Sized(e.name) + more;
      BlockReadBack(e.name, more);
      ParseUleb(e.index, rest);
      assert more[1..] == Uleb(e.index) + rest;
    }
  }

  /** The export payload is the vector of its exports. */
  lemma {:induction false} ExportsConcat(es: seq<Export>, items: seq<seq<byte>>)
    requires |items| == |es| && forall k :: 0 <= k < |es| ==> items[k] == ExportBytes(es[k])
    ensures ExportsBytes(es) == Concat(items)
    decreases |es|
  {
    hide ExportBytes;
    if es != [] {
      ExportsConcat(es[..|es| - 1], items[..|es| - 1]);
    }
  }

  lemma {:induction false} ExportsReadBack(es: seq<Export>)
    ensures Whole(TakeVector(ExportPayload(es), TakeExport)) == Some(es)
  {
    hide ReadsBack; hide TakeExport; hide ExportBytes; hide TakeVector; hide Uleb;
    var items := seq(|es|, k requires 0 <= k < |es| => ExportBytes(es[k]));
    forall k | 0 <= k < |es| ensures ReadsBack(TakeExport, items[k], es[k]) {
      ExportReadBack(es[k]);
    }
    ExportsConcat(es, items);
    WholeVector(items, es, TakeExport);
  }

  lemma {:induction false} StoreReadBack(family: Family)
    ensures Whole(TakeVector<nat>(Vector(TableBytes(family)), TakeTable)) == Some(seq(TableCount(family), _ => ROOTS))
    ensures Whole(TakeVector(Vector([GLOBAL, GLOBAL]), TakeGlobal)) == Some([I32(0), I32(0)])
  {
    hide ReadsBack; hide TakeTable; hide TakeGlobal; hide Vector; hide TakeVector; hide Uleb;
    TableReadBack(ROOTS);
    GlobalReadBack();
    WholeVector<nat>(TableBytes(family), seq(TableCount(family), _ => ROOTS), TakeTable);
    WholeVector([GLOBAL, GLOBAL], [I32(0), I32(0)], TakeGlobal);
  }

  // ----- Functions -----

  datatype Body = Body(locals: seq<ValueType>, code: seq<Token>)

  /** Adjacent locals of one type: how many, and the type. */
  function TakeGroup(s: seq<byte>): (r: Option<Parsed<(nat, ValueType)>>)
  {
    match ParseU(s)
    case None => None
    case Some(p) =>
      match TakeValueType(p.rest)
      case None => None
      case Some(q) => Some(Parsed((p.value, q.value), q.rest))
  }

  /** Locals from their run lengths. */
  function Expanded(groups: seq<(nat, ValueType)>): (r: seq<ValueType>)
  {
    if groups == [] then [] else seq(groups[0].0, _ => groups[0].1) + Expanded(groups[1..])
  }

  function BodyOf(data: seq<byte>): (r: Option<Body>)
  {
    match TakeVector(data, TakeGroup)
    case None => None
    case Some(p) =>
      match Decode(p.rest)
      case None => None
      case Some(code) => Some(Body(Expanded(p.value), code))
  }

  function TakeBody(s: seq<byte>): (r: Option<Parsed<Body>>)
  {
    match TakeBlock(s)
    case None => None
    case Some(p) =>
      match BodyOf(p.value)
      case None => None
      case Some(body) => Some(Parsed(body, p.rest))
  }

  function GroupTypes(family: Family): (r: seq<(nat, ValueType)>)
    ensures |r| == |LocalGroups(family)|
  {
    if family.ReferenceArray? then [(6, IntType), (2, RefType(0)), (1, RefType(1))]
    else [(6, IntType), (3, RefType(0))]
  }

  lemma {:induction false} ValueTypeReadBack(t: ValueType, bytes: seq<byte>, rest: seq<byte>)
    requires t.RefType? ==> t.index < 64
    requires bytes == if t.IntType? then [0x7F] else [0x63, t.index]
    ensures TakeValueType(bytes + rest) == Some(Parsed(t, rest))
  {
    if t.IntType? {
      assert (bytes + rest)[1..] == rest;
    } else {
      assert (bytes + rest)[1..] == [t.index] + rest && (bytes + rest)[1..][1..] == rest;
    }
  }

  lemma {:induction false} GroupReadBack(n: nat, t: ValueType, bytes: seq<byte>)
    requires t.RefType? ==> t.index < 64
    requires bytes == if t.IntType? then [0x7F] else [0x63, t.index]
    ensures ReadsBack(TakeGroup, Uleb(n) + bytes, (n, t))
  {
    hide Uleb; hide ParseU; hide TakeValueType;
    forall rest: seq<byte> ensures TakeGroup(Uleb(n) + bytes + rest) == Some(Parsed((n, t), rest)) {
      ParseUleb(n, bytes + rest);
      assert Uleb(n) + bytes + rest == Uleb(n) + (bytes + rest);
      ValueTypeReadBack(t, bytes, rest);
    }
  }

  lemma {:induction false} GroupsReadBack(family: Family, rest: seq<byte>)
    ensures TakeVector(LocalBytes(family) + rest, TakeGroup) == Some(Parsed(GroupTypes(family), rest))
  {
    hide ReadsBack; hide TakeGroup; hide TakeVector; hide Uleb; hide Vector;
    var items, vs := GroupBytes(LocalGroups(family)), GroupTypes(family);
    forall k | 0 <= k < |vs| ensures ReadsBack(TakeGroup, items[k], vs[k]) {
      GroupReadBack(vs[k].0, vs[k].1, LocalGroups(family)[k].1);
    }
    VectorReadBack(items, vs, TakeGroup, rest);
  }

  lemma {:induction false} ExpandedStep(g: (nat, ValueType), rest: seq<(nat, ValueType)>)
    ensures Expanded([g] + rest) == seq(g.0, _ => g.1) + Expanded(rest) && Expanded([]) == []
  {
    assert ([g] + rest)[1..] == rest;
  }

  /** Nine locals: six integers, which start at zero, and three references, which start null;
      the last one has the array's type. */
  lemma {:induction false} LocalsDeclared(family: Family)
    ensures var types := Expanded(GroupTypes(family));
            && |types| == |RUN_LOCALS|
            && (forall k :: 0 <= k < |types| ==> Default(types[k]) == RUN_LOCALS[k])
            && types[6] == types[7] == RefType(0) && types[8] == RefType(ArrayIndex(family))
  {
    var ints := (6, IntType);
    if family.ReferenceArray? {
      ExpandedStep(ints, [(2, RefType(0)), (1, RefType(1))]);
      ExpandedStep((2, RefType(0)), [(1, RefType(1))]);
      ExpandedStep((1, RefType(1)), []);
      assert GroupTypes(family) == [ints] + ([(2, RefType(0))] + ([(1, RefType(1))] + []));
    } else {
      ExpandedStep(ints, [(3, RefType(0))]);
      ExpandedStep((3, RefType(0)), []);
      assert GroupTypes(family) == [ints] + ([(3, RefType(0))] + []);
    }
  }

  lemma {:induction false} RunReadBack(family: Family, code: seq<Token>)
    requires AllEmitted(code)
    ensures ReadsBack(TakeBody, Sized(LocalBytes(family) + Encode(code)), Body(Expanded(GroupTypes(family)), code))
  {
    hide TakeBlock; hide Sized; hide LocalBytes; hide Encode; hide Decode; hide TakeVector; hide Expanded;
    var data := LocalBytes(family) + Encode(code);
    GroupsReadBack(family, Encode(code));
    DecodeEncoded(code);
    forall rest: seq<byte>
      ensures TakeBody(Sized(data) + rest) == Some(Parsed(Body(Expanded(GroupTypes(family)), code), rest))
    {
      BlockReadBack(data, rest);
    }
  }

  lemma {:induction false} StartReadBack(code: seq<Token>)
    requires AllEmitted(code)
    ensures ReadsBack(TakeBody, Sized([0x00] + Encode(code)), Body([], code))
  {
    hide TakeBlock; hide Sized; hide Encode; hide Decode;
    var data := [0x00] + Encode(code);
    assert data[1..] == Encode(code);
    DecodeEncoded(code);
    forall rest: seq<byte> ensures TakeBody(Sized(data) + rest) == Some(Parsed(Body([], code), rest)) {
      BlockReadBack(data, rest);
    }
  }

  lemma {:induction false} CodeReadBack(family: Family, run: seq<Token>, start: seq<Token>)
    requires AllEmitted(run) && AllEmitted(start)
    ensures Whole(TakeVector(CodePayload(family, Encode(run), Encode(start)), TakeBody))
            == Some([Body(Expanded(GroupTypes(family)), run), Body([], start)])
  {
    hide ReadsBack; hide TakeBody; hide Vector; hide TakeVector; hide Sized; hide LocalBytes; hide Encode;
    hide Expanded;
    RunReadBack(family, run);
    StartReadBack(start);
    WholeVector([Sized(LocalBytes(family) + Encode(run)), Sized([0x00] + Encode(start))],
                [Body(Expanded(GroupTypes(family)), run), Body([], start)], TakeBody);
  }

  // ----- Modules -----

  function TakeSections(s: seq<byte>): (r: Option<seq<Section>>)
    decreases |s|
  {
    if s == [] then Some([])
    else match TakeBlock(s[1..])
      case None => None
      case Some(p) =>
        if |p.rest| >= |s| then None
        else match TakeSections(p.rest)
          case None => None
          case Some(ss) => Some([Section(s[0], p.value)] + ss)
  }

  lemma {:induction false} FramesFirst(ss: seq<Section>)
    requires ss != []
    ensures Frames(ss) == Frame(ss[0]) + Frames(ss[1..])
    decreases |ss|
  {
    hide Frame;
    if |ss| > 1 {
      var init := ss[..|ss| - 1];
      FramesFirst(init);
      assert ss[1..][..|ss| - 2] == init[1..];
    } else {
      assert ss[..0] == [] && Frames(ss[1..]) == [];
    }
  }

  lemma {:induction false} SectionsReadBack(ss: seq<Section>)
    ensures TakeSections(Frames(ss)) == Some(ss)
    decreases |ss|
  {
    hide TakeBlock; hide Uleb; hide Frames;
    if ss == [] {
      NoFrames();
    } else {
      FramesFirst(ss);
      SectionsReadBack(ss[1..]);
      var s, rest := Frames(ss), Frames(ss[1..]);
      assert s[0] == ss[0].ident && s[1..] == Sized(ss[0].payload) + rest;
      BlockReadBack(ss[0].payload, rest);
      assert [ss[0]] + ss[1..] == ss;
    }
  }

  /** What a loader makes of a module: its code, its initial store and its exports. */
  datatype Instance = Instance(code: Module, store: Store, exports: seq<Export>)

  /** The leading heap types. */
  function HeapTypes(defs: seq<Definition>): (r: seq<Type>)
    ensures |r| <= |defs|
  {
    if defs == [] || !defs[0].Heap? then [] else [defs[0].typ] + HeapTypes(defs[1..])
  }

  /** Every function has a signature with at most one result. */
  predicate Typed(defs: seq<Definition>, functions: seq<nat>)
  {
    forall k :: 0 <= k < |functions| ==>
      functions[k] < |defs| && defs[functions[k]].Signature? && |defs[functions[k]].results| <= 1
  }

  function Defaults(types: seq<ValueType>): (r: seq<Val>)
    ensures |r| == |types|
  {
    seq(|types|, k requires 0 <= k < |types| => Default(types[k]))
  }

  function Functions(defs: seq<Definition>, functions: seq<nat>, bodies: seq<Body>): (r: seq<Func>)
    requires |functions| == |bodies| && Typed(defs, functions)
    ensures |r| == |functions|
  {
    seq(|functions|, k requires 0 <= k < |functions| =>
      var signature := defs[functions[k]];
      Func(|signature.params|, Defaults(bodies[k].locals), signature.results != [], bodies[k].code))
  }

  function EmptyTables(sizes: seq<nat>): (r: seq<seq<Val>>)
    ensures |r| == |sizes|
  {
    seq(|sizes|, k requires 0 <= k < |sizes| => seq(sizes[k], _ => Null))
  }

  /** Reads the six payloads; heap types have to come before function types. */
  function Assemble(ss: seq<Section>): (r: Option<Instance>)
    requires |ss| == 6
  {
    var defs := Whole(TakeVector(ss[0].payload, TakeDefinition));
    var functions := Whole(TakeVector<nat>(ss[1].payload, ParseU));
    var tables := Whole(TakeVector<nat>(ss[2].payload, TakeTable));
    var globals := Whole(TakeVector(ss[3].payload, TakeGlobal));
    var exports := Whole(TakeVector(ss[4].payload, TakeExport));
    var bodies := Whole(TakeVector(ss[5].payload, TakeBody));
    if defs.None? || functions.None? || tables.None? || globals.None? || exports.None? || bodies.None? then None
    else if |functions.value| != |bodies.value| || !Typed(defs.value, functions.value) then None
    else if exists k :: |HeapTypes(defs.value)| <= k < |defs.value| && defs.value[k].Heap? then None
    else Some(Instance(Module(HeapTypes(defs.value), Functions(defs.value, functions.value, bodies.value)),
                       Store(EmptyTables(tables.value), globals.value, []),
                       exports.value))
  }

  /** A module from its bytes. */
  function Load(binary: seq<byte>): (r: Option<Instance>)
  {
    if |binary| < 8 || binary[..8] != HEADER then None
    else match TakeSections(binary[8..])
      case None => None
      case Some(ss) => if Idents(ss) != LAYOUT then None else assert |ss| == |Idents(ss)|; Assemble(ss)
  }

  lemma {:induction false} HeapTypesAre(types: seq<Type>, rest: seq<Definition>)
    requires rest != [] && rest[0].Signature?
    ensures HeapTypes(Declared(types) + rest) == types
    decreases |types|
  {
    if types == [] {
      assert Declared(types) + rest == rest;
    } else {
      HeapTypesAre(types[1..], rest);
      assert (Declared(types) + rest)[1..] == Declared(types[1..]) + rest;
      assert [types[0]] + types[1..] == types;
    }
  }

  lemma {:induction false} IndexReadBack(v: nat)
    ensures ReadsBack<nat>(ParseU, Uleb(v), v)
  {
    hide Uleb; hide ParseU;
    forall rest: seq<byte> ensures ParseU(Uleb(v) + rest) == Some(Parsed(v, rest)) {
      ParseUleb(v, rest);
    }
  }

  lemma {:induction false} FunctionsReadBack(family: Family)
    ensures Whole(TakeVector<nat>(Vector([Uleb(RunType(family)), Uleb(RunType(family) + 1)]), ParseU))
            == Some([RunType(family), RunType(family) + 1])
  {
    hide Vector; hide TakeVector; hide Uleb; hide ParseU;
    var t := RunType(family);
    IndexReadBack(t);
    IndexReadBack(t + 1);
    hide ReadsBack;
    WholeVector<nat>([Uleb(t), Uleb(t + 1)], [t, t + 1], ParseU);
  }

  /** The functions the loader assembles for a family are the emitted ones. */
  lemma {:induction false} FunctionsAre(family: Family, run: seq<Token>, start: seq<Token>)
    ensures var bodies := [Body(Expanded(GroupTypes(family)), run), Body([], start)];
            var indices := [RunType(family), RunType(family) + 1];
            && Typed(Definitions(family), indices) && HeapTypes(Definitions(family)) == Types(family)
            && Functions(Definitions(family), indices, bodies)
               == [Func(0, RUN_LOCALS, true, run), Func(0, [], false, start)]
  {
    LocalsDeclared(family);
    TypesDeclared(family);
    hide Expanded; hide TypeBytes; hide TypeCode; hide GroupTypes; hide Types;
    HeapTypesAre(Types(family), [Signature([], [IntType]), Signature([], [])]);
    assert Defaults(Expanded(GroupTypes(family))) == RUN_LOCALS && Defaults([]) == [];
  }

  lemma {:induction false} AssembleBuilt(family: Family, run: seq<Token>, start: seq<Token>)
    requires AllEmitted(run) && AllEmitted(start)
    ensures Assemble(SectionsOf(family, Encode(run), Encode(start)))
            == Some(Instance(Module(Types(family), [Func(0, RUN_LOCALS, true, run), Func(0, [], false, start)]),
                             InitialStore(family), Exports(family)))
  {
    hide TakeVector; hide Vector; hide TypeBytes; hide TableBytes; hide ExportPayload; hide CodePayload; hide Encode;
    hide Functions; hide Typed; hide HeapTypes; hide Exports; hide Expanded; hide Types;
    TypesReadBack(family);
    FunctionsReadBack(family);
    StoreReadBack(family);
    ExportsReadBack(Exports(family));
    CodeReadBack(family, run, start);
    FunctionsAre(family, run, start);
    assert EmptyTables(seq(TableCount(family), _ => ROOTS)) == InitialStore(family).tables;
    assert |HeapTypes(Definitions(family))| == RunType(family) by { TypesDeclared(family); }
  }

  /** A built module is loaded as the program, the store and the exports it stands for. */
  lemma {:induction false} LoadBuilt(binary: seq<byte>, family: Family, phase: Phase, n: nat)
    requires Built(binary, family, phase, n)
    ensures Load(binary)
            == Some(Instance(Program(family, phase, n, Expected(family, phase, n)), InitialStore(family),
                             Exports(family)))
  {
    hide Expected; hide RunCode; hide StartCode; hide Encode; hide SectionsOf; hide Assemble; hide Frames; hide Types;
    hide InitialStore; hide Exports;
    var e := Expected(family, phase, n);
    var run, start := RunCode(family, phase, n, e), StartCode(e);
    var ss := SectionsOf(family, Encode(run), Encode(start));
    SectionsReadBack(ss);
    assert binary[..8] == HEADER && binary[8..] == Frames(ss);
    LaidOut(family, Encode(run), Encode(start));
    AssembleBuilt(family, run, start);
  }

  lemma {:induction false} LaidOut(family: Family, run: seq<byte>, start: seq<byte>)
    ensures Idents(SectionsOf(family, run, start)) == LAYOUT
  {
  }
}
