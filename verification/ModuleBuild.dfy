/** The whole module: six framed sections around the two emitted functions. */
module ModuleBuild {
  import opened Wrappers
  import opened Lcg
  import opened Machine
  import opened Straight
  import opened Families
  import opened Fragments
  import opened Codec
  import opened Instructions
  import opened CodeSize
  import opened Generator
  import opened Oracle

  // ----- Payloads -----

  function Concat(items: seq<seq<byte>>): (r: seq<byte>)
  {
    if items == [] then [] else Concat(items[..|items| - 1]) + items[|items| - 1]
  }

  function Vector(items: seq<seq<byte>>): (r: seq<byte>) { Uleb(|items|) + Concat(items) }

  /** A byte string with its length. */
  function Sized(data: seq<byte>): (r: seq<byte>) { Uleb(|data|) + data }

  function TypeBytes(family: Family): (r: seq<seq<byte>>)
    ensures |r| == RunType(family) + 2
  {
    (match family
     case MutableStruct => [[0x5F, 0x01, 0x7F, 0x01]]
     case NumericArray => [[0x5E, 0x7F, 0x01]]
     case ReferenceCycle => [[0x4E, 0x01, 0x5F, 0x02, 0x7F, 0x01, 0x63, 0x00, 0x01]]
     case ReferenceArray => [[0x4E, 0x01, 0x5F, 0x02, 0x7F, 0x01, 0x63, 0x00, 0x01], [0x5E, 0x63, 0x00, 0x01]])
    + [[0x60, 0x00, 0x01, 0x7F], [0x60, 0x00, 0x00]]
  }

  function RunType(family: Family): (n: nat) { if family.ReferenceArray? then 2 else 1 }

  function TableBytes(family: Family): (r: seq<seq<byte>>)
    ensures |r| == TableCount(family)
  {
    seq(TableCount(family), _ => [0x6E, 0x00] + Uleb(ROOTS))
  }

  const GLOBAL: seq<byte> := [0x7F, 0x01, 0x41, 0x00, 0x0B]

  /** Adjacent locals of one type share a declaration: how many, and their type. */
  function LocalGroups(family: Family): (r: seq<(nat, seq<byte>)>)
  {
    if family.ReferenceArray? then [(6, [0x7F]), (2, [0x63, 0x00]), (1, [0x63, 0x01])]
    else [(6, [0x7F]), (3, [0x63, 0x00])]
  }

  function GroupBytes(groups: seq<(nat, seq<byte>)>): (r: seq<seq<byte>>)
  {
    seq(|groups|, i requires 0 <= i < |groups| => Uleb(groups[i].0) + groups[i].1)
  }

  function LocalBytes(family: Family): (r: seq<byte>) { Vector(GroupBytes(LocalGroups(family))) }

  function Ascii(s: string): (r: seq<byte>)
    requires forall i :: 0 <= i < |s| ==> s[i] as int < 128
    ensures |r| == |s|
  {
    seq(|s|, i requires 0 <= i < |s| => s[i] as int)
  }

  function Exports(family: Family): (es: seq<Export>)
    ensures |es| <= 6
  {
    [Export(Ascii("run"), 0, 0), Export(Ascii("_start"), 0, 1), Export(Ascii("roots"), 1, 0),
     Export(Ascii("checksum"), 3, 0), Export(Ascii("root_checksum"), 3, 1)]
    + if family.ReferenceArray? then [Export(Ascii("node_roots"), 1, 1)] else []
  }

  function CodePayload(family: Family, run: seq<byte>, start: seq<byte>): (r: seq<byte>)
  {
    Vector([Sized(LocalBytes(family) + run), Sized([0x00] + start)])
  }

  /** The sections of a module with the given function bodies. */
  function SectionsOf(family: Family, run: seq<byte>, start: seq<byte>): (ss: seq<Section>)
    ensures |ss| == 6
  {
    [Section(1, Vector(TypeBytes(family))),
     Section(3, Vector([Uleb(RunType(family)), Uleb(RunType(family) + 1)])),
     Section(4, Vector(TableBytes(family))),
     Section(6, Vector([GLOBAL, GLOBAL])),
     Section(7, ExportPayload(Exports(family))),
     Section(10, CodePayload(family, run, start))]
  }

  // ----- Declarations -----

  function StorageBytes(s: Storage): (r: seq<byte>) { if s.Scalar? then [0x7F, 0x01] else [0x63, 0x00, 0x01] }

  function FieldBytes(fields: seq<Storage>): (r: seq<seq<byte>>)
    ensures |r| == |fields|
  {
    seq(|fields|, k requires 0 <= k < |fields| => StorageBytes(fields[k]))
  }

  /** A heap type in the binary format: fields are mutable, references nullable and to type 0. */
  function TypeCode(t: Type): (r: seq<byte>)
  {
    match t
    case StructType(fields) => [0x5F] + Vector(FieldBytes(fields))
    case ArrayType(elem) => [0x5E] + StorageBytes(elem)
  }

  /** The declared heap types are those of the machine, a type that refers to itself in a
      recursion group of one; the two function types follow them. */
  lemma {:induction false} TypesDeclared(family: Family)
    ensures |Types(family)| == RunType(family) && |TypeBytes(family)| == RunType(family) + 2
    ensures forall t :: 0 <= t < RunType(family) ==>
      TypeBytes(family)[t] == (if HasRefs(family) && t == 0 then [0x4E, 0x01] else []) + TypeCode(Types(family)[t])
    ensures TypeBytes(family)[RunType(family)] == [0x60, 0x00, 0x01, 0x7F]
    ensures TypeBytes(family)[RunType(family) + 1] == [0x60, 0x00, 0x00]
  {
    HeapCodes();
    hide TypeCode;
  }

  /** The codes of the four heap types. */
  lemma {:induction false} HeapCodes()
    ensures TypeCode(StructType([Scalar])) == [0x5F, 0x01, 0x7F, 0x01]
    ensures TypeCode(StructType([Scalar, Reference])) == [0x5F, 0x02, 0x7F, 0x01, 0x63, 0x00, 0x01]
    ensures TypeCode(ArrayType(Scalar)) == [0x5E, 0x7F, 0x01]
    ensures TypeCode(ArrayType(Reference)) == [0x5E, 0x63, 0x00, 0x01]
  {
    hide Vector;
    OneItem(StorageBytes(Scalar));
    TwoItems(StorageBytes(Scalar), StorageBytes(Reference));
    assert FieldBytes([Scalar]) == [StorageBytes(Scalar)];
    assert FieldBytes([Scalar, Reference]) == [StorageBytes(Scalar), StorageBytes(Reference)];
  }

  // ----- Payload sizes -----

  lemma {:induction false} ConcatStep(items: seq<seq<byte>>, item: seq<byte>)
    ensures Concat(items + [item]) == Concat(items) + item && Concat([]) == []
  {
    assert (items + [item])[..|items|] == items;
  }

  lemma {:induction false} OneItem(a: seq<byte>)
    ensures Concat([a]) == a && Vector([a]) == [1] + a
  {
    ConcatStep([], a);
    assert [] + [a] == [a] && [] + a == a;
  }

  lemma {:induction false} TwoItems(a: seq<byte>, b: seq<byte>)
    ensures Concat([a, b]) == a + b && Vector([a, b]) == [2] + a + b
  {
    OneItem(a);
    ConcatStep([a], b);
    assert [a] + [b] == [a, b];
  }

  lemma {:induction false} ThreeItems(a: seq<byte>, b: seq<byte>, c: seq<byte>)
    ensures Concat([a, b, c]) == a + b + c && Vector([a, b, c]) == [3] + a + b + c
  {
    TwoItems(a, b);
    ConcatStep([a, b], c);
    assert [a, b] + [c] == [a, b, c];
  }

  lemma {:induction false} FourItems(a: seq<byte>, b: seq<byte>, c: seq<byte>, d: seq<byte>)
    ensures Vector([a, b, c, d]) == [4] + a + b + c + d
  {
    ThreeItems(a, b, c);
    ConcatStep([a, b, c], d);
    assert [a, b, c] + [d] == [a, b, c, d];
  }

  lemma {:induction false} TypeSize(family: Family)
    ensures |Vector(TypeBytes(family))| <= 21
  {
    hide Vector;
    var r, v: seq<byte> := [0x60, 0x00, 0x01, 0x7F], [0x60, 0x00, 0x00];
    match family
    case MutableStruct =>
      ThreeItems([0x5F, 0x01, 0x7F, 0x01], r, v);
      assert TypeBytes(family) == [[0x5F, 0x01, 0x7F, 0x01], r, v];
    case NumericArray =>
      ThreeItems([0x5E, 0x7F, 0x01], r, v);
      assert TypeBytes(family) == [[0x5E, 0x7F, 0x01], r, v];
    case ReferenceCycle =>
      var node: seq<byte> := [0x4E, 0x01, 0x5F, 0x02, 0x7F, 0x01, 0x63, 0x00, 0x01];
      ThreeItems(node, r, v);
      assert TypeBytes(family) == [node, r, v];
    case ReferenceArray =>
      var node: seq<byte>, cells: seq<byte> := [0x4E, 0x01, 0x5F, 0x02, 0x7F, 0x01, 0x63, 0x00, 0x01],
        [0x5E, 0x63, 0x00, 0x01];
      FourItems(node, cells, r, v);
      assert TypeBytes(family) == [node, cells, r, v];
  }

  lemma {:induction false} LocalSize(family: Family)
    ensures |LocalBytes(family)| <= 22
  {
    UlebLength(6);
    UlebLength(3);
    UlebLength(2);
    UlebLength(1);
    hide Uleb; hide Vector;
    if family.ReferenceArray? {
      ThreeItems(Uleb(6) + [0x7F], Uleb(2) + [0x63, 0x00], Uleb(1) + [0x63, 0x01]);
      assert GroupBytes(LocalGroups(family)) == [Uleb(6) + [0x7F], Uleb(2) + [0x63, 0x00], Uleb(1) + [0x63, 0x01]];
    } else {
      TwoItems(Uleb(6) + [0x7F], Uleb(3) + [0x63, 0x00]);
      assert GroupBytes(LocalGroups(family)) == [Uleb(6) + [0x7F], Uleb(3) + [0x63, 0x00]];
    }
  }

  lemma {:induction false} TableSize(family: Family)
    ensures |Vector(TableBytes(family))| <= 15
  {
    UlebLength(ROOTS);
    hide Uleb; hide Vector;
    var t := [0x6E, 0x00] + Uleb(ROOTS);
    if family.ReferenceArray? {
      TwoItems(t, t);
      assert TableBytes(family) == [t, t];
    } else {
      OneItem(t);
      assert TableBytes(family) == [t];
    }
  }

  lemma {:induction false} ExportsSize(es: seq<Export>)
    requires forall k :: 0 <= k < |es| ==> |es[k].name| <= 13 && es[k].index <= 1
    ensures |ExportsBytes(es)| <= 16 * |es|
  {
    hide Uleb;
    if es != [] {
      ExportsSize(es[..|es| - 1]);
      UlebSize(|es[|es| - 1].name|);
      UlebSize(es[|es| - 1].index);
    }
  }

  lemma {:induction false} ExportList(family: Family)
    ensures AllEncodable(Exports(family)) && |ExportPayload(Exports(family))| <= 97
  {
    hide Uleb; hide ExportsBytes;
    ExportsSize(Exports(family));
    UlebSize(|Exports(family)|);
  }

  /** The payloads other than the code add at most 147 bytes, and the code section 34 to its bodies. */
  ghost predicate Small(ss: seq<Section>, bodies: nat)
  {
    && |ss| == 6 && |ss[0].payload| <= 21 && |ss[1].payload| <= 3 && |ss[2].payload| <= 15
    && |ss[3].payload| <= 11 && |ss[4].payload| <= 97 && |ss[5].payload| <= 34 + bodies
  }

  lemma {:induction false} PayloadSizes(family: Family, run: seq<byte>, start: seq<byte>)
    requires |run| <= 1758 && |start| <= 42
    ensures Small(SectionsOf(family, run, start), |run| + |start|)
  {
    TypeSize(family);
    TableSize(family);
    ExportList(family);
    LocalSize(family);
    UlebLength(|LocalBytes(family) + run|);
    UlebLength(|[0x00] + start|);
    UlebSize(RunType(family));
    UlebSize(RunType(family) + 1);
    hide Uleb; hide Vector; hide ExportPayload; hide LocalBytes; hide TypeBytes; hide TableBytes;
    TwoItems(Uleb(RunType(family)), Uleb(RunType(family) + 1));
    TwoItems(GLOBAL, GLOBAL);
    TwoItems(Sized(LocalBytes(family) + run), Sized([0x00] + start));
  }

  lemma {:induction false} FrameSize(ss: seq<Section>, s: Section)
    requires |s.payload| <= MASK
    ensures |Frames(ss + [s])| <= |Frames(ss)| + 6 + |s.payload|
  {
    hide Uleb;
    FramesAppend(ss, s);
    UlebLength(|s.payload|);
  }

  lemma {:induction false} SixFrames(ss: seq<Section>, bodies: nat)
    requires Small(ss, bodies) && bodies <= 1800
    ensures |Framed(ss)| < 2048
  {
    hide Frames;
    NoFrames();
    FrameSize(ss[..0], ss[0]);
    FrameSize(ss[..1], ss[1]);
    FrameSize(ss[..2], ss[2]);
    FrameSize(ss[..3], ss[3]);
    FrameSize(ss[..4], ss[4]);
    FrameSize(ss[..5], ss[5]);
    assert ss[..0] == [] && ss[..0] + [ss[0]] == ss[..1] && ss[..1] + [ss[1]] == ss[..2];
    assert ss[..2] + [ss[2]] == ss[..3] && ss[..3] + [ss[3]] == ss[..4];
    assert ss[..4] + [ss[4]] == ss[..5] && ss[..5] + [ss[5]] == ss;
  }

  /** Whatever bodies of this size the functions have, the checker's layout and size limit are met. */
  lemma {:induction false} LayoutMet(family: Family, run: seq<byte>, start: seq<byte>)
    requires |run| <= 1758 && |start| <= 42
    ensures Framable(SectionsOf(family, run, start)) && Idents(SectionsOf(family, run, start)) == LAYOUT
    ensures |Framed(SectionsOf(family, run, start))| < 2048
  {
    PayloadSizes(family, run, start);
    hide Framed; hide Vector; hide ExportPayload; hide CodePayload; hide TypeBytes; hide TableBytes;
    SixFrames(SectionsOf(family, run, start), |run| + |start|);
  }

  // ----- Building -----

  /** `binary` is the module of a family, a phase and an iteration count: the function
      bodies are the encodings of the emitted instruction streams. */
  ghost predicate Built(binary: seq<byte>, family: Family, phase: Phase, n: nat)
  {
    && (phase == Mutate || n >= ROOTS)
    && var e := Expected(family, phase, n);
    && AllEmitted(RunCode(family, phase, n, e)) && AllEmitted(StartCode(e))
    && var run, start := Encode(RunCode(family, phase, n, e)), Encode(StartCode(e));
    && binary == Framed(SectionsOf(family, run, start)) && |binary| < 2048
  }

  /** What the generator hands out: the module and the oracle's report on it. */
  datatype Product = Product(binary: seq<byte>, report: Report)

  method EncodeVector(items: seq<seq<byte>>) returns (r: seq<byte>)
    requires |items| <= MASK
    ensures r == Vector(items)
  {
    hide Uleb;
    var size := EncodeUleb(|items|);
    r := size.value;
    for k := 0 to |items|
      invariant r == Uleb(|items|) + Concat(items[..k])
    {
      assert items[..k + 1][..k] == items[..k];
      r := r + items[k];
    }
    assert items[..|items|] == items;
  }

  method EncodeSized(data: seq<byte>) returns (r: seq<byte>)
    requires |data| <= MASK
    ensures r == Sized(data)
  {
    var size := EncodeUleb(|data|);
    r := size.value + data;
  }

  method EncodeExports(es: seq<Export>) returns (r: seq<byte>)
    requires AllEncodable(es)
    ensures r == ExportPayload(es)
  {
    hide Uleb;
    var count := EncodeUleb(|es|);
    r := count.value;
    for k := 0 to |es|
      invariant r == Uleb(|es|) + ExportsBytes(es[..k])
    {
      var name := EncodeSized(es[k].name);
      var index := EncodeUleb(es[k].index);
      assert es[..k + 1][..k] == es[..k];
      r := r + (name + [es[k].kind] + index.value);
    }
    assert es[..|es|] == es;
  }

  method EncodeSections(ss: seq<Section>) returns (r: seq<byte>)
    requires Framable(ss)
    ensures r == Framed(ss)
  {
    hide Uleb;
    r := [0x00, 0x61, 0x73, 0x6D, 0x01, 0x00, 0x00, 0x00];
    for k := 0 to |ss|
      invariant r == HEADER + Frames(ss[..k])
    {
      var body := EncodeSized(ss[k].payload);
      assert ss[..k + 1][..k] == ss[..k];
      r := r + ([ss[k].ident] + body);
    }
    assert ss[..|ss|] == ss;
  }

  /** Builds the module; iteration counts outside the reviewed range are refused. */
  method Build(family: Family, phase: Phase, iterations: int) returns (r: Result<Product>)
    ensures if Accepted(iterations)
            then r.Success? && Built(r.value.binary, family, phase, iterations)
                 && r.value.report == Reported(family, phase, iterations)
            else r.Failure?
  {
    hide RunCode; hide StartCode; hide Encode; hide Expected; hide Framed; hide Vector;
    hide TypeBytes; hide TableBytes; hide Sized;
    var oracle := ScalarOracle(family, phase, iterations);
    if oracle.Failure? {
      return Failure(oracle.reason);
    }
    var e := oracle.value.checksums;
    var run := EmitRun(family, phase, iterations, e);
    var start := EmitStart(e);
    FunctionSizes(family, phase, iterations, e);
    LayoutMet(family, run.binary, start.binary);
    ExportList(family);
    LocalSize(family);
    var body := EncodeSized(LocalBytes(family) + run.binary);
    var wrapper := EncodeSized([0x00] + start.binary);
    var code := EncodeVector([body, wrapper]);
    var types := EncodeVector(TypeBytes(family));
    var functions := EncodeVector([Uleb(RunType(family)), Uleb(RunType(family) + 1)]);
    var tables := EncodeVector(TableBytes(family));
    var globals := EncodeVector([GLOBAL, GLOBAL]);
    var exports := EncodeExports(Exports(family));
    var binary := EncodeSections([Section(1, types), Section(3, functions), Section(4, tables), Section(6, globals),
                                  Section(7, exports), Section(10, code)]);
    r := Success(Product(binary, oracle.value));
  }
}
