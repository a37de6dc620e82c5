/** The checker's assertions on a generated module, kept as branches that reject, and that
    no module the generator builds is rejected. */
module ModuleCheck {
  import opened Wrappers
  import opened Lcg
  import opened Machine
  import opened Straight
  import opened Families
  import opened Fragments
  import opened Codec
  import opened Instructions
  import opened CodeSize
  import opened Oracle
  import opened ModuleBuild
  import FlatReference

  // ----- Framing -----

  /** The module is framed from these sections, in the required layout. */
  ghost predicate Laid(binary: seq<byte>, ss: seq<Section>)
  {
    Framable(ss) && Idents(ss) == LAYOUT && binary == Framed(ss)
  }

  lemma {:induction false} SameSection(data: seq<byte>, offset: nat, s: Section, t: Section)
    requires |s.payload| <= MASK && |t.payload| <= MASK
    requires Occurs(data, offset, Frame(s)) && Occurs(data, offset, Frame(t))
    ensures s == t
  {
    hide Frame; hide UlebAt;
    SectionReadsBack(data, offset, s);
    SectionReadsBack(data, offset, t);
  }

  lemma {:induction false} OccursLonger(a: seq<byte>, b: seq<byte>, offset: nat, part: seq<byte>)
    requires a <= b && Occurs(a, offset, part)
    ensures Occurs(b, offset, part)
  {
    assert b[offset..offset + |part|] == a[offset..offset + |part|];
  }

  lemma {:induction false} SameSections(a: seq<byte>, ss: seq<Section>, b: seq<byte>, ts: seq<Section>, k: nat)
    requires Laid(a, ss) && Laid(b, ts) && a <= b && k <= 6 && |ss| == |ts| == 6
    ensures ss[..k] == ts[..k]
  {
    hide Frame; hide Frames; hide Framed; hide Occurs;
    if k > 0 {
      SameSections(a, ss, b, ts, k - 1);
      var at := 8 + |Frames(ss[..k - 1])|;
      NextSection(a, ss, k - 1);
      NextSection(b, ts, k - 1);
      OccursLonger(a, b, at, Frame(ss[k - 1]));
      SameSection(b, at, ss[k - 1], ts[k - 1]);
      assert ss[..k] == ss[..k - 1] + [ss[k - 1]] && ts[..k] == ts[..k - 1] + [ts[k - 1]];
    }
  }

  /** A module in the required layout has one framing, and no truncation of it, however
      short, is in the layout. */
  lemma {:induction false} NoTruncation(a: seq<byte>, ss: seq<Section>, b: seq<byte>, ts: seq<Section>)
    requires Laid(a, ss) && Laid(b, ts) && a <= b
    ensures a == b && ss == ts
  {
    hide Framed;
    assert |ss| == |Idents(ss)| == 6 && |ts| == |Idents(ts)| == 6;
    SameSections(a, ss, b, ts, 6);
    assert ss == ss[..6] && ts == ts[..6];
  }

  // ----- Bodies -----

  /** Where the body at `offset` ends, if it is sized and closed properly. */
  ghost function BodyAt(data: seq<byte>, offset: nat): (end: Option<nat>)
  {
    var size := UlebAt(data, offset);
    if size.None? then None
    else
      var end := size.value.next + size.value.value;
      if size.value.value > 0 && end <= |data| && data[end - 1] == 0x0B then Some(end) else None
  }

  /** Two bodies, each ending in `end`, and nothing after them. */
  ghost predicate BodiesRead(data: seq<byte>)
  {
    && UlebAt(data, 0).Some? && UlebAt(data, 0).value.value == 2
    && var first := BodyAt(data, UlebAt(data, 0).value.next);
    && first.Some? && BodyAt(data, first.value) == Some(|data|)
  }

  method CheckBodies(data: seq<byte>) returns (ok: bool)
    ensures ok <==> BodiesRead(data)
  {
    hide UlebAt;
    var count := ReadUleb(data, 0);
    if count.Failure? || count.value.value != 2 {
      return false;
    }
    var offset := count.value.next;
    ghost var start := offset;
    for k := 0 to 2
      invariant k == 0 ==> offset == start
      invariant k == 1 ==> BodyAt(data, start) == Some(offset)
      invariant k == 2 ==> BodyAt(data, start).Some? && BodyAt(data, BodyAt(data, start).value) == Some(offset)
    {
      var size := ReadUleb(data, offset);
      if size.Failure? {
        return false;
      }
      var end := size.value.next + size.value.value;
      if size.value.value == 0 || end > |data| || data[end - 1] != 0x0B {
        return false;
      }
      offset := end;
    }
    ok := offset == |data|;
  }

  // ----- The whole checker -----

  /** The export list the checker expects, name by name in bytes: `run`, `_start`, `roots`, `checksum`,
      `root_checksum` and, with arrays of references, `node_roots`. */
  function ListedExports(family: Family): (es: seq<Export>)
  {
    [Export([0x72, 0x75, 0x6E], 0, 0),
     Export([0x5F, 0x73, 0x74, 0x61, 0x72, 0x74], 0, 1),
     Export([0x72, 0x6F, 0x6F, 0x74, 0x73], 1, 0),
     Export([0x63, 0x68, 0x65, 0x63, 0x6B, 0x73, 0x75, 0x6D], 3, 0),
     Export([0x72, 0x6F, 0x6F, 0x74, 0x5F, 0x63, 0x68, 0x65, 0x63, 0x6B, 0x73, 0x75, 0x6D], 3, 1)]
    + if family.ReferenceArray? then [Export([0x6E, 0x6F, 0x64, 0x65, 0x5F, 0x72, 0x6F, 0x6F, 0x74, 0x73], 1, 1)]
      else []
  }

  lemma {:induction false} ExportsListed(family: Family)
    ensures ListedExports(family) == Exports(family)
  {
    assert Ascii("run") == [0x72, 0x75, 0x6E];
    assert Ascii("_start") == [0x5F, 0x73, 0x74, 0x61, 0x72, 0x74];
    assert Ascii("roots") == [0x72, 0x6F, 0x6F, 0x74, 0x73];
    assert Ascii("checksum") == [0x63, 0x68, 0x65, 0x63, 0x6B, 0x73, 0x75, 0x6D];
    assert Ascii("root_checksum") == [0x72, 0x6F, 0x6F, 0x74, 0x5F, 0x63, 0x68, 0x65, 0x63, 0x6B, 0x73, 0x75, 0x6D];
    assert Ascii("node_roots") == [0x6E, 0x6F, 0x64, 0x65, 0x5F, 0x72, 0x6F, 0x6F, 0x74, 0x73];
  }

  /** The exports are the family's, and the section counts its tables and two proper bodies. */
  ghost predicate Holds(ss: seq<Section>, family: Family)
    requires |ss| == 6
  {
    && ss[4].payload == ExportPayload(ListedExports(family))
    && UlebAt(ss[2].payload, 0).Some? && UlebAt(ss[2].payload, 0).value.value == TableCount(family)
    && BodiesRead(ss[5].payload)
  }

  /** What the checker asserts of the bytes of a module. */
  ghost predicate Passes(binary: seq<byte>, family: Family)
  {
    |binary| < 2048 && exists ss: seq<Section> :: Laid(binary, ss) && |ss| == 6 && Holds(ss, family)
  }

  /** The checker accepts exactly the short modules in the required layout with the family's
      exports, tables and two closed bodies. */
  method CheckModule(binary: seq<byte>, family: Family) returns (ok: bool)
    ensures ok <==> Passes(binary, family)
  {
    hide Framed; hide Framable; hide ExportPayload; hide BodiesRead; hide UlebAt; hide Exports; hide ListedExports;
    var recovered := Sections(binary);
    if recovered.Failure? {
      return false;
    }
    var ss := recovered.value;
    assert Laid(binary, ss) && |ss| == |Idents(ss)| == 6;
    assert forall ts: seq<Section> :: Laid(binary, ts) ==> ts == ss;
    if |binary| >= 2048 {
      return false;
    }
    var exports := ExportRecords(ss[4].payload);
    ExportList(family);
    ExportsListed(family);
    if exports != Success(ListedExports(family)) {
      return false;
    }
    var tables := ReadUleb(ss[2].payload, 0);
    if tables.Failure? || tables.value.value != TableCount(family) {
      return false;
    }
    ok := CheckBodies(ss[5].payload);
  }

  // ----- Built modules -----

  lemma {:induction false} EndsWithEnd(ts: seq<Token>)
    requires AllEmitted(ts + [End])
    ensures Encode(ts + [End]) != [] && Encode(ts + [End])[|Encode(ts + [End])| - 1] == 0x0B
  {
    assert forall k :: 0 <= k < |ts| ==> (ts + [End])[k] == ts[k];
    EncodeAppend(ts, End);
  }

  lemma {:induction false} CodeParts(data: seq<byte>, x: seq<byte>, y: seq<byte>)
    requires data == Vector([Sized(x), Sized(y)])
    ensures |Uleb(2)| == 1 && data == Uleb(2) + Uleb(|x|) + x + Uleb(|y|) + y
  {
    TwoItems(Sized(x), Sized(y));
    SmallUleb(2);
    hide Uleb; hide Vector;
    var u, v, two := Uleb(|x|), Uleb(|y|), Uleb(2);
    assert two + (u + x) + (v + y) == two + u + x + v + y;
  }

  lemma {:induction false} SmallUleb(v: byte)
    requires v < 128
    ensures Uleb(v) == [v]
  {
  }

  /** What the checker reads from the code section. */
  lemma {:induction false} CodeReads(data: seq<byte>, x: seq<byte>, y: seq<byte>)
    requires data == Vector([Sized(x), Sized(y)]) && |x| <= MASK && |y| <= MASK
    ensures UlebAt(data, 0) == Some(Read(2, 1)) && UlebAt(data, 1) == Some(Read(|x|, 1 + |Uleb(|x|)|))
    ensures var second := 1 + |Sized(x)|;
            UlebAt(data, second) == Some(Read(|y|, second + |Uleb(|y|)|)) && second + |Sized(y)| == |data|
    ensures Occurs(data, 1 + |Uleb(|x|)|, x) && Occurs(data, 1 + |Sized(x)| + |Uleb(|y|)|, y)
  {
    hide Uleb; hide Vector; hide Occurs; hide UlebAt;
    var u, v := Uleb(|x|), Uleb(|y|);
    CodeParts(data, x, y);
    FiveParts(data, Uleb(2), u, x, v, y);
    Reads(data, 0, 2);
    Reads(data, 1, |x|);
    Reads(data, 1 + |u| + |x|, |y|);
  }

  lemma {:induction false} Reads(data: seq<byte>, offset: nat, v: nat)
    requires v <= MASK && Occurs(data, offset, Uleb(v))
    ensures UlebAt(data, offset) == Some(Read(v, offset + |Uleb(v)|))
  {
    hide Uleb; hide Occurs;
  }

  lemma {:induction false} FiveParts(data: seq<byte>, a: seq<byte>, b: seq<byte>, c: seq<byte>, d: seq<byte>,
                                     e: seq<byte>)
    requires data == a + b + c + d + e
    ensures Occurs(data, 0, a) && Occurs(data, |a|, b) && Occurs(data, |a| + |b|, c)
    ensures Occurs(data, |a| + |b| + |c|, d) && Occurs(data, |a| + |b| + |c| + |d|, e)
  {
    assert data[0..|data|] == data;
    assert Occurs(data, 0, a + b + c + d + e);
    hide Occurs;
    OccursSplit(data, 0, a + b + c + d, e);
    OccursSplit(data, 0, a + b + c, d);
    OccursSplit(data, 0, a + b, c);
    OccursSplit(data, 0, a, b);
  }

  lemma {:induction false} LastByte(data: seq<byte>, offset: nat, part: seq<byte>)
    requires Occurs(data, offset, part) && part != []
    ensures data[offset + |part| - 1] == part[|part| - 1]
  {
    assert data[offset..offset + |part|][|part| - 1] == data[offset + |part| - 1];
  }

  /** Short bodies that end in `end`. */
  ghost predicate Bodies(run: seq<byte>, start: seq<byte>)
  {
    && 0 < |run| <= 1758 && 0 < |start| <= 42
    && run[|run| - 1] == 0x0B && start[|start| - 1] == 0x0B
  }

  lemma {:induction false} BodiesReadBack(data: seq<byte>, family: Family, run: seq<byte>, start: seq<byte>)
    requires data == CodePayload(family, run, start) && Bodies(run, start)
    ensures BodiesRead(data)
  {
    LocalSize(family);
    hide LocalBytes; hide Uleb; hide Vector; hide UlebAt; hide Occurs;
    var x, y := LocalBytes(family) + run, [0x00] + start;
    CodeReads(data, x, y);
    var first := 1 + |Uleb(|x|)|;
    LastByte(data, first, x);
    LastByte(data, 1 + |Sized(x)| + |Uleb(|y|)|, y);
  }

  lemma {:induction false} TablesCounted(family: Family)
    ensures var data := Vector(TableBytes(family));
      UlebAt(data, 0).Some? && UlebAt(data, 0).value.value == TableCount(family)
  {
    assert Occurs(Vector(TableBytes(family)), 0, Uleb(TableCount(family)));
  }

  /** The emitted functions are short and closed. */
  lemma {:induction false} EmittedBodies(family: Family, phase: Phase, n: nat, e: Checksums)
    ensures AllEmitted(RunCode(family, phase, n, e)) && AllEmitted(StartCode(e))
    ensures Bodies(Encode(RunCode(family, phase, n, e)), Encode(StartCode(e)))
  {
    hide Encode; hide Flat; hide LoopTokens;
    FunctionSizes(family, phase, n, e);
    var ts := RunCode(family, phase, n, e);
    assert ts == ts[..|ts| - 1] + [End];
    EndsWithEnd(ts[..|ts| - 1]);
    var us := StartCode(e);
    assert us == us[..|us| - 1] + [End];
    EndsWithEnd(us[..|us| - 1]);
  }

  /** The checker accepts every built module. */
  lemma {:induction false} BuiltPasses(binary: seq<byte>, family: Family, phase: Phase, n: nat)
    requires Built(binary, family, phase, n)
    ensures Passes(binary, family)
  {
    hide RunCode; hide StartCode; hide Encode; hide Expected; hide Framed; hide Vector; hide UlebAt; hide BodiesRead;
    hide ExportPayload; hide CodePayload; hide TypeBytes; hide TableBytes; hide Framable;
    var e := Expected(family, phase, n);
    EmittedBodies(family, phase, n, e);
    var run, start := Encode(RunCode(family, phase, n, e)), Encode(StartCode(e));
    LayoutMet(family, run, start);
    TablesCounted(family);
    ExportsListed(family);
    BodiesReadBack(CodePayload(family, run, start), family, run, start);
    assert Laid(binary, SectionsOf(family, run, start));
  }

  /** Building and checking never disagree: the flat reference confirms the reported
      checksums, the module passes, and the main loop allocates what the phase plans. */
  method BuildAndCheck(family: Family, phase: Phase, iterations: int) returns (r: Result<bool>)
    ensures if Accepted(iterations) then r == Success(true) else r.Failure?
  {
    hide Built; hide Passes; hide Expected; hide Objects;
    var built := Build(family, phase, iterations);
    if built.Failure? {
      return Failure("iterations");
    }
    var report := built.value.report;
    var arrays := new FlatReference.Arrays();
    var reference := arrays.ScalarReference(family, phase, iterations);
    if report.checksums != reference {
      return Success(false);
    }
    BuiltPasses(built.value.binary, family, phase, iterations);
    var ok := CheckModule(built.value.binary, family);
    if !ok {
      return Success(false);
    }
    r := Success(report.mainAllocations == if phase == Mutate then 0 else report.plannedAllocations);
  }
}
