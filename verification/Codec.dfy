/** LEB128 integers, names, vectors, sections and exports of the WebAssembly
    binary format: the generator's encoders and the checker's strict decoders. */
module Codec {
  import opened Wrappers

  type byte = b: nat | b < 256

  const MASK: nat := 0xFFFF_FFFF

  // ----- Unsigned LEB128 -----

  /** The canonical encoding: seven bits per byte, low bits first. */
  function Uleb(value: nat): (r: seq<byte>)
    ensures |r| >= 1
  {
    if value < 128 then [value] else [value % 128 + 128] + Uleb(value / 128)
  }

  /** The generator's encoder; values outside u32 are refused. */
  method EncodeUleb(value: int) returns (r: Result<seq<byte>>)
    ensures r == if 0 <= value <= MASK then Success(Uleb(value)) else Failure("u32 out of range")
  {
    if value < 0 || value > MASK {
      return Failure("u32 out of range");
    }
    var out: seq<byte> := [];
    var rest: nat := value;
    while true
      invariant out + Uleb(rest) == Uleb(value)
      decreases rest
    {
      var low := rest % 128;
      var byte_ := rest;
      rest := rest / 128;
      if rest == 0 {
        return Success(out + [low]);
      }
      assert out + Uleb(byte_) == (out + [low + 128]) + Uleb(rest);
      out := out + [low + 128];
    }
  }

  /** What the first `n` bytes of a LEB128 stand for. */
  function Value(s: seq<byte>): (r: nat)
  {
    if s == [] then 0 else s[0] % 128 + 128 * Value(s[1..])
  }

  /** All bytes but the last carry the continuation bit. */
  lemma {:induction false} UlebShape(v: nat)
    ensures forall k :: 0 <= k < |Uleb(v)| - 1 ==> Uleb(v)[k] >= 128
    ensures Uleb(v)[|Uleb(v)| - 1] < 128
    decreases v
  {
    if v >= 128 {
      UlebShape(v / 128);
    }
  }

  lemma {:induction false} UlebValue(v: nat)
    ensures Value(Uleb(v)) == v
    decreases v
  {
    if v >= 128 {
      UlebValue(v / 128);
      assert Uleb(v)[1..] == Uleb(v / 128);
    } else {
      assert Uleb(v)[1..] == [];
    }
  }

  lemma {:induction false} UlebLength(v: nat)
    requires v <= MASK
    ensures |Uleb(v)| <= 5
  {
    assert v / 128 / 128 / 128 / 128 < 128;
    assert |Uleb(v / 128 / 128 / 128 / 128)| == 1;
    assert |Uleb(v / 128 / 128 / 128)| <= 2;
    assert |Uleb(v / 128 / 128)| <= 3;
    assert |Uleb(v / 128)| <= 4;
  }

  /** `part` occurs in `data` at `offset`. */
  ghost predicate Occurs(data: seq<byte>, offset: nat, part: seq<byte>)
  {
    offset + |part| <= |data| && data[offset..offset + |part|] == part
  }

  /** At most one value is encoded at an offset. */
  lemma {:induction false} UlebUnique(data: seq<byte>, offset: nat, v: nat, v': nat)
    requires Occurs(data, offset, Uleb(v)) && Occurs(data, offset, Uleb(v'))
    ensures v == v'
  {
    UlebShape(v);
    UlebShape(v');
    UlebValue(v);
    UlebValue(v');
    hide Uleb; hide Value; hide Occurs;
    if |Uleb(v)| <= |Uleb(v')| {
      SameStop(data, offset, Uleb(v), Uleb(v'));
    } else {
      SameStop(data, offset, Uleb(v'), Uleb(v));
    }
  }

  /** Two byte strings at one offset that stop at their first byte below 128 are equal. */
  lemma {:induction false} SameStop(data: seq<byte>, offset: nat, u: seq<byte>, u': seq<byte>)
    requires Occurs(data, offset, u) && Occurs(data, offset, u') && |u| <= |u'| && u != [] && u' != []
    requires u[|u| - 1] < 128 && forall k :: 0 <= k < |u'| - 1 ==> u'[k] >= 128
    ensures u == u'
  {
    assert data[offset + |u| - 1] == u[|u| - 1];
    assert data[offset + |u| - 1] == u'[|u| - 1];
  }

  datatype Read = Read(value: nat, next: nat)

  /** The decoder's reference: the u32 whose canonical encoding starts at `offset`, if any. */
  ghost function UlebAt(data: seq<byte>, offset: nat): (r: Option<Read>)
    ensures forall v: nat :: v <= MASK && Occurs(data, offset, Uleb(v)) ==> r == Some(Read(v, offset + |Uleb(v)|))
    ensures r.Some? ==> r.value.value <= MASK && Occurs(data, offset, Uleb(r.value.value))
                        && r.value.next == offset + |Uleb(r.value.value)|
  {
    if exists v: nat :: v <= MASK && Occurs(data, offset, Uleb(v)) then
      var v: nat :| v <= MASK && Occurs(data, offset, Uleb(v));
      assert forall v': nat :: Occurs(data, offset, Uleb(v')) ==> v' == v by {
        forall v': nat | Occurs(data, offset, Uleb(v')) ensures v' == v { UlebUnique(data, offset, v, v'); }
      }
      Some(Read(v, offset + |Uleb(v)|))
    else None
  }


  lemma {:induction false} ValueAppend(s: seq<byte>, b: byte)
    ensures Value(s + [b]) == Value(s) + Power128(|s|) * (b % 128)
    decreases |s|
  {
    if s == [] {
      assert (s + [b])[1..] == [];
    } else {
      ValueAppend(s[1..], b);
      assert (s + [b])[1..] == s[1..] + [b];
      assert 128 * (Power128(|s| - 1) * (b % 128)) == Power128(|s|) * (b % 128);
    }
  }

  function Power128(k: nat): (r: nat) { if k == 0 then 1 else 128 * Power128(k - 1) }

  /** A canonical encoding ends at the first byte without the continuation bit. */
  lemma {:induction false} EndsHere(data: seq<byte>, start: nat, n: nat, v: nat)
    requires start + n <= |data| && Occurs(data, start, Uleb(v))
    requires forall k :: start <= k < start + n ==> data[k] >= 128
    ensures |Uleb(v)| > n
    ensures start + n < |data| && data[start + n] < 128 ==> |Uleb(v)| == n + 1 && Value(data[start..start + n + 1]) == v
  {
    UlebShape(v);
    UlebValue(v);
    hide Uleb; hide Value;
    var u := Uleb(v);
    assert forall k :: 0 <= k < |u| ==> data[start + k] == u[k];
    assert data[start + |u| - 1] == u[|u| - 1];
  }

  /** The checker's decoder accepts exactly the canonical encodings of u32 values. The bits of
      successive groups are disjoint, so they are combined by addition. */
  method ReadUleb(data: seq<byte>, offset: nat) returns (r: Result<Read>)
    ensures r.Success? <==> UlebAt(data, offset).Some?
    ensures r.Success? ==> UlebAt(data, offset) == Some(r.value)
  {
    hide Uleb; hide UlebAt; hide Value; hide Occurs; hide Power128;
    var result, at, group, scale := 0, offset, 0, 1;
    FirstGroup();
    while group < 5
      invariant 0 <= group <= 5 && at == offset + group && (group > 0 ==> at <= |data|)
      invariant scale == Power128(group) && result == Value(if group > 0 then data[offset..at] else [])
      invariant forall k :: offset <= k < at ==> data[k] >= 128
    {
      if at >= |data| {
        Truncated(data, offset, group);
        return Failure("truncated LEB");
      }
      var b := data[at];
      NextGroup(data, offset, group, b);
      result := result + (b % 128) * scale;
      at := at + 1;
      if b < 128 {
        var canonical := EncodeUleb(result);
        if result > MASK || data[offset..at] != canonical.value {
          Mismatch(data, offset, group, result);
          return Failure("overflow/noncanonical LEB");
        }
        Matched(data, offset, at, result);
        return Success(Read(result, at));
      }
      group, scale := group + 1, 128 * scale;
    }
    Unterminated(data, offset);
    return Failure("unterminated LEB");
  }

  lemma {:induction false} FirstGroup()
    ensures Power128(0) == 1 && Value([]) == 0
  {
  }

  /** One more group of seven bits. */
  lemma {:induction false} NextGroup(data: seq<byte>, offset: nat, n: nat, b: byte)
    requires offset + n < |data| && data[offset + n] == b
    ensures Value(data[offset..offset + n + 1])
      == Value(if n > 0 then data[offset..offset + n] else []) + (b % 128) * Power128(n)
    ensures Power128(n + 1) == 128 * Power128(n)
  {
    hide Value;
    var s := data[offset..offset + n];
    assert data[offset..offset + n + 1] == s + [b];
    assert n == 0 ==> s == [];
    ValueAppend(s, b);
    assert (b % 128) * Power128(n) == Power128(n) * (b % 128);
  }

  lemma {:induction false} Matched(data: seq<byte>, offset: nat, at: nat, v: nat)
    requires offset <= at <= |data| && v <= MASK && data[offset..at] == Uleb(v)
    ensures UlebAt(data, offset) == Some(Read(v, at))
  {
    hide Uleb; hide UlebAt;
    assert Occurs(data, offset, Uleb(v));
  }

  lemma {:induction false} Truncated(data: seq<byte>, offset: nat, n: nat)
    requires offset + n >= |data| && (n > 0 ==> offset + n <= |data|)
    requires forall k :: offset <= k < offset + n ==> data[k] >= 128
    ensures UlebAt(data, offset).None?
  {
    forall v: nat | Occurs(data, offset, Uleb(v)) ensures false {
      if n > 0 {
        EndsHere(data, offset, n, v);
      }
    }
  }

  lemma {:induction false} Mismatch(data: seq<byte>, offset: nat, n: nat, result: nat)
    requires offset + n < |data| && data[offset + n] < 128 && result == Value(data[offset..offset + n + 1])
    requires forall k :: offset <= k < offset + n ==> data[k] >= 128
    requires result > MASK || data[offset..offset + n + 1] != Uleb(result)
    ensures UlebAt(data, offset).None?
  {
    forall v: nat | v <= MASK && Occurs(data, offset, Uleb(v)) ensures false {
      EndsHere(data, offset, n, v);
    }
  }

  lemma {:induction false} Unterminated(data: seq<byte>, offset: nat)
    requires offset + 5 <= |data| && forall k :: offset <= k < offset + 5 ==> data[k] >= 128
    ensures UlebAt(data, offset).None?
  {
    forall v: nat | v <= MASK && Occurs(data, offset, Uleb(v)) ensures false {
      EndsHere(data, offset, 5, v);
      UlebLength(v);
    }
  }

  // ----- Sections -----

  const HEADER: seq<byte> := [0x00, 0x61, 0x73, 0x6D, 0x01, 0x00, 0x00, 0x00]

  /** The section identifiers of a generated module, in order. */
  const LAYOUT: seq<byte> := [1, 3, 4, 6, 7, 10]

  datatype Section = Section(ident: byte, payload: seq<byte>)

  function Frame(s: Section): (r: seq<byte>) { [s.ident] + Uleb(|s.payload|) + s.payload }

  function Frames(ss: seq<Section>): (r: seq<byte>)
  {
    if ss == [] then [] else Frames(ss[..|ss| - 1]) + Frame(ss[|ss| - 1])
  }

  function Idents(ss: seq<Section>): (r: seq<byte>)
    ensures |r| == |ss|
  {
    seq(|ss|, k requires 0 <= k < |ss| => ss[k].ident)
  }

  ghost predicate Framable(ss: seq<Section>) { forall k :: 0 <= k < |ss| ==> |ss[k].payload| <= MASK }

  /** A module as the generator frames it. */
  function Framed(ss: seq<Section>): (r: seq<byte>) { HEADER + Frames(ss) }

  lemma {:induction false} FramesSplit(ss: seq<Section>, k: nat)
    requires k <= |ss|
    ensures Occurs(Frames(ss), 0, Frames(ss[..k])) && (k < |ss| ==> Occurs(Frames(ss), |Frames(ss[..k])|, Frame(ss[k])))
    ensures k < |ss| ==> |Frames(ss[..k])| < |Frames(ss)|
    decreases |ss|
  {
    if k == |ss| {
      assert ss[..k] == ss;
    } else {
      var init := ss[..|ss| - 1];
      assert init[..k] == ss[..k];
      FramesSplit(init, k);
      assert k < |init| ==> init[k] == ss[k];
      assert k == |init| ==> ss[..k] == init;
    }
  }

  lemma {:induction false} OccursSplit(data: seq<byte>, offset: nat, a: seq<byte>, b: seq<byte>)
    ensures Occurs(data, offset, a + b) <==> Occurs(data, offset, a) && Occurs(data, offset + |a|, b)
  {
    if Occurs(data, offset, a + b) {
      var whole := data[offset..offset + |a + b|];
      assert whole[..|a|] == data[offset..offset + |a|] && whole[|a|..] == data[offset + |a|..offset + |a| + |b|];
    }
    if Occurs(data, offset, a) && Occurs(data, offset + |a|, b) {
      assert data[offset..offset + |a + b|] == data[offset..offset + |a|] + data[offset + |a|..offset + |a| + |b|];
    }
  }

  /** A frame is its identifier, the size of the payload and the payload. */
  lemma {:induction false} FrameOccurs(data: seq<byte>, offset: nat, s: Section)
    ensures var body := offset + 1 + |Uleb(|s.payload|)|;
            Occurs(data, offset, Frame(s)) <==>
              offset < |data| && data[offset] == s.ident && Occurs(data, offset + 1, Uleb(|s.payload|))
                && Occurs(data, body, s.payload)
  {
    var u := Uleb(|s.payload|);
    OccursSplit(data, offset, [s.ident] + u, s.payload);
    OccursSplit(data, offset, [s.ident], u);
    assert offset < |data| ==> data[offset..offset + 1] == [data[offset]];
  }

  /** What the decoder sees at `offset` if `s` is framed there. */
  ghost predicate SectionReads(data: seq<byte>, offset: nat, s: Section)
  {
    var size := UlebAt(data, offset + 1);
    && offset < |data| && data[offset] == s.ident && size.Some? && size.value.value == |s.payload|
    && size.value.next + |s.payload| <= |data| && data[size.value.next..size.value.next + |s.payload|] == s.payload
  }

  lemma {:induction false} SectionReadsBack(data: seq<byte>, offset: nat, s: Section)
    requires |s.payload| <= MASK && Occurs(data, offset, Frame(s))
    ensures SectionReads(data, offset, s)
  {
    hide Uleb; hide Frame;
    FrameOccurs(data, offset, s);
  }

  /** Read the section at `offset`: at most one frame starts there. */
  method ReadSection(binary: seq<byte>, offset: nat) returns (r: Result<Section>)
    requires offset < |binary|
    ensures r.Success? ==> |r.value.payload| <= MASK && Occurs(binary, offset, Frame(r.value))
    ensures forall s: Section :: |s.payload| <= MASK && Occurs(binary, offset, Frame(s)) ==> r == Success(s)
  {
    var ident := binary[offset];
    hide Uleb; hide Frame; hide Occurs;
    forall s: Section | |s.payload| <= MASK && Occurs(binary, offset, Frame(s))
      ensures SectionReads(binary, offset, s)
    {
      SectionReadsBack(binary, offset, s);
    }
    var size := ReadUleb(binary, offset + 1);
    if size.Failure? {
      return Failure(size.reason);
    }
    var start := size.value.next;
    var end := start + size.value.value;
    if end > |binary| {
      return Failure("section beyond module");
    }
    OccursSlice(binary, start, end);
    FrameOccurs(binary, offset, Section(ident, binary[start..end]));
    return Success(Section(ident, binary[start..end]));
  }

  lemma {:induction false} OccursShift(head: seq<byte>, data: seq<byte>, offset: nat, part: seq<byte>)
    requires Occurs(data, offset, part)
    ensures Occurs(head + data, |head| + offset, part)
  {
    assert (head + data)[|head| + offset..|head| + offset + |part|] == data[offset..offset + |part|];
  }

  /** In a framed module the section after the first `k` starts where they end. */
  lemma {:induction false} NextSection(binary: seq<byte>, ss: seq<Section>, k: nat)
    requires binary == Framed(ss) && k < |ss|
    ensures Occurs(binary, 8 + |Frames(ss[..k])|, Frame(ss[k]))
  {
    hide Frames; hide Frame; hide Occurs;
    FramesSplit(ss, k);
    OccursShift(HEADER, Frames(ss), |Frames(ss[..k])|, Frame(ss[k]));
  }

  /** `records` are the first sections of every framing of the module. */
  ghost predicate Forced(binary: seq<byte>, records: seq<Section>)
  {
    forall ss: seq<Section> :: Framable(ss) && binary == Framed(ss) ==> records <= ss
  }

  /** While bytes remain, every framing has another section, and it starts at `offset`. */
  lemma {:induction false} ForcedNext(binary: seq<byte>, records: seq<Section>, ss: seq<Section>)
    requires binary == Framed(ss) && records <= ss && 8 + |Frames(records)| < |binary|
    ensures |records| < |ss| && Occurs(binary, 8 + |Frames(records)|, Frame(ss[|records|]))
  {
    assert ss[..|records|] == records;
    assert |records| == |ss| ==> ss == records;
    NextSection(binary, ss, |records|);
  }

  lemma {:induction false} ForcedAll(binary: seq<byte>, records: seq<Section>, ss: seq<Section>)
    requires binary == Framed(ss) == Framed(records) && records <= ss
    ensures ss == records
  {
    assert ss[..|records|] == records;
    FramesSplit(ss, |records|);
  }

  lemma {:induction false} FramesAppend(ss: seq<Section>, s: Section)
    ensures Frames(ss + [s]) == Frames(ss) + Frame(s)
  {
    assert (ss + [s])[..|ss|] == ss;
  }

  /** Reading one more section keeps `Forced`. */
  lemma {:induction false} ForcedExtend(binary: seq<byte>, records: seq<Section>, s: Section)
    requires Forced(binary, records) && 8 + |Frames(records)| < |binary|
    requires forall s': Section :: |s'.payload| <= MASK && Occurs(binary, 8 + |Frames(records)|, Frame(s')) ==> s' == s
    ensures Forced(binary, records + [s])
  {
    forall ss: seq<Section> | Framable(ss) && binary == Framed(ss) ensures records + [s] <= ss {
      ForcedNext(binary, records, ss);
      assert ss[|records|] == s;
    }
  }

  /** The checker recovers the sections of a module exactly when it is one framed in the required layout. */
  method Sections(binary: seq<byte>) returns (r: Result<seq<Section>>)
    ensures r.Success? ==> Framable(r.value) && Idents(r.value) == LAYOUT && binary == Framed(r.value)
    ensures forall ss: seq<Section> :: Framable(ss) && Idents(ss) == LAYOUT && binary == Framed(ss) ==> r == Success(ss)
  {
    hide Frame; hide Frames; hide Uleb;
    if |binary| < 8 || binary[..8] != HEADER {
      forall ss: seq<Section> ensures binary != Framed(ss) { assert Framed(ss)[..8] == HEADER; }
      return Failure("bad module header");
    }
    var offset, records := 8, [];
    NoFrames();
    while offset != |binary|
      invariant 8 <= offset <= |binary| && Framable(records) && offset == 8 + |Frames(records)|
      invariant binary[..offset] == Framed(records)
      invariant Forced(binary, records)
      decreases |binary| - offset
    {
      var section := ReadSection(binary, offset);
      if section.Failure? {
        forall ss: seq<Section> | Framable(ss) ensures binary != Framed(ss) {
          if binary == Framed(ss) { ForcedNext(binary, records, ss); }
        }
        return Failure(section.reason);
      }
      ForcedExtend(binary, records, section.value);
      FramesAppend(records, section.value);
      FrameNonempty(section.value);
      var next := offset + |Frame(section.value)|;
      assert binary[..next] == binary[..offset] + binary[offset..next];
      records := records + [section.value];
      offset := next;
    }
    assert binary[..offset] == binary;
    forall ss: seq<Section> | Framable(ss) && binary == Framed(ss) ensures ss == records {
      ForcedAll(binary, records, ss);
    }
    if Idents(records) != LAYOUT {
      return Failure("unexpected section layout");
    }
    return Success(records);
  }

  lemma {:induction false} NoFrames()
    ensures Frames([]) == []
  {
  }

  lemma {:induction false} FrameNonempty(s: Section)
    ensures |Frame(s)| > 0
  {
  }

  // ----- Exports -----

  /** Names are byte strings; whether they are valid UTF-8 is not part of this model. */
  datatype Export = Export(name: seq<byte>, kind: byte, index: nat)

  ghost predicate Encodable(e: Export) { |e.name| <= MASK && e.index <= MASK }

  function ExportBytes(e: Export): (r: seq<byte>)
    ensures |r| >= 3
  {
    Uleb(|e.name|) + e.name + [e.kind] + Uleb(e.index)
  }

  function ExportsBytes(es: seq<Export>): (r: seq<byte>)
  {
    if es == [] then [] else ExportsBytes(es[..|es| - 1]) + ExportBytes(es[|es| - 1])
  }

  /** The payload of the export section: a vector of exports. */
  function ExportPayload(es: seq<Export>): (r: seq<byte>) { Uleb(|es|) + ExportsBytes(es) }

  ghost predicate AllEncodable(es: seq<Export>) { |es| <= MASK && forall k :: 0 <= k < |es| ==> Encodable(es[k]) }

  lemma {:induction false} ExportOccurs(data: seq<byte>, offset: nat, e: Export)
    ensures var start := offset + |Uleb(|e.name|)|;
            var at := start + |e.name|;
            Occurs(data, offset, ExportBytes(e)) <==>
              Occurs(data, offset, Uleb(|e.name|)) && Occurs(data, start, e.name)
              && at < |data| && data[at] == e.kind && Occurs(data, at + 1, Uleb(e.index))
  {
    var u, n, v := Uleb(|e.name|), e.name, Uleb(e.index);
    OccursSplit(data, offset, u + n + [e.kind], v);
    OccursSplit(data, offset, u + n, [e.kind]);
    OccursSplit(data, offset, u, n);
    var at := offset + |u| + |n|;
    assert at < |data| ==> data[at..at + 1] == [data[at]];
  }

  lemma {:induction false} OccursSlice(data: seq<byte>, start: nat, end: nat)
    requires start <= end <= |data|
    ensures Occurs(data, start, data[start..end])
  {
  }

  /** What the decoder sees at `offset` if `e` is encoded there. */
  ghost predicate ExportReads(data: seq<byte>, offset: nat, e: Export)
  {
    var name := UlebAt(data, offset);
    && name.Some? && name.value.value == |e.name|
    && var at := name.value.next + |e.name|;
    && at < |data| && data[name.value.next..at] == e.name && data[at] == e.kind
    && UlebAt(data, at + 1).Some? && UlebAt(data, at + 1).value.value == e.index
  }

  lemma {:induction false} ExportReadsBack(data: seq<byte>, offset: nat, e: Export)
    requires Encodable(e) && Occurs(data, offset, ExportBytes(e))
    ensures ExportReads(data, offset, e)
  {
    hide Uleb; hide ExportBytes;
    ExportOccurs(data, offset, e);
  }

  /** Read the export at `offset`: at most one starts there. */
  method ReadExport(data: seq<byte>, offset: nat) returns (r: Result<Export>)
    ensures r.Success? ==> Encodable(r.value) && Occurs(data, offset, ExportBytes(r.value))
    ensures forall e: Export :: Encodable(e) && Occurs(data, offset, ExportBytes(e)) ==> r == Success(e)
  {
    hide Uleb;
    hide ExportBytes; hide Occurs;
    forall e: Export | Encodable(e) && Occurs(data, offset, ExportBytes(e)) ensures ExportReads(data, offset, e) {
      ExportReadsBack(data, offset, e);
    }
    var size := ReadUleb(data, offset);
    if size.Failure? {
      return Failure(size.reason);
    }
    var start := size.value.next;
    if size.value.value > |data| - start || start + size.value.value == |data| {
      return Failure("truncated export name/kind");
    }
    var at := start + size.value.value;
    var kind := data[at];
    var index := ReadUleb(data, at + 1);
    if index.Failure? {
      return Failure(index.reason);
    }
    OccursSlice(data, start, at);
    ExportOccurs(data, offset, Export(data[start..at], kind, index.value.value));
    return Success(Export(data[start..at], kind, index.value.value));
  }

  lemma {:induction false} ExportsSplit(es: seq<Export>, k: nat)
    requires k <= |es|
    ensures Occurs(ExportsBytes(es), 0, ExportsBytes(es[..k]))
    ensures k < |es| ==> Occurs(ExportsBytes(es), |ExportsBytes(es[..k])|, ExportBytes(es[k]))
    decreases |es|
  {
    hide ExportBytes;
    if k == |es| {
      assert es[..k] == es;
    } else {
      var init := es[..|es| - 1];
      assert init[..k] == es[..k];
      ExportsSplit(init, k);
      assert k < |init| ==> init[k] == es[k];
      assert k == |init| ==> es[..k] == init;
    }
  }

  lemma {:induction false} ExportsAppend(es: seq<Export>, e: Export)
    ensures ExportsBytes(es + [e]) == ExportsBytes(es) + ExportBytes(e) && ExportsBytes([]) == []
  {
    assert (es + [e])[..|es|] == es;
  }

  /** `records` begin every list of exports that the payload can encode. */
  ghost predicate ForcedExports(data: seq<byte>, records: seq<Export>)
  {
    forall es: seq<Export> :: AllEncodable(es) && data == ExportPayload(es) ==> records <= es
  }

  lemma {:induction false} NextExport(data: seq<byte>, es: seq<Export>, k: nat)
    requires data == ExportPayload(es) && k < |es|
    ensures Occurs(data, |Uleb(|es|)| + |ExportsBytes(es[..k])|, ExportBytes(es[k]))
  {
    hide ExportBytes; hide ExportsBytes; hide Uleb; hide Occurs;
    ExportsSplit(es, k);
    OccursShift(Uleb(|es|), ExportsBytes(es), |ExportsBytes(es[..k])|, ExportBytes(es[k]));
  }

  /** The next export of every list that the payload can encode starts where the ones read end. */
  lemma {:induction false} ForcedExport(data: seq<byte>, records: seq<Export>, es: seq<Export>, head: nat)
    requires ForcedExports(data, records) && AllEncodable(es) && data == ExportPayload(es) && head == |Uleb(|es|)|
    requires |records| < |es|
    ensures var i := |records|; Encodable(es[i]) && records + [es[i]] <= es
    ensures Occurs(data, head + |ExportsBytes(records)|, ExportBytes(es[|records|]))
  {
    hide ExportBytes; hide Uleb; hide ExportsBytes; hide ExportPayload; hide Occurs;
    assert es[..|records|] == records;
    NextExport(data, es, |records|);
  }

  lemma {:induction false} OccursNext(data: seq<byte>, head: nat, offset: nat, part: seq<byte>)
    requires head <= offset && Occurs(data, offset, part)
    ensures offset + |part| <= |data| && data[head..offset + |part|] == data[head..offset] + part
  {
  }

  lemma {:induction false} CountOccurs(data: seq<byte>, es: seq<Export>)
    requires AllEncodable(es) && data == ExportPayload(es)
    ensures UlebAt(data, 0) == Some(Read(|es|, |Uleb(|es|)|))
  {
    assert Occurs(data, 0, Uleb(|es|));
  }

  /** The checker recovers the export list exactly from the payloads that encode one. */
  method ExportRecords(data: seq<byte>) returns (r: Result<seq<Export>>)
    ensures r.Success? ==> AllEncodable(r.value) && data == ExportPayload(r.value)
    ensures forall es: seq<Export> :: AllEncodable(es) && data == ExportPayload(es) ==> r == Success(es)
  {
    hide ExportBytes; hide ExportsBytes; hide Uleb; hide ExportPayload; hide UlebAt; hide Occurs;
    forall es: seq<Export> | AllEncodable(es) && data == ExportPayload(es)
      ensures UlebAt(data, 0) == Some(Read(|es|, |Uleb(|es|)|))
    {
      CountOccurs(data, es);
    }
    var count := ReadUleb(data, 0);
    if count.Failure? {
      return Failure(count.reason);
    }
    var head := count.value.next;
    OccursNext(data, 0, 0, Uleb(count.value.value));
    var offset, records := head, [];
    ExportsAppend([], Export([], 0, 0));
    for i := 0 to count.value.value
      invariant |records| == i && AllEncodable(records) && offset == head + |ExportsBytes(records)| <= |data|
      invariant data[head..offset] == ExportsBytes(records)
      invariant ForcedExports(data, records)
    {
      var export_ := ReadExport(data, offset);
      forall es: seq<Export> | AllEncodable(es) && data == ExportPayload(es)
        ensures Encodable(es[i]) && Occurs(data, offset, ExportBytes(es[i])) && records + [es[i]] <= es
      {
        ForcedExport(data, records, es, head);
      }
      if export_.Failure? {
        return Failure(export_.reason);
      }
      ExportsAppend(records, export_.value);
      var next := offset + |ExportBytes(export_.value)|;
      OccursNext(data, head, offset, ExportBytes(export_.value));
      records := records + [export_.value];
      offset := next;
    }
    forall es: seq<Export> | AllEncodable(es) && data == ExportPayload(es) ensures es == records && offset == |data| {
      PayloadEnd(data, records, es);
    }
    if offset != |data| {
      return Failure("extra export section bytes");
    }
    PayloadWhole(data, records, head);
    return Success(records);
  }

  lemma {:induction false} PayloadEnd(data: seq<byte>, records: seq<Export>, es: seq<Export>)
    requires data == ExportPayload(es) && records <= es && |records| == |es|
    ensures es == records && |Uleb(|es|)| + |ExportsBytes(records)| == |data|
  {
    assert es == records;
  }

  lemma {:induction false} PayloadWhole(data: seq<byte>, records: seq<Export>, head: nat)
    requires head <= |data| && Occurs(data, 0, Uleb(|records|)) && head == |Uleb(|records|)|
    requires data[head..] == ExportsBytes(records)
    ensures data == ExportPayload(records)
  {
    assert data == data[..head] + data[head..];
  }
}
