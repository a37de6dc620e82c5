/** The binary form of the generated instructions: how each one is written, and that
    the bytes of a stream determine it. */
module Instructions {
  import opened Wrappers
  import opened Lcg
  import opened Machine
  import opened Codec

  // ----- Signed LEB128 -----

  /** The shortest signed encoding: the sign is bit 6 of the last byte. */
  function Sleb(v: int): (r: seq<byte>)
    ensures |r| >= 1
    decreases if v < 0 then -v else v
  {
    if -64 <= v < 64 then [v % 128] else [v % 128 + 128] + Sleb(v / 128)
  }

  /** The generator's encoder: seven bits at a time until the rest is the sign. */
  method EncodeSleb(value: int) returns (r: seq<byte>)
    ensures r == Sleb(value)
  {
    r := [];
    var rest := value;
    while true
      invariant r + Sleb(rest) == Sleb(value)
      decreases if rest < 0 then -rest else rest
    {
      var low := rest % 128;
      var before := rest;
      rest := rest / 128;
      var done := (rest == 0 && low < 64) || (rest == -1 && low >= 64);
      if done {
        r := r + [low];
        return;
      }
      assert r + Sleb(before) == (r + [low + 128]) + Sleb(rest);
      r := r + [low + 128];
    }
  }

  // ----- Reading integers back -----

  datatype Parsed<T> = Parsed(value: T, rest: seq<byte>)

  function ParseU(s: seq<byte>): (r: Option<Parsed<nat>>)
  {
    if s == [] then None
    else if s[0] < 128 then Some(Parsed(s[0], s[1..]))
    else match ParseU(s[1..])
      case None => None
      case Some(p) => Some(Parsed(s[0] - 128 + 128 * p.value, p.rest))
  }

  /** Seven bits as a signed number. */
  function Signed7(b: int): (v: int) { if b < 64 then b else b - 128 }

  function ParseS(s: seq<byte>): (r: Option<Parsed<int>>)
  {
    if s == [] then None
    else if s[0] < 128 then Some(Parsed(Signed7(s[0]), s[1..]))
    else match ParseS(s[1..])
      case None => None
      case Some(p) => Some(Parsed(s[0] - 128 + 128 * p.value, p.rest))
  }

  lemma {:induction false} ParseUleb(v: nat, rest: seq<byte>)
    ensures ParseU(Uleb(v) + rest) == Some(Parsed(v, rest))
  {
    var s := Uleb(v) + rest;
    if v < 128 {
      assert s[1..] == rest;
    } else {
      ParseUleb(v / 128, rest);
      assert s[1..] == Uleb(v / 128) + rest;
    }
  }

  /** Every integer is read back from its signed encoding, whatever follows. */
  lemma {:induction false} ParseSleb(v: int, rest: seq<byte>)
    ensures ParseS(Sleb(v) + rest) == Some(Parsed(v, rest))
    decreases if v < 0 then -v else v
  {
    var s := Sleb(v) + rest;
    if -64 <= v < 64 {
      assert s[1..] == rest;
    } else {
      ParseSleb(v / 128, rest);
      assert s[1..] == Sleb(v / 128) + rest;
    }
  }

  // ----- Instructions -----

  /** Instructions the generator uses. */
  predicate Emitted(t: Token)
  {
    match t
    case Plain(op) => !op.I32Eqz? && !op.Drop? && (op.I32Const? ==> -0x8000_0000 <= op.value < 0x8000_0000)
    case If => true
    case Loop => true
    case BrIf(_) => true
    case Call(_) => true
    case End => true
    case _ => false
  }

  function EncodeOp(op: Op): (r: seq<byte>)
    requires Emitted(Plain(op))
    ensures |r| >= 1
  {
    match op
    case I32Const(v) => [0x41] + Sleb(v)
    case LocalGet(i) => [0x20] + Uleb(i)
    case LocalSet(i) => [0x21] + Uleb(i)
    case GlobalGet(i) => [0x23] + Uleb(i)
    case GlobalSet(i) => [0x24] + Uleb(i)
    case TableGet(i) => [0x25] + Uleb(i)
    case TableSet(i) => [0x26] + Uleb(i)
    case I32Add => [0x6A]
    case I32Mul => [0x6C]
    case I32And => [0x71]
    case I32Xor => [0x73]
    case I32Ne => [0x47]
    case I32GeU => [0x4F]
    case I32LtU => [0x49]
    case RefNull => [0xD0, 0x00]
    case RefEq => [0xD3]
    case RefAsNonNull => [0xD4]
    case RefCast(t) => [0xFB] + Uleb(22) + Uleb(t)
    case StructNew(t) => [0xFB] + Uleb(0) + Uleb(t)
    case StructGet(t, f) => [0xFB] + Uleb(2) + Uleb(t) + Uleb(f)
    case StructSet(t, f) => [0xFB] + Uleb(5) + Uleb(t) + Uleb(f)
    case ArrayNew(t) => [0xFB] + Uleb(6) + Uleb(t)
    case ArrayGet(t) => [0xFB] + Uleb(11) + Uleb(t)
    case ArraySet(t) => [0xFB] + Uleb(14) + Uleb(t)
    case ArrayLen => [0xFB] + Uleb(15)
    case Unreachable => [0x00]
  }

  function EncodeToken(t: Token): (r: seq<byte>)
    requires Emitted(t)
    ensures |r| >= 1
  {
    match t
    case Plain(op) => EncodeOp(op)
    case If => [0x04, 0x40]
    case Loop => [0x03, 0x40]
    case BrIf(k) => [0x0D] + Uleb(k)
    case Call(f) => [0x10] + Uleb(f)
    case End => [0x0B]
  }

  ghost predicate AllEmitted(ts: seq<Token>) { forall k :: 0 <= k < |ts| ==> Emitted(ts[k]) }

  function Encode(ts: seq<Token>): (r: seq<byte>)
    requires forall k :: 0 <= k < |ts| ==> Emitted(ts[k])
  {
    if ts == [] then [] else EncodeToken(ts[0]) + Encode(ts[1..])
  }

  // ----- Reading instructions back -----

  function WithIndex(s: seq<byte>, make: nat -> Op): (r: Option<Parsed<Token>>)
  {
    match ParseU(s)
    case None => None
    case Some(p) => Some(Parsed(Plain(make(p.value)), p.rest))
  }

  function WithIndices(s: seq<byte>, make: (nat, nat) -> Op): (r: Option<Parsed<Token>>)
  {
    match ParseU(s)
    case None => None
    case Some(p) =>
      match ParseU(p.rest)
      case None => None
      case Some(q) => Some(Parsed(Plain(make(p.value, q.value)), q.rest))
  }

  /** After the prefix `0xFB`. */
  function ParseHeap(s: seq<byte>): (r: Option<Parsed<Token>>)
  {
    match ParseU(s)
    case None => None
    case Some(p) =>
      if p.value == 0 then WithIndex(p.rest, (t: nat) => StructNew(t))
      else if p.value == 2 then WithIndices(p.rest, (t: nat, f: nat) => StructGet(t, f))
      else if p.value == 5 then WithIndices(p.rest, (t: nat, f: nat) => StructSet(t, f))
      else if p.value == 6 then WithIndex(p.rest, (t: nat) => ArrayNew(t))
      else if p.value == 11 then WithIndex(p.rest, (t: nat) => ArrayGet(t))
      else if p.value == 14 then WithIndex(p.rest, (t: nat) => ArraySet(t))
      else if p.value == 15 then Some(Parsed(Plain(ArrayLen), p.rest))
      else if p.value == 22 then WithIndex(p.rest, (t: nat) => RefCast(t))
      else None
  }

  /** An instruction whose opcode is one byte. */
  function ParseShort(b: byte, s: seq<byte>): (r: Option<Parsed<Token>>)
  {
    if b == 0x00 then Some(Parsed(Plain(Unreachable), s))
    else if b == 0x0B then Some(Parsed(End, s))
    else if b == 0x47 then Some(Parsed(Plain(I32Ne), s))
    else if b == 0x49 then Some(Parsed(Plain(I32LtU), s))
    else if b == 0x4F then Some(Parsed(Plain(I32GeU), s))
    else if b == 0x6A then Some(Parsed(Plain(I32Add), s))
    else if b == 0x6C then Some(Parsed(Plain(I32Mul), s))
    else if b == 0x71 then Some(Parsed(Plain(I32And), s))
    else if b == 0x73 then Some(Parsed(Plain(I32Xor), s))
    else if b == 0xD3 then Some(Parsed(Plain(RefEq), s))
    else if b == 0xD4 then Some(Parsed(Plain(RefAsNonNull), s))
    else None
  }

  /** An instruction with a fixed second byte. */
  function ParsePair(b: byte, s: seq<byte>): (r: Option<Parsed<Token>>)
  {
    if s == [] then None
    else if b == 0x03 && s[0] == 0x40 then Some(Parsed(Loop, s[1..]))
    else if b == 0x04 && s[0] == 0x40 then Some(Parsed(If, s[1..]))
    else if b == 0xD0 && s[0] == 0x00 then Some(Parsed(Plain(RefNull), s[1..]))
    else None
  }

  /** An instruction with one index. */
  function ParseIndexed(b: byte, s: seq<byte>): (r: Option<Parsed<Token>>)
  {
    match ParseU(s)
    case None => None
    case Some(p) =>
      if b == 0x0D then Some(Parsed(BrIf(p.value), p.rest))
      else if b == 0x10 then Some(Parsed(Call(p.value), p.rest))
      else if b == 0x20 then Some(Parsed(Plain(LocalGet(p.value)), p.rest))
      else if b == 0x21 then Some(Parsed(Plain(LocalSet(p.value)), p.rest))
      else if b == 0x23 then Some(Parsed(Plain(GlobalGet(p.value)), p.rest))
      else if b == 0x24 then Some(Parsed(Plain(GlobalSet(p.value)), p.rest))
      else if b == 0x25 then Some(Parsed(Plain(TableGet(p.value)), p.rest))
      else if b == 0x26 then Some(Parsed(Plain(TableSet(p.value)), p.rest))
      else None
  }

  function ParseToken(s: seq<byte>): (r: Option<Parsed<Token>>)
  {
    if s == [] then None
    else
      var b, rest := s[0], s[1..];
      if b == 0xFB then ParseHeap(rest)
      else if b == 0x41 then
        match ParseS(rest)
        case None => None
        case Some(p) => Some(Parsed(Plain(I32Const(p.value)), p.rest))
      else if b in {0x03, 0x04, 0xD0} then ParsePair(b, rest)
      else if b in {0x0D, 0x10, 0x20, 0x21, 0x23, 0x24, 0x25, 0x26} then ParseIndexed(b, rest)
      else ParseShort(b, rest)
  }

  function Decode(s: seq<byte>): (r: Option<seq<Token>>)
    decreases |s|
  {
    if s == [] then Some([])
    else match ParseToken(s)
      case None => None
      case Some(p) =>
        if |p.rest| >= |s| then None
        else match Decode(p.rest)
          case None => None
          case Some(ts) => Some([p.value] + ts)
  }

  lemma {:induction false} Headed(b: byte, x: seq<byte>, rest: seq<byte>)
    ensures ([b] + x + rest)[0] == b && ([b] + x + rest)[1..] == x + rest
  {
  }

  /** A heap instruction with one type index is read back. */
  lemma {:induction false} ParseTyped(code: nat, t: nat, rest: seq<byte>)
    ensures ParseU(Uleb(code) + Uleb(t) + rest) == Some(Parsed(code, Uleb(t) + rest))
    ensures ParseU(Uleb(t) + rest) == Some(Parsed(t, rest))
  {
    assert Uleb(code) + Uleb(t) + rest == Uleb(code) + (Uleb(t) + rest);
    ParseUleb(code, Uleb(t) + rest);
    ParseUleb(t, rest);
  }

  lemma {:induction false} ParseOneIndex(op: Op, code: nat, rest: seq<byte>)
    requires (op.RefCast? && code == 22) || (op.StructNew? && code == 0) || (op.ArrayNew? && code == 6)
          || (op.ArrayGet? && code == 11) || (op.ArraySet? && code == 14)
    ensures ParseHeap(Uleb(code) + Uleb(op.typ) + rest) == Some(Parsed(Plain(op), rest))
  {
    hide ParseU; hide Uleb;
    ParseTyped(code, op.typ, rest);
  }

  lemma {:induction false} ParseTwoIndices(op: Op, code: nat, rest: seq<byte>)
    requires (op.StructGet? && code == 2) || (op.StructSet? && code == 5)
    ensures ParseHeap(Uleb(code) + Uleb(op.typ) + Uleb(op.field) + rest) == Some(Parsed(Plain(op), rest))
  {
    hide ParseU; hide Uleb;
    ParseTyped(code, op.typ, Uleb(op.field) + rest);
    ParseUleb(op.field, rest);
    assert Uleb(code) + Uleb(op.typ) + Uleb(op.field) + rest == Uleb(code) + Uleb(op.typ) + (Uleb(op.field) + rest);
  }

  /** Instructions with the prefix `0xFB`. */
  predicate HeapOp(op: Op)
  {
    || op.RefCast? || op.StructNew? || op.StructGet? || op.StructSet?
    || op.ArrayNew? || op.ArrayGet? || op.ArraySet? || op.ArrayLen?
  }

  lemma {:induction false} ParseHeapOp(op: Op, rest: seq<byte>)
    requires HeapOp(op)
    ensures ParseToken(EncodeOp(op) + rest) == Some(Parsed(Plain(op), rest))
  {
    hide ParseHeap; hide Uleb;
    match op
    case RefCast(t) => ParseOneIndex(op, 22, rest); HeapBytes(22, Uleb(t), rest);
    case StructNew(t) => ParseOneIndex(op, 0, rest); HeapBytes(0, Uleb(t), rest);
    case StructGet(t, f) => ParseTwoIndices(op, 2, rest); HeapBytes2(2, Uleb(t), Uleb(f), rest);
    case StructSet(t, f) => ParseTwoIndices(op, 5, rest); HeapBytes2(5, Uleb(t), Uleb(f), rest);
    case ArrayNew(t) => ParseOneIndex(op, 6, rest); HeapBytes(6, Uleb(t), rest);
    case ArrayGet(t) => ParseOneIndex(op, 11, rest); HeapBytes(11, Uleb(t), rest);
    case ArraySet(t) => ParseOneIndex(op, 14, rest); HeapBytes(14, Uleb(t), rest);
    case ArrayLen => ParseLength(rest); Headed(0xFB, Uleb(15), rest);
  }

  lemma {:induction false} ParseLength(rest: seq<byte>)
    ensures ParseHeap(Uleb(15) + rest) == Some(Parsed(Plain(ArrayLen), rest))
  {
    ParseUleb(15, rest);
  }

  lemma {:induction false} HeapBytes(code: nat, x: seq<byte>, rest: seq<byte>)
    ensures var s := [0xFB] + Uleb(code) + x + rest; s[0] == 0xFB && s[1..] == Uleb(code) + x + rest
  {
  }

  lemma {:induction false} HeapBytes2(code: nat, x: seq<byte>, y: seq<byte>, rest: seq<byte>)
    ensures var s := [0xFB] + Uleb(code) + x + y + rest; s[0] == 0xFB && s[1..] == Uleb(code) + x + y + rest
  {
  }

  /** Each instruction is read back, whatever follows it. */
  lemma {:induction false} ParseEncoded(t: Token, rest: seq<byte>)
    requires Emitted(t)
    ensures ParseToken(EncodeToken(t) + rest) == Some(Parsed(t, rest))
  {
    hide ParseHeap; hide ParseU; hide ParseS; hide Uleb; hide Sleb;
    var s := EncodeToken(t) + rest;
    if t.Plain? && HeapOp(t.op) {
      ParseHeapOp(t.op, rest);
    } else if t.Plain? && t.op.I32Const? {
      Headed(0x41, Sleb(t.op.value), rest);
      ParseSleb(t.op.value, rest);
    } else if t.If? || t.Loop? || (t.Plain? && t.op.RefNull?) {
      assert s[1..][1..] == rest;
    } else {
      ParseSimple(t, rest);
    }
  }

  lemma {:induction false} ParseSimple(t: Token, rest: seq<byte>)
    requires Emitted(t) && !t.If? && !t.Loop?
    requires t.Plain? ==> !HeapOp(t.op) && !t.op.I32Const? && !t.op.RefNull?
    ensures ParseToken(EncodeToken(t) + rest) == Some(Parsed(t, rest))
  {
    hide ParseHeap; hide ParseU; hide ParseS; hide Uleb; hide Sleb;
    var s := EncodeToken(t) + rest;
    if t.BrIf? || t.Call? || (t.Plain? && (t.op.LocalGet? || t.op.LocalSet? || t.op.GlobalGet? || t.op.GlobalSet?
                                           || t.op.TableGet? || t.op.TableSet?)) {
      var i := if t.BrIf? then t.depth else if t.Call? then t.callee else
        match t.op
        case LocalGet(i) => i
        case LocalSet(i) => i
        case GlobalGet(i) => i
        case GlobalSet(i) => i
        case TableGet(i) => i
        case TableSet(i) => i;
      ParseUleb(i, rest);
      Headed(s[0], Uleb(i), rest);
    } else {
      assert s[1..] == rest;
    }
  }

  /** The bytes of a stream determine it. */
  lemma {:induction false} DecodeEncoded(ts: seq<Token>)
    requires AllEmitted(ts)
    ensures Decode(Encode(ts)) == Some(ts)
  {
    hide ParseToken; hide EncodeToken;
    if ts != [] {
      DecodeEncoded(ts[1..]);
      ParseEncoded(ts[0], Encode(ts[1..]));
      assert [ts[0]] + ts[1..] == ts;
    }
  }

  lemma {:induction false} EncodeAppend(ts: seq<Token>, t: Token)
    requires AllEmitted(ts) && Emitted(t)
    ensures AllEmitted(ts + [t]) && Encode(ts + [t]) == Encode(ts) + EncodeToken(t)
  {
    hide EncodeToken;
    if ts == [] {
      assert ts + [t] == [t] && [t][1..] == [];
    } else {
      EncodeAppend(ts[1..], t);
      assert (ts + [t])[1..] == ts[1..] + [t];
    }
  }

  lemma {:induction false} UlebSize(v: nat)
    requires v < 128
    ensures |Uleb(v)| == 1
  {
  }

  lemma {:induction false} SlebSize(v: int)
    requires -0x8000_0000 <= v < 0x8000_0000
    ensures |Sleb(v)| <= 5
  {
    assert -64 <= v / 128 / 128 / 128 / 128 < 64;
    assert |Sleb(v / 128 / 128 / 128 / 128)| == 1;
    assert |Sleb(v / 128 / 128 / 128)| <= 2;
    assert |Sleb(v / 128 / 128)| <= 3;
    assert |Sleb(v / 128)| <= 4;
  }
}
