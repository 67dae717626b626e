/**
  Length-prefixed messages in a byte stream, the length as a base-128 varint (Protocol Buffers
  Encoding, section "Base 128 Varints").
 */
module Protolib {
  import opened Common

  const TWO32: int := 0x1_0000_0000
  const TWO63: int := 0x8000_0000_0000_0000
  const TWO70: int := 0x40_0000_0000_0000_0000

  // ---------------------------------------------------------------------------------------------
  // Varints
  // ---------------------------------------------------------------------------------------------

  /** Seven bits per byte, least significant first; the high bit says that more follow. */
  function Varint(v: nat): seq<Byte>
  {
    if v < 128 then [v] else [128 + v % 128] + Varint(v / 128)
  }

  /** The number written in base 128 by the low bits of `bs`. */
  function Value(bs: seq<Byte>): nat
  {
    if bs == [] then 0 else bs[0] % 128 + 128 * Value(bs[1..])
  }

  /** Number of leading bytes that announce a continuation. */
  function Continued(bs: seq<Byte>): (n: nat)
    ensures n <= |bs|
    ensures forall i :: 0 <= i < n ==> bs[i] >= 128
    ensures n < |bs| ==> bs[n] < 128
  {
    if bs == [] || bs[0] < 128 then 0 else 1 + Continued(bs[1..])
  }

  /** The 32-bit mask of a decoded value; values of 64 bits and more with the sign bit set come out
      negative. */
  function Mask32(r: nat): int
  {
    if r >= TWO63 then r % TWO32 - TWO32 else r % TWO32
  }

  datatype Decoded = Eof | Done(size: int, taken: nat) | TooLong

  /** What the reader makes of a byte stream. */
  function Decode(bs: seq<Byte>): Decoded
  {
    var n := Continued(bs);
    if n >= 10 then TooLong
    else if n == |bs| then Eof
    else Done(Mask32(Value(bs[..n + 1])), n + 1)
  }

  /** The bytes the reader takes for a varint, also where it fails. */
  function BytesTaken(bs: seq<Byte>): (n: nat)
    ensures n <= |bs|
  {
    match Decode(bs) case Done(_, taken) => taken case TooLong => 10 case Eof => |bs|
  }

  lemma {:induction false} VarintShape(v: nat, rest: seq<Byte>)
    ensures |Varint(v)| >= 1 && Continued(Varint(v) + rest) == |Varint(v)| - 1 && Value(Varint(v)) == v
    decreases v
  {
    var bs := Varint(v);
    if v >= 128 {
      VarintShape(v / 128, rest);
      assert (bs + rest)[1..] == Varint(v / 128) + rest && bs[1..] == Varint(v / 128);
    } else {
      assert (bs + rest)[0] == v && bs[1..] == [];
    }
  }

  function Pow128(n: nat): nat { if n == 0 then 1 else 128 * Pow128(n - 1) }

  /** The length of a varint is the number of base-128 digits. */
  lemma {:induction false} VarintLength(v: nat, n: nat)
    requires n >= 1
    ensures |Varint(v)| <= n <==> v < Pow128(n)
    decreases n
  {
    if n > 1 {
      if v >= 128 {
        VarintLength(v / 128, n - 1);
      } else {
        Pow128Grows(n - 1);
      }
    }
  }

  lemma {:induction false} Pow128Grows(n: nat)
    ensures Pow128(n) >= 1
  {
    if n > 0 {
      Pow128Grows(n - 1);
    }
  }

  lemma TenDigits()
    ensures Pow128(10) == TWO70
  {
    assert Pow128(2) == 16384;
    assert Pow128(4) == 268435456;
    assert Pow128(6) == 4398046511104;
    assert Pow128(8) == 72057594037927936;
  }

  /** Reading back a varint: the value masked to 32 bits, or a failure beyond ten bytes. */
  lemma DecodeVarint(v: nat, rest: seq<Byte>)
    ensures Decode(Varint(v) + rest) == if v < TWO70 then Done(Mask32(v), |Varint(v)|) else TooLong
  {
    VarintShape(v, rest);
    VarintLength(v, 10);
    TenDigits();
    assert (Varint(v) + rest)[..|Varint(v)|] == Varint(v);
  }

  /** On any bytes, at most ten are taken, and the size is congruent to the base-128 value. */
  lemma DecodeCongruent(bs: seq<Byte>)
    ensures Decode(bs).Done? ==>
      && 1 <= Decode(bs).taken <= 10 && Decode(bs).taken <= |bs|
      && bs[Decode(bs).taken - 1] < 128
      && (Decode(bs).size - Value(bs[..Decode(bs).taken])) % TWO32 == 0
      && -TWO32 <= Decode(bs).size < TWO32
  {
    if Decode(bs).Done? {
      var v := Value(bs[..Decode(bs).taken]);
      CongruentToMod(v);
    }
  }

  lemma CongruentToMod(v: nat)
    ensures (v % TWO32 - v) % TWO32 == 0 && (v % TWO32 - TWO32 - v) % TWO32 == 0
  {
    var q := v / TWO32;
    assert v == q * TWO32 + v % TWO32;
    assert v % TWO32 - v == (-q) * TWO32;
    assert v % TWO32 - TWO32 - v == (-q - 1) * TWO32;
  }

  // ---------------------------------------------------------------------------------------------
  // Messages
  // ---------------------------------------------------------------------------------------------

  function Frame(p: seq<Byte>): seq<Byte> { Varint(|p|) + p }

  /** `size` bytes from the front, fewer at the end of the stream, all of them for a negative size. */
  function Take(bs: seq<Byte>, size: int): seq<Byte>
  {
    if size < 0 || size >= |bs| then bs else bs[..size]
  }

  datatype Message = Stop | Message(payload: seq<Byte>, rest: seq<Byte>)

  /** Read the payload behind its size; a size of zero ends the stream. */
  function ReadBody(body: seq<Byte>, size: int): Message
  {
    if size == 0 then Stop else Message(Take(body, size), body[|Take(body, size)|..])
  }

  /** Read one message; `Stop` when there is none, when its size is zero, or when its size is too
      long. */
  function ReadMessage(bs: seq<Byte>): Message
  {
    match Decode(bs)
    case Eof => Stop
    case TooLong => Stop
    case Done(size, taken) => ReadBody(bs[taken..], size)
  }

  lemma MaskBounds(v: nat)
    ensures v < TWO32 ==> Mask32(v) == v
    ensures TWO32 <= v < TWO63 ==> 0 <= Mask32(v) < v
    ensures TWO63 <= v ==> Mask32(v) < 0
  {
  }

  lemma ReadFramed(p: seq<Byte>, rest: seq<Byte>)
    ensures ReadMessage(Frame(p) + rest) == if |p| < TWO70 then ReadBody(p + rest, Mask32(|p|)) else Stop
  {
    var bs := Frame(p) + rest;
    assert bs == Varint(|p|) + (p + rest);
    DecodeVarint(|p|, p + rest);
    assert bs[|Varint(|p|)|..] == p + rest;
  }

  lemma BodyExactly(p: seq<Byte>, rest: seq<Byte>, size: int)
    ensures ReadBody(p + rest, size) == Message(p, rest) <==>
      size != 0 && (size == |p| || ((size < 0 || size > |p|) && rest == []))
  {
    var b := p + rest;
    assert b[..|p|] == p && b[|p|..] == rest;
    assert rest == [] ==> b == p;
  }

  /** A message read back is the message written exactly when its length is positive and fits in 32
      bits; or, past 63 bits, when it happens to be the last one. */
  lemma FrameExactly(p: seq<Byte>, rest: seq<Byte>)
    ensures ReadMessage(Frame(p) + rest) == Message(p, rest) <==>
      0 < |p| < TWO32 || (TWO63 <= |p| < TWO70 && rest == [])
  {
    ReadFramed(p, rest);
    BodyExactly(p, rest, Mask32(|p|));
    MaskBounds(|p|);
  }

  /** An empty message is not told from the end of the stream. */
  lemma {:induction false} EmptyMessageStops(rest: seq<Byte>)
    ensures ReadMessage(Frame([]) + rest) == Stop
  {
    ReadFramed([], rest);
    MaskBounds(0);
  }

  function WriteAll(ps: seq<seq<Byte>>): seq<Byte>
  {
    if ps == [] then [] else Frame(ps[0]) + WriteAll(ps[1..])
  }

  /** Messages read until one cannot be read. */
  function ReadAll(bs: seq<Byte>): seq<seq<Byte>>
    decreases |bs|
  {
    match ReadMessage(bs)
    case Stop => []
    case Message(p, rest) => DecodeCongruent(bs); [p] + ReadAll(rest)
  }

  /** The messages before the first empty one. */
  function UntilEmpty(ps: seq<seq<Byte>>): seq<seq<Byte>>
  {
    if ps == [] || ps[0] == [] then [] else [ps[0]] + UntilEmpty(ps[1..])
  }

  lemma {:induction false} UntilEmptyIsAll(ps: seq<seq<Byte>>)
    requires forall i :: 0 <= i < |ps| ==> ps[i] != []
    ensures UntilEmpty(ps) == ps
    decreases |ps|
  {
    if ps != [] {
      UntilEmptyIsAll(ps[1..]);
    }
  }

  lemma ReadAllStep(p: seq<Byte>, rest: seq<Byte>)
    requires |p| < TWO32
    ensures ReadAll(Frame(p) + rest) == if p == [] then [] else [p] + ReadAll(rest)
  {
    FrameExactly(p, rest);
    ReadFramed(p, rest);
    MaskBounds(|p|);
  }

  /** Stream round trip: payloads of less than 2^32 bytes come back in order, up to the first empty
      one; so a stream of non-empty payloads comes back complete and then ends. */
  lemma {:induction false} StreamRoundTrip(ps: seq<seq<Byte>>)
    requires forall i :: 0 <= i < |ps| ==> |ps[i]| < TWO32
    ensures ReadAll(WriteAll(ps)) == UntilEmpty(ps)
    ensures (forall i :: 0 <= i < |ps| ==> ps[i] != []) ==> ReadAll(WriteAll(ps)) == ps
    decreases |ps|
  {
    if ps != [] {
      StreamRoundTrip(ps[1..]);
      ReadAllStep(ps[0], WriteAll(ps[1..]));
    }
    if forall i :: 0 <= i < |ps| ==> ps[i] != [] {
      UntilEmptyIsAll(ps);
    }
  }

  // ---------------------------------------------------------------------------------------------
  // The reader and the writer, over files with a cursor
  // ---------------------------------------------------------------------------------------------

  class InFile {
    const data: seq<Byte>
    var pos: nat

    ghost predicate Valid()
      reads this
    {
      pos <= |data|
    }

    ghost function Rest(): seq<Byte>
      requires Valid()
      reads this
    {
      data[pos..]
    }

    constructor (data: seq<Byte>)
      ensures Valid() && Rest() == data
    {
      this.data, pos := data, 0;
      new;
      assert data[0..] == data;
    }

    method Read(size: int) returns (buf: seq<Byte>)
      requires Valid()
      modifies this
      ensures Valid() && buf == Take(old(Rest()), size) && Rest() == old(Rest())[|buf|..]
    {
      var end := if size < 0 || pos + size > |data| then |data| else pos + size;
      buf := data[pos..end];
      pos := end;
    }
  }

  class OutFile {
    var data: seq<Byte>

    constructor ()
      ensures data == []
    {
      data := [];
    }

    method Write(bytes: seq<Byte>)
      modifies this
      ensures data == old(data) + bytes
    {
      data := data + bytes;
    }
  }

  lemma {:induction false} ValueSnoc(bs: seq<Byte>, b: Byte)
    ensures Value(bs + [b]) == Value(bs) + (b % 128) * Pow128(|bs|)
    decreases |bs|
  {
    if bs == [] {
      assert [b][1..] == [];
    } else {
      assert (bs + [b])[1..] == bs[1..] + [b];
      ValueSnoc(bs[1..], b);
      Scaled(b % 128, Pow128(|bs| - 1));
    }
  }

  lemma Scaled(d: nat, p: nat)
    ensures 128 * (d * p) == d * (128 * p)
  {
  }

  /** The reader has taken `pos` bytes, which all announce a continuation and add up to `result`. */
  ghost predicate Reading(bs: seq<Byte>, pos: nat, result: nat)
  {
    pos <= |bs| && result == Value(bs[..pos]) && forall i :: 0 <= i < pos ==> bs[i] >= 128
  }

  lemma ReadByte(bs: seq<Byte>, pos: nat, result: nat)
    requires Reading(bs, pos, result) && pos < |bs|
    ensures result + (bs[pos] % 128) * Pow128(pos) == Value(bs[..pos + 1])
    ensures bs[pos] >= 128 ==> Reading(bs, pos + 1, Value(bs[..pos + 1]))
  {
    assert bs[..pos + 1] == bs[..pos] + [bs[pos]];
    ValueSnoc(bs[..pos], bs[pos]);
  }

  lemma {:induction false} ReadEnds(bs: seq<Byte>, pos: nat, result: nat)
    requires Reading(bs, pos, result)
    ensures pos >= 10 ==> Decode(bs) == TooLong && BytesTaken(bs) == 10
    ensures pos < 10 && pos == |bs| ==> Decode(bs) == Eof && BytesTaken(bs) == |bs|
    ensures pos < 10 && pos < |bs| && bs[pos] < 128 ==>
      Decode(bs) == Done(Mask32(Value(bs[..pos + 1])), pos + 1) && BytesTaken(bs) == pos + 1
  {
  }

  lemma TakeOne(bs: seq<Byte>, pos: nat)
    requires pos <= |bs|
    ensures Take(bs[pos..], 1) == if pos < |bs| then [bs[pos]] else []
    ensures pos < |bs| ==> bs[pos..][1..] == bs[pos + 1..]
    ensures pos == |bs| ==> bs[pos..][0..] == bs[pos..]
  {
  }

  /** Decode a varint byte by byte; `scale` is two to the power of `shift`. */
  method DecodeVarint32(f: InFile) returns (d: Decoded)
    requires f.Valid()
    modifies f
    ensures f.Valid() && d == Decode(old(f.Rest()))
    ensures f.Rest() == old(f.Rest())[BytesTaken(old(f.Rest()))..]
  {
    ghost var bs := f.Rest();
    var result: nat, shift: nat, scale: nat, pos: nat := 0, 0, 1, 0;
    assert bs[..0] == [];
    while true
      invariant f.Valid() && pos < 10 && Reading(bs, pos, result) && f.Rest() == bs[pos..]
      invariant shift == 7 * pos && scale == Pow128(pos)
      decreases 10 - pos
    {
      ReadEnds(bs, pos, result);
      TakeOne(bs, pos);
      var c := f.Read(1);
      if |c| == 0 {
        return Eof;
      }
      var b: nat := c[0];
      ReadByte(bs, pos, result);
      result := result + (b % 128) * scale;
      pos := pos + 1;
      if b < 128 {
        return Done(Mask32(result), pos);
      }
      ReadEnds(bs, pos, result);
      shift, scale := shift + 7, 128 * scale;
      if shift >= 64 {
        return TooLong;
      }
    }
  }

  method EncodeVarint32(out: OutFile, value: nat)
    modifies out
    ensures out.data == old(out.data) + Varint(value)
  {
    var bits, rest := value % 128, value / 128;
    while rest != 0
      invariant 0 <= bits < 128 && rest >= 0
      invariant out.data + Varint(bits + 128 * rest) == old(out.data) + Varint(value)
      decreases rest
    {
      ghost var v := bits + 128 * rest;
      assert Varint(v) == [128 + bits] + Varint(rest);
      assert out.data + Varint(v) == (out.data + [128 + bits]) + Varint(rest);
      out.Write([128 + bits]);
      bits, rest := rest % 128, rest / 128;
    }
    out.Write([bits]);
  }

  method EncodeMessage(out: OutFile, payload: seq<Byte>)
    modifies out
    ensures out.data == old(out.data) + Frame(payload)
  {
    EncodeVarint32(out, |payload|);
    out.Write(payload);
  }

  /** The payload of the next message, or nothing if no message could be read. */
  method DecodeMessage(f: InFile) returns (r: Option<seq<Byte>>)
    requires f.Valid()
    modifies f
    ensures f.Valid()
    ensures match ReadMessage(old(f.Rest()))
            case Stop => r == None
            case Message(p, rest) => r == Some(p) && f.Rest() == rest
    ensures r == None ==> f.Rest() == old(f.Rest())[BytesTaken(old(f.Rest()))..]
  {
    var d := DecodeVarint32(f);
    if !d.Done? || d.size == 0 {
      return None;
    }
    var buf := f.Read(d.size);
    return Some(buf);
  }
}
