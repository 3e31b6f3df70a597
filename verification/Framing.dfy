/**
 The packets of client3 and server3: an 8-byte header, two 32-bit words in
 network order, in front of the body, all inside one 10008-byte block.
 */
module Framing {
  import opened Bytes

  const HEADER := 8
  const MAX_BODY := 10000
  const BLOCK := 10008
  const WORD := 0x1_0000_0000

  /** Byte `i` of a word in network order (`htonl`). */
  function WordByte(n: nat, i: nat): Byte
    requires n < WORD && i < 4
  {
    if i == 0 then n / 0x100_0000
    else if i == 1 then n / 0x1_0000 % 0x100
    else if i == 2 then n / 0x100 % 0x100
    else n % 0x100
  }

  /** The word stored at offset `at` (`ntohl`). */
  function WordAt(buf: seq<Byte>, at: nat): (n: nat)
    requires at + 4 <= |buf|
    ensures n < WORD
  {
    buf[at] as int * 0x100_0000 + buf[at + 1] as int * 0x1_0000 + buf[at + 2] as int * 0x100 + buf[at + 3]
  }

  /** The buffer with a word stored at offset `at`. */
  function PutWord(buf: seq<Byte>, at: nat, n: nat): (buf': seq<Byte>)
    requires at + 4 <= |buf| && n < WORD
    ensures |buf'| == |buf|
    ensures forall i | 0 <= i < |buf| && !(at <= i < at + 4) :: buf'[i] == buf[i]
    ensures forall i | at <= i < at + 4 :: buf'[i] == WordByte(n, i - at)
  {
    buf[at := WordByte(n, 0)][at + 1 := WordByte(n, 1)][at + 2 := WordByte(n, 2)][at + 3 := WordByte(n, 3)]
  }

  /** Decoding what was encoded. */
  lemma DecodeEncode(buf: seq<Byte>, at: nat, n: nat)
    requires at + 4 <= |buf| && n < WORD
    requires forall i | at <= i < at + 4 :: buf[i] == WordByte(n, i - at)
    ensures WordAt(buf, at) == n
  {
    assert buf[at] == WordByte(n, 0) && buf[at + 1] == WordByte(n, 1);
    assert buf[at + 2] == WordByte(n, 2) && buf[at + 3] == WordByte(n, 3);
    assert n / 0x1_0000 == n / 0x100_0000 * 0x100 + n / 0x1_0000 % 0x100;
    assert n / 0x100 == n / 0x1_0000 * 0x100 + n / 0x100 % 0x100;
  }

  /** Encoding what was decoded. */
  lemma EncodeDecode(buf: seq<Byte>, at: nat)
    requires at + 4 <= |buf|
    ensures PutWord(buf, at, WordAt(buf, at)) == buf
  {
    var n := WordAt(buf, at);
    var a: int, b: int, c: int, d: int := buf[at], buf[at + 1], buf[at + 2], buf[at + 3];
    assert n == 0x100 * (0x1_0000 * a + 0x100 * b + c) + d;
    assert n / 0x100 == 0x100 * (0x100 * a + b) + c;
    assert n / 0x1_0000 == 0x100 * a + b;
    assert n / 0x100_0000 == a;
  }

  /** A word is made of its bytes, the most significant first. */
  lemma WordOfBytes(n: nat)
    requires n < WORD
    ensures n == ((WordByte(n, 0) * 0x100 + WordByte(n, 1)) * 0x100 + WordByte(n, 2)) * 0x100 + WordByte(n, 3)
  {
    assert n / 0x1_0000 == n / 0x100_0000 * 0x100 + n / 0x1_0000 % 0x100;
    assert n / 0x100 == n / 0x1_0000 * 0x100 + n / 0x100 % 0x100;
  }

  /** Network order: of two words the lesser has the lesser byte at the first place on the wire where they differ. */
  lemma NetworkOrder(a: nat, b: nat) returns (i: nat)
    requires a < b < WORD
    ensures i < 4 && WordByte(a, i) < WordByte(b, i)
    ensures forall k | 0 <= k < i :: WordByte(a, k) == WordByte(b, k)
  {
    WordOfBytes(a);
    WordOfBytes(b);
    if WordByte(a, 0) != WordByte(b, 0) {
      i := 0;
    } else if WordByte(a, 1) != WordByte(b, 1) {
      i := 1;
    } else if WordByte(a, 2) != WordByte(b, 2) {
      i := 2;
    } else {
      i := 3;
    }
  }

  /** 32-bit unsigned addition. */
  function Add32(a: nat, b: nat): (c: nat)
    requires a < WORD && b < WORD
    ensures c < WORD && (c == a + b || c == a + b - WORD)
  {
    if a + b >= WORD then a + b - WORD else a + b
  }

  /** `get_full_size()`. */
  function FullSize(buf: seq<Byte>): nat
    requires |buf| >= HEADER
  {
    Add32(HEADER, WordAt(buf, 0))
  }

  /** `inc_packet_count()`. */
  function IncCount(buf: seq<Byte>): (buf': seq<Byte>)
    requires |buf| >= HEADER
    ensures |buf'| == |buf|
  {
    PutWord(buf, 4, Add32(WordAt(buf, 4), 1))
  }

  // ---------- Frames ----------

  /** A packet: body length, packet count, and a body at least that long. */
  datatype Frame = Frame(length: nat, count: nat, body: seq<Byte>) {
    ghost predicate Ok() { length <= MAX_BODY && count < WORD && |body| == MAX_BODY }
    function Size(): nat { HEADER + length }
  }

  /** Byte `i` of a packet on the wire. */
  ghost function ByteOf(f: Frame, i: nat): Byte
    requires f.Ok() && i < f.Size()
  {
    if i < 4 then WordByte(f.length, i) else if i < 8 then WordByte(f.count, i - 4) else f.body[i - 8]
  }

  /** The first `n` bytes of the buffer are those of the packet. */
  ghost predicate Starts(buf: seq<Byte>, f: Frame, n: nat) {
    && f.Ok() && n <= f.Size() && |buf| == BLOCK
    && forall i | 0 <= i < n :: buf[i] == ByteOf(f, i)
  }

  /** The channel holds bytes `from .. to` of the packet and nothing else. */
  ghost predicate OnWire(wire: seq<Byte>, f: Frame, from: nat, to: nat) {
    && f.Ok() && from <= to <= f.Size() && |wire| == to - from
    && forall i | 0 <= i < |wire| :: wire[i] == ByteOf(f, from + i)
  }

  /** The buffer's body part is `body`. */
  ghost predicate BodyIs(buf: seq<Byte>, body: seq<Byte>) {
    && |buf| == BLOCK && |body| == MAX_BODY
    && forall i | HEADER <= i < BLOCK :: buf[i] == body[i - HEADER]
  }

  lemma HeaderOf(buf: seq<Byte>, f: Frame, n: nat)
    requires Starts(buf, f, n) && n >= HEADER
    ensures WordAt(buf, 0) == f.length && WordAt(buf, 4) == f.count
    ensures FullSize(buf) == f.Size()
  {
    forall i | 0 <= i < 4 ensures buf[i] == WordByte(f.length, i - 0) {
      assert buf[i] == ByteOf(f, i);
    }
    DecodeEncode(buf, 0, f.length);
    forall i | 4 <= i < 8 ensures buf[i] == WordByte(f.count, i - 4) {
      assert buf[i] == ByteOf(f, i);
    }
    DecodeEncode(buf, 4, f.count);
  }

  /** Writing a header over a body makes that packet. */
  lemma HeaderMakes(buf: seq<Byte>, f: Frame)
    requires BodyIs(buf, f.body) && f.Ok()
    ensures Starts(PutWord(PutWord(buf, 0, f.length), 4, f.count), f, f.Size())
    ensures BodyIs(PutWord(PutWord(buf, 0, f.length), 4, f.count), f.body)
  {
  }

  /** Storing another count over a packet changes the count and nothing else. */
  lemma CountMakes(buf: seq<Byte>, f: Frame, count: nat)
    requires Starts(buf, f, f.Size()) && count < WORD
    ensures Starts(PutWord(buf, 4, count), f.(count := count), f.Size())
  {
  }

  lemma IncMakes(buf: seq<Byte>, f: Frame)
    requires Starts(buf, f, f.Size()) && f.count + 1 < WORD
    ensures Starts(IncCount(buf), f.(count := f.count + 1), f.Size())
  {
    HeaderOf(buf, f, f.Size());
    CountMakes(buf, f, f.count + 1);
  }

  /** Sending `k` more bytes of a packet. */
  lemma SendChunk(wire: seq<Byte>, buf: seq<Byte>, f: Frame, from: nat, to: nat, k: nat)
    requires Starts(buf, f, f.Size()) && OnWire(wire, f, from, to) && to + k <= f.Size()
    ensures OnWire(wire + Sub(buf, to, k), f, from, to + k)
  {
  }

  /** Receiving `k` more bytes of a packet. */
  lemma ReceiveChunk(wire: seq<Byte>, buf: seq<Byte>, f: Frame, from: nat, to: nat, k: nat)
    requires Starts(buf, f, from) && OnWire(wire, f, from, to) && k <= |wire|
    ensures Starts(Stored(buf, from, Sub(wire, 0, k)), f, from + k)
    ensures OnWire(Sub(wire, k, |wire| - k), f, from + k, to)
    ensures BodyIs(buf, f.body) ==> BodyIs(Stored(buf, from, Sub(wire, 0, k)), f.body)
  {
  }
}
