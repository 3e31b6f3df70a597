/**
 asio's `basic_streambuf`: a byte FIFO in one growing vector.

 The input sequence lies between `gptr` and `pptr`, the output sequence between
 `pptr` and `epptr`. `Reserve` slides the input sequence to the front and grows
 the vector. All stream pointers are offsets from `&buffer_[0]`; `eback` is
 always 0.
 */
module Streambufs {
  import opened Bytes

  const BUFFER_DELTA := 128
  const INT_MAX := 0x7fff_ffff

  /** The vector after `memmove` of `n` bytes from offset `g` to the front. */
  function Slid(v: seq<Byte>, g: nat, n: nat): (v': seq<Byte>)
    requires g + n <= |v|
    ensures |v'| == |v|
  {
    seq(|v|, i requires 0 <= i < |v| => if i < n then v[g + i] else v[i])
  }

  /** `vector::resize`: new elements are zero. */
  function Resized(v: seq<Byte>, n: nat): (v': seq<Byte>)
    ensures |v'| == n
  {
    seq(n, i requires 0 <= i < n => if i < |v| then v[i] else 0)
  }

  /** Sliding, and then growing, keeps the bytes that were slid. */
  lemma SlideThenGrow(v: seq<Byte>, g: nat, n: nat, size: nat)
    requires g + n <= |v| && n <= size
    ensures Sub(Resized(Slid(v, g, n), size), 0, n) == Sub(v, g, n)
    ensures Sub(Slid(v, g, n), 0, n) == Sub(v, g, n)
    ensures g == 0 ==> Slid(v, g, n) == v
    ensures g == 0 || n <= g ==> Sub(Slid(v, g, n), g, n) == Sub(v, g, n)
  {
  }

  /**
   Sliding without moving the pointers, which is what a throwing `reserve`
   leaves behind, shows the input sequence unchanged whatever its bytes exactly
   when nothing slid or the slide did not reach the old place of the input.
   */
  lemma SlideInPlaceHarmless(g: nat, n: nat, length: nat)
    requires g + n <= length
    ensures (forall v: seq<Byte> | |v| == length :: Sub(Slid(v, g, n), g, n) == Sub(v, g, n)) <==> g == 0 || n <= g
  {
    if 0 < g < n {
      var v: seq<Byte> := seq(length, i requires 0 <= i < length => if g <= i < g + g then 0 as Byte else 1 as Byte);
      assert |v| == length;
      assert Slid(v, g, n)[g] == v[g + g] == 1 && v[g] == 0;
      assert Sub(Slid(v, g, n), g, n)[0] != Sub(v, g, n)[0];
    }
  }

  // ---------- The pointers and the vector ----------

  datatype Area = Area(buffer: seq<Byte>, gptr: nat, egptr: nat, pbase: nat, pptr: nat, epptr: nat)

  /** Pointer order and the exact vector size; these survive an exception. */
  predicate Ordered(a: Area) {
    a.gptr <= a.egptr <= a.pptr <= a.epptr && a.pbase <= a.pptr && |a.buffer| == Max(a.epptr, 1)
  }

  function SizeOf(a: Area): nat
    requires Ordered(a)
  {
    a.pptr - a.gptr
  }

  /** The input sequence. */
  function DataOf(a: Area): (d: seq<Byte>)
    requires Ordered(a)
    ensures |d| == SizeOf(a)
  {
    Sub(a.buffer, a.gptr, a.pptr - a.gptr)
  }

  /** Bytes free behind the input sequence. */
  function Room(a: Area): nat
    requires Ordered(a)
  {
    a.epptr - a.pptr
  }

  /** `reserve(n)` finds too little room even after sliding, and may not grow enough. */
  predicate Throws(a: Area, n: nat, max: nat)
    requires Ordered(a)
  {
    n > Room(a) && n > a.epptr - SizeOf(a) && !(n <= max && SizeOf(a) <= max - n)
  }

  /** The input slid to the front, with `pend` bytes in use. */
  function SlidTo(a: Area, buffer: seq<Byte>, pend: nat): Area
    requires Ordered(a)
  {
    Area(buffer, 0, SizeOf(a), SizeOf(a), SizeOf(a), pend)
  }

  /** `reserve(n)`. It slides the vector before it can throw, and when it throws moves no pointer. */
  function Reserved(a: Area, n: nat, max: nat): Area
    requires Ordered(a)
  {
    var slid := Slid(a.buffer, a.gptr, SizeOf(a));
    var pend := SizeOf(a) + n;
    if n <= Room(a) then a
    else if n <= a.epptr - SizeOf(a) then SlidTo(a, slid, a.epptr)
    else if Throws(a, n, max) then a.(buffer := slid)
    else SlidTo(a, Resized(slid, Max(pend, 1)), pend)
  }

  /** The documented condition for `length_error`, exactly. */
  lemma ThrowsIff(a: Area, n: nat, max: nat)
    requires Ordered(a) && a.epptr <= max
    ensures Throws(a, n, max) <==> SizeOf(a) + n > max
  {
  }

  /** Where the put area ends after a `reserve(n)` that had to move anything: no further than needed. */
  function EndAfter(a: Area, n: nat): nat
    requires Ordered(a)
  {
    Max(a.epptr, SizeOf(a) + n)
  }

  /**
   Unless it throws, `reserve(n)` keeps the data, makes room for `n` bytes and
   stays within the maximum. With room enough it does nothing at all; otherwise
   the data moves to the front and the area ends where it did, or where `n` bytes end.
   */
  lemma ReserveKeeps(a: Area, n: nat, max: nat)
    requires Ordered(a) && a.epptr <= max && !Throws(a, n, max)
    ensures var b := Reserved(a, n, max); Ordered(b) && b.epptr <= max && DataOf(b) == DataOf(a) && Room(b) >= n
    ensures n <= Room(a) ==> Reserved(a, n, max) == a
    ensures n > Room(a) ==>
              var b := Reserved(a, n, max);
              b.gptr == 0 && b.egptr == b.pbase == b.pptr == SizeOf(a) && b.epptr == EndAfter(a, n)
  {
    SlideThenGrow(a.buffer, a.gptr, SizeOf(a), Max(SizeOf(a) + n, 1));
  }

  lemma ThrowKeepsPointers(a: Area, n: nat, max: nat)
    requires Ordered(a) && Throws(a, n, max)
    ensures var b := Reserved(a, n, max); Ordered(b) && b == a.(buffer := Slid(a.buffer, a.gptr, SizeOf(a)))
    ensures a.gptr == 0 || SizeOf(a) <= a.gptr ==> DataOf(Reserved(a, n, max)) == DataOf(a)
  {
    SlideThenGrow(a.buffer, a.gptr, SizeOf(a), SizeOf(a));
  }

  /** A `reserve` that throws would leave the data as it was, if the vector held `v`. */
  predicate Survives(a: Area, v: seq<Byte>, n: nat, max: nat)
    requires Ordered(a) && |v| == |a.buffer| && Throws(a, n, max)
  {
    DataOf(Reserved(a.(buffer := v), n, max)) == DataOf(a.(buffer := v))
  }

  lemma SurvivesIff(a: Area, v: seq<Byte>, n: nat, max: nat)
    requires Ordered(a) && |v| == |a.buffer| && Throws(a, n, max)
    ensures Survives(a, v, n, max) <==> Sub(Slid(v, a.gptr, SizeOf(a)), a.gptr, SizeOf(a)) == Sub(v, a.gptr, SizeOf(a))
  {
  }

  /**
   A throwing `reserve` keeps the data, whatever bytes the vector holds, if and
   only if nothing was consumed since the input was last at the front, or the
   input is no longer than what was consumed since.
   */
  lemma ThrowKeepsDataIff(a: Area, n: nat, max: nat)
    requires Ordered(a) && Throws(a, n, max)
    ensures (forall v: seq<Byte> | |v| == |a.buffer| :: Survives(a, v, n, max)) <==> a.gptr == 0 || SizeOf(a) <= a.gptr
  {
    var g, size := a.gptr, SizeOf(a);
    SlideInPlaceHarmless(g, size, |a.buffer|);
    if g == 0 || size <= g {
      forall v: seq<Byte> | |v| == |a.buffer| ensures Survives(a, v, n, max) {
        SurvivesIff(a, v, n, max);
      }
    } else {
      var v: seq<Byte> :| |v| == |a.buffer| && Sub(Slid(v, g, size), g, size) != Sub(v, g, size);
      SurvivesIff(a, v, n, max);
    }
  }

  lemma Regroup(before: seq<Byte>, v: seq<Byte>, from: nat, a: nat, b: nat)
    requires from + a + b <= |v|
    ensures before + Sub(v, from, a + b) == (before + Sub(v, from, a)) + Sub(v, from + a, b)
  {
    SubSplit(v, from, a, b);
  }

  /** Moving the front of the input by `k` bytes splits the data there. */
  lemma ConsumeMeans(a: Area, egptr: nat, k: nat, consumed: seq<Byte>)
    requires Ordered(a) && k <= SizeOf(a) && egptr == if a.egptr < a.pptr then a.pptr else a.egptr
    ensures var b := a.(gptr := a.gptr + k, egptr := egptr);
            && Ordered(b) && DataOf(a) == Sub(a.buffer, a.gptr, k) + DataOf(b)
            && consumed + DataOf(a) == (consumed + Sub(a.buffer, a.gptr, k)) + DataOf(b)
  {
    SubSplit(a.buffer, a.gptr, k, SizeOf(a) - k);
    Regroup(consumed, a.buffer, a.gptr, k, SizeOf(a) - k);
  }

  /** Moving its end by `k` bytes adds what lies there. */
  lemma CommitMeans(a: Area, k: nat, consumed: seq<Byte>)
    requires Ordered(a) && k <= Room(a)
    ensures var b := a.(pptr := a.pptr + k, egptr := a.pptr + k);
            && Ordered(b) && DataOf(b) == DataOf(a) + Sub(a.buffer, a.pptr, k)
            && consumed + DataOf(b) == (consumed + DataOf(a)) + Sub(a.buffer, a.pptr, k)
  {
    SubSplit(a.buffer, a.gptr, SizeOf(a), k);
    Regroup(consumed, a.buffer, a.gptr, SizeOf(a), k);
  }

  // ---------- The object ----------

  class Streambuf {
    const maxSize: nat
    var buffer: seq<Byte>
    var gptr: nat
    var egptr: nat
    var pbase: nat
    var pptr: nat
    var epptr: nat
    // History: every byte that ever entered or left the input sequence, and
    // whether a throwing `reserve` has overwritten input bytes.
    ghost var committed: seq<Byte>
    ghost var consumed: seq<Byte>
    ghost var damaged: bool

    function Now(): Area
      reads this
    {
      Area(buffer, gptr, egptr, pbase, pptr, epptr)
    }

    ghost predicate Shape()
      reads this
    {
      Ordered(Now()) && epptr <= maxSize
    }

    /** The streambuf is a FIFO: what was consumed, followed by the input sequence, is what was committed. */
    ghost predicate Valid()
      reads this
    {
      && Shape()
      && (!damaged ==> committed == consumed + Data())
    }

    /** A failing `reserve` would slide the input over its own old place. */
    ghost predicate SlideOverlaps()
      reads this
    {
      0 < gptr < pptr - gptr
    }

    function Size(): nat
      requires Shape()
      reads this
    {
      pptr - gptr
    }

    /** `data()`: the input sequence. */
    function Data(): (d: seq<Byte>)
      requires Shape()
      reads this
      ensures |d| == Size()
    {
      DataOf(Now())
    }

    /** The output sequence. */
    function Output(): (d: seq<Byte>)
      requires Shape()
      reads this
      ensures |d| == epptr - pptr
    {
      Sub(buffer, pptr, epptr - pptr)
    }

    constructor (maximumSize: nat)
      ensures maxSize == maximumSize && Valid() && gptr == egptr == pbase == pptr == 0
      ensures epptr == Min(maximumSize, BUFFER_DELTA)
      ensures !damaged && committed == [] && consumed == []
    {
      maxSize := maximumSize;
      var pend := Min(maximumSize, BUFFER_DELTA);
      buffer := Resized([], Max(pend, 1));
      gptr, egptr := 0, 0;
      pbase, pptr, epptr := 0, 0, pend;
      committed, consumed, damaged := [], [], false;
    }

    /** `reserve(n)`: the pointer arithmetic. */
    method MakeRoom(n: nat) returns (ok: bool)
      requires Shape()
      modifies `buffer, `gptr, `egptr, `pbase, `pptr, `epptr
      ensures ok <==> !Throws(old(Now()), n, maxSize)
      ensures Now() == Reserved(old(Now()), n, maxSize)
    {
      var gnext, pnext, pend := gptr, pptr, epptr;
      if n <= pend - pnext {
        return true;
      }
      ghost var before := Now();
      Slide();
      pnext := pnext - gnext;
      if n > pend - pnext {
        if n <= maxSize && pnext <= maxSize - n {
          pend := pnext + n;
          buffer := Resized(buffer, Max(pend, 1));
        } else {
          return false;
        }
      }
      gptr, egptr := 0, pnext;
      pbase, pptr, epptr := pnext, pnext, pend;
      return true;
    }

    /** The `memmove` of `reserve`. */
    method Slide()
      requires Shape()
      modifies `buffer
      ensures buffer == Slid(old(buffer), gptr, pptr - gptr)
    {
      if gptr > 0 {
        buffer := Slid(buffer, gptr, pptr - gptr);
      } else {
        SlideThenGrow(buffer, 0, pptr, pptr);
      }
    }

    /** `reserve(n)`: what it means. */
    method Reserve(n: nat) returns (ok: bool)
      requires Valid()
      modifies this
      ensures Valid() && consumed == old(consumed) && committed == old(committed)
      ensures Now() == Reserved(old(Now()), n, maxSize)
      ensures ok <==> old(Size()) + n <= maxSize
      ensures ok ==> Data() == old(Data()) && epptr - pptr >= n && damaged == old(damaged)
      ensures ok && n <= old(epptr - pptr) ==> Now() == old(Now())
      ensures ok && n > old(epptr - pptr) ==> gptr == 0 && egptr == pbase == pptr && epptr == EndAfter(old(Now()), n)
      ensures !ok ==> Now() == old(Now()).(buffer := Slid(old(buffer), gptr, Size()))
      ensures !ok ==> damaged == (old(damaged) || SlideOverlaps())
      ensures !ok && !SlideOverlaps() ==> Data() == old(Data())
    {
      ghost var before := Now();
      ThrowsIff(before, n, maxSize);
      ok := MakeRoom(n);
      if ok {
        ReserveKeeps(before, n, maxSize);
      } else {
        ThrowKeepsPointers(before, n, maxSize);
        damaged := damaged || SlideOverlaps();
      }
    }

    /** `prepare(n)`: on success the returned buffer is the `n` bytes from offset `start` on. */
    method Prepare(n: nat) returns (ok: bool, start: nat)
      requires Valid()
      modifies this
      ensures Valid() && consumed == old(consumed) && committed == old(committed)
      ensures Now() == Reserved(old(Now()), n, maxSize)
      ensures ok <==> old(Size()) + n <= maxSize
      ensures ok ==> Data() == old(Data()) && start == pptr && start + n <= epptr && damaged == old(damaged)
      ensures ok && n <= old(epptr - pptr) ==> Now() == old(Now())
      ensures ok && n > old(epptr - pptr) ==> gptr == 0 && egptr == pbase == pptr && epptr == EndAfter(old(Now()), n)
      ensures !ok ==> Now() == old(Now()).(buffer := Slid(old(buffer), gptr, Size()))
      ensures !ok ==> damaged == (old(damaged) || SlideOverlaps())
      ensures !ok && !SlideOverlaps() ==> Data() == old(Data())
    {
      ok := Reserve(n);
      start := pptr;
    }

    /** The caller writes into the prepared output sequence. */
    method Fill(bytes: seq<Byte>)
      requires Valid() && |bytes| <= epptr - pptr
      modifies `buffer
      ensures Valid() && Data() == old(Data()) && Output() == Stored(old(Output()), 0, bytes)
      ensures buffer == Stored(old(buffer), pptr, bytes)
    {
      ghost var data := Data();
      buffer := Stored(buffer, pptr, bytes);
      assert Data() == data;
    }

    /** `commit(n)`: moves the first `n` output bytes, or all of them if there are fewer, to the input. */
    method Commit(n: nat)
      requires Valid() && Min(n, epptr - pptr) <= INT_MAX
      modifies `pptr, `egptr, `committed
      ensures Valid() && pptr == old(pptr) + Min(n, epptr - old(pptr)) && egptr == pptr
      ensures Data() == old(Data()) + Sub(buffer, old(pptr), pptr - old(pptr))
      ensures committed == old(committed) + Sub(buffer, old(pptr), pptr - old(pptr))
    {
      var k := n;
      if pptr + k > epptr {
        k := epptr - pptr;
      }
      CommitMeans(Now(), k, consumed);
      committed := committed + Sub(buffer, pptr, k);
      pptr := pptr + k;
      egptr := pptr;
    }

    /** `consume(n)`: drops the first `n` input bytes, or all of them if there are fewer. */
    method Consume(n: nat)
      requires Valid() && Min(n, Size()) <= INT_MAX
      modifies `gptr, `egptr, `consumed
      ensures Valid() && gptr == old(gptr) + Min(n, old(Size())) && egptr == if old(egptr) < pptr then pptr else old(egptr)
      ensures old(Data()) == Sub(buffer, old(gptr), gptr - old(gptr)) + Data()
      ensures consumed == old(consumed) + Sub(buffer, old(gptr), gptr - old(gptr))
    {
      ghost var before := Now();
      if egptr < pptr {
        egptr := pptr;
      }
      var k := n;
      if gptr + k > pptr {
        k := pptr - gptr;
      }
      ConsumeMeans(before, egptr, k, consumed);
      consumed := consumed + Sub(buffer, gptr, k);
      gptr := gptr + k;
      assert Now() == before.(gptr := before.gptr + k, egptr := egptr);
    }

    /** `underflow()`: the first input byte, not removed. */
    method Underflow() returns (c: CharOrEof)
      requires Valid()
      modifies `egptr
      ensures Valid() && Data() == old(Data())
      ensures c == if |Data()| > 0 then Char(Data()[0]) else Eof
      ensures egptr == if |Data()| > 0 then pptr else old(egptr)
    {
      if gptr < pptr {
        egptr := pptr;
        c := Char(buffer[gptr]);
      } else {
        c := Eof;
      }
    }

    /** `overflow(c)`: appends one byte; throws exactly when the input sequence is already `maxSize` long. */
    method Overflow(c: CharOrEof) returns (r: Overflowed)
      requires Valid()
      modifies this
      ensures Valid() && consumed == old(consumed)
      ensures r.Failed? <==> c.Char? && old(Size()) == maxSize
      ensures r.NotEof? <==> c.Eof?
      ensures c.Eof? ==> Now() == old(Now()) && committed == old(committed) && damaged == old(damaged)
      ensures r.Put? ==> r == Put(c.c) && damaged == old(damaged)
      ensures r.Put? ==> Data() == old(Data()) + [c.c] && committed == old(committed) + [c.c]
      ensures r.Put? && old(pptr < epptr) ==> gptr == old(gptr) && Output() == Sub(old(Output()), 1, old(|Output()|) - 1)
      ensures r.Put? && old(pptr == epptr) ==>
                && gptr == 0
                && epptr == Max(old(epptr), old(Size()) + Min(BUFFER_DELTA, maxSize - old(Size())))
      ensures r.Failed? ==> Now() == old(Now()).(buffer := Slid(old(buffer), gptr, Size())) && committed == old(committed)
      ensures r.Failed? ==> damaged == (old(damaged) || SlideOverlaps())
      ensures r.Failed? && !SlideOverlaps() ==> Data() == old(Data())
    {
      if c.Eof? {
        return NotEof;
      }
      if pptr == epptr {
        var ok := ReserveForOne();
        if !ok {
          return Failed;
        }
      }
      AppendOne(c.c);
      r := Put(c.c);
    }

    /** The reservation `overflow` makes: 128 bytes, or what the maximum leaves if that is less. */
    method ReserveForOne() returns (ok: bool)
      requires Valid() && pptr == epptr
      modifies this
      ensures Valid() && consumed == old(consumed) && committed == old(committed)
      ensures ok <==> old(Size()) < maxSize
      ensures ok ==> Data() == old(Data()) && pptr < epptr && damaged == old(damaged)
      ensures ok ==> gptr == 0 && egptr == pbase == pptr
      ensures ok ==> epptr == Max(old(epptr), Size() + Min(BUFFER_DELTA, maxSize - Size()))
      ensures !ok ==> Now() == old(Now()).(buffer := Slid(old(buffer), gptr, Size()))
      ensures !ok ==> damaged == (old(damaged) || SlideOverlaps())
      ensures !ok && !SlideOverlaps() ==> Data() == old(Data())
    {
      var size := pptr - gptr;
      if size < maxSize && maxSize - size < BUFFER_DELTA {
        ok := Reserve(maxSize - size);
      } else {
        ok := Reserve(BUFFER_DELTA);
      }
    }

    /** `*pptr() = c; pbump(1)`. */
    method AppendOne(c: Byte)
      requires Valid() && pptr < epptr
      modifies `buffer, `pptr, `committed
      ensures Valid() && pptr == old(pptr) + 1
      ensures Data() == old(Data()) + [c] && committed == old(committed) + [c]
      ensures Output() == Sub(old(Output()), 1, old(|Output()|) - 1)
    {
      ghost var data := Data();
      buffer := Stored(buffer, pptr, [c]);
      pptr := pptr + 1;
      committed := committed + [c];
      assert Data() == data + [c];
    }

    /** `read_size_helper`: how much the next read should ask for, given the vector's capacity. */
    function ReadSizeHelper(max: nat, capacity: nat): (n: nat)
      requires Shape() && |buffer| <= capacity
      reads this
      ensures Size() + n <= maxSize && n <= max
      ensures n <= Max(512, capacity - Size())
      ensures n < max && Size() + n < maxSize ==> n >= 512 && Size() + n >= capacity
    {
      Min(Max(512, capacity - Size()), Min(max, maxSize - Size()))
    }
  }

  /** `prepare(read_size_helper(...))` never throws. */
  method PrepareForRead(sb: Streambuf, max: nat, capacity: nat)
    requires sb.Valid() && |sb.buffer| <= capacity
    modifies sb
    ensures sb.Valid() && sb.damaged == old(sb.damaged) && sb.Data() == old(sb.Data())
    ensures |sb.Output()| >= old(sb.ReadSizeHelper(max, capacity))
  {
    var ok, start := sb.Prepare(sb.ReadSizeHelper(max, capacity));
    assert ok;
  }

  lemma SlidFour()
    ensures Sub([1, 2, 3, 4], 1, 3) == [2, 3, 4] && Slid([1, 2, 3, 4], 1, 3) == [2, 3, 4, 4]
    ensures Sub([2, 3, 4, 4], 1, 3) == [3, 4, 4]
  {
  }

  /** A `prepare` that throws and loses data: what is still to be read begins differently afterwards. */
  method PrepareThatLosesData() returns (sb: Streambuf, ok: bool, ghost before: seq<Byte>)
    ensures fresh(sb) && sb.Valid() && !ok
    ensures before == [2, 3, 4] && sb.Data() == [3, 4, 4]
  {
    sb := FullOfFour();
    sb.Consume(1);
    SlidFour();
    before := sb.Data();
    var start;
    ok, start := sb.Prepare(2);
  }

  method FullOfFour() returns (sb: Streambuf)
    ensures fresh(sb) && sb.Valid() && sb.maxSize == 4 && sb.gptr == 0 && sb.pptr == sb.epptr == 4
    ensures sb.buffer == [1, 2, 3, 4]
  {
    sb := new Streambuf(4);
    var ok, start := sb.Prepare(4);
    sb.Fill([1, 2, 3, 4]);
    sb.Commit(4);
  }

  /**
   Something was consumed and the input is longer than that, yet a `prepare` that
   throws loses nothing: an earlier one had slid the input to the front.
   */
  method PrepareThatKeepsData(bytes: seq<Byte>) returns (sb: Streambuf, ok: bool)
    requires |bytes| == 128
    ensures fresh(sb) && sb.Valid() && !ok
    ensures sb.consumed == Sub(bytes, 0, 1) && sb.Data() == Sub(bytes, 1, 127)
  {
    sb := OneConsumed(bytes);
    var start;
    ok, start := sb.Prepare(1);
    ok, start := sb.Prepare(100);
  }

  method OneConsumed(bytes: seq<Byte>) returns (sb: Streambuf)
    requires |bytes| == 128
    ensures fresh(sb) && sb.Valid() && sb.maxSize == 200 && sb.gptr == 1 && sb.pptr == sb.epptr == 128
    ensures sb.consumed == Sub(bytes, 0, 1) && sb.Data() == Sub(bytes, 1, 127)
  {
    sb := new Streambuf(200);
    sb.Fill(bytes);
    assert sb.buffer == bytes;
    sb.Commit(128);
    sb.Consume(1);
  }

  // ---------- Whole runs: a bounded FIFO ----------

  /**
   What a FIFO with a bound sees of a streambuf: how many bytes before it are free,
   its own bytes, the output area behind them, and all that ever entered or left.
   */
  datatype Fifo = Fifo(front: nat, queue: seq<Byte>, out: seq<Byte>, entered: seq<Byte>, left: seq<Byte>)

  /** The length of the output area after making room for `n` bytes. */
  function OutAfter(f: Fifo, n: nat): nat {
    if n <= |f.out| then |f.out| else Max(f.front + |f.out|, n)
  }

  /** How much room a character put behind a full area asks for. */
  function RoomForOne(f: Fifo, maxSize: nat): nat
    requires |f.queue| < maxSize
  {
    if |f.out| > 0 then 0 else Min(BUFFER_DELTA, maxSize - |f.queue|)
  }

  /** One use of a streambuf. */
  datatype Op = Prepare(n: nat) | Fill(bytes: seq<Byte>) | Commit(n: nat) | PutChar(c: Byte) | Drop(n: nat) | Peek

  /** The caller fills no more than there is, and counts stay within `int`. */
  predicate Legal(op: Op, size: nat, room: nat) {
    match op
    case Fill(bytes) => |bytes| <= room
    case Commit(n) => Min(n, room) <= INT_MAX
    case Drop(n) => Min(n, size) <= INT_MAX
    case _ => true
  }

  predicate HasRoom(f: Fifo, op: Op, maxSize: nat) {
    match op
    case Prepare(n) => |f.queue| + n <= maxSize
    case PutChar(_) => |f.queue| < maxSize
    case _ => true
  }

  /** What an operation does. Where the output area had to move or grow, what it then holds is left open, but not its length. */
  predicate Does(f: Fifo, op: Op, maxSize: nat, f': Fifo)
    requires Legal(op, |f.queue|, |f.out|) && HasRoom(f, op, maxSize)
  {
    match op
    case Prepare(n) =>
      if n <= |f.out| then f' == f
      else f' == Fifo(0, f.queue, f'.out, f.entered, f.left) && |f'.out| == OutAfter(f, n)
    case Fill(bytes) => f' == f.(out := Stored(f.out, 0, bytes))
    case Commit(n) =>
      var k := Min(n, |f.out|);
      f' == Fifo(f.front, f.queue + Sub(f.out, 0, k), Sub(f.out, k, |f.out| - k), f.entered + Sub(f.out, 0, k), f.left)
    case PutChar(c) =>
      && f' == Fifo(f'.front, f.queue + [c], f'.out, f.entered + [c], f.left)
      && |f'.out| == OutAfter(f, RoomForOne(f, maxSize)) - 1
      && (if |f.out| > 0 then f'.front == f.front && f'.out == Sub(f.out, 1, |f.out| - 1) else f'.front == 0)
    case Drop(n) =>
      var k := Min(n, |f.queue|);
      f' == Fifo(f.front + k, Sub(f.queue, k, |f.queue| - k), f.out, f.entered, f.left + Sub(f.queue, 0, k))
    case Peek => f' == f
  }

  /** What left, followed by what is still there, is what entered, in order. */
  predicate InOrder(f: Fifo) { f.entered == f.left + f.queue }

  lemma DoesKeepsOrder(f: Fifo, op: Op, maxSize: nat, f': Fifo)
    requires InOrder(f) && Legal(op, |f.queue|, |f.out|) && HasRoom(f, op, maxSize) && Does(f, op, maxSize, f')
    ensures InOrder(f')
  {
    match op
    case Commit(n) =>
      var more := Sub(f.out, 0, Min(n, |f.out|));
      assert f.left + (f.queue + more) == (f.left + f.queue) + more;
    case PutChar(c) => assert f.left + (f.queue + [c]) == (f.left + f.queue) + [c];
    case Drop(n) =>
      var k := Min(n, |f.queue|);
      SubSplit(f.queue, 0, k, |f.queue| - k);
      assert f.queue == Sub(f.queue, 0, |f.queue|);
      var first, rest := Sub(f.queue, 0, k), Sub(f.queue, k, |f.queue| - k);
      assert (f.left + first) + rest == f.left + (first + rest);
    case _ =>
  }

  /** One step of a run: legal, with room, and doing what the operation does. */
  predicate RunsTo(f: Fifo, op: Op, maxSize: nat, f': Fifo) {
    Legal(op, |f.queue|, |f.out|) && HasRoom(f, op, maxSize) && Does(f, op, maxSize, f')
  }

  /** A run of the FIFO through the first operations. */
  predicate IsRun(fs: seq<Fifo>, ops: seq<Op>, maxSize: nat) {
    && 0 < |fs| <= |ops| + 1
    && forall i | 0 <= i < |fs| - 1 :: RunsTo(fs[i], ops[i], maxSize, fs[i + 1])
  }

  /** The FIFO keeps the order through every run. */
  lemma {:induction false} FifoConserves(fs: seq<Fifo>, ops: seq<Op>, maxSize: nat, i: nat)
    requires IsRun(fs, ops, maxSize) && InOrder(fs[0]) && i < |fs|
    ensures InOrder(fs[i])
    decreases i
  {
    if i > 0 {
      FifoConserves(fs, ops, maxSize, i - 1);
      assert RunsTo(fs[i - 1], ops[i - 1], maxSize, fs[i - 1 + 1]);
      DoesKeepsOrder(fs[i - 1], ops[i - 1], maxSize, fs[i]);
    }
  }

  ghost function View(sb: Streambuf): Fifo
    requires sb.Shape()
    reads sb
  {
    Fifo(sb.gptr, sb.Data(), sb.Output(), sb.committed, sb.consumed)
  }

  method PerformPrepare(sb: Streambuf, n: nat) returns (ok: bool)
    requires sb.Valid()
    modifies sb
    ensures sb.Valid() && (ok <==> HasRoom(old(View(sb)), Op.Prepare(n), sb.maxSize))
    ensures ok ==> Does(old(View(sb)), Op.Prepare(n), sb.maxSize, View(sb)) && sb.damaged == old(sb.damaged)
    ensures !ok && !sb.SlideOverlaps() ==> sb.Data() == old(sb.Data())
  {
    var start;
    ok, start := sb.Prepare(n);
  }

  method PerformPut(sb: Streambuf, c: Byte) returns (ok: bool)
    requires sb.Valid()
    modifies sb
    ensures sb.Valid() && (ok <==> HasRoom(old(View(sb)), PutChar(c), sb.maxSize))
    ensures ok ==> Does(old(View(sb)), PutChar(c), sb.maxSize, View(sb)) && sb.damaged == old(sb.damaged)
    ensures !ok && !sb.SlideOverlaps() ==> sb.Data() == old(sb.Data())
  {
    var r := sb.Overflow(Char(c));
    ok := r.Put?;
  }

  method PerformCommit(sb: Streambuf, n: nat)
    requires sb.Valid() && Legal(Op.Commit(n), sb.pptr - sb.gptr, sb.epptr - sb.pptr)
    modifies sb
    ensures sb.Valid() && Does(old(View(sb)), Op.Commit(n), sb.maxSize, View(sb)) && sb.damaged == old(sb.damaged)
  {
    ghost var k := Min(n, sb.epptr - sb.pptr);
    assert Sub(sb.buffer, sb.pptr, k) == Sub(sb.Output(), 0, k);
    assert Sub(sb.buffer, sb.pptr + k, sb.epptr - sb.pptr - k) == Sub(sb.Output(), k, sb.epptr - sb.pptr - k);
    sb.Commit(n);
  }

  method PerformDrop(sb: Streambuf, n: nat)
    requires sb.Valid() && Legal(Drop(n), sb.pptr - sb.gptr, sb.epptr - sb.pptr)
    modifies sb
    ensures sb.Valid() && Does(old(View(sb)), Drop(n), sb.maxSize, View(sb)) && sb.damaged == old(sb.damaged)
  {
    ghost var k := Min(n, sb.pptr - sb.gptr);
    assert Sub(sb.buffer, sb.gptr, k) == Sub(sb.Data(), 0, k);
    assert Sub(sb.buffer, sb.gptr + k, sb.pptr - sb.gptr - k) == Sub(sb.Data(), k, sb.pptr - sb.gptr - k);
    sb.Consume(n);
  }

  /** One use of the streambuf is the FIFO's operation, and throws exactly when the FIFO has no room. */
  method Perform(sb: Streambuf, op: Op) returns (ok: bool)
    requires sb.Valid() && Legal(op, sb.pptr - sb.gptr, sb.epptr - sb.pptr)
    modifies sb
    ensures sb.Valid() && (ok <==> HasRoom(old(View(sb)), op, sb.maxSize))
    ensures ok ==> Does(old(View(sb)), op, sb.maxSize, View(sb)) && sb.damaged == old(sb.damaged)
    ensures !ok && !sb.SlideOverlaps() ==> sb.Data() == old(sb.Data())
  {
    ok := true;
    match op
    case Prepare(n) => ok := PerformPrepare(sb, n);
    case Fill(bytes) => sb.Fill(bytes);
    case Commit(n) => PerformCommit(sb, n);
    case PutChar(c) => ok := PerformPut(sb, c);
    case Drop(n) => PerformDrop(sb, n);
    case Peek =>
      var c := sb.Underflow();
  }

  /**
   Any sequence of uses, across sliding and growing: the streambuf runs as the
   FIFO does, up to the first use that is not legal or for which the FIFO has no
   room, and that is where it throws.
   */
  method Replay(sb: Streambuf, ops: seq<Op>) returns (n: nat, ghost fs: seq<Fifo>)
    requires sb.Valid()
    modifies sb
    ensures n <= |ops| && |fs| == n + 1 && fs[0] == old(View(sb)) && IsRun(fs, ops, sb.maxSize)
    ensures sb.Valid() && (n == |ops| ==> View(sb) == fs[n] && sb.damaged == old(sb.damaged))
    ensures n < |ops| ==> !(Legal(ops[n], |fs[n].queue|, |fs[n].out|) && HasRoom(fs[n], ops[n], sb.maxSize))
    ensures !sb.SlideOverlaps() ==> sb.Data() == fs[n].queue
  {
    n, fs := 0, [View(sb)];
    while n < |ops|
      invariant n <= |ops| && |fs| == n + 1 && fs[0] == old(View(sb)) && IsRun(fs, ops, sb.maxSize)
      invariant sb.Valid() && View(sb) == fs[n] && sb.damaged == old(sb.damaged)
    {
      if !Legal(ops[n], sb.pptr - sb.gptr, sb.epptr - sb.pptr) {
        return;
      }
      var ok := Perform(sb, ops[n]);
      if !ok {
        return;
      }
      fs := fs + [View(sb)];
      n := n + 1;
    }
  }
}
