/**
 asio's buffers and the `buffer_copy` family, over one flat memory.

 A buffer is an address range and does not own its bytes, so two buffers may
 alias. The memory is an array that the copy loops write in place. A buffer
 list is read as one flat string of bytes: its k-th byte lives at `AddrAt`.
 */
module Buffers {
  import opened Bytes

  /** A `mutable_buffer` or `const_buffer`: `size` bytes starting at address `data`. */
  datatype Buffer = Buffer(data: nat, size: nat)

  /** Default-constructed buffer. */
  const EMPTY := Buffer(0, 0)

  /** `operator+`: skip `start` bytes; skipping past the end gives the empty buffer. */
  function Plus(b: Buffer, start: nat): Buffer {
    if start > b.size then EMPTY else Buffer(b.data + start, b.size - start)
  }

  /** `buffer(b, max_size_in_bytes)`: keep at most `max` bytes. */
  function Truncate(b: Buffer, max: nat): Buffer {
    Buffer(b.data, if b.size < max then b.size else max)
  }

  // ---------- A buffer list as a flat byte string ----------

  /** Bytes in the first `i` buffers. */
  function Sizes(bs: seq<Buffer>): seq<nat> {
    seq(|bs|, i requires 0 <= i < |bs| => bs[i].size)
  }

  function Before(bs: seq<Buffer>, i: nat): nat
    requires i <= |bs|
  {
    SumTo(Sizes(bs), i)
  }

  function Total(bs: seq<Buffer>): nat { Before(bs, |bs|) }

  /** Address of flat byte `k`, looked for in the first `i` buffers. */
  function AddrUpTo(bs: seq<Buffer>, i: nat, k: nat): nat
    requires i <= |bs| && k < Before(bs, i)
  {
    if k >= Before(bs, i - 1) then bs[i - 1].data + (k - Before(bs, i - 1)) else AddrUpTo(bs, i - 1, k)
  }

  /** Address of flat byte `k` of the list. */
  function AddrAt(bs: seq<Buffer>, k: nat): nat
    requires k < Total(bs)
  {
    AddrUpTo(bs, |bs|, k)
  }

  /** The index of the buffer that holds flat byte `k`. */
  ghost function HomeUpTo(bs: seq<Buffer>, i: nat, k: nat): (h: nat)
    requires i <= |bs| && k < Before(bs, i)
    ensures h < i && Before(bs, h) <= k < Before(bs, h) + bs[h].size
    ensures AddrUpTo(bs, i, k) == bs[h].data + (k - Before(bs, h))
  {
    if k >= Before(bs, i - 1) then i - 1 else HomeUpTo(bs, i - 1, k)
  }

  /** A buffer ends where, or before, any later one begins. */
  lemma EndsBefore(bs: seq<Buffer>, i: nat, j: nat)
    requires i < j <= |bs|
    ensures Before(bs, i) + bs[i].size <= Before(bs, j)
  {
    SumEndsBefore(Sizes(bs), i, j);
  }

  /** Byte `off` of buffer `i` is flat byte `Before(bs, i) + off`. */
  lemma AddrInBuffer(bs: seq<Buffer>, i: nat, off: nat)
    requires i < |bs| && off < bs[i].size
    ensures Before(bs, i) + off < Total(bs)
    ensures AddrAt(bs, Before(bs, i) + off) == bs[i].data + off
  {
    EndsBefore(bs, i, |bs|);
    var h := HomeUpTo(bs, |bs|, Before(bs, i) + off);
    if h < i {
      EndsBefore(bs, h, i);
      assert false;
    } else if i < h {
      EndsBefore(bs, i, h);
      assert false;
    }
  }

  // ---------- Where buffers may lie ----------

  /** Every byte of every buffer lies inside the memory. */
  predicate InBounds(bs: seq<Buffer>, length: nat) {
    forall i | 0 <= i < |bs| :: bs[i].data + bs[i].size <= length
  }

  predicate Disjoint(a: Buffer, b: Buffer) {
    a.size == 0 || b.size == 0 || a.data + a.size <= b.data || b.data + b.size <= a.data
  }

  /** No target byte is a source byte: what `memcpy` demands. */
  predicate Apart(target: seq<Buffer>, source: seq<Buffer>) {
    forall i, j {:trigger Disjoint(target[i], source[j])} | 0 <= i < |target| && 0 <= j < |source| ::
      Disjoint(target[i], source[j])
  }

  predicate PairwiseDisjoint(bs: seq<Buffer>) {
    forall i, j | 0 <= i < j < |bs| :: Disjoint(bs[i], bs[j])
  }

  lemma AddrBelow(bs: seq<Buffer>, length: nat, k: nat)
    requires InBounds(bs, length) && k < Total(bs)
    ensures AddrAt(bs, k) < length
  {
    var h := HomeUpTo(bs, |bs|, k);
  }

  lemma AddrsApart(target: seq<Buffer>, source: seq<Buffer>, j: nat, k: nat)
    requires Apart(target, source) && j < Total(target) && k < Total(source)
    ensures AddrAt(target, j) != AddrAt(source, k)
  {
    var g, h := HomeUpTo(target, |target|, j), HomeUpTo(source, |source|, k);
    assert Disjoint(target[g], source[h]);
  }

  lemma AddrsDistinct(bs: seq<Buffer>, j: nat, k: nat)
    requires PairwiseDisjoint(bs) && j < k < Total(bs)
    ensures AddrAt(bs, j) != AddrAt(bs, k)
  {
    var g, h := HomeUpTo(bs, |bs|, j), HomeUpTo(bs, |bs|, k);
    if h < g {
      EndsBefore(bs, h, g);
    }
    assert g < h ==> Disjoint(bs[g], bs[h]);
  }

  // ---------- The specification of every copy ----------

  /** The byte at an address; an address outside the memory reads as 0 (no copy below reads one). */
  function Fetch(m: seq<Byte>, a: nat): Byte {
    if a < |m| then m[a] else 0
  }

  /** The bytes a buffer list denotes in a memory. */
  ghost function Flat(m: seq<Byte>, bs: seq<Buffer>): seq<Byte> {
    seq(Total(bs), k requires 0 <= k < Total(bs) => Fetch(m, AddrAt(bs, k)))
  }

  /** How many bytes an unbounded copy moves. */
  function CopyCount(target: seq<Buffer>, source: seq<Buffer>): nat {
    Min(Total(target), Total(source))
  }

  /**
   What address `a` holds after the first `n` flat source bytes of `m` went to
   the first `n` flat target places, in order: the last one to hit `a` wins.
   */
  ghost function ByteAfter(m: seq<Byte>, target: seq<Buffer>, source: seq<Buffer>, n: nat, a: nat): Byte
    requires n <= CopyCount(target, source)
  {
    if n == 0 then Fetch(m, a)
    else if AddrAt(target, n - 1) == a then Fetch(m, AddrAt(source, n - 1))
    else ByteAfter(m, target, source, n - 1, a)
  }

  /** The whole memory after that copy. */
  ghost function Copied(m: seq<Byte>, target: seq<Buffer>, source: seq<Buffer>, n: nat): (m': seq<Byte>)
    requires n <= CopyCount(target, source)
    ensures |m'| == |m|
  {
    seq(|m|, a requires 0 <= a < |m| => ByteAfter(m, target, source, n, a))
  }

  function RangeByte(m: seq<Byte>, dst: nat, src: nat, n: nat, a: nat): Byte {
    if dst <= a < dst + n then Fetch(m, src + (a - dst)) else Fetch(m, a)
  }

  /** The memory after `memcpy` of `n` bytes. */
  ghost function RangeCopied(m: seq<Byte>, dst: nat, src: nat, n: nat): (m': seq<Byte>)
    ensures |m'| == |m|
  {
    seq(|m|, a requires 0 <= a < |m| => RangeByte(m, dst, src, n, a))
  }

  /** From where to where a copy goes. */
  datatype Job = Job(target: seq<Buffer>, source: seq<Buffer>)

  /** `after` is the memory `before` with the first `n` bytes of the job copied. */
  ghost predicate IsCopy(job: Job, before: seq<Byte>, after: seq<Byte>, n: nat) {
    match job
    case Job(target, source) => n <= CopyCount(target, source) && after == Copied(before, target, source, n)
  }

  /** The ranges of one `memcpy`. */
  datatype Range = Range(dst: nat, src: nat, length: nat)

  ghost predicate IsRangeCopy(range: Range, before: seq<Byte>, after: seq<Byte>) {
    match range
    case Range(dst, src, n) => after == RangeCopied(before, dst, src, n)
  }

  /** A copy changes only the target bytes it names. */
  lemma {:induction false} CopiedFrame(m: seq<Byte>, target: seq<Buffer>, source: seq<Buffer>, n: nat, a: nat)
    requires n <= CopyCount(target, source)
    requires forall k {:trigger AddrAt(target, k)} | 0 <= k < n :: AddrAt(target, k) != a
    ensures ByteAfter(m, target, source, n, a) == Fetch(m, a)
    decreases n
  {
    if n > 0 {
      CopiedFrame(m, target, source, n - 1, a);
    }
  }

  /** With targets that do not overlap each other, target byte `k < n` ends up equal to source byte `k`. */
  lemma {:induction false} CopiedAt(m: seq<Byte>, target: seq<Buffer>, source: seq<Buffer>, n: nat, k: nat)
    requires PairwiseDisjoint(target)
    requires k < n <= CopyCount(target, source)
    ensures ByteAfter(m, target, source, n, AddrAt(target, k)) == Fetch(m, AddrAt(source, k))
    decreases n
  {
    if k < n - 1 {
      CopiedAt(m, target, source, n - 1, k);
      AddrsDistinct(target, k, n - 1);
    }
  }

  /**
   For targets that do not overlap each other the copy is a prefix copy between
   flat byte strings, and no other byte of the memory changes.
   */
  lemma CopyMeaning(m: seq<Byte>, target: seq<Buffer>, source: seq<Buffer>, n: nat)
    requires InBounds(target, |m|) && PairwiseDisjoint(target)
    requires n <= CopyCount(target, source)
    ensures Flat(Copied(m, target, source, n), target) == Flat(m, source)[..n] + Flat(m, target)[n..]
    ensures forall a: nat | a < |m| && (forall k | 0 <= k < n :: AddrAt(target, k) != a) ::
              Copied(m, target, source, n)[a] == m[a]
  {
    forall k | 0 <= k < Total(target)
      ensures AddrAt(target, k) < |m|
      ensures ByteAfter(m, target, source, n, AddrAt(target, k)) == (Flat(m, source)[..n] + Flat(m, target)[n..])[k]
    {
      AddrBelow(target, |m|, k);
      if k < n {
        CopiedAt(m, target, source, n, k);
      } else {
        forall j | 0 <= j < n ensures AddrAt(target, j) != AddrAt(target, k) {
          AddrsDistinct(target, j, k);
        }
        CopiedFrame(m, target, source, n, AddrAt(target, k));
      }
    }
    forall a: nat | a < |m| && (forall k | 0 <= k < n :: AddrAt(target, k) != a)
      ensures Copied(m, target, source, n)[a] == m[a]
    {
      CopiedFrame(m, target, source, n, a);
    }
  }

  /** A source that shares no byte with the target keeps its bytes. */
  lemma SourceKept(m: seq<Byte>, target: seq<Buffer>, source: seq<Buffer>, n: nat)
    requires Apart(target, source) && n <= CopyCount(target, source)
    ensures Flat(Copied(m, target, source, n), source) == Flat(m, source)
  {
    forall k | 0 <= k < Total(source)
      ensures Fetch(Copied(m, target, source, n), AddrAt(source, k)) == Fetch(m, AddrAt(source, k))
    {
      SourceByteKept(m, target, source, n, k);
    }
  }

  lemma SourceByteKept(m: seq<Byte>, target: seq<Buffer>, source: seq<Buffer>, n: nat, k: nat)
    requires Apart(target, source) && n <= CopyCount(target, source) && k < Total(source)
    ensures ByteAfter(m, target, source, n, AddrAt(source, k)) == Fetch(m, AddrAt(source, k))
  {
    forall j | 0 <= j < n ensures AddrAt(target, j) != AddrAt(source, k) {
      AddrsApart(target, source, j, k);
    }
    CopiedFrame(m, target, source, n, AddrAt(source, k));
  }

  /** After a chunk of `n` bytes that lies inside one target and one source buffer, every address holds what the longer copy puts there. */
  lemma {:induction false} ExtendByte(m: seq<Byte>, target: seq<Buffer>, ti: nat, toff: nat,
                                      source: seq<Buffer>, si: nat, soff: nat, total: nat, n: nat, a: nat)
    requires ti < |target| && toff + n <= target[ti].size && total == Before(target, ti) + toff
    requires si < |source| && soff + n <= source[si].size && total == Before(source, si) + soff
    requires total + n <= CopyCount(target, source)
    ensures ByteAfter(m, target, source, total + n, a)
         == if target[ti].data + toff <= a < target[ti].data + toff + n
            then Fetch(m, source[si].data + soff + (a - target[ti].data - toff))
            else ByteAfter(m, target, source, total, a)
    decreases n
  {
    if n > 0 {
      ExtendByte(m, target, ti, toff, source, si, soff, total, n - 1, a);
      AddrInBuffer(target, ti, toff + n - 1);
      AddrInBuffer(source, si, soff + n - 1);
    }
  }

  /** `memcpy` of such a chunk extends the copy: at one address, and over the whole memory. */
  lemma ExtendAt(m: seq<Byte>, target: seq<Buffer>, ti: nat, toff: nat,
                 source: seq<Buffer>, si: nat, soff: nat, total: nat, n: nat, a: nat)
    requires Apart(target, source) && a < |m| && total + n <= CopyCount(target, source)
    requires ti < |target| && toff + n <= target[ti].size && total == Before(target, ti) + toff
    requires si < |source| && soff + n <= source[si].size && total == Before(source, si) + soff
    ensures RangeByte(Copied(m, target, source, total), target[ti].data + toff, source[si].data + soff, n, a)
         == ByteAfter(m, target, source, total + n, a)
  {
    ExtendByte(m, target, ti, toff, source, si, soff, total, n, a);
    var dst := target[ti].data + toff;
    if dst <= a < dst + n {
      AddrInBuffer(source, si, soff + (a - dst));
      SourceByteKept(m, target, source, total, total + (a - dst));
    }
  }

  lemma ExtendCopy(m: seq<Byte>, target: seq<Buffer>, ti: nat, toff: nat,
                   source: seq<Buffer>, si: nat, soff: nat, total: nat, n: nat)
    requires Apart(target, source)
    requires ti < |target| && toff + n <= target[ti].size && total == Before(target, ti) + toff
    requires si < |source| && soff + n <= source[si].size && total == Before(source, si) + soff
    ensures total + n <= CopyCount(target, source)
    ensures RangeCopied(Copied(m, target, source, total), target[ti].data + toff, source[si].data + soff, n)
         == Copied(m, target, source, total + n)
  {
    EndsBefore(target, ti, |target|);
    EndsBefore(source, si, |source|);
    var now, dst, src, k := Copied(m, target, source, total), target[ti].data + toff, source[si].data + soff, total + n;
    forall a | 0 <= a < |m| ensures RangeByte(now, dst, src, n, a) == ByteAfter(m, target, source, k, a) {
      ExtendAt(m, target, ti, toff, source, si, soff, total, n, a);
    }
  }

  /** A place in a buffer list: `offset` bytes into the buffer at `index`. */
  datatype Spot = Spot(index: nat, offset: nat)

  /** `spot` is where `total` flat bytes of the list have been passed. */
  predicate OnSpot(bs: seq<Buffer>, spot: Spot, total: nat) {
    match spot
    case Spot(i, off) =>
      && i <= |bs|
      && total == Before(bs, i) + off
      && if i < |bs| then off <= bs[i].size else off == 0
  }

  /** The loops' bookkeeping after `n` bytes: next buffer if that finished the `left` bytes of this one, else further in. */
  function MoveOn(spot: Spot, left: nat, n: nat): Spot {
    if n == left then Spot(spot.index + 1, 0) else Spot(spot.index, spot.offset + n)
  }

  lemma MoveOnKeepsSpot(bs: seq<Buffer>, spot: Spot, total: nat, n: nat)
    requires OnSpot(bs, spot, total) && spot.index < |bs| && n <= bs[spot.index].size - spot.offset
    ensures OnSpot(bs, MoveOn(spot, Plus(bs[spot.index], spot.offset).size, n), total + n)
  {
  }

  lemma ExtendJob(m: seq<Byte>, now: seq<Byte>, after: seq<Byte>, target: seq<Buffer>, to: Spot,
                  source: seq<Buffer>, from: Spot, total: nat, n: nat)
    requires Apart(target, source) && IsCopy(Job(target, source), m, now, total)
    requires OnSpot(target, to, total) && to.index < |target| && n <= target[to.index].size - to.offset
    requires OnSpot(source, from, total) && from.index < |source| && n <= source[from.index].size - from.offset
    requires IsRangeCopy(Range(Plus(target[to.index], to.offset).data, Plus(source[from.index], from.offset).data, n), now, after)
    ensures IsCopy(Job(target, source), m, after, total + n)
    ensures total + n <= CopyCount(target, source)
  {
    ExtendCopy(m, target, to.index, to.offset, source, from.index, from.offset, total, n);
  }

  // ---------- The copy loops ----------

  /** `memcpy` on non-overlapping ranges. */
  method Memcpy(mem: array<Byte>, dst: nat, src: nat, n: nat)
    requires dst + n <= mem.Length && src + n <= mem.Length
    requires Disjoint(Buffer(dst, n), Buffer(src, n))
    modifies mem
    ensures IsRangeCopy(Range(dst, src, n), old(mem[..]), mem[..])
  {
    ghost var m := mem[..];
    for i := 0 to n
      invariant forall a | 0 <= a < mem.Length :: mem[a] == RangeByte(m, dst, src, i, a)
    {
      mem[dst + i] := mem[src + i];
    }
  }

  /** `buffer_copy(mutable_buffer, const_buffer)`. */
  method CopyBuffer(mem: array<Byte>, target: Buffer, source: Buffer) returns (n: nat)
    requires target.data + target.size <= mem.Length && source.data + source.size <= mem.Length
    requires Disjoint(target, source)
    modifies mem
    ensures n == Min(target.size, source.size)
    ensures IsRangeCopy(Range(target.data, source.data, n), old(mem[..]), mem[..])
  {
    n := if target.size < source.size then target.size else source.size;
    Memcpy(mem, target.data, source.data, n);
  }

  /** `buffer_copy(mutable_buffer, const_buffer, max)`: truncates the target. */
  method CopyBufferBounded(mem: array<Byte>, target: Buffer, source: Buffer, max: nat) returns (n: nat)
    requires target.data + target.size <= mem.Length && source.data + source.size <= mem.Length
    requires Disjoint(target, source)
    modifies mem
    ensures n == Min(Min(target.size, source.size), max)
    ensures IsRangeCopy(Range(target.data, source.data, n), old(mem[..]), mem[..])
  {
    n := CopyBuffer(mem, Truncate(target, max), source);
  }

  /** The single-buffer copy is the general copy between one-element lists. */
  lemma SingletonCopy(m: seq<Byte>, target: Buffer, source: Buffer, n: nat)
    requires Disjoint(target, source) && n <= Min(target.size, source.size)
    ensures CopyCount([target], [source]) == Min(target.size, source.size)
    ensures RangeCopied(m, target.data, source.data, n) == Copied(m, [target], [source], n)
  {
    var targets, sources := [target], [source];
    assert Before(targets, 0) == Before(sources, 0) == 0;
    ExtendCopy(m, targets, 0, 0, sources, 0, 0, 0, n);
    assert Copied(m, targets, sources, 0) == m;
  }

  /** `buffer_size` of a buffer sequence. */
  method BufferSize(bs: seq<Buffer>) returns (total: nat)
    ensures total == Total(bs)
  {
    total := 0;
    for i := 0 to |bs|
      invariant total == Before(bs, i)
    {
      total := total + bs[i].size;
    }
  }

  /** `buffer_copy` from a buffer sequence to a buffer sequence. */
  method CopySequences(mem: array<Byte>, target: seq<Buffer>, source: seq<Buffer>) returns (total: nat)
    requires InBounds(target, mem.Length) && InBounds(source, mem.Length)
    requires Apart(target, source)
    modifies mem
    ensures total == CopyCount(target, source)
    ensures IsCopy(Job(target, source), old(mem[..]), mem[..], total)
  {
    total := 0;
    ghost var m := mem[..];
    var to, from := Spot(0, 0), Spot(0, 0);
    while to.index != |target| && from.index != |source|
      invariant OnSpot(target, to, total) && OnSpot(source, from, total) && total <= CopyCount(target, source)
      invariant IsCopy(Job(target, source), m, mem[..], total)
      decreases |target| - to.index + |source| - from.index
    {
      var targetBuffer := Plus(target[to.index], to.offset);
      var sourceBuffer := Plus(source[from.index], from.offset);
      ghost var now := mem[..];
      assert Disjoint(target[to.index], source[from.index]);
      var n := CopyBuffer(mem, targetBuffer, sourceBuffer);
      ExtendJob(m, now, mem[..], target, to, source, from, total, n);
      MoveOnKeepsSpot(target, to, total, n);
      MoveOnKeepsSpot(source, from, total, n);
      total := total + n;
      to := MoveOn(to, targetBuffer.size, n);
      from := MoveOn(from, sourceBuffer.size, n);
    }
  }

  /** `buffer_copy` from a buffer sequence to a buffer sequence, at most `max` bytes. */
  method CopySequencesBounded(mem: array<Byte>, target: seq<Buffer>, source: seq<Buffer>, max: nat) returns (total: nat)
    requires InBounds(target, mem.Length) && InBounds(source, mem.Length)
    requires Apart(target, source)
    modifies mem
    ensures total == Min(CopyCount(target, source), max)
    ensures IsCopy(Job(target, source), old(mem[..]), mem[..], total)
  {
    total := 0;
    ghost var m := mem[..];
    var to, from := Spot(0, 0), Spot(0, 0);
    while total != max && to.index != |target| && from.index != |source|
      invariant OnSpot(target, to, total) && OnSpot(source, from, total) && total <= CopyCount(target, source) && total <= max
      invariant IsCopy(Job(target, source), m, mem[..], total)
      decreases max - total, |target| - to.index + |source| - from.index
    {
      var targetBuffer := Plus(target[to.index], to.offset);
      var sourceBuffer := Plus(source[from.index], from.offset);
      ghost var now := mem[..];
      assert Disjoint(target[to.index], source[from.index]);
      var n := CopyBufferBounded(mem, targetBuffer, sourceBuffer, max - total);
      ExtendJob(m, now, mem[..], target, to, source, from, total, n);
      MoveOnKeepsSpot(target, to, total, n);
      MoveOnKeepsSpot(source, from, total, n);
      total := total + n;
      to := MoveOn(to, targetBuffer.size, n);
      from := MoveOn(from, sourceBuffer.size, n);
    }
  }

  /** `buffer_copy` from a buffer sequence to one buffer. */
  method CopyFromSequence(mem: array<Byte>, target: Buffer, source: seq<Buffer>) returns (total: nat)
    requires InBounds([target], mem.Length) && InBounds(source, mem.Length)
    requires Apart([target], source)
    modifies mem
    ensures total == CopyCount([target], source)
    ensures IsCopy(Job([target], source), old(mem[..]), mem[..], total)
  {
    total := 0;
    ghost var m := mem[..];
    ghost var targets := [target];
    assert Before(targets, 0) == 0;
    var targetBuffer := target;
    var si := 0;
    while targetBuffer.size != 0 && si != |source|
      invariant si <= |source| && targetBuffer == Plus(target, total)
      invariant total <= CopyCount(targets, source) && total <= target.size
      invariant total < target.size ==> total == Before(source, si)
      invariant IsCopy(Job(targets, source), m, mem[..], total)
      decreases |source| - si
    {
      var sourceBuffer := source[si];
      assert targetBuffer.data == targets[0].data + total;
      assert Disjoint(targets[0], source[si]);
      ghost var now := mem[..];
      var n := CopyBuffer(mem, targetBuffer, sourceBuffer);
      ExtendJob(m, now, mem[..], targets, Spot(0, total), source, Spot(si, 0), total, n);
      total := total + n;
      targetBuffer := Plus(targetBuffer, n);
      si := si + 1;
    }
  }

  /** `buffer_copy` from one buffer to a buffer sequence. */
  method CopyToSequence(mem: array<Byte>, target: seq<Buffer>, source: Buffer) returns (total: nat)
    requires InBounds(target, mem.Length) && InBounds([source], mem.Length)
    requires Apart(target, [source])
    modifies mem
    ensures total == CopyCount(target, [source])
    ensures IsCopy(Job(target, [source]), old(mem[..]), mem[..], total)
  {
    total := 0;
    ghost var m := mem[..];
    ghost var sources := [source];
    assert Before(sources, 0) == 0;
    var sourceBuffer := source;
    var ti := 0;
    while sourceBuffer.size != 0 && ti != |target|
      invariant ti <= |target| && sourceBuffer == Plus(source, total)
      invariant total <= CopyCount(target, sources) && total <= source.size
      invariant total < source.size ==> total == Before(target, ti)
      invariant IsCopy(Job(target, sources), m, mem[..], total)
      decreases |target| - ti
    {
      var targetBuffer := target[ti];
      assert sourceBuffer.data == sources[0].data + total;
      assert Disjoint(target[ti], sources[0]);
      ghost var now := mem[..];
      var n := CopyBuffer(mem, targetBuffer, sourceBuffer);
      ExtendJob(m, now, mem[..], target, Spot(ti, 0), sources, Spot(0, total), total, n);
      total := total + n;
      sourceBuffer := Plus(sourceBuffer, n);
      ti := ti + 1;
    }
  }

  /** Truncating the only buffer of a list to `max` bytes: same bytes, fewer of them. */
  lemma TruncatedOne(b: Buffer, max: nat)
    ensures Total([Truncate(b, max)]) == Min(Total([b]), max)
    ensures forall k: nat | k < Total([Truncate(b, max)]) :: AddrAt([Truncate(b, max)], k) == AddrAt([b], k)
  {
    var cut, whole := [Truncate(b, max)], [b];
    assert Before(cut, 0) == Before(whole, 0) == 0;
    forall k: nat | k < Total(cut) ensures AddrAt(cut, k) == AddrAt(whole, k) {
      AddrInBuffer(cut, 0, k);
      AddrInBuffer(whole, 0, k);
    }
  }

  /** Lists that agree on the addresses of their first `n` bytes are copied alike. */
  lemma {:induction false} SameAddressesSameByte(m: seq<Byte>, t: seq<Buffer>, s: seq<Buffer>,
                                                 t': seq<Buffer>, s': seq<Buffer>, n: nat, a: nat)
    requires n <= CopyCount(t, s) && n <= CopyCount(t', s')
    requires forall k: nat {:trigger AddrAt(t, k)} | k < n :: AddrAt(t, k) == AddrAt(t', k)
    requires forall k: nat {:trigger AddrAt(s, k)} | k < n :: AddrAt(s, k) == AddrAt(s', k)
    ensures ByteAfter(m, t, s, n, a) == ByteAfter(m, t', s', n, a)
    decreases n
  {
    if n > 0 {
      SameAddressesSameByte(m, t, s, t', s', n - 1, a);
    }
  }

  lemma SameAddressesSameCopy(m: seq<Byte>, t: seq<Buffer>, s: seq<Buffer>, t': seq<Buffer>, s': seq<Buffer>, n: nat)
    requires n <= CopyCount(t, s) && n <= CopyCount(t', s')
    requires forall k: nat {:trigger AddrAt(t, k)} | k < n :: AddrAt(t, k) == AddrAt(t', k)
    requires forall k: nat {:trigger AddrAt(s, k)} | k < n :: AddrAt(s, k) == AddrAt(s', k)
    ensures Copied(m, t, s, n) == Copied(m, t', s', n)
  {
    forall a | 0 <= a < |m| ensures ByteAfter(m, t, s, n, a) == ByteAfter(m, t', s', n, a) {
      SameAddressesSameByte(m, t, s, t', s', n, a);
    }
  }

  /** `buffer_copy(mutable_buffer, sequence, max)`: truncates the target. */
  method CopyFromSequenceBounded(mem: array<Byte>, target: Buffer, source: seq<Buffer>, max: nat) returns (total: nat)
    requires InBounds([target], mem.Length) && InBounds(source, mem.Length)
    requires Apart([target], source)
    modifies mem
    ensures total == Min(CopyCount([target], source), max)
    ensures IsCopy(Job([target], source), old(mem[..]), mem[..], total)
  {
    ghost var m, whole, cut := mem[..], [target], [Truncate(target, max)];
    assert whole[0] == target;
    assert forall j | 0 <= j < |source| :: Disjoint(whole[0], source[j]) ==> Disjoint(cut[0], source[j]);
    assert Apart(cut, source);
    total := CopyFromSequence(mem, Truncate(target, max), source);
    TruncatedOne(target, max);
    SameAddressesSameCopy(m, cut, source, whole, source, total);
  }

  /** `buffer_copy(sequence, const_buffer, max)`: truncates the source. */
  method CopyToSequenceBounded(mem: array<Byte>, target: seq<Buffer>, source: Buffer, max: nat) returns (total: nat)
    requires InBounds(target, mem.Length) && InBounds([source], mem.Length)
    requires Apart(target, [source])
    modifies mem
    ensures total == Min(CopyCount(target, [source]), max)
    ensures IsCopy(Job(target, [source]), old(mem[..]), mem[..], total)
  {
    ghost var m, whole, cut := mem[..], [source], [Truncate(source, max)];
    assert whole[0] == source;
    assert forall i | 0 <= i < |target| :: Disjoint(target[i], whole[0]) ==> Disjoint(target[i], cut[0]);
    assert Apart(target, cut);
    total := CopyToSequence(mem, target, Truncate(source, max));
    TruncatedOne(source, max);
    SameAddressesSameCopy(m, target, cut, target, whole, total);
  }
}
