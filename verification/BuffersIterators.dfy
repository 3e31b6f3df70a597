/**
 asio's `buffers_iterator`: a random-access cursor over the bytes of a list of
 buffers, any of which may be empty.

 The iterator keeps three redundant coordinates: which buffer it is in, how far
 into that buffer, and its position in the flattened bytes. Everything here says
 that the three always agree, so the cursor behaves like one index.
 */
module BuffersIterators {
  import opened Bytes

  type Chunks = seq<seq<Byte>>

  /** Bytes in the first `i` buffers. */
  function Sizes(bs: Chunks): seq<nat> {
    seq(|bs|, i requires 0 <= i < |bs| => |bs[i]|)
  }

  function Before(bs: Chunks, i: nat): nat
    requires i <= |bs|
  {
    SumTo(Sizes(bs), i)
  }

  function Total(bs: Chunks): nat { Before(bs, |bs|) }

  /** The first `i` buffers, one after the other. */
  function FlatUpTo(bs: Chunks, i: nat): (f: seq<Byte>)
    requires i <= |bs|
    ensures |f| == Before(bs, i)
  {
    if i == 0 then [] else FlatUpTo(bs, i - 1) + bs[i - 1]
  }

  /** The bytes of the whole list. */
  function Flat(bs: Chunks): (f: seq<Byte>)
    ensures |f| == Total(bs)
  {
    FlatUpTo(bs, |bs|)
  }

  /** A buffer ends where, or before, any later one begins. */
  lemma EndsBefore(bs: Chunks, i: nat, j: nat)
    requires i < j <= |bs|
    ensures Before(bs, i) + |bs[i]| <= Before(bs, j)
  {
    SumEndsBefore(Sizes(bs), i, j);
  }

  /** Byte `off` of buffer `i` is byte `Before(bs, i) + off` of the flattened list. */
  lemma {:induction false} FlatAt(bs: Chunks, i: nat, off: nat, j: nat)
    requires i < j <= |bs| && off < |bs[i]|
    ensures Before(bs, i) + off < Before(bs, j)
    ensures FlatUpTo(bs, j)[Before(bs, i) + off] == bs[i][off]
    decreases j
  {
    EndsBefore(bs, i, j);
    if i < j - 1 {
      FlatAt(bs, i, off, j - 1);
    }
  }

  // ---------- Places ----------

  /** The three coordinates of an iterator: `current_`, `current_buffer_position_`, `position_`. */
  datatype Place = Place(current: nat, offset: nat, position: nat)

  /** The coordinates agree, and the iterator rests in a nonempty buffer or at the end. */
  predicate Rests(bs: Chunks, p: Place) {
    match p
    case Place(current, offset, position) =>
      && current <= |bs|
      && position == Before(bs, current) + offset
      && if current < |bs| then offset < |bs[current]| else offset == 0
  }

  /** Places in a later buffer have a higher position. */
  lemma LaterBuffer(bs: Chunks, p: Place, q: Place)
    requires Rests(bs, p) && Rests(bs, q) && p.current < q.current
    ensures p.position < q.position
  {
    EndsBefore(bs, p.current, q.current);
  }

  /** A place is fixed by its flat position, so comparing positions compares iterators. */
  lemma PlaceUnique(bs: Chunks, p: Place, q: Place)
    requires Rests(bs, p) && Rests(bs, q) && p.position == q.position
    ensures p == q
  {
    if p.current < q.current {
      LaterBuffer(bs, p, q);
    } else if q.current < p.current {
      LaterBuffer(bs, q, p);
    }
  }

  /** Off the end, the position is an index into the flattened bytes; at the end it is their length. */
  lemma PositionInFlat(bs: Chunks, p: Place)
    requires Rests(bs, p)
    ensures p.position <= Total(bs)
    ensures p.current == |bs| <==> p.position == Total(bs)
    ensures p.current < |bs| ==> bs[p.current][p.offset] == Flat(bs)[p.position]
  {
    if p.current < |bs| {
      FlatAt(bs, p.current, p.offset, |bs|);
    }
  }

  /** The first nonempty buffer at or after `i`, or the end. */
  function SkipEmpty(bs: Chunks, i: nat): (j: nat)
    requires i <= |bs|
    ensures i <= j <= |bs| && Before(bs, j) == Before(bs, i)
    ensures j < |bs| ==> |bs[j]| > 0
    decreases |bs| - i
  {
    if i == |bs| || |bs[i]| > 0 then i else SkipEmpty(bs, i + 1)
  }

  /** The last nonempty buffer before `i`. */
  function BackToNonempty(bs: Chunks, i: nat): (j: nat)
    requires i <= |bs| && Before(bs, i) > 0
    ensures j < i && |bs[j]| > 0 && Before(bs, j) + |bs[j]| == Before(bs, i)
  {
    if |bs[i - 1]| > 0 then i - 1 else BackToNonempty(bs, i - 1)
  }

  /** The place one byte further. */
  function Next(bs: Chunks, p: Place): (q: Place)
    requires Rests(bs, p) && p.current < |bs|
    ensures Rests(bs, q) && q.position == p.position + 1
  {
    if p.offset + 1 != |bs[p.current]| then Place(p.current, p.offset + 1, p.position + 1)
    else Place(SkipEmpty(bs, p.current + 1), 0, p.position + 1)
  }

  /** The place one byte back. */
  function Prev(bs: Chunks, p: Place): (q: Place)
    requires Rests(bs, p) && p.position > 0
    ensures Rests(bs, q) && q.position == p.position - 1
  {
    if p.offset != 0 then Place(p.current, p.offset - 1, p.position - 1)
    else
      var j := BackToNonempty(bs, p.current);
      Place(j, |bs[j]| - 1, p.position - 1)
  }

  /** `n` single steps forward, or `-n` single steps back. */
  function Walk(bs: Chunks, p: Place, n: int): (q: Place)
    requires Rests(bs, p) && 0 <= p.position + n <= Total(bs)
    ensures Rests(bs, q) && q.position == p.position + n
    decreases if n < 0 then -n else n
  {
    PositionInFlat(bs, p);
    if n == 0 then p
    else if n > 0 then Walk(bs, Next(bs, p), n - 1)
    else Walk(bs, Prev(bs, p), n + 1)
  }

  lemma WalksCompose(bs: Chunks, p: Place, a: int, b: int)
    requires Rests(bs, p)
    requires 0 <= p.position + a <= Total(bs) && 0 <= p.position + a + b <= Total(bs)
    ensures Walk(bs, Walk(bs, p, a), b) == Walk(bs, p, a + b)
  {
    PlaceUnique(bs, Walk(bs, Walk(bs, p, a), b), Walk(bs, p, a + b));
  }

  lemma WalkBackUndoes(bs: Chunks, p: Place, n: int)
    requires Rests(bs, p) && 0 <= p.position + n <= Total(bs)
    ensures p.position <= Total(bs) && Walk(bs, Walk(bs, p, n), -n) == p
  {
    PositionInFlat(bs, p);
    PlaceUnique(bs, Walk(bs, Walk(bs, p, n), -n), p);
  }

  /** A run of jumps, each one in range when it is made. */
  ghost predicate JumpsInRange(bs: Chunks, position: int, jumps: seq<int>)
    decreases |jumps|
  {
    0 <= position <= Total(bs) && (|jumps| > 0 ==> JumpsInRange(bs, position + jumps[0], jumps[1..]))
  }

  function Sum(jumps: seq<int>): int {
    if |jumps| == 0 then 0 else jumps[0] + Sum(jumps[1..])
  }

  function Jump(bs: Chunks, p: Place, jumps: seq<int>): (q: Place)
    requires Rests(bs, p) && JumpsInRange(bs, p.position, jumps)
    ensures Rests(bs, q)
    decreases |jumps|
  {
    if |jumps| == 0 then p
    else
      assert JumpsInRange(bs, p.position + jumps[0], jumps[1..]);
      Jump(bs, Walk(bs, p, jumps[0]), jumps[1..])
  }

  /** Whatever the jumps of a run, where it ends depends only on their sum. */
  lemma {:induction false} JumpsAddUp(bs: Chunks, p: Place, jumps: seq<int>)
    requires Rests(bs, p) && JumpsInRange(bs, p.position, jumps)
    ensures 0 <= p.position + Sum(jumps) <= Total(bs)
    ensures Jump(bs, p, jumps) == Walk(bs, p, Sum(jumps))
    decreases |jumps|
  {
    if |jumps| > 0 {
      JumpsAddUp(bs, Walk(bs, p, jumps[0]), jumps[1..]);
      WalksCompose(bs, p, jumps[0], Sum(jumps[1..]));
    }
  }

  // ---------- The iterator ----------

  class BuffersIterator {
    const buffers: Chunks
    var currentBuffer: seq<Byte>
    var currentBufferPosition: nat
    var current: nat
    var position: nat

    function Where(): Place
      reads this
    {
      Place(current, currentBufferPosition, position)
    }

    /** The invariant of every reachable iterator. `currentBuffer` may be stale at the end. */
    ghost predicate Valid()
      reads this
    {
      && Rests(buffers, Where())
      && (current < |buffers| ==> currentBuffer == buffers[current])
    }

    /** `begin(buffers)`. */
    constructor Begin(bs: Chunks)
      ensures buffers == bs && Valid() && position == 0
    {
      buffers := bs;
      currentBuffer, currentBufferPosition, current, position := [], 0, 0, 0;
      new;
      while current != |bs|
        invariant current <= |bs| && currentBufferPosition == 0 && position == 0 && buffers == bs
        invariant Before(bs, current) == 0
      {
        currentBuffer := bs[current];
        if |currentBuffer| > 0 {
          break;
        }
        current := current + 1;
      }
    }

    /** `end(buffers)`. */
    constructor End(bs: Chunks)
      ensures buffers == bs && Valid() && position == Total(bs)
    {
      buffers := bs;
      currentBuffer, currentBufferPosition, current, position := [], 0, 0, 0;
      new;
      while current != |bs|
        invariant current <= |bs| && currentBufferPosition == 0 && buffers == bs
        invariant position == Before(bs, current)
      {
        position := position + |bs[current]|;
        current := current + 1;
      }
    }

    /** The implicit copy constructor. */
    constructor Copy(other: BuffersIterator)
      requires other.Valid()
      ensures buffers == other.buffers && Valid() && Where() == other.Where()
    {
      buffers := other.buffers;
      currentBuffer, currentBufferPosition := other.currentBuffer, other.currentBufferPosition;
      current, position := other.current, other.position;
    }

    /** `operator*`. */
    method Dereference() returns (b: Byte)
      requires Valid() && current != |buffers|
      ensures b == buffers[current][currentBufferPosition]
      ensures position < Total(buffers) && b == Flat(buffers)[position]
    {
      PositionInFlat(buffers, Where());
      b := currentBuffer[currentBufferPosition];
    }

    /** `operator++`. */
    method Increment()
      requires Valid() && current != |buffers|
      modifies this
      ensures Valid() && Where() == Next(buffers, old(Where()))
    {
      position := position + 1;
      currentBufferPosition := currentBufferPosition + 1;
      if currentBufferPosition != |currentBuffer| {
        return;
      }
      current := current + 1;
      currentBufferPosition := 0;
      NextNonempty();
    }

    /** The loop of `increment`: to the next nonempty buffer. */
    method NextNonempty()
      requires current <= |buffers|
      modifies `current, `currentBuffer
      ensures current == SkipEmpty(buffers, old(current)) && (current < |buffers| ==> currentBuffer == buffers[current])
    {
      while current != |buffers|
        invariant current <= |buffers| && SkipEmpty(buffers, current) == SkipEmpty(buffers, old(current))
      {
        currentBuffer := buffers[current];
        if |currentBuffer| > 0 {
          return;
        }
        current := current + 1;
      }
    }

    /** `operator--`. */
    method Decrement()
      requires Valid() && position > 0
      modifies this
      ensures Valid() && Where() == Prev(buffers, old(Where()))
    {
      position := position - 1;
      if currentBufferPosition != 0 {
        currentBufferPosition := currentBufferPosition - 1;
        return;
      }
      var iter: nat := current;
      while iter != 0
        invariant iter <= current == old(current) && Before(buffers, iter) == position + 1
        invariant BackToNonempty(buffers, iter) == BackToNonempty(buffers, current)
        invariant currentBufferPosition == 0 && position == old(position) - 1
      {
        iter := iter - 1;
        var buffer := buffers[iter];
        if |buffer| > 0 {
          current := iter;
          currentBuffer := buffer;
          currentBufferPosition := |buffer| - 1;
          return;
        }
      }
    }

    /** `operator+=`: any in-range distance, in either direction, is that many single steps. */
    method Advance(n: int)
      requires Valid() && 0 <= position + n <= Total(buffers)
      modifies this
      ensures Valid() && Where() == Walk(buffers, old(Where()), n)
    {
      if n > 0 {
        AdvanceForward(n);
      } else if n < 0 {
        AdvanceBack(-n);
      }
      PlaceUnique(buffers, Where(), Walk(buffers, old(Where()), n));
    }

    /** The loop of `advance` for a positive distance. */
    method AdvanceForward(distance: nat)
      requires Valid() && distance > 0 && position + distance <= Total(buffers)
      modifies this
      ensures Valid() && position == old(position) + distance
    {
      PositionInFlat(buffers, Where());
      var n: nat := distance;
      while true
        invariant current < |buffers| && currentBuffer == buffers[current]
        invariant currentBufferPosition <= |currentBuffer|
        invariant position == Before(buffers, current) + currentBufferPosition
        invariant position + n == old(position) + distance
        decreases |buffers| - current
      {
        var balance := |currentBuffer| - currentBufferPosition;
        if balance > n {
          position := position + n;
          currentBufferPosition := currentBufferPosition + n;
          return;
        }
        EndsBefore(buffers, current, |buffers|);
        n := n - balance;
        position := position + balance;
        current := current + 1;
        if current == |buffers| {
          assert n == 0; // otherwise "iterator out of bounds"
          currentBuffer := [];
          currentBufferPosition := 0;
          return;
        }
        currentBuffer := buffers[current];
        currentBufferPosition := 0;
      }
    }

    /** The loop of `advance` for a negative distance. */
    method AdvanceBack(distance: nat)
      requires Valid() && 0 < distance <= position
      modifies this
      ensures Valid() && position == old(position) - distance
    {
      var n: nat := distance;
      while true
        invariant current <= |buffers| && (current < |buffers| ==> currentBuffer == buffers[current])
        invariant if current < |buffers| then currentBufferPosition <= |currentBuffer| else currentBufferPosition == 0
        invariant position == Before(buffers, current) + currentBufferPosition
        invariant 0 < n <= position && position - n == old(position) - distance
        decreases current
      {
        if currentBufferPosition >= n {
          position := position - n;
          currentBufferPosition := currentBufferPosition - n;
          return;
        }
        n := n - currentBufferPosition;
        position := position - currentBufferPosition;
        if current == 0 {
          assert false; // "iterator out of bounds"
        }
        PreviousNonempty();
      }
    }

    /** The inner loop of `advance`: to the end of the last nonempty buffer before this one. */
    method PreviousNonempty()
      requires current <= |buffers| && position == Before(buffers, current) > 0
      modifies this
      ensures current < old(current) && currentBuffer == buffers[current]
      ensures currentBufferPosition == |currentBuffer| && position == old(position)
      ensures position == Before(buffers, current) + currentBufferPosition
    {
      var iter: nat := current;
      while iter != 0
        invariant iter <= current == old(current) && Before(buffers, iter) == position == old(position)
      {
        iter := iter - 1;
        var buffer := buffers[iter];
        if |buffer| > 0 {
          current := iter;
          currentBuffer := buffer;
          currentBufferPosition := |buffer|;
          return;
        }
      }
    }

    /** `operator[]`: the byte `n` places away, this iterator unmoved. */
    method At(n: int) returns (b: Byte)
      requires Valid() && 0 <= position + n < Total(buffers)
      ensures b == Flat(buffers)[position + n]
    {
      var tmp := new BuffersIterator.Copy(this);
      tmp.Advance(n);
      PositionInFlat(buffers, tmp.Where());
      b := tmp.Dereference();
    }

    /** `operator+(iter, n)` and `operator-(iter, -n)`. */
    method Plus(n: int) returns (iter: BuffersIterator)
      requires Valid() && 0 <= position + n <= Total(buffers)
      ensures fresh(iter) && iter.buffers == buffers && iter.Valid()
      ensures iter.Where() == Walk(buffers, Where(), n)
    {
      iter := new BuffersIterator.Copy(this);
      iter.Advance(n);
    }
  }

  // ---------- Comparisons ----------

  /** `equal`. */
  predicate Equal(a: Place, b: Place) { a.position == b.position }

  /** `a.distance_to(b)`, that is `b - a`. */
  function DistanceTo(a: Place, b: Place): int { b.position - a.position }

  predicate Less(a: Place, b: Place) { DistanceTo(a, b) > 0 }

  predicate AtMost(a: Place, b: Place) { !Less(b, a) }

  /** The comparisons look only at positions, yet decide the full state: `==` is identity and `<`, `<=` order the cursor. */
  lemma ComparisonsAgree(bs: Chunks, a: Place, b: Place)
    requires Rests(bs, a) && Rests(bs, b)
    ensures Equal(a, b) <==> a == b
    ensures Less(a, b) <==> a.current < b.current || (a.current == b.current && a.offset < b.offset)
    ensures AtMost(a, b) <==> Less(a, b) || a == b
    ensures 0 <= a.position + DistanceTo(a, b) <= Total(bs) && Walk(bs, a, DistanceTo(a, b)) == b
  {
    PositionInFlat(bs, a);
    PositionInFlat(bs, b);
    PlaceUnique(bs, Walk(bs, a, DistanceTo(a, b)), b);
    if a.position == b.position {
      PlaceUnique(bs, a, b);
    }
    if a.current < b.current {
      LaterBuffer(bs, a, b);
    } else if b.current < a.current {
      LaterBuffer(bs, b, a);
    }
  }
}
