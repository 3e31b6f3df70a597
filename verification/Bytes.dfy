/** Bytes and the few sequence facts every other module needs. */
module Bytes {

  type Byte = x: int | 0 <= x < 256

  /** An `int_type`: a character or eof. */
  datatype CharOrEof = Eof | Char(c: Byte)

  /** What an `overflow` returns: some non-eof value, the character, or failure (eof or an exception). */
  datatype Overflowed = NotEof | Put(c: Byte) | Failed

  function Min(a: nat, b: nat): nat { if a < b then a else b }

  function Max(a: nat, b: nat): nat { if a < b then b else a }

  /** The numbers `0 .. n`. */
  function UpTo(n: nat): seq<nat> {
    seq(n, i => i)
  }

  /** `n` bytes of `v` starting at `from`. */
  function Sub(v: seq<Byte>, from: nat, n: nat): (s: seq<Byte>)
    requires from + n <= |v|
    ensures |s| == n
  {
    seq(n, i requires 0 <= i < n => v[from + i])
  }

  lemma SubSplit(v: seq<Byte>, from: nat, a: nat, b: nat)
    requires from + a + b <= |v|
    ensures Sub(v, from, a + b) == Sub(v, from, a) + Sub(v, from + a, b)
  {
  }

  /** `v` with `bytes` stored at offset `at`. */
  function Stored(v: seq<Byte>, at: nat, bytes: seq<Byte>): (v': seq<Byte>)
    requires at + |bytes| <= |v|
    ensures |v'| == |v|
  {
    seq(|v|, i requires 0 <= i < |v| => if at <= i < at + |bytes| then bytes[i - at] else v[i])
  }

  // ---------- Lists of pieces of given sizes ----------

  /** Bytes in the first `i` pieces. */
  function SumTo(sizes: seq<nat>, i: nat): nat
    requires i <= |sizes|
  {
    if i == 0 then 0 else SumTo(sizes, i - 1) + sizes[i - 1]
  }

  /** A piece ends where, or before, any later one begins. */
  lemma {:induction false} SumEndsBefore(sizes: seq<nat>, i: nat, j: nat)
    requires i < j <= |sizes|
    ensures SumTo(sizes, i) + sizes[i] <= SumTo(sizes, j)
    decreases j
  {
    if i < j - 1 {
      SumEndsBefore(sizes, i, j - 1);
    }
  }
}
