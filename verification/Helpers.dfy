/** The bounded tail of a command's output. */
module Helpers {
  import opened Sums

  // Output tails

  /** The last max elements, or everything. */
  function LastOf<T>(s: seq<T>, max: nat): (r: seq<T>)
    ensures |r| == if |s| <= max then |s| else max
    ensures r == s[|s| - |r|..]
  {
    if |s| <= max then s else s[|s| - max..]
  }

  /** `out` lists the chunks handed to the writer behind this one, if there is one;
      what that writer answers changes nothing here. */
  class TailWriter<T(0)> {
    const max: nat
    const forwards: bool
    var buf: seq<T>
    var out: seq<seq<T>>

    constructor (forwards: bool, max: nat)
      ensures this.max == max && this.forwards == forwards && buf == [] && out == []
    {
      this.max, this.forwards := max, forwards;
      buf, out := [], [];
    }

    /** tailWriter.Write: the count returned is the whole chunk's. */
    method Write(p: seq<T>) returns (n: nat)
      modifies this
      ensures n == |p| && buf == LastOf(old(buf) + p, max)
      ensures out == old(out) + if forwards then [p] else []
    {
      if forwards {
        out := out + [p];
      }
      buf := buf + p;
      if |buf| > max {
        buf := buf[|buf| - max..];
      }
      return |p|;
    }
  }

  /** The buffer after a run of writes. */
  function Buffered<T>(chunks: seq<seq<T>>, max: nat): seq<T> {
    if chunks == [] then []
    else LastOf(Buffered(chunks[..|chunks| - 1], max) + chunks[|chunks| - 1], max)
  }

  /** However the output was chunked, the buffer is the end of all of it. */
  lemma {:induction false} BufferIsTail<T>(chunks: seq<seq<T>>, max: nat)
    ensures Buffered(chunks, max) == LastOf(Flat(chunks), max)
  {
    if chunks != [] {
      BufferIsTail(chunks[..|chunks| - 1], max);
      LastOfLast(Flat(chunks[..|chunks| - 1]), chunks[|chunks| - 1], max);
    }
  }

  lemma LastOfLast<T>(a: seq<T>, b: seq<T>, max: nat)
    ensures LastOf(LastOf(a, max) + b, max) == LastOf(a + b, max)
  {
    if |a| > max {
      var cut := |a| - max;
      assert LastOf(a, max) + b == (a + b)[cut..];
      DropTwice(a + b, cut, |b|);
    }
  }

  lemma DropTwice<T>(s: seq<T>, i: nat, j: nat)
    requires i + j <= |s|
    ensures s[i..][j..] == s[i + j..]
  {
  }
}
