/** A sequence cut into chunks of one size, the last one shorter, and what a function of chunks makes of it. */
module Chunks {
  /** The chunk that position `i` falls into starts here. */
  function ChunkStart(i: nat, size: nat): (lo: nat)
    requires size > 0
    ensures lo <= i < lo + size
  {
    if i < size then 0 else size + ChunkStart(i - size, size)
  }

  function ChunkEnd(n: nat, start: nat, size: nat): nat {
    if start + size <= n then start + size else n
  }

  /** What the chunks from `start` on contribute, each through `f`. */
  function Chunked<C, R>(f: seq<C> -> seq<R>, calls: seq<C>, start: nat, size: nat): seq<R>
    requires size > 0 && start <= |calls|
    decreases |calls| - start
  {
    if start == |calls| then []
    else
      var end := ChunkEnd(|calls|, start, size);
      f(calls[start..end]) + Chunked(f, calls, end, size)
  }

  ghost predicate OnePerCall<C, R>(f: seq<C> -> seq<R>, calls: seq<C>) {
    forall i, j :: 0 <= i <= j <= |calls| ==> |f(calls[i..j])| == j - i
  }

  lemma {:induction false} ChunkedLength<C, R>(f: seq<C> -> seq<R>, calls: seq<C>, start: nat, size: nat)
    requires size > 0 && start <= |calls| && OnePerCall(f, calls)
    ensures |Chunked(f, calls, start, size)| == |calls| - start
    decreases |calls| - start
  {
    if start < |calls| {
      ChunkedLength(f, calls, ChunkEnd(|calls|, start, size), size);
    }
  }

  function ChunkOf<C>(calls: seq<C>, i: nat, size: nat): seq<C>
    requires size > 0 && i < |calls|
  {
    calls[ChunkStart(i, size)..ChunkEnd(|calls|, ChunkStart(i, size), size)]
  }

  /** The chunk of `i`, counted from one boundary or from the next. */
  lemma SameChunk(n: nat, start: nat, size: nat, i: nat)
    requires size > 0 && start <= i < n
    ensures var end := ChunkEnd(n, start, size);
            start + ChunkStart(i - start, size) == if i < end then start else end + ChunkStart(i - end, size)
  {
  }

  /** `result` is what the chunk that starts at `lo` has for position `i`. */
  ghost predicate FoundAt<C, R>(f: seq<C> -> seq<R>, calls: seq<C>, i: nat, size: nat, lo: nat, result: R)
    requires OnePerCall(f, calls)
  {
    var hi := ChunkEnd(|calls|, lo, size);
    lo <= i < hi <= |calls| && result == f(calls[lo..hi])[i - lo]
  }

  /** Result `i` lives in the chunk `i` falls into. */
  lemma {:induction false} ChunkedAt<C, R>(f: seq<C> -> seq<R>, calls: seq<C>, start: nat, size: nat, i: nat)
    requires size > 0 && start <= i < |calls| && OnePerCall(f, calls)
    ensures |Chunked(f, calls, start, size)| == |calls| - start
    ensures var lo := start + ChunkStart(i - start, size);
            FoundAt(f, calls, i, size, lo, Chunked(f, calls, start, size)[i - start])
    decreases |calls| - start
  {
    var end := ChunkEnd(|calls|, start, size);
    ChunkedLength(f, calls, end, size);
    SameChunk(|calls|, start, size, i);
    if i >= end {
      ChunkedAt(f, calls, end, size, i);
    }
  }

  lemma {:induction false} ChunkedFromStart<C, R>(f: seq<C> -> seq<R>, calls: seq<C>, size: nat, i: nat)
    requires size > 0 && i < |calls| && OnePerCall(f, calls)
    ensures |Chunked(f, calls, 0, size)| == |calls|
    ensures var k := i - ChunkStart(i, size);
            k < |f(ChunkOf(calls, i, size))| && Chunked(f, calls, 0, size)[i] == f(ChunkOf(calls, i, size))[k]
  {
    ChunkedAt(f, calls, 0, size, i);
  }

  lemma {:induction false} ChunkHolds<C>(calls: seq<C>, i: nat, size: nat)
    requires size > 0 && i < |calls|
    ensures var lo := ChunkStart(i, size);
            lo <= i && i - lo < |ChunkOf(calls, i, size)| && ChunkOf(calls, i, size)[i - lo] == calls[i]
  {
  }
}
