/** The chunked quoting loop shared by the V3, V4 and Curve quoters (routing/v3_batched.py,
    routing/v4_quoter.py, routing/curve_quoter.py): build every call up front, send them in chunks, and
    decode one amount per path, 0 for a call that brought nothing back. */
module BatchedQuoter {
  import opened Wrappers
  import opened Multicall
  import opened Sequences
  import opened Chunks

  /** `build` is None where building the call raises. */
  datatype Quoter<!P, !C> = Quoter(build: P -> Option<C>, decode: (P, Bytes) -> nat, node: Node<C>)

  datatype Quoted<P> = Quoted(path: P, amountOut: nat)

  function Decoded<P, C>(q: Quoter<P, C>, path: P, result: CallResult): nat {
    if !result.success then 0 else q.decode(path, result.data)
  }

  predicate Buildable<P, C>(q: Quoter<P, C>, paths: seq<P>) {
    forall i :: 0 <= i < |paths| ==> q.build(paths[i]).Some?
  }

  function Calls<P, C>(q: Quoter<P, C>, paths: seq<P>): (calls: seq<C>)
    requires Buildable(q, paths)
    ensures |calls| == |paths|
  {
    seq(|paths|, i requires 0 <= i < |paths| => q.build(paths[i]).value)
  }

  /** What a chunk contributes: its results, or as many failures when it raised. */
  function ChunkResults<C>(node: Node<C>, chunk: seq<C>): (results: seq<CallResult>)
    ensures |results| == |chunk|
  {
    var attempt := AggregateResilient(node, chunk);
    assert attempt.Success? ==> |attempt.value| == |chunk| by { BisectionIsSound(node, chunk); }
    if attempt.Success? then attempt.value else seq(|chunk|, _ => DROPPED)
  }

  function Sender<C>(node: Node<C>): seq<C> -> seq<CallResult> {
    chunk => ChunkResults(node, chunk)
  }

  /** The results of the chunks from `start` on. */
  function ResultsFrom<C>(node: Node<C>, calls: seq<C>, start: nat, size: nat): seq<CallResult>
    requires size > 0 && start <= |calls|
  {
    Chunked(Sender(node), calls, start, size)
  }

  lemma SenderOnePerCall<C>(node: Node<C>, calls: seq<C>)
    ensures OnePerCall(Sender(node), calls)
  {
  }

  lemma ResultsLength<C>(node: Node<C>, calls: seq<C>, size: nat)
    requires size > 0
    ensures |ResultsFrom(node, calls, 0, size)| == |calls|
  {
    SenderOnePerCall(node, calls);
    ChunkedLength(Sender(node), calls, 0, size);
  }

  /** The quote list of a chunk size, as the loop leaves it. */
  function QuotesBySize<P, C>(q: Quoter<P, C>, paths: seq<P>, size: nat): (quotes: seq<Quoted<P>>)
    requires size > 0 && Buildable(q, paths)
    ensures |quotes| == |paths|
  {
    ResultsLength(q.node, Calls(q, paths), size);
    Zip(q, paths, ResultsFrom(q.node, Calls(q, paths), 0, size))
  }

  function Zip<P, C>(q: Quoter<P, C>, paths: seq<P>, results: seq<CallResult>): (quotes: seq<Quoted<P>>)
    requires |results| == |paths|
    ensures |quotes| == |paths|
  {
    seq(|paths|, i requires 0 <= i < |paths| => Quoted(paths[i], Decoded(q, paths[i], results[i])))
  }

  /** The comprehension that builds the calls; building one bad call loses the whole batch. */
  method BuildCalls<P, C>(q: Quoter<P, C>, paths: seq<P>) returns (r: Option<seq<C>>)
    ensures r.Some? <==> Buildable(q, paths)
    ensures r.Some? ==> r.value == Calls(q, paths)
  {
    var calls: seq<C> := [];
    for i := 0 to |paths|
      invariant Buildable(q, paths[..i]) && calls == Calls(q, paths[..i])
    {
      var call := q.build(paths[i]);
      if call.None? {
        return None;
      }
      calls := calls + [call.value];
    }
    assert paths[..|paths|] == paths;
    return Some(calls);
  }

  /** The chunked sending loop. */
  method SendChunks<C>(node: Node<C>, calls: seq<C>, size: nat) returns (results: seq<CallResult>)
    requires size > 0
    ensures results == ResultsFrom(node, calls, 0, size)
  {
    results := [];
    var start := 0;
    while start < |calls|
      invariant start <= |calls|
      invariant results + ResultsFrom(node, calls, start, size) == ResultsFrom(node, calls, 0, size)
    {
      var end := ChunkEnd(|calls|, start, size);
      var chunk := calls[start..end];
      AppendAssoc(results, ChunkResults(node, chunk), ResultsFrom(node, calls, end, size));
      var attempt := AggregateResilient(node, chunk);
      if attempt.Success? {
        results := results + attempt.value;
      } else {
        results := results + seq(|chunk|, _ => DROPPED);
      }
      start := end;
    }
    assert ResultsFrom(node, calls, start, size) == [];
  }

  /** `batched_v3_quote` and its twins. */
  method BatchedQuote<P, C>(q: Quoter<P, C>, paths: seq<P>, size: nat) returns (r: Option<seq<Quoted<P>>>)
    requires size > 0
    ensures r.Some? <==> Buildable(q, paths)
    ensures r.Some? ==> r.value == QuotesBySize(q, paths, size)
  {
    if paths == [] {
      return Some([]);
    }
    var calls := BuildCalls(q, paths);
    if calls.None? {
      return None;
    }
    var results := SendChunks(q.node, calls.value, size);
    ResultsLength(q.node, calls.value, size);
    ghost var zipped := Zip(q, paths, results);
    var quotes: seq<Quoted<P>> := [];
    for i := 0 to |paths|
      invariant quotes == zipped[..i]
    {
      if !results[i].success {
        quotes := quotes + [Quoted(paths[i], 0)];
      } else {
        quotes := quotes + [Quoted(paths[i], q.decode(paths[i], results[i].data))];
      }
    }
    return Some(quotes);
  }

  /** The simple form: one quote per path, each asked on its own. */
  function QuoteOne<P, C>(q: Quoter<P, C>, path: P): nat
    requires q.build(path).Some?
  {
    Decoded(q, path, OneByOne(q.node, q.build(path).value))
  }

  /** What one call of a chunk brings back: nothing when the chunk raised, otherwise its own answer. A chunk
      free of errors other than the gas cap does not raise. */
  lemma {:induction false} ResultOfChunk<C(!new)>(node: Node<C>, chunk: seq<C>, k: nat)
    requires k < |chunk| && FitsOneByOne(node)
    ensures AggregateResilient(node, chunk).Failure? ==> ChunkResults(node, chunk)[k] == DROPPED
    ensures AggregateResilient(node, chunk).Success? ==> ChunkResults(node, chunk)[k] == OneByOne(node, chunk[k])
    ensures FaultFree(node, chunk) ==> AggregateResilient(node, chunk).Success?
  {
    BisectionAgrees(node, chunk);
    if FaultFree(node, chunk) {
      FaultFreeSucceeds(node, chunk);
    }
  }

  lemma {:induction false} SentInChunk<C>(node: Node<C>, calls: seq<C>, size: nat, i: nat)
    requires size > 0 && i < |calls|
    ensures |ResultsFrom(node, calls, 0, size)| == |calls|
    ensures var k := i - ChunkStart(i, size);
            k < |ChunkOf(calls, i, size)| && ResultsFrom(node, calls, 0, size)[i] == ChunkResults(node, ChunkOf(calls, i, size))[k]
  {
    SenderOnePerCall(node, calls);
    ChunkedFromStart(Sender(node), calls, size, i);
  }

  /** The same for a call among all. */
  lemma {:induction false} ResultInChunk<C(!new)>(node: Node<C>, calls: seq<C>, size: nat, i: nat)
    requires size > 0 && i < |calls| && FitsOneByOne(node)
    ensures |ResultsFrom(node, calls, 0, size)| == |calls|
    ensures AggregateResilient(node, ChunkOf(calls, i, size)).Failure? ==> ResultsFrom(node, calls, 0, size)[i] == DROPPED
    ensures AggregateResilient(node, ChunkOf(calls, i, size)).Success? ==>
              ResultsFrom(node, calls, 0, size)[i] == OneByOne(node, calls[i])
    ensures FaultFree(node, ChunkOf(calls, i, size)) ==> AggregateResilient(node, ChunkOf(calls, i, size)).Success?
  {
    SentInChunk(node, calls, size, i);
    ChunkHolds(calls, i, size);
    ResultOfChunk(node, ChunkOf(calls, i, size), i - ChunkStart(i, size));
  }

  /** Failures stay in their chunk: whatever happens elsewhere, output `i` carries path `i`, and its
      amount is 0 when its own chunk raised and its stand-alone quote otherwise, as when no part of its chunk
      meets an error other than the gas cap. */
  lemma ChunkFailureIsLocal<P, C(!new)>(q: Quoter<P, C>, paths: seq<P>, size: nat, i: nat)
    requires size > 0 && Buildable(q, paths) && i < |paths|
    requires FitsOneByOne(q.node)
    ensures var chunk := ChunkOf(Calls(q, paths), i, size);
            var quote := QuotesBySize(q, paths, size)[i];
      && quote.path == paths[i]
      && (AggregateResilient(q.node, chunk).Failure? ==> quote.amountOut == 0)
      && (AggregateResilient(q.node, chunk).Success? ==> quote.amountOut == QuoteOne(q, paths[i]))
      && (FaultFree(q.node, chunk) ==> AggregateResilient(q.node, chunk).Success?)
  {
    ResultInChunk(q.node, Calls(q, paths), size, i);
  }

  /** Without other errors the chunk size does not matter: every size gives the one-by-one quotes. */
  lemma BatchSizeIndependent<P, C(!new)>(q: Quoter<P, C>, paths: seq<P>, size: nat)
    requires size > 0 && Buildable(q, paths)
    requires FitsOneByOne(q.node) && FaultFree(q.node, Calls(q, paths))
    ensures forall i :: 0 <= i < |paths| ==>
              QuotesBySize(q, paths, size)[i] == Quoted(paths[i], QuoteOne(q, paths[i]))
  {
    var calls := Calls(q, paths);
    forall i | 0 <= i < |paths|
      ensures QuotesBySize(q, paths, size)[i] == Quoted(paths[i], QuoteOne(q, paths[i]))
    {
      ChunkFailureIsLocal(q, paths, size, i);
      FaultFreeSlice(q.node, calls, ChunkStart(i, size), ChunkEnd(|paths|, ChunkStart(i, size), size));
    }
  }

  /** A batch that fits the gas cap also fits call by call, and the quoting of these paths meets no other
      error. */
  ghost predicate Answered<P, C(!new)>(q: Quoter<P, C>, paths: seq<P>) {
    FitsOneByOne(q.node) && Buildable(q, paths) && FaultFree(q.node, Calls(q, paths))
  }

  /** On any batch, errors included, a positive quote is the path's own. */
  lemma PositiveQuoteIsOwn<P, C(!new)>(q: Quoter<P, C>, paths: seq<P>, size: nat, i: nat)
    requires size > 0 && Buildable(q, paths) && FitsOneByOne(q.node) && i < |paths|
    ensures var quote := QuotesBySize(q, paths, size)[i];
            quote.path == paths[i] && (quote.amountOut > 0 ==> quote.amountOut == QuoteOne(q, paths[i]))
  {
    ChunkFailureIsLocal(q, paths, size, i);
  }

  /** An answered batch holds each path at its own quote, and nothing else. */
  lemma AnsweredHolds<P, C(!new)>(q: Quoter<P, C>, paths: seq<P>, size: nat, p: P, out: nat)
    requires size > 0 && Answered(q, paths)
    ensures Quoted(p, out) in QuotesBySize(q, paths, size) <==> p in paths && out == QuoteOne(q, p)
  {
    BatchSizeIndependent(q, paths, size);
    var quoted := QuotesBySize(q, paths, size);
    if p in paths {
      var k :| 0 <= k < |paths| && paths[k] == p;
      assert quoted[k] == Quoted(p, QuoteOne(q, p));
    }
  }
}
