/** The external quote of the EBBO check, against every path that could have answered. */
module EbboQuotes {
  import opened Models
  import opened Candidates
  import opened CandidatesExact
  import opened Ebbo
  import V3Batched
  import BatchedQuoter

  /** Asked alone, the chain quotes this positive amount for the path. */
  ghost predicate Pays(chain: V3Batched.Chain, p: V3Batched.Path, amount: nat) {
    && amount > 0 && V3Batched.BuildCall(p).Some?
    && var call := V3Batched.BuildCall(p).value;
    && !chain.node.overflows([call]) && chain.node.eval(call).success
    && amount == if p.intermediate.None? then chain.decodeSingle(chain.node.eval(call).data) else chain.decodeMulti(chain.node.eval(call).data)
  }

  lemma PaysExact(chain: V3Batched.Chain, p: V3Batched.Path, amount: nat)
    ensures Pays(chain, p, amount) <==> amount > 0 && V3Batched.PathQuote(chain, p) == amount
  {
  }

  predicate AtLeastAsGood(exactOutput: bool, amount: nat, other: nat) {
    if exactOutput then amount <= other else other <= amount
  }

  /** The external quote is the best of every pool of the pair and every two-hop of one fee: one of them pays it, none pays
      better, and there is no route exactly when none pays at all. */
  lemma {:induction false} ExternalIsBest(chain: V3Batched.Chain, sellToken: Token, buyToken: Token, amount: nat, exactOutput: bool,
                                          mids: seq<Token>)
    requires BatchedQuoter.Answered(V3Batched.QuoterOf(chain), PairPaths("", sellToken, buyToken, amount, exactOutput, mids))
    ensures var r := ExternalQuote(chain, sellToken, buyToken, amount, exactOutput, mids);
      && !r.QuoteFailed?
      && (r.Amount? ==> exists p :: PairCandidate(p, "", sellToken, buyToken, amount, exactOutput, mids) && Pays(chain, p, r.amount))
      && forall p, other :: PairCandidate(p, "", sellToken, buyToken, amount, exactOutput, mids) && Pays(chain, p, other) ==>
           r.Amount? && AtLeastAsGood(exactOutput, r.amount, other)
  {
    var quoter := V3Batched.QuoterOf(chain);
    var paths := PairPaths("", sellToken, buyToken, amount, exactOutput, mids);
    var quotes := BatchedQuoter.QuotesBySize(quoter, paths, V3Batched.MAX_CALLS_PER_BATCH);
    var r := ExternalQuote(chain, sellToken, buyToken, amount, exactOutput, mids);
    BatchedQuoter.BatchSizeIndependent(quoter, paths, V3Batched.MAX_CALLS_PER_BATCH);
    BestAmountIsBest(quotes, exactOutput);
    if r.Amount? {
      var k :| 0 <= k < |quotes| && quotes[k].amountOut == r.amount > 0;
      PairPathsExact("", sellToken, buyToken, amount, exactOutput, mids, paths[k]);
      PaysExact(chain, paths[k], r.amount);
    }
    forall p, other | PairCandidate(p, "", sellToken, buyToken, amount, exactOutput, mids) && Pays(chain, p, other)
      ensures r.Amount? && AtLeastAsGood(exactOutput, r.amount, other)
    {
      PairPathsExact("", sellToken, buyToken, amount, exactOutput, mids, p);
      PaysExact(chain, p, other);
      var k :| 0 <= k < |paths| && paths[k] == p;
      assert quotes[k].amountOut == other;
    }
  }
}
