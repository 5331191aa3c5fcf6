/** Joint clearing end to end: from the chain's own quotes to the scorer. */
module JointSolution {
  import opened Models
  import opened Encoder
  import opened Selection
  import opened JointClearing
  import opened JointInvariants
  import opened RouterQuotes
  import opened Scoring
  import opened Published
  import Router
  import V3Batched
  import BatchedQuoter

  lemma {:induction false} GroupMidPathsMarked(g: Group, amount: nat, fee: nat, mids: seq<Token>)
    ensures forall p :: p in GroupMidPaths(g, amount, fee, mids) ==> p.orderUid == GroupUid(g)
  {
    if mids != [] {
      GroupMidPathsMarked(g, amount, fee, mids[..|mids| - 1]);
    }
  }

  lemma {:induction false} GroupTierPathsMarked(g: Group, amount: nat, mids: seq<Token>, n: nat)
    requires n <= |FEE_TIERS|
    ensures forall p :: p in GroupTierPaths(g, amount, mids, n) ==> p.orderUid == GroupUid(g)
  {
    if n > 0 {
      GroupTierPathsMarked(g, amount, mids, n - 1);
      GroupMidPathsMarked(g, amount, FEE_TIERS[n - 1], mids);
    }
  }

  /** Paths quoted for a group can be told from the orders' own. */
  lemma {:induction false} GroupPathsMarked(groups: seq<Group>, mids: seq<Token>)
    ensures forall p :: p in GroupPaths(groups, mids) ==> IsGroupUid(p.orderUid)
  {
    if groups != [] {
      var n := |groups| - 1;
      GroupPathsMarked(groups[..n], mids);
      GroupTierPathsMarked(groups[n], CombinedSell(groups[n]), mids, |FEE_TIERS|);
    }
  }

  lemma {:induction false} IndividualOf(quotes: seq<RouteQuote>)
    ensures forall q :: q in IndividualQuotes(quotes) ==> q in quotes && !IsGroupUid(q.path.OrderUid())
  {
    if quotes != [] {
      IndividualOf(quotes[..|quotes| - 1]);
    }
  }

  /** The quotes joint clearing gathers satisfy what its guarantees assume, for any chain that quotes
      nothing for nothing. */
  lemma {:induction false} JointQuotesAnswer(chain: V3Batched.Chain, mids: seq<Token>, minGroupSize: nat, orders: seq<Order>)
    requires UniqueUids(orders) && AllSigned(orders)
    requires var groups := BigEnough(GroupsOf(orders), minGroupSize);
             && BatchedQuoter.Buildable(V3Batched.QuoterOf(chain), AllPaths(orders, groups, mids))
             && ZeroForZero(JointQuotes(chain, orders, groups, mids))
    ensures var groups := BigEnough(GroupsOf(orders), minGroupSize);
            JointQuoted(orders, groups, JointQuotes(chain, orders, groups, mids))
  {
    var groups := BigEnough(GroupsOf(orders), minGroupSize);
    var quotes := JointQuotes(chain, orders, groups, mids);
    SolverGroupsAreGood(orders, minGroupSize);
    V3PathsShape(orders, mids);
    GroupPathsMarked(groups, mids);
    IndividualOf(quotes);
    forall q | q in IndividualQuotes(quotes) ensures AnswersSome(orders, q.path) {
      var k :| 0 <= k < |quotes| && quotes[k] == q;
      assert q.path == V3(AllPaths(orders, groups, mids)[k]);
    }
    AnsweredQuotesMatch(orders, IndividualQuotes(quotes));
  }

  /** Solve and score: a solved batch trades no uid twice, breaks no signed limit as the scorer rounds it,
      and so scores the sum of its trades, whatever the chain quoted. */
  method SolveThenScore(cfg: Config, chain: V3Batched.Chain, mids: seq<Token>, minGroupSize: nat, auction: seq<Order>,
                        orders: seq<Order>, native: map<Token, nat>)
    returns (r: Router.Outcome, score: nat)
    requires ValidConfig(cfg)
    requires UniqueUids(auction) && UniqueUids(orders) && AllSigned(orders) && forall o :: o in orders ==> o in auction
    requires var groups := BigEnough(GroupsOf(orders), minGroupSize);
             BatchedQuoter.Buildable(V3Batched.QuoterOf(chain), AllPaths(orders, groups, mids)) ==>
               ZeroForZero(JointQuotes(chain, orders, groups, mids))
    ensures r.Solved? ==> DistinctTrades(r.trades) && ValidTrades(r.trades, ByUid(auction), r.prices)
    ensures r.Solved? && native != map[] ==> score == SumScores(r.trades, ByUid(auction), r.prices, native)
  {
    r := JointClearing.Solve(cfg, chain, mids, minGroupSize, orders);
    score := 0;
    if r.Solved? {
      ghost var groups := BigEnough(GroupsOf(orders), minGroupSize);
      ghost var quotes := JointQuotes(chain, orders, groups, mids);
      JointQuotesAnswer(chain, mids, minGroupSize, orders);
      JointFillsOnce(orders, groups, quotes);
      JointNeverZeroed(auction, orders, groups, quotes);
      ByUidFinds(auction, orders[0]);
      score := ComputeSolutionScore(r.trades, ByUid(auction), r.prices, native);
    }
  }
}
