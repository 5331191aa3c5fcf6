/** The quotes joint clearing works with, candidate by candidate. */
module JointPool {
  import opened Wrappers
  import opened Models
  import opened Encoder
  import opened Selection
  import opened CandidatesExact
  import opened JointClearing
  import opened JointPublished
  import opened Ledger
  import opened ClearingLoop
  import opened JointInvariants
  import opened JointSolution
  import opened RouterQuotes
  import V3Path
  import V3Batched
  import BatchedQuoter
  import Router

  lemma {:induction false} GroupMidPathsExact(g: Group, amount: nat, fee: nat, mids: seq<Token>, p: V3Batched.Path)
    requires IsTier(fee)
    ensures p in GroupMidPaths(g, amount, fee, mids)
       <==> PairCandidate(p, GroupUid(g), g.sellToken, g.buyToken, amount, false, mids) && p.feeTierIn == fee && p.intermediate.Some?
  {
    if mids != [] {
      var n := |mids| - 1;
      GroupMidPathsExact(g, amount, fee, mids[..n], p);
      assert mids == mids[..n] + [mids[n]];
    }
  }

  lemma {:induction false} GroupTierPathsExact(g: Group, amount: nat, mids: seq<Token>, n: nat, p: V3Batched.Path)
    requires n <= |FEE_TIERS|
    ensures p in GroupTierPaths(g, amount, mids, n)
       <==> PairCandidate(p, GroupUid(g), g.sellToken, g.buyToken, amount, false, mids) && TierOf(p.feeTierIn) < n
  {
    if n > 0 {
      GroupTierPathsExact(g, amount, mids, n - 1, p);
      TierFee(n - 1);
      GroupMidPathsExact(g, amount, FEE_TIERS[n - 1], mids, p);
    }
  }

  lemma TierFee(t: nat)
    requires t < |FEE_TIERS|
    ensures IsTier(FEE_TIERS[t]) && TierOf(FEE_TIERS[t]) == t
    ensures forall fee :: IsTier(fee) && TierOf(fee) == t ==> fee == FEE_TIERS[t]
  {
  }

  /** What is asked for all the sells of a group together. */
  predicate GroupCandidate(p: V3Batched.Path, g: Group, mids: seq<Token>) {
    PairCandidate(p, GroupUid(g), g.sellToken, g.buyToken, CombinedSell(g), false, mids)
  }

  lemma {:induction false} OwnPathsExact(g: Group, mids: seq<Token>, p: V3Batched.Path, tiers: nat)
    requires tiers == |FEE_TIERS|
    ensures p in GroupTierPaths(g, CombinedSell(g), mids, tiers) <==> GroupCandidate(p, g, mids)
  {
    assert tiers == 4;
    GroupTierPathsExact(g, CombinedSell(g), mids, tiers, p);
  }

  lemma {:induction false} GroupPathsNext(groups: seq<Group>, mids: seq<Token>, tiers: nat)
    requires groups != [] && tiers == |FEE_TIERS|
    ensures var g := groups[|groups| - 1];
            GroupPaths(groups, mids) == GroupPaths(groups[..|groups| - 1], mids) + GroupTierPaths(g, CombinedSell(g), mids, tiers)
  {
  }

  ghost predicate SomeCandidate(p: V3Batched.Path, groups: seq<Group>, mids: seq<Token>) {
    exists k :: 0 <= k < |groups| && GroupCandidate(p, groups[k], mids)
  }

  lemma SomeCandidateNext(p: V3Batched.Path, groups: seq<Group>, mids: seq<Token>)
    requires groups != []
    ensures SomeCandidate(p, groups, mids)
       <==> SomeCandidate(p, groups[..|groups| - 1], mids) || GroupCandidate(p, groups[|groups| - 1], mids)
  {
    assert forall k :: 0 <= k < |groups| - 1 ==> groups[k] == groups[..|groups| - 1][k];
  }

  lemma {:induction false} GroupPathsExact(groups: seq<Group>, mids: seq<Token>, p: V3Batched.Path, tiers: nat)
    requires tiers == |FEE_TIERS|
    ensures p in GroupPaths(groups, mids) <==> SomeCandidate(p, groups, mids)
  {
    if groups != [] {
      var n := |groups| - 1;
      GroupPathsExact(groups[..n], mids, p, tiers);
      GroupPathsNext(groups, mids, tiers);
      OwnPathsExact(groups[n], mids, p, tiers);
      SomeCandidateNext(p, groups, mids);
    }
  }

  /** What is asked for one order, or for all the fill-or-kill sells of a pair together. */
  ghost predicate JointCandidate(p: V3Batched.Path, orders: seq<Order>, minGroupSize: nat, mids: seq<Token>) {
    || (exists o :: o in orders && QuotedAt(o, p.amountIn)
                    && PairCandidate(p, o.uid, o.sellToken, o.buyToken, p.amountIn, o.kind.Buy?, mids))
    || (exists g :: PairGroup(g, orders, minGroupSize) && GroupCandidate(p, g, mids))
  }

  lemma {:induction false} AllPathsExact(orders: seq<Order>, minGroupSize: nat, mids: seq<Token>, p: V3Batched.Path)
    requires UniqueUids(orders)
    ensures p in AllPaths(orders, BigEnough(GroupsOf(orders), minGroupSize), mids) <==> JointCandidate(p, orders, minGroupSize, mids)
  {
    var groups := BigEnough(GroupsOf(orders), minGroupSize);
    forall g ensures g in groups <==> PairGroup(g, orders, minGroupSize) {
      GroupsExact(orders, minGroupSize, g);
    }
    V3PathsExact(orders, mids, p);
    GroupPathsExact(groups, mids, p, |FEE_TIERS|);
  }

  lemma V3QuotesHold(quoted: seq<BatchedQuoter.Quoted<V3Batched.Path>>, q: RouteQuote)
    ensures q in Router.V3QuotesOf(quoted) <==> q.path.V3? && BatchedQuoter.Quoted(q.path.v3, q.amountOut) in quoted
  {
    if q.path.V3? && BatchedQuoter.Quoted(q.path.v3, q.amountOut) in quoted {
      var k :| 0 <= k < |quoted| && quoted[k] == BatchedQuoter.Quoted(q.path.v3, q.amountOut);
      assert Router.V3QuotesOf(quoted)[k] == q;
    }
  }

  /** On an answered chain the quotes are the candidates, each at its own quote, and nothing else. */
  lemma {:induction false} JointPoolExact(chain: V3Batched.Chain, mids: seq<Token>, minGroupSize: nat, orders: seq<Order>, q: RouteQuote)
    requires UniqueUids(orders)
    requires BatchedQuoter.Answered(V3Batched.QuoterOf(chain), AllPaths(orders, BigEnough(GroupsOf(orders), minGroupSize), mids))
    ensures q in SolverQuotes(chain, mids, minGroupSize, orders)
       <==> q.path.V3? && JointCandidate(q.path.v3, orders, minGroupSize, mids) && q.amountOut == V3Batched.PathQuote(chain, q.path.v3)
  {
    var quoter := V3Batched.QuoterOf(chain);
    var paths := AllPaths(orders, BigEnough(GroupsOf(orders), minGroupSize), mids);
    V3QuotesHold(BatchedQuoter.QuotesBySize(quoter, paths, V3Batched.MAX_CALLS_PER_BATCH), q);
    if q.path.V3? {
      AllPathsExact(orders, minGroupSize, mids, q.path.v3);
      BatchedQuoter.AnsweredHolds(quoter, paths, V3Batched.MAX_CALLS_PER_BATCH, q.path.v3, q.amountOut);
    }
  }

  // ---- the strategy does not raise ------------------------------------------------------------------

  ghost predicate RealTokens(orders: seq<Order>, mids: seq<Token>) {
    && (forall t :: t in mids ==> V3Path.IsAddress(t))
    && forall o :: o in orders ==> V3Path.IsAddress(o.sellToken) && V3Path.IsAddress(o.buyToken)
  }

  lemma {:induction false} PairSellsOf(orders: seq<Order>, sellToken: Token, buyToken: Token)
    ensures forall o :: o in PairSells(orders, sellToken, buyToken) ==> o in orders && o.sellToken == sellToken && o.buyToken == buyToken
  {
    if orders != [] {
      PairSellsOf(orders[..|orders| - 1], sellToken, buyToken);
    }
  }

  lemma CandidateIsReal(orders: seq<Order>, minGroupSize: nat, mids: seq<Token>, p: V3Batched.Path)
    requires RealTokens(orders, mids) && JointCandidate(p, orders, minGroupSize, mids)
    ensures V3Path.IsAddress(p.tokenIn) && V3Path.IsAddress(p.tokenOut) && TierFeesFit(p)
    ensures p.intermediate.Some? ==> V3Path.IsAddress(p.intermediate.value)
  {
    forall g | PairGroup(g, orders, minGroupSize) ensures V3Path.IsAddress(g.sellToken) && V3Path.IsAddress(g.buyToken) {
      PairSellsOf(orders, g.sellToken, g.buyToken);
      assert g.orders[0] in g.orders;
    }
  }

  /** A group's attempt takes the route of some quote. */
  lemma {:induction false} GroupRoute(groups: seq<Group>, quotes: seq<RouteQuote>, k: nat)
    requires k < |GroupLedger(groups, quotes)|
    ensures exists q :: q in quotes && q.path == GroupLedger(groups, quotes)[k].route
  {
    var e := GroupLedger(groups, quotes)[k];
    RunMembers([], GroupItems(groups, quotes), k);
    var i :| 0 <= i < |groups| && e in GroupItems(groups, quotes)[i];
    BestJointEligible(quotes, groups[i].sellToken, groups[i].buyToken);
  }

  /** So does a fallback attempt. */
  lemma {:induction false} FallbackRoute(unfilled: seq<Order>, quotes: seq<RouteQuote>, i: nat, e: Entry)
    requires i < |unfilled| && e in FallbackItems(unfilled, IndividualQuotes(quotes))[i]
    ensures exists q :: q in quotes && q.path == e.route
  {
    IndividualOf(quotes);
    BestForIn(IndividualQuotes(quotes), unfilled[i].uid);
  }

  lemma {:induction false} AttemptRoute(orders: seq<Order>, groups: seq<Group>, quotes: seq<RouteQuote>, k: nat)
    requires k < |JointLedger(orders, groups, quotes)|
    ensures exists q :: q in quotes && q.path == JointLedger(orders, groups, quotes)[k].route
  {
    var before, ledger := GroupLedger(groups, quotes), JointLedger(orders, groups, quotes);
    var fallback := FallbackPhase(orders, groups, quotes);
    RunPrefix(before, fallback, 0);
    if k < |before| {
      assert ledger[k] == before[k];
      GroupRoute(groups, quotes, k);
    } else {
      RunMembers(before, fallback, k);
      var i :| 0 <= i < |fallback| && ledger[k] in fallback[i];
      FallbackRoute(Unfilled(orders, FilledOf(before)), quotes, i, ledger[k]);
    }
  }

  lemma {:induction false} BestForIn(quotes: seq<RouteQuote>, uid: Uid)
    ensures BestFor(quotes, uid, None).Some? ==> BestFor(quotes, uid, None).value in quotes
  {
    if quotes != [] {
      BestForIn(quotes[..|quotes| - 1], uid);
    }
  }

  lemma {:induction false} QuotedPath(chain: V3Batched.Chain, mids: seq<Token>, minGroupSize: nat, orders: seq<Order>, q: RouteQuote)
    requires JointBuildable(chain, mids, minGroupSize, orders) && q in SolverQuotes(chain, mids, minGroupSize, orders)
    ensures q.path.V3? && q.path.v3 in AllPaths(orders, BigEnough(GroupsOf(orders), minGroupSize), mids)
  {
    var paths := AllPaths(orders, BigEnough(GroupsOf(orders), minGroupSize), mids);
    var k :| 0 <= k < |paths| && SolverQuotes(chain, mids, minGroupSize, orders)[k] == q;
    assert q.path == V3(paths[k]);
  }

  /** On real addresses joint clearing always builds its calls and encodes its swaps: it never raises, whatever the chain
      answers. */
  lemma {:induction false} JointNeverRaises(cfg: Config, chain: V3Batched.Chain, mids: seq<Token>, minGroupSize: nat, orders: seq<Order>)
    requires ValidConfig(cfg) && UniqueUids(orders) && RealTokens(orders, mids)
    ensures JointBuildable(chain, mids, minGroupSize, orders)
    ensures !JointOutcome(cfg, chain, mids, minGroupSize, orders).StrategyError?
  {
    var groups := BigEnough(GroupsOf(orders), minGroupSize);
    var paths := AllPaths(orders, groups, mids);
    forall i | 0 <= i < |paths| ensures V3Batched.QuoterOf(chain).build(paths[i]).Some? {
      AllPathsExact(orders, minGroupSize, mids, paths[i]);
      CandidateIsReal(orders, minGroupSize, mids, paths[i]);
      FittingPathEncodes(cfg, paths[i], 0, 0);
    }
    var quotes := SolverQuotes(chain, mids, minGroupSize, orders);
    var ledger := JointLedger(orders, groups, quotes);
    forall k | 0 <= k < |ledger| ensures Encoding(cfg, ledger[k]).Success? {
      AttemptRoute(orders, groups, quotes, k);
      var q :| q in quotes && q.path == ledger[k].route;
      QuotedPath(chain, mids, minGroupSize, orders, q);
      AllPathsExact(orders, minGroupSize, mids, q.path.v3);
      CandidateIsReal(orders, minGroupSize, mids, q.path.v3);
      FittingPathEncodes(cfg, q.path.v3, ledger[k].sold, ledger[k].bought);
    }
  }
}
