/** Joint clearing (solver/joint_clearing.py): same-pair sells are quoted and settled together at one
    price; whatever is left falls back to the router's per-order path. */
module JointClearing {
  import opened Wrappers
  import opened IntDivision
  import opened Models
  import opened Encoder
  import opened Candidates
  import opened Selection
  import opened Ledger
  import opened ClearingLoop
  import opened Sequences
  import opened ClearingState
  import Router
  import V3Batched
  import BatchedQuoter

  /** Marks the paths quoted for a whole group. */
  const GROUP_UID_PREFIX: string := "__jc_group__"

  predicate IsGroupUid(uid: Uid) {
    GROUP_UID_PREFIX <= uid
  }

  datatype Group = Group(sellToken: Token, buyToken: Token, orders: seq<Order>)

  /** Position of a pair's group, or the number of groups. */
  function PairIndex(groups: seq<Group>, sellToken: Token, buyToken: Token): (k: nat)
    ensures k <= |groups|
    ensures k < |groups| ==> groups[k].sellToken == sellToken && groups[k].buyToken == buyToken
    ensures forall i :: 0 <= i < k ==> groups[i].sellToken != sellToken || groups[i].buyToken != buyToken
  {
    if groups == [] then 0
    else if groups[0].sellToken == sellToken && groups[0].buyToken == buyToken then 0
    else 1 + PairIndex(groups[1..], sellToken, buyToken)
  }

  /** `groups[_group_key(order)].append(order)`, keys in order of first appearance. */
  function AddToGroups(groups: seq<Group>, o: Order): seq<Group> {
    var k := PairIndex(groups, o.sellToken, o.buyToken);
    if k < |groups| then groups[k := groups[k].(orders := groups[k].orders + [o])]
    else groups + [Group(o.sellToken, o.buyToken, [o])]
  }

  /** Only sells that must fill in full are grouped. */
  predicate Groupable(o: Order) {
    o.kind.Sell? && !o.partiallyFillable
  }

  function GroupsOf(orders: seq<Order>): seq<Group> {
    if orders == [] then []
    else
      var n := |orders| - 1;
      var before := GroupsOf(orders[..n]);
      if Groupable(orders[n]) then AddToGroups(before, orders[n]) else before
  }

  function BigEnough(groups: seq<Group>, minGroupSize: nat): seq<Group> {
    if groups == [] then []
    else
      var n := |groups| - 1;
      BigEnough(groups[..n], minGroupSize) + (if |groups[n].orders| >= minGroupSize then [groups[n]] else [])
  }

  method FindGroups(orders: seq<Order>, minGroupSize: nat) returns (joint: seq<Group>)
    ensures joint == BigEnough(GroupsOf(orders), minGroupSize)
  {
    var groups: seq<Group> := [];
    for i := 0 to |orders|
      invariant groups == GroupsOf(orders[..i])
    {
      assert orders[..i + 1][..i] == orders[..i];
      if orders[i].kind == Sell && !orders[i].partiallyFillable {
        groups := AddToGroups(groups, orders[i]);
      }
    }
    assert orders[..|orders|] == orders;
    joint := [];
    for i := 0 to |groups|
      invariant joint == BigEnough(groups[..i], minGroupSize)
    {
      assert groups[..i + 1][..i] == groups[..i];
      if |groups[i].orders| >= minGroupSize {
        joint := joint + [groups[i]];
      }
    }
    assert groups[..|groups|] == groups;
  }

  function FullSells(orders: seq<Order>): (fills: seq<Fill>)
    ensures |fills| == |orders|
  {
    seq(|orders|, i requires 0 <= i < |orders| => Fill(orders[i], orders[i].sellAmount))
  }

  function CombinedSell(g: Group): nat {
    SumExecuted(FullSells(g.orders))
  }

  // ---- candidate paths of a group -------------------------------------------------------------------

  function Take(s: string, n: nat): string {
    if |s| <= n then s else s[..n]
  }

  /** The tier and intermediate suffixes of the source's uid play no part and are left off. */
  function GroupUid(g: Group): Uid {
    GROUP_UID_PREFIX + Take(g.sellToken, 8) + "_" + Take(g.buyToken, 8)
  }

  function GroupMidPaths(g: Group, amount: nat, fee: nat, mids: seq<Token>): seq<V3Batched.Path> {
    if mids == [] then []
    else
      var n := |mids| - 1;
      GroupMidPaths(g, amount, fee, mids[..n])
        + (if mids[n] == g.sellToken || mids[n] == g.buyToken then []
           else [TwoHopPath(GroupUid(g), g.sellToken, g.buyToken, amount, false, mids[n], fee)])
  }

  /** Per tier: the direct path, then its two-hops. */
  function GroupTierPaths(g: Group, amount: nat, mids: seq<Token>, n: nat): seq<V3Batched.Path>
    requires n <= |FEE_TIERS|
  {
    if n == 0 then []
    else
      GroupTierPaths(g, amount, mids, n - 1)
        + [DirectPath(GroupUid(g), g.sellToken, g.buyToken, amount, false, FEE_TIERS[n - 1])]
        + GroupMidPaths(g, amount, FEE_TIERS[n - 1], mids)
  }

  function GroupPaths(groups: seq<Group>, mids: seq<Token>): seq<V3Batched.Path> {
    if groups == [] then []
    else
      var n := |groups| - 1;
      GroupPaths(groups[..n], mids) + GroupTierPaths(groups[n], CombinedSell(groups[n]), mids, |FEE_TIERS|)
  }

  /** `_build_group_paths`. */
  method BuildGroupPaths(g: Group, amount: nat, mids: seq<Token>) returns (paths: seq<V3Batched.Path>)
    ensures paths == GroupTierPaths(g, amount, mids, |FEE_TIERS|)
  {
    paths := [];
    for i := 0 to |FEE_TIERS|
      invariant paths == GroupTierPaths(g, amount, mids, i)
    {
      paths := paths + [DirectPath(GroupUid(g), g.sellToken, g.buyToken, amount, false, FEE_TIERS[i])];
      ghost var before := paths;
      for m := 0 to |mids|
        invariant paths == before + GroupMidPaths(g, amount, FEE_TIERS[i], mids[..m])
      {
        assert mids[..m + 1][..m] == mids[..m];
        if mids[m] == g.sellToken || mids[m] == g.buyToken {
          continue;
        }
        paths := paths + [TwoHopPath(GroupUid(g), g.sellToken, g.buyToken, amount, false, mids[m], FEE_TIERS[i])];
      }
      assert mids[..|mids|] == mids;
    }
  }

  // ---- one group ------------------------------------------------------------------------------------

  predicate JointEligible(q: RouteQuote, sellToken: Token, buyToken: Token) {
    IsGroupUid(q.path.OrderUid()) && q.path.TokenIn() == sellToken && q.path.TokenOut() == buyToken && q.amountOut > 0
  }

  function BestJoint(quotes: seq<RouteQuote>, sellToken: Token, buyToken: Token): Option<RouteQuote> {
    if quotes == [] then None
    else
      var q := quotes[|quotes| - 1];
      var best := BestJoint(quotes[..|quotes| - 1], sellToken, buyToken);
      if !JointEligible(q, sellToken, buyToken) then best
      else if best.None? || q.amountOut > best.value.amountOut then Some(q)
      else best
  }

  /** `_best_joint_quote`. */
  method BestJointQuote(quotes: seq<RouteQuote>, sellToken: Token, buyToken: Token) returns (best: Option<RouteQuote>)
    ensures best == BestJoint(quotes, sellToken, buyToken)
  {
    best := None;
    for i := 0 to |quotes|
      invariant best == BestJoint(quotes[..i], sellToken, buyToken)
    {
      assert quotes[..i + 1][..i] == quotes[..i];
      var q := quotes[i];
      if !IsGroupUid(q.path.OrderUid()) {
        continue;
      }
      if q.path.TokenIn() != sellToken || q.path.TokenOut() != buyToken {
        continue;
      }
      if q.amountOut <= 0 {
        continue;
      }
      if best.None? || q.amountOut > best.value.amountOut {
        best := Some(q);
      }
    }
    assert quotes[..|quotes|] == quotes;
  }

  /** What order `o` receives of a combined swap. */
  function Received(o: Order, combinedSell: nat, combinedBuy: nat): nat
    requires combinedSell > 0
  {
    CeilDiv(o.sellAmount * combinedBuy, combinedSell)
  }

  predicate LimitsSatisfied(orders: seq<Order>, combinedSell: nat, combinedBuy: nat) {
    && combinedSell > 0 && combinedBuy > 0
    && forall i :: 0 <= i < |orders| ==> Received(orders[i], combinedSell, combinedBuy) >= orders[i].buyAmount
  }

  /** `_all_limits_satisfied`. */
  method AllLimitsSatisfied(orders: seq<Order>, combinedSell: nat, combinedBuy: nat) returns (ok: bool)
    ensures ok <==> LimitsSatisfied(orders, combinedSell, combinedBuy)
  {
    if combinedSell <= 0 || combinedBuy <= 0 {
      return false;
    }
    for i := 0 to |orders|
      invariant forall j :: 0 <= j < i ==> Received(orders[j], combinedSell, combinedBuy) >= orders[j].buyAmount
    {
      var received := CeilDiv(orders[i].sellAmount * combinedBuy, combinedSell);
      if received < orders[i].buyAmount {
        return false;
      }
    }
    return true;
  }

  /** The check without its divisions: every order's share of the output exceeds one unit less than its
      limit's share of the input. */
  lemma LimitsSatisfiedExact(orders: seq<Order>, combinedSell: nat, combinedBuy: nat)
    requires combinedSell > 0 && combinedBuy > 0
    ensures LimitsSatisfied(orders, combinedSell, combinedBuy)
       <==> forall i :: 0 <= i < |orders| ==>
              orders[i].sellAmount * combinedBuy > (orders[i].buyAmount - 1) * combinedSell
  {
    forall i | 0 <= i < |orders|
      ensures Received(orders[i], combinedSell, combinedBuy) >= orders[i].buyAmount
         <==> orders[i].sellAmount * combinedBuy > (orders[i].buyAmount - 1) * combinedSell
    {
      CeilDivAtLeast(orders[i].sellAmount * combinedBuy, combinedSell, orders[i].buyAmount);
    }
  }

  function GroupEntry(g: Group, best: RouteQuote): Entry {
    Entry(FullSells(g.orders), g.sellToken, g.buyToken, best.path, CombinedSell(g), best.amountOut)
  }

  /** The one swap a group can get: all of it or nothing. */
  function GroupAttempts(g: Group, quotes: seq<RouteQuote>): seq<Entry> {
    var best := BestJoint(quotes, g.sellToken, g.buyToken);
    if best.Some? && LimitsSatisfied(g.orders, CombinedSell(g), best.value.amountOut)
    then [GroupEntry(g, best.value)] else []
  }

  function GroupItems(groups: seq<Group>, quotes: seq<RouteQuote>): (items: seq<seq<Entry>>)
    ensures |items| == |groups|
  {
    seq(|groups|, i requires 0 <= i < |groups| => GroupAttempts(groups[i], quotes))
  }

  // ---- the fallback ---------------------------------------------------------------------------------

  function Unfilled(orders: seq<Order>, filled: set<Uid>): seq<Order> {
    if orders == [] then []
    else
      var n := |orders| - 1;
      Unfilled(orders[..n], filled) + (if orders[n].uid in filled then [] else [orders[n]])
  }

  function IndividualQuotes(quotes: seq<RouteQuote>): seq<RouteQuote> {
    if quotes == [] then []
    else
      var n := |quotes| - 1;
      IndividualQuotes(quotes[..n]) + (if IsGroupUid(quotes[n].path.OrderUid()) then [] else [quotes[n]])
  }

  /** Sells only, full amount only. */
  function FallbackAttempts(o: Order, quotes: seq<RouteQuote>): seq<Entry> {
    var best := BestFor(quotes, o.uid, None);
    if o.kind.Sell? && best.Some? && best.value.amountOut >= o.buyAmount
    then [Router.SingleFill(o, o.sellAmount, best.value.path, o.sellAmount, best.value.amountOut)]
    else []
  }

  function FallbackItems(orders: seq<Order>, quotes: seq<RouteQuote>): (items: seq<seq<Entry>>)
    ensures |items| == |orders|
  {
    seq(|orders|, i requires 0 <= i < |orders| => FallbackAttempts(orders[i], quotes))
  }

  /** The ledger of the group phase. */
  function GroupLedger(groups: seq<Group>, quotes: seq<RouteQuote>): seq<Entry> {
    Run([], GroupItems(groups, quotes))
  }

  function FallbackPhase(orders: seq<Order>, groups: seq<Group>, quotes: seq<RouteQuote>): seq<seq<Entry>> {
    FallbackItems(Unfilled(orders, FilledOf(GroupLedger(groups, quotes))), IndividualQuotes(quotes))
  }

  /** The ledger after both phases. */
  function JointLedger(orders: seq<Order>, groups: seq<Group>, quotes: seq<RouteQuote>): seq<Entry> {
    Run(GroupLedger(groups, quotes), FallbackPhase(orders, groups, quotes))
  }

  /** The group loop. */
  method EmitGroups(cfg: Config, batch: Clearing, groups: seq<Group>, quotes: seq<RouteQuote>) returns (ok: bool)
    requires ValidConfig(cfg) && batch.Valid(cfg) && batch.ledger == []
    modifies batch
    ensures ok <==> AllEncodable(cfg, GroupLedger(groups, quotes))
    ensures ok ==> batch.Valid(cfg) && batch.ledger == GroupLedger(groups, quotes)
  {
    ghost var items := GroupItems(groups, quotes);
    for i := 0 to |groups|
      invariant batch.Valid(cfg) && batch.ledger == Run([], items[..i])
    {
      RunNext([], items, i);
      var g := groups[i];
      var best := BestJointQuote(quotes, g.sellToken, g.buyToken);
      if best.None? {
        continue;
      }
      var satisfied := AllLimitsSatisfied(g.orders, CombinedSell(g), best.value.amountOut);
      if !satisfied {
        continue;
      }
      var e := GroupEntry(g, best.value);
      assert items[i] == [e];
      var r := batch.Emit(cfg, e);
      if r == Raised {
        return false;
      }
    }
    TakeAll(items);
    return true;
  }

  /** The fallback of one order. */
  method EmitFallbackOrder(cfg: Config, batch: Clearing, o: Order, quotes: seq<RouteQuote>, bestPerOrder: map<Uid, RouteQuote>)
    returns (r: Emission)
    requires ValidConfig(cfg) && batch.Valid(cfg)
    requires BestFor(quotes, o.uid, None) == if o.uid in bestPerOrder then Some(bestPerOrder[o.uid]) else None
    modifies batch
    ensures Router.Chosen(cfg, old(batch.ledger), Choose(PricesOf(old(batch.ledger)), FallbackAttempts(o, quotes)), batch, r)
  {
    if o.kind == Buy {
      return Refused;
    }
    if o.uid !in bestPerOrder || bestPerOrder[o.uid].amountOut < o.buyAmount {
      return Refused;
    }
    var best := bestPerOrder[o.uid];
    r := batch.Emit(cfg, Router.SingleFill(o, o.sellAmount, best.path, o.sellAmount, best.amountOut));
  }

  /** The fallback loop. */
  method EmitFallback(cfg: Config, batch: Clearing, unfilled: seq<Order>, quotes: seq<RouteQuote>) returns (ok: bool)
    requires ValidConfig(cfg) && batch.Valid(cfg)
    modifies batch
    ensures var ledger := Run(old(batch.ledger), FallbackItems(unfilled, quotes));
      && (ok <==> AllEncodable(cfg, ledger))
      && (ok ==> batch.Valid(cfg) && batch.ledger == ledger)
  {
    var bestPerOrder := SelectBestQuotePerOrder(quotes, None);
    ghost var start := batch.ledger;
    ghost var items := FallbackItems(unfilled, quotes);
    for i := 0 to |unfilled|
      invariant batch.Valid(cfg) && batch.ledger == Run(start, items[..i])
    {
      RunNext(start, items, i);
      var r := EmitFallbackOrder(cfg, batch, unfilled[i], quotes, bestPerOrder);
      if r == Raised {
        return false;
      }
    }
    TakeAll(items);
    return true;
  }

  method FilterUnfilled(orders: seq<Order>, filled: set<Uid>) returns (unfilled: seq<Order>)
    ensures unfilled == Unfilled(orders, filled)
  {
    unfilled := [];
    for i := 0 to |orders|
      invariant unfilled == Unfilled(orders[..i], filled)
    {
      assert orders[..i + 1][..i] == orders[..i];
      if orders[i].uid !in filled {
        unfilled := unfilled + [orders[i]];
      }
    }
    assert orders[..|orders|] == orders;
  }

  method FilterIndividual(quotes: seq<RouteQuote>) returns (individual: seq<RouteQuote>)
    ensures individual == IndividualQuotes(quotes)
  {
    individual := [];
    for i := 0 to |quotes|
      invariant individual == IndividualQuotes(quotes[..i])
    {
      assert quotes[..i + 1][..i] == quotes[..i];
      if !IsGroupUid(quotes[i].path.OrderUid()) {
        individual := individual + [quotes[i]];
      }
    }
    assert quotes[..|quotes|] == quotes;
  }

  /** The group phase, then the fallback phase, over one state. */
  method ClearBatch(cfg: Config, orders: seq<Order>, groups: seq<Group>, quotes: seq<RouteQuote>) returns (r: Router.Outcome)
    requires ValidConfig(cfg)
    ensures r == Router.OutcomeOf(cfg, JointLedger(orders, groups, quotes))
  {
    var batch := new Clearing();
    var ok := EmitGroups(cfg, batch, groups, quotes);
    RunPrefix(GroupLedger(groups, quotes), FallbackPhase(orders, groups, quotes), 0);
    if !ok {
      var k :| 0 <= k < |GroupLedger(groups, quotes)| && Encoding(cfg, GroupLedger(groups, quotes)[k]).Failure?;
      assert JointLedger(orders, groups, quotes)[k] == GroupLedger(groups, quotes)[k];
      return Router.StrategyError;
    }
    var unfilled := FilterUnfilled(orders, batch.filledUids);
    var individual := FilterIndividual(quotes);
    ok := EmitFallback(cfg, batch, unfilled, individual);
    if !ok {
      return Router.StrategyError;
    }
    if batch.trades == [] {
      return Router.NoSolution;
    }
    return Router.Solved(batch.prices, batch.trades, batch.interactions);
  }

  /** Individual paths, then group paths. */
  function AllPaths(orders: seq<Order>, groups: seq<Group>, mids: seq<Token>): seq<V3Batched.Path> {
    V3Paths(orders, mids) + GroupPaths(groups, mids)
  }

  function JointQuotes(chain: V3Batched.Chain, orders: seq<Order>, groups: seq<Group>, mids: seq<Token>): seq<RouteQuote>
    requires BatchedQuoter.Buildable(V3Batched.QuoterOf(chain), AllPaths(orders, groups, mids))
  {
    Router.V3QuotesOf(BatchedQuoter.QuotesBySize(V3Batched.QuoterOf(chain), AllPaths(orders, groups, mids),
                                                 V3Batched.MAX_CALLS_PER_BATCH))
  }

  /** Every path of the batch: the orders' own, then the groups'. */
  method BuildAllPaths(orders: seq<Order>, groups: seq<Group>, mids: seq<Token>) returns (paths: seq<V3Batched.Path>)
    ensures paths == AllPaths(orders, groups, mids)
  {
    var individual := BuildV3CandidatePaths(orders, mids);
    paths := individual;
    for i := 0 to |groups|
      invariant paths == individual + GroupPaths(groups[..i], mids)
    {
      TakeNext(groups, i);
      var ofGroup := BuildGroupPaths(groups[i], CombinedSell(groups[i]), mids);
      AppendAssoc(individual, GroupPaths(groups[..i], mids), ofGroup);
      paths := paths + ofGroup;
    }
    assert groups[..|groups|] == groups;
  }

  predicate JointBuildable(chain: V3Batched.Chain, mids: seq<Token>, minGroupSize: nat, orders: seq<Order>) {
    BatchedQuoter.Buildable(V3Batched.QuoterOf(chain), AllPaths(orders, BigEnough(GroupsOf(orders), minGroupSize), mids))
  }

  /** The quotes the solver gathers for its own groups. */
  function SolverQuotes(chain: V3Batched.Chain, mids: seq<Token>, minGroupSize: nat, orders: seq<Order>): seq<RouteQuote>
    requires JointBuildable(chain, mids, minGroupSize, orders)
  {
    JointQuotes(chain, orders, BigEnough(GroupsOf(orders), minGroupSize), mids)
  }

  /** What the solver returns. */
  function JointOutcome(cfg: Config, chain: V3Batched.Chain, mids: seq<Token>, minGroupSize: nat, orders: seq<Order>): Router.Outcome
    requires ValidConfig(cfg)
  {
    if orders == [] || !JointBuildable(chain, mids, minGroupSize, orders) then Router.NoSolution
    else
      Router.OutcomeOf(cfg, JointLedger(orders, BigEnough(GroupsOf(orders), minGroupSize), SolverQuotes(chain, mids, minGroupSize, orders)))
  }

  /** One path without a call loses the whole batch. */
  lemma {:induction false} JointUnbuildable(chain: V3Batched.Chain, mids: seq<Token>, minGroupSize: nat, orders: seq<Order>)
    ensures var paths := AllPaths(orders, BigEnough(GroupsOf(orders), minGroupSize), mids);
            (exists p :: p in paths && V3Batched.BuildCall(p).None?) ==> !JointBuildable(chain, mids, minGroupSize, orders)
  {
    var paths := AllPaths(orders, BigEnough(GroupsOf(orders), minGroupSize), mids);
    if p :| p in paths && V3Batched.BuildCall(p).None? {
      var i :| 0 <= i < |paths| && paths[i] == p;
      assert V3Batched.QuoterOf(chain).build(paths[i]).None?;
    }
  }

  /** `JointClearingSolver.solve`, from the selected orders on. */
  method Solve(cfg: Config, chain: V3Batched.Chain, mids: seq<Token>, minGroupSize: nat, orders: seq<Order>)
    returns (r: Router.Outcome)
    requires ValidConfig(cfg)
    ensures r == JointOutcome(cfg, chain, mids, minGroupSize, orders)
    ensures (exists p :: p in AllPaths(orders, BigEnough(GroupsOf(orders), minGroupSize), mids) && V3Batched.BuildCall(p).None?) ==>
              r == Router.NoSolution
  {
    JointUnbuildable(chain, mids, minGroupSize, orders);
    if orders == [] {
      return Router.NoSolution;
    }
    var groups := FindGroups(orders, minGroupSize);
    var paths := BuildAllPaths(orders, groups, mids);
    var quotes := BatchedQuoter.BatchedQuote(V3Batched.QuoterOf(chain), paths, V3Batched.MAX_CALLS_PER_BATCH);
    if quotes.None? {
      return Router.NoSolution;
    }
    r := ClearBatch(cfg, orders, groups, Router.V3QuotesOf(quotes.value));
  }
}
