/** What joint clearing publishes: conserved but for its dust, within every limit, and with nothing left out that would
    have fitted. */
module JointPublished {
  import opened Wrappers
  import opened Models
  import opened Encoder
  import opened Selection
  import opened Ledger
  import opened ClearingLoop
  import opened JointClearing
  import opened JointInvariants
  import opened JointSolution
  import opened RouterQuotes
  import opened Published
  import opened RouterPublished
  import Router
  import V3Batched

  lemma {:induction false} JointIsPublishable(orders: seq<Order>, groups: seq<Group>, quotes: seq<RouteQuote>)
    requires JointQuoted(orders, groups, quotes)
    ensures Publishable(orders, JointLedger(orders, groups, quotes))
  {
    var ledger := JointLedger(orders, groups, quotes);
    JointUniformPrices(orders, groups, quotes);
    JointFillsOnce(orders, groups, quotes);
    forall k | 0 <= k < |ledger| ensures Balanced(ledger[k]) {
      assert GoodEntry(ledger[k], orders);
    }
    forall f | f in FillsOf(ledger) ensures f.executed > 0 {
      FillPaid(orders, groups, quotes, f);
    }
  }

  /** Every fill sells the whole of its order for at least what was asked. */
  lemma {:induction false} FillPaid(orders: seq<Order>, groups: seq<Group>, quotes: seq<RouteQuote>, f: Fill)
    requires JointQuoted(orders, groups, quotes) && f in FillsOf(JointLedger(orders, groups, quotes))
    ensures var prices := PricesOf(JointLedger(orders, groups, quotes));
      && f.order.kind.Sell? && f.executed == f.order.sellAmount > 0
      && Payable(prices, f) && UserGets(prices, f) >= f.order.buyAmount
  {
    FillIsGood(orders, groups, quotes, f);
    var e :| GoodEntry(e, orders) && f in e.fills && PricedAs(PricesOf(JointLedger(orders, groups, quotes)), e);
    var k :| 0 <= k < |e.fills| && e.fills[k] == f;
    assert PaidInFull(e, e.fills[k]);
  }

  ghost predicate JointSane(chain: V3Batched.Chain, mids: seq<Token>, minGroupSize: nat, orders: seq<Order>) {
    && UniqueUids(orders) && AllSigned(orders)
    && (JointBuildable(chain, mids, minGroupSize, orders) ==> ZeroForZero(SolverQuotes(chain, mids, minGroupSize, orders)))
  }

  /** What joint clearing publishes hangs together: every trade sells the whole of an order for at least what was asked at
      the published prices, none twice; and the published interactions are, swap by swap, the approved swap that takes what
      its trades pay and brings what they are paid, up to the rounding of their payouts. */
  lemma {:induction false} JointPublishes(cfg: Config, chain: V3Batched.Chain, mids: seq<Token>, minGroupSize: nat, orders: seq<Order>)
    requires ValidConfig(cfg) && JointSane(chain, mids, minGroupSize, orders)
    requires JointOutcome(cfg, chain, mids, minGroupSize, orders).Solved?
    ensures var r := JointOutcome(cfg, chain, mids, minGroupSize, orders);
      && (exists parts, blocks :: Coherent(orders, r, parts, blocks))
      && TradesKnown(orders, r.trades)
      && forall k :: 0 <= k < |r.trades| ==>
           var f := TradedFills(orders, r.trades)[k];
           f.order.kind.Sell? && f.executed == f.order.sellAmount && Payable(r.prices, f) && UserGets(r.prices, f) >= f.order.buyAmount
  {
    var groups := BigEnough(GroupsOf(orders), minGroupSize);
    var quotes := SolverQuotes(chain, mids, minGroupSize, orders);
    var ledger := JointLedger(orders, groups, quotes);
    JointQuotesAnswer(chain, mids, minGroupSize, orders);
    JointIsPublishable(orders, groups, quotes);
    LedgerIsCoherent(cfg, orders, ledger);
    FillsAreTraded(orders, FillsOf(ledger));
    forall k | 0 <= k < |FillsOf(ledger)|
      ensures var f := FillsOf(ledger)[k];
              f.order.kind.Sell? && f.executed == f.order.sellAmount && Payable(PricesOf(ledger), f) && UserGets(PricesOf(ledger), f) >= f.order.buyAmount
    {
      FillPaid(orders, groups, quotes, FillsOf(ledger)[k]);
    }
  }

  /** Conservation of the published solution, for every token, up to dust of at most one unit for each trade that is not
      the first of its swap. */
  lemma {:induction false} JointConservesPublished(cfg: Config, chain: V3Batched.Chain, mids: seq<Token>, minGroupSize: nat, orders: seq<Order>,
                                                   token: Token) returns (dust: nat)
    requires ValidConfig(cfg) && JointSane(chain, mids, minGroupSize, orders)
    requires JointOutcome(cfg, chain, mids, minGroupSize, orders).Solved?
    ensures var r := JointOutcome(cfg, chain, mids, minGroupSize, orders);
      && Conserves(orders, r.prices, r.trades, r.interactions, token, dust)
      && exists parts, blocks :: Coherent(orders, r, parts, blocks) && dust + |parts| <= |r.trades|
  {
    var groups := BigEnough(GroupsOf(orders), minGroupSize);
    var quotes := SolverQuotes(chain, mids, minGroupSize, orders);
    var ledger := JointLedger(orders, groups, quotes);
    JointQuotesAnswer(chain, mids, minGroupSize, orders);
    JointIsPublishable(orders, groups, quotes);
    LedgerIsCoherent(cfg, orders, ledger);
    LedgerConserves(cfg, orders, ledger, token);
    dust := DustAt(ledger, token);
  }

  // ---- the groups themselves ------------------------------------------------------------------------

  /** The fill-or-kill sells of a pair, in the order of the auction. */
  function PairSells(orders: seq<Order>, sellToken: Token, buyToken: Token): seq<Order> {
    if orders == [] then []
    else
      var o := orders[|orders| - 1];
      PairSells(orders[..|orders| - 1], sellToken, buyToken)
        + (if o.kind.Sell? && !o.partiallyFillable && o.sellToken == sellToken && o.buyToken == buyToken then [o] else [])
  }

  /** There is a group for every pair that is sold fill-or-kill, it holds exactly those sells, and there is no other. */
  ghost predicate GroupsByPair(groups: seq<Group>, orders: seq<Order>) {
    && (forall k :: 0 <= k < |groups| ==>
          groups[k].orders == PairSells(orders, groups[k].sellToken, groups[k].buyToken) && groups[k].orders != [])
    && forall sellToken, buyToken :: PairSells(orders, sellToken, buyToken) != [] ==>
         PairIndex(groups, sellToken, buyToken) < |groups|
  }

  lemma {:induction false} PairSellsNext(orders: seq<Order>, o: Order, sellToken: Token, buyToken: Token)
    ensures PairSells(orders + [o], sellToken, buyToken)
         == PairSells(orders, sellToken, buyToken)
            + (if o.kind.Sell? && !o.partiallyFillable && o.sellToken == sellToken && o.buyToken == buyToken then [o] else [])
  {
    assert (orders + [o])[..|orders|] == orders;
  }

  /** Finding a pair's place again. */
  lemma {:induction false} PairIndexFinds(groups: seq<Group>, k: nat, sellToken: Token, buyToken: Token)
    requires k < |groups| && groups[k].sellToken == sellToken && groups[k].buyToken == buyToken
    ensures PairIndex(groups, sellToken, buyToken) < |groups|
  {
  }

  lemma {:induction false} AddKeepsPairs(groups: seq<Group>, orders: seq<Order>, o: Order)
    requires GroupsByPair(groups, orders) && Groupable(o)
    requires forall i, j :: 0 <= i < j < |groups| ==> !SamePair(groups[i], groups[j])
    ensures GroupsByPair(AddToGroups(groups, o), orders + [o])
  {
    var added := AddToGroups(groups, o);
    var k := PairIndex(groups, o.sellToken, o.buyToken);
    forall i | 0 <= i < |added|
      ensures added[i].orders == PairSells(orders + [o], added[i].sellToken, added[i].buyToken) && added[i].orders != []
    {
      PairSellsNext(orders, o, added[i].sellToken, added[i].buyToken);
      if i < |groups| && i != k && k < |groups| {
        assert !SamePair(groups[if i < k then i else k], groups[if i < k then k else i]);
      }
    }
    forall sellToken, buyToken | PairSells(orders + [o], sellToken, buyToken) != []
      ensures PairIndex(added, sellToken, buyToken) < |added|
    {
      PairSellsNext(orders, o, sellToken, buyToken);
      var at := PairIndex(groups, sellToken, buyToken);
      if at < |groups| {
        PairIndexFinds(added, at, sellToken, buyToken);
      } else {
        PairIndexFinds(added, k, sellToken, buyToken);
      }
    }
  }

  lemma {:induction false} GroupsAreByPair(orders: seq<Order>)
    requires UniqueUids(orders)
    ensures GroupsByPair(GroupsOf(orders), orders)
  {
    if orders != [] {
      var n := |orders| - 1;
      GroupsAreByPair(orders[..n]);
      GroupsAreGood(orders[..n]);
      assert orders[..n] + [orders[n]] == orders;
      if Groupable(orders[n]) {
        AddKeepsPairs(GroupsOf(orders[..n]), orders[..n], orders[n]);
      } else {
        forall sellToken, buyToken ensures PairSells(orders, sellToken, buyToken) == PairSells(orders[..n], sellToken, buyToken) {
          PairSellsNext(orders[..n], orders[n], sellToken, buyToken);
        }
      }
    }
  }

  /** All the fill-or-kill sells of a pair, if they are enough. */
  ghost predicate PairGroup(g: Group, orders: seq<Order>, minGroupSize: nat) {
    g.orders == PairSells(orders, g.sellToken, g.buyToken) && g.orders != [] && |g.orders| >= minGroupSize
  }

  /** The solver's groups, exactly: one for every pair with at least the minimum of fill-or-kill sells, holding those
      sells in the order of the auction. */
  lemma {:induction false} GroupsExact(orders: seq<Order>, minGroupSize: nat, g: Group)
    requires UniqueUids(orders)
    ensures g in BigEnough(GroupsOf(orders), minGroupSize) <==> PairGroup(g, orders, minGroupSize)
  {
    GroupsAreByPair(orders);
    BigEnoughExact(GroupsOf(orders), minGroupSize, g);
    if g.orders == PairSells(orders, g.sellToken, g.buyToken) && g.orders != [] {
      var k := PairIndex(GroupsOf(orders), g.sellToken, g.buyToken);
      assert GroupsOf(orders)[k] == g;
    }
  }

  lemma {:induction false} BigEnoughExact(groups: seq<Group>, minGroupSize: nat, g: Group)
    ensures g in BigEnough(groups, minGroupSize) <==> g in groups && |g.orders| >= minGroupSize
  {
    if groups != [] {
      var n := |groups| - 1;
      BigEnoughExact(groups[..n], minGroupSize, g);
      assert groups == groups[..n] + [groups[n]];
    }
  }

  // ---- nothing is left that would fit ---------------------------------------------------------------

  /** Marked as asked for a group. */
  predicate Marked(uid: Uid) {
    |uid| >= 12 && uid[..12] == "__jc_group__"
  }

  /** A positive quote asked for the group of this pair. */
  predicate ForPair(q: RouteQuote, sellToken: Token, buyToken: Token) {
    Marked(q.path.OrderUid()) && q.path.TokenIn() == sellToken && q.path.TokenOut() == buyToken && q.amountOut > 0
  }

  lemma MarkedExact(uid: Uid)
    ensures Marked(uid) <==> IsGroupUid(uid)
  {
  }

  /** A quote for a group's pair that no other beats. */
  ghost predicate TopForGroup(quotes: seq<RouteQuote>, g: Group, q: RouteQuote) {
    && q in quotes && ForPair(q, g.sellToken, g.buyToken)
    && forall p :: p in quotes && ForPair(p, g.sellToken, g.buyToken) ==> p.amountOut <= q.amountOut
  }

  /** Every order of the group would reach its limit, at its share of `bought`. */
  ghost predicate SharesSuffice(g: Group, total: nat, bought: nat) {
    && total > 0 && bought > 0
    && forall i :: 0 <= i < |g.orders| ==> g.orders[i].sellAmount * bought > (g.orders[i].buyAmount - 1) * total
  }

  ghost predicate GroupConflicts(prices: Prices, g: Group, total: nat, bought: nat) {
    (g.sellToken in prices && prices[g.sellToken] != bought) || (g.buyToken in prices && prices[g.buyToken] != total)
  }

  lemma {:induction false} TopIsBest(quotes: seq<RouteQuote>, g: Group, q: RouteQuote)
    requires TopForGroup(quotes, g, q)
    ensures var best := BestJoint(quotes, g.sellToken, g.buyToken);
            best.Some? && best.value.amountOut == q.amountOut
  {
    BestJointEligible(quotes, g.sellToken, g.buyToken);
    MarkedExact(q.path.OrderUid());
    var i :| 0 <= i < |quotes| && quotes[i] == q;
    MarkedExact(BestJoint(quotes, g.sellToken, g.buyToken).value.path.OrderUid());
  }

  /** What a group is offered: all of it, at the best joint quote. */
  lemma {:induction false} GroupOffers(groups: seq<Group>, quotes: seq<RouteQuote>, k: nat, q: RouteQuote) returns (e: Entry)
    requires k < |groups| && groups[k].orders != []
    requires TopForGroup(quotes, groups[k], q) && SharesSuffice(groups[k], CombinedSell(groups[k]), q.amountOut)
    ensures var g := groups[k];
      && GroupItems(groups, quotes)[k] == [e] && Fill(g.orders[0], g.orders[0].sellAmount) in e.fills
      && e.sellToken == g.sellToken && e.buyToken == g.buyToken && e.sold == CombinedSell(g) && e.bought == q.amountOut
  {
    var g := groups[k];
    TopIsBest(quotes, g, q);
    LimitsSatisfiedExact(g.orders, CombinedSell(g), q.amountOut);
    e := GroupEntry(g, BestJoint(quotes, g.sellToken, g.buyToken).value);
    assert e.fills[0] == Fill(g.orders[0], g.orders[0].sellAmount);
  }

  /** A group left out: its best quote, if it satisfies everyone, contradicts the prices. */
  lemma {:induction false} GroupLeftOut(orders: seq<Order>, groups: seq<Group>, quotes: seq<RouteQuote>, k: nat, q: RouteQuote)
    requires JointQuoted(orders, groups, quotes) && k < |groups| && groups[k].orders != []
    requires groups[k].orders[0].uid !in FilledOf(JointLedger(orders, groups, quotes))
    requires TopForGroup(quotes, groups[k], q) && SharesSuffice(groups[k], CombinedSell(groups[k]), q.amountOut)
    ensures GroupConflicts(PricesOf(JointLedger(orders, groups, quotes)), groups[k], CombinedSell(groups[k]), q.amountOut)
  {
    var ledger := JointLedger(orders, groups, quotes);
    var e := GroupOffers(groups, quotes, k, q);
    if EntryAgrees(PricesOf(ledger), e) {
      CollectContains(PricesOf(ledger), GroupItems(groups, quotes), k);
      GroupEmitted(orders, groups, quotes, e);
      FilledWhenEmitted(ledger, e, Fill(groups[k].orders[0], groups[k].orders[0].sellAmount));
    }
  }

  lemma {:induction false} GroupEmitted(orders: seq<Order>, groups: seq<Group>, quotes: seq<RouteQuote>, e: Entry)
    requires JointQuoted(orders, groups, quotes)
    requires e in Collect(PricesOf(JointLedger(orders, groups, quotes)), GroupItems(groups, quotes))
    ensures e in JointLedger(orders, groups, quotes)
  {
    JointIsDeclarative(orders, groups, quotes);
  }

  lemma FilledWhenEmitted(ledger: seq<Entry>, e: Entry, f: Fill)
    requires e in ledger && f in e.fills
    ensures f.order.uid in FilledOf(ledger)
  {
    var k :| 0 <= k < |ledger| && ledger[k] == e;
    FillsOfMember(ledger, f);
  }

  /** A sell left out: its best quote, if it reaches the limit, contradicts the prices. */
  lemma {:induction false} SellLeftOut(orders: seq<Order>, groups: seq<Group>, quotes: seq<RouteQuote>, o: Order, q: RouteQuote)
    requires JointQuoted(orders, groups, quotes) && o in orders && o.kind.Sell? && !IsGroupUid(o.uid)
    requires o.uid !in FilledOf(JointLedger(orders, groups, quotes))
    requires Top(quotes, o, None, q) && q.amountOut >= o.buyAmount
    ensures Conflicts(PricesOf(JointLedger(orders, groups, quotes)), o, q.amountOut, o.sellAmount)
  {
    var before := GroupLedger(groups, quotes);
    var ledger := JointLedger(orders, groups, quotes);
    var unfilled := Unfilled(orders, FilledOf(before));
    JointUniformPrices(orders, groups, quotes);
    FilledGrows(before, ledger, o.uid);
    UnfilledOf(orders, FilledOf(before));
    var i :| 0 <= i < |unfilled| && unfilled[i] == o;
    var e := FallbackOffers(orders, groups, quotes, i, q);
    JointIsDeclarative(orders, groups, quotes);
    if EntryAgrees(PricesOf(ledger), e) {
      CollectContains(PricesOf(ledger), FallbackPhase(orders, groups, quotes), i);
      FilledWhenEmitted(ledger, e, Fill(o, o.sellAmount));
    }
  }

  lemma {:induction false} FilledGrows(before: seq<Entry>, ledger: seq<Entry>, uid: Uid)
    requires before <= ledger && uid !in FilledOf(ledger)
    ensures uid !in FilledOf(before)
  {
    FilledMember(before, uid);
    FilledMember(ledger, uid);
    assert forall k :: 0 <= k < |before| ==> ledger[k] == before[k];
  }

  /** What the fallback offers an order it still has: all of it, at the best individual quote. */
  lemma {:induction false} FallbackOffers(orders: seq<Order>, groups: seq<Group>, quotes: seq<RouteQuote>, i: nat, q: RouteQuote) returns (e: Entry)
    requires JointQuoted(orders, groups, quotes)
    requires var unfilled := Unfilled(orders, FilledOf(GroupLedger(groups, quotes)));
             i < |unfilled| && unfilled[i].kind.Sell? && !IsGroupUid(unfilled[i].uid)
             && Top(quotes, unfilled[i], None, q) && q.amountOut >= unfilled[i].buyAmount
    ensures var o := Unfilled(orders, FilledOf(GroupLedger(groups, quotes)))[i];
      && FallbackPhase(orders, groups, quotes)[i] == [e]
      && e.fills == [Fill(o, o.sellAmount)] && e.sellToken == o.sellToken && e.buyToken == o.buyToken
      && e.sold == o.sellAmount && e.bought == q.amountOut
  {
    var filled := FilledOf(GroupLedger(groups, quotes));
    var unfilled, individual := Unfilled(orders, filled), IndividualQuotes(quotes);
    UnfilledOf(orders, filled);
    SomeMatch(orders, unfilled, individual);
    BestOfOrder(unfilled, individual, i, None);
    IndividualOf(quotes);
    IndividualHas(quotes, q);
    var k :| 0 <= k < |individual| && individual[k] == q;
    assert Eligible(individual[k], unfilled[i].uid, None);
    e := FallbackAttempts(unfilled[i], individual)[0];
  }

  lemma {:induction false} IndividualHas(quotes: seq<RouteQuote>, q: RouteQuote)
    requires q in quotes && !IsGroupUid(q.path.OrderUid())
    ensures q in IndividualQuotes(quotes)
  {
    var n := |quotes| - 1;
    if quotes[n] != q {
      assert quotes == quotes[..n] + [quotes[n]];
      IndividualHas(quotes[..n], q);
    }
  }

  /** What was published lists every filled order. */
  lemma {:induction false} PublishedLedger(cfg: Config, orders: seq<Order>, groups: seq<Group>, quotes: seq<RouteQuote>, r: Router.Outcome, o: Order)
    requires ValidConfig(cfg) && JointQuoted(orders, groups, quotes)
    requires r == Router.OutcomeOf(cfg, JointLedger(orders, groups, quotes)) && !r.StrategyError?
    ensures PublishedPrices(r) == PricesOf(JointLedger(orders, groups, quotes))
    ensures !IsTraded(r, o) ==> o.uid !in FilledOf(JointLedger(orders, groups, quotes))
  {
    NothingPublished(orders, groups, quotes);
    FilledIsTraded(JointLedger(orders, groups, quotes), o.uid);
  }

  /** Joint clearing leaves out no sell it could publish: the best individual quote of a sell left out either misses the
      limit or contradicts the published prices. */
  lemma {:induction false} JointLeavesNoSell(cfg: Config, chain: V3Batched.Chain, mids: seq<Token>, minGroupSize: nat, orders: seq<Order>,
                                             o: Order, q: RouteQuote)
    requires ValidConfig(cfg) && JointSane(chain, mids, minGroupSize, orders) && JointBuildable(chain, mids, minGroupSize, orders)
    requires o in orders && o.kind.Sell? && !Marked(o.uid)
    requires Top(SolverQuotes(chain, mids, minGroupSize, orders), o, None, q) && q.amountOut >= o.buyAmount
    ensures var r := JointOutcome(cfg, chain, mids, minGroupSize, orders);
      r.StrategyError? || IsTraded(r, o) || Conflicts(PublishedPrices(r), o, q.amountOut, o.sellAmount)
  {
    var groups, quotes := BigEnough(GroupsOf(orders), minGroupSize), SolverQuotes(chain, mids, minGroupSize, orders);
    var r := JointOutcome(cfg, chain, mids, minGroupSize, orders);
    JointQuotesAnswer(chain, mids, minGroupSize, orders);
    if !r.StrategyError? && !IsTraded(r, o) {
      MarkedExact(o.uid);
      PublishedLedger(cfg, orders, groups, quotes, r, o);
      SellLeftOut(orders, groups, quotes, o, q);
    }
  }

  /** Nor a group: the best joint quote of a group left out either leaves someone below the limit or contradicts the
      published prices. */
  lemma {:induction false} JointLeavesNoGroup(cfg: Config, chain: V3Batched.Chain, mids: seq<Token>, minGroupSize: nat, orders: seq<Order>,
                                              g: Group, q: RouteQuote)
    requires ValidConfig(cfg) && JointSane(chain, mids, minGroupSize, orders) && JointBuildable(chain, mids, minGroupSize, orders)
    requires PairGroup(g, orders, minGroupSize)
    requires TopForGroup(SolverQuotes(chain, mids, minGroupSize, orders), g, q) && SharesSuffice(g, CombinedSell(g), q.amountOut)
    ensures var r := JointOutcome(cfg, chain, mids, minGroupSize, orders);
      r.StrategyError? || IsTraded(r, g.orders[0]) || GroupConflicts(PublishedPrices(r), g, CombinedSell(g), q.amountOut)
  {
    var groups, quotes := BigEnough(GroupsOf(orders), minGroupSize), SolverQuotes(chain, mids, minGroupSize, orders);
    var r := JointOutcome(cfg, chain, mids, minGroupSize, orders);
    GroupsExact(orders, minGroupSize, g);
    var k :| 0 <= k < |groups| && groups[k] == g;
    JointQuotesAnswer(chain, mids, minGroupSize, orders);
    if !r.StrategyError? && !IsTraded(r, g.orders[0]) {
      PublishedLedger(cfg, orders, groups, quotes, r, g.orders[0]);
      GroupLeftOut(orders, groups, quotes, k, q);
    }
  }

  lemma {:induction false} NothingPublished(orders: seq<Order>, groups: seq<Group>, quotes: seq<RouteQuote>)
    requires JointQuoted(orders, groups, quotes)
    ensures TradesOf(JointLedger(orders, groups, quotes)) == [] ==> JointLedger(orders, groups, quotes) == []
  {
    var ledger := JointLedger(orders, groups, quotes);
    JointUniformPrices(orders, groups, quotes);
    if ledger != [] {
      assert Balanced(ledger[0]) && ledger[0].fills[0] in ledger[0].fills;
      FillsOfMember(ledger, ledger[0].fills[0]);
    }
  }
}
