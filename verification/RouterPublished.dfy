/** The router's published solutions: conserved, within limits, and as full as the quotes and prices allow. */
module RouterPublished {
  import opened Wrappers
  import opened Models
  import opened Encoder
  import opened Selection
  import opened Ledger
  import opened ClearingLoop
  import opened Router
  import opened RouterInvariants
  import opened RouterQuotes
  import opened Published

  lemma {:induction false} RouterIsPublishable(orders: seq<Order>, quotes: seq<RouteQuote>)
    requires Quoted(orders, quotes)
    ensures Publishable(orders, RouterLedger(orders, quotes))
    ensures forall k :: 0 <= k < |RouterLedger(orders, quotes)| ==> |RouterLedger(orders, quotes)[k].fills| == 1
  {
    var ledger := RouterLedger(orders, quotes);
    RouterUniformPrices(orders, quotes);
    RouterFillsOnce(orders, quotes);
    forall f | f in FillsOf(ledger) ensures f.executed > 0 {
      FillsOfMember(ledger, f);
      var k :| 0 <= k < |ledger| && f in ledger[k].fills;
      LoneFill(ledger[k], f);
      ExecutedPositive(f.order, ledger[k]);
    }
  }

  lemma ExecutedPositive(o: Order, e: Entry)
    requires AttemptFor(o, e)
    ensures e.fills[0].executed > 0
  {
    var f := e.fills[0];
    assert e.fills[..0] == [];
    assert SumExecuted(e.fills) == f.executed;
  }

  /** The limit of what is executed of an order, at the clearing prices: a buy in full for at most what was signed away; a
      sell in full for at least what was asked, or three quarters or a half of it for the floored share. */
  predicate WithinLimit(prices: Prices, f: Fill)
    requires Payable(prices, f)
  {
    var o := f.order;
    if o.kind.Buy? then f.executed == o.buyAmount && UserPays(prices, f) <= o.sellAmount
    else if f.executed == o.sellAmount then UserGets(prices, f) >= o.buyAmount
    else
      && o.partiallyFillable
      && (|| (f.executed == 3 * o.sellAmount / 4 && UserGets(prices, f) >= 3 * o.buyAmount / 4)
          || (f.executed == o.sellAmount / 2 && UserGets(prices, f) >= o.buyAmount / 2))
  }

  lemma {:induction false} FillsWithinLimits(orders: seq<Order>, quotes: seq<RouteQuote>, k: nat)
    requires Quoted(orders, quotes) && k < |FillsOf(RouterLedger(orders, quotes))|
    ensures var prices := PricesOf(RouterLedger(orders, quotes));
            Payable(prices, FillsOf(RouterLedger(orders, quotes))[k]) && WithinLimit(prices, FillsOf(RouterLedger(orders, quotes))[k])
  {
    RouterTrades(orders, quotes);
    RouterUniformPrices(orders, quotes);
    RealisedRateIsExact(orders, quotes, k);
    AttemptWithinLimit(RouterLedger(orders, quotes)[k], PricesOf(RouterLedger(orders, quotes)));
  }

  lemma AttemptWithinLimit(e: Entry, prices: Prices)
    requires |e.fills| == 1 && AttemptFor(e.fills[0].order, e) && Payable(prices, e.fills[0])
    requires UserPays(prices, e.fills[0]) == e.sold && UserGets(prices, e.fills[0]) == e.bought
    ensures WithinLimit(prices, e.fills[0])
  {
  }

  /** What the router publishes hangs together: every trade fulfils an order, none twice, within its limit at the published
      prices; and the published interactions are, trade by trade, the approved swap that takes what the trade pays and
      brings what it is paid. */
  lemma {:induction false} RouterPublishes(cfg: RouterConfig, venues: Venues, orders: seq<Order>)
    requires ValidConfig(cfg.encoder) && UniqueUids(orders) && AllSigned(orders)
    requires V3Buildable(cfg, venues, orders) ==> ZeroForZero(AllQuotes(cfg, venues, orders))
    requires BatchedOutcome(cfg, venues, orders).Solved?
    ensures var r := BatchedOutcome(cfg, venues, orders);
      && (exists parts, blocks :: Coherent(orders, r, parts, blocks) && forall k :: 0 <= k < |parts| ==> |parts[k]| == 1)
      && TradesKnown(orders, r.trades)
      && forall k :: 0 <= k < |r.trades| ==>
           Payable(r.prices, TradedFills(orders, r.trades)[k]) && WithinLimit(r.prices, TradedFills(orders, r.trades)[k])
  {
    var quotes := AllQuotes(cfg, venues, orders);
    var ledger := RouterLedger(orders, quotes);
    GatheredQuotesAnswer(cfg, venues, orders);
    RouterIsPublishable(orders, quotes);
    LedgerIsCoherent(cfg.encoder, orders, ledger);
    FillsAreTraded(orders, FillsOf(ledger));
    forall k: nat | k < |FillsOf(ledger)| ensures Payable(PricesOf(ledger), FillsOf(ledger)[k]) && WithinLimit(PricesOf(ledger), FillsOf(ledger)[k]) {
      FillsWithinLimits(orders, quotes, k);
    }
    assert forall k :: 0 <= k < |ledger| ==> |Parts(ledger)[k]| == 1;
  }

  /** Conservation of the published solution: for every token, what the traded orders pay at the published prices and what
      the published swaps bring equals what the orders are paid and what the swaps take. */
  lemma {:induction false} RouterConservesPublished(cfg: RouterConfig, venues: Venues, orders: seq<Order>, token: Token)
    requires ValidConfig(cfg.encoder) && UniqueUids(orders) && AllSigned(orders)
    requires V3Buildable(cfg, venues, orders) ==> ZeroForZero(AllQuotes(cfg, venues, orders))
    requires BatchedOutcome(cfg, venues, orders).Solved?
    ensures var r := BatchedOutcome(cfg, venues, orders);
            Conserves(orders, r.prices, r.trades, r.interactions, token, 0)
  {
    var quotes := AllQuotes(cfg, venues, orders);
    GatheredQuotesAnswer(cfg, venues, orders);
    RouterIsPublishable(orders, quotes);
    LedgerConserves(cfg.encoder, orders, RouterLedger(orders, quotes), token);
    NoDust(RouterLedger(orders, quotes), token);
  }

  // ---- nothing is left that would fit ---------------------------------------------------------------

  /** A swap at these amounts would contradict a price on record. */
  predicate Conflicts(prices: Prices, o: Order, bought: nat, sold: nat) {
    (o.sellToken in prices && prices[o.sellToken] != bought) || (o.buyToken in prices && prices[o.buyToken] != sold)
  }

  /** A positive quote for the order, at the amount if one is given. */
  predicate QuoteFor(o: Order, q: RouteQuote, amount: Option<nat>) {
    q.path.OrderUid() == o.uid && q.amountOut > 0 && (amount.Some? ==> q.path.AmountIn() == amount.value)
  }

  /** None is better: none that brings more for a sell, none that costs less for a buy. */
  ghost predicate Top(quotes: seq<RouteQuote>, o: Order, amount: Option<nat>, q: RouteQuote) {
    && q in quotes && QuoteFor(o, q, amount)
    && forall p :: p in quotes && QuoteFor(o, p, amount) ==>
         if o.kind.Buy? then q.amountOut <= p.amountOut else p.amountOut <= q.amountOut
  }

  /** No quote for the whole of a sell reaches what was asked. */
  ghost predicate FullMissed(quotes: seq<RouteQuote>, o: Order) {
    forall q :: q in quotes && QuoteFor(o, q, None) ==> q.amountOut < o.buyAmount
  }

  /** The best quote for a part of a sell misses its share of the limit, or contradicts the prices. */
  ghost predicate PartMissed(quotes: seq<RouteQuote>, o: Order, prices: Prices, part: nat, limit: nat) {
    forall q :: Top(quotes, o, Some(part), q) && q.amountOut >= limit ==> Conflicts(prices, o, q.amountOut, part)
  }

  /** Nothing that is quoted for the order reaches its limit and fits the prices. */
  ghost predicate NothingFits(quotes: seq<RouteQuote>, o: Order, prices: Prices) {
    if o.kind.Buy? then
      forall q :: Top(quotes, o, None, q) && q.amountOut <= o.sellAmount ==> Conflicts(prices, o, o.buyAmount, q.amountOut)
    else
      && (forall q :: Top(quotes, o, None, q) && q.amountOut >= o.buyAmount ==> Conflicts(prices, o, q.amountOut, o.sellAmount))
      && (o.partiallyFillable && FullMissed(quotes, o) ==>
            && PartMissed(quotes, o, prices, 3 * o.sellAmount / 4, 3 * o.buyAmount / 4)
            && PartMissed(quotes, o, prices, o.sellAmount / 2, o.buyAmount / 2))
  }

  /** The fill is the largest the quotes and prices allow, at the best quote for it. */
  ghost predicate BestFit(quotes: seq<RouteQuote>, f: Fill, prices: Prices)
    requires Payable(prices, f)
  {
    var o := f.order;
    if o.kind.Buy? then f.executed == o.buyAmount && exists q :: Top(quotes, o, None, q) && UserPays(prices, f) == q.amountOut
    else if f.executed == o.sellAmount then exists q :: Top(quotes, o, None, q) && UserGets(prices, f) == q.amountOut
    else
      && FullMissed(quotes, o)
      && (exists q :: Top(quotes, o, Some(f.executed), q) && UserGets(prices, f) == q.amountOut)
      && (f.executed != 3 * o.sellAmount / 4 ==> PartMissed(quotes, o, prices, 3 * o.sellAmount / 4, 3 * o.buyAmount / 4))
  }

  /** The selected quote is one of the top ones. */
  lemma {:induction false} BestIsTop(orders: seq<Order>, quotes: seq<RouteQuote>, i: nat, amount: Option<nat>)
    requires Quoted(orders, quotes) && i < |orders|
    ensures var best := BestFor(quotes, orders[i].uid, amount);
      && (best.None? ==> forall q :: q in quotes ==> !QuoteFor(orders[i], q, amount))
      && (best.Some? ==> Top(quotes, orders[i], amount, best.value)
                         && forall q :: Top(quotes, orders[i], amount, q) ==> q.amountOut == best.value.amountOut)
  {
    BestOfOrder(orders, quotes, i, amount);
    forall q | q in quotes && QuoteFor(orders[i], q, amount)
      ensures BestFor(quotes, orders[i].uid, amount).Some?
      ensures var best := BestFor(quotes, orders[i].uid, amount).value;
              if orders[i].kind.Buy? then best.amountOut <= q.amountOut else q.amountOut <= best.amountOut
    {
      var k :| 0 <= k < |quotes| && quotes[k] == q;
      assert Eligible(quotes[k], orders[i].uid, amount);
    }
  }

  ghost predicate NoneAgrees(prices: Prices, attempts: seq<Entry>) {
    forall e :: e in attempts ==> !EntryAgrees(prices, e)
  }

  lemma {:induction false} FractionConflicts(orders: seq<Order>, quotes: seq<RouteQuote>, i: nat, prices: Prices, part: nat, limit: nat)
    requires Quoted(orders, quotes) && i < |orders| && NoneAgrees(prices, FractionAttempt(orders[i], quotes, part, limit))
    ensures PartMissed(quotes, orders[i], prices, part, limit)
  {
    var o := orders[i];
    BestIsTop(orders, quotes, i, Some(part));
    forall q | Top(quotes, o, Some(part), q) && q.amountOut >= limit ensures Conflicts(prices, o, q.amountOut, part) {
      assert FractionAttempt(o, quotes, part, limit)[0] in FractionAttempt(o, quotes, part, limit);
    }
  }

  lemma {:induction false} BuyConflicts(orders: seq<Order>, quotes: seq<RouteQuote>, i: nat, prices: Prices)
    requires Quoted(orders, quotes) && i < |orders| && orders[i].kind.Buy? && NoneAgrees(prices, Attempts(orders[i], quotes))
    ensures NothingFits(quotes, orders[i], prices)
  {
    var o := orders[i];
    BestIsTop(orders, quotes, i, None);
    forall q | Top(quotes, o, None, q) && q.amountOut <= o.sellAmount ensures Conflicts(prices, o, o.buyAmount, q.amountOut) {
      assert Attempts(o, quotes)[0] in Attempts(o, quotes);
    }
  }

  lemma {:induction false} SellConflicts(orders: seq<Order>, quotes: seq<RouteQuote>, i: nat, prices: Prices)
    requires Quoted(orders, quotes) && i < |orders| && orders[i].kind.Sell? && NoneAgrees(prices, Attempts(orders[i], quotes))
    ensures NothingFits(quotes, orders[i], prices)
  {
    var o := orders[i];
    BestIsTop(orders, quotes, i, None);
    forall q | Top(quotes, o, None, q) && q.amountOut >= o.buyAmount ensures Conflicts(prices, o, q.amountOut, o.sellAmount) {
      assert Attempts(o, quotes)[0] in Attempts(o, quotes);
    }
    if o.partiallyFillable && FullMissed(quotes, o) {
      PartialAttempts(orders, quotes, i);
      FractionConflicts(orders, quotes, i, prices, 3 * o.sellAmount / 4, 3 * o.buyAmount / 4);
      FractionConflicts(orders, quotes, i, prices, o.sellAmount / 2, o.buyAmount / 2);
    }
  }

  /** A sell whose whole amount is out of reach tries its fractions. */
  lemma {:induction false} PartialAttempts(orders: seq<Order>, quotes: seq<RouteQuote>, i: nat)
    requires Quoted(orders, quotes) && i < |orders| && orders[i].kind.Sell? && FullMissed(quotes, orders[i])
    ensures var o := orders[i];
            Attempts(o, quotes) == if !o.partiallyFillable then []
                                   else FractionAttempt(o, quotes, 3 * o.sellAmount / 4, 3 * o.buyAmount / 4)
                                        + FractionAttempt(o, quotes, o.sellAmount / 2, o.buyAmount / 2)
  {
    BestIsTop(orders, quotes, i, None);
  }

  /** The chosen fill is the largest that fits. */
  lemma {:induction false} ChosenIsBestFit(orders: seq<Order>, quotes: seq<RouteQuote>, i: nat, prices: Prices, e: Entry)
    requires Quoted(orders, quotes) && i < |orders| && Choose(prices, Attempts(orders[i], quotes)) == Some(e)
    requires AttemptFor(orders[i], e) && Payable(prices, e.fills[0])
    requires UserPays(prices, e.fills[0]) == e.sold && UserGets(prices, e.fills[0]) == e.bought
    ensures BestFit(quotes, e.fills[0], prices)
  {
    var o := orders[i];
    assert o in orders;
    BestIsTop(orders, quotes, i, None);
    ChooseIn(prices, Attempts(o, quotes));
    var best := BestFor(quotes, o.uid, None);
    if o.kind.Buy? || (best.Some? && best.value.amountOut >= o.buyAmount) {
      assert e.fills[0].executed == (if o.kind.Buy? then o.buyAmount else o.sellAmount);
      assert Top(quotes, o, None, best.value);
    } else {
      FractionIsBestFit(orders, quotes, i, prices, e);
    }
  }

  /** A fraction is executed at the best quote for it. */
  lemma {:induction false} FractionIsTop(orders: seq<Order>, quotes: seq<RouteQuote>, i: nat, part: nat, limit: nat, e: Entry)
    requires Quoted(orders, quotes) && i < |orders| && e in FractionAttempt(orders[i], quotes, part, limit)
    ensures e.fills == [Fill(orders[i], part)] && exists q :: Top(quotes, orders[i], Some(part), q) && q.amountOut == e.bought
  {
    BestIsTop(orders, quotes, i, Some(part));
  }

  lemma {:induction false} ChooseFromTwo(prices: Prices, first: seq<Entry>, second: seq<Entry>, e: Entry)
    requires |first| <= 1 && Choose(prices, first + second) == Some(e)
    ensures e in first || (NoneAgrees(prices, first) && Choose(prices, second) == Some(e))
  {
    if first == [] {
      assert first + second == second;
    } else {
      assert (first + second)[1..] == second;
    }
  }

  lemma {:induction false} FractionIsBestFit(orders: seq<Order>, quotes: seq<RouteQuote>, i: nat, prices: Prices, e: Entry)
    requires Quoted(orders, quotes) && i < |orders| && Choose(prices, Attempts(orders[i], quotes)) == Some(e)
    requires orders[i].kind.Sell? && FullMissed(quotes, orders[i])
    requires |e.fills| == 1 && e.fills[0].order == orders[i] && Payable(prices, e.fills[0]) && UserGets(prices, e.fills[0]) == e.bought
    ensures BestFit(quotes, e.fills[0], prices)
  {
    var o := orders[i];
    assert o in orders;
    var most, mostLimit, half, halfLimit := 3 * o.sellAmount / 4, 3 * o.buyAmount / 4, o.sellAmount / 2, o.buyAmount / 2;
    PartialAttempts(orders, quotes, i);
    var first, second := FractionAttempt(o, quotes, most, mostLimit), FractionAttempt(o, quotes, half, halfLimit);
    ChooseFromTwo(prices, first, second, e);
    if e in first {
      FractionIsTop(orders, quotes, i, most, mostLimit, e);
    } else {
      ChooseIn(prices, second);
      FractionIsTop(orders, quotes, i, half, halfLimit, e);
      FractionConflicts(orders, quotes, i, prices, most, mostLimit);
    }
  }

  /** The prices of a solve that published nothing are those of an empty batch. */
  function PublishedPrices(r: Outcome): Prices {
    if r.Solved? then r.prices else map[]
  }

  ghost predicate IsTraded(r: Outcome, o: Order) {
    r.Solved? && exists t :: t in r.trades && t.orderUid == o.uid
  }

  /** The router publishes all it can. An order left out, be it because nothing at all was published, has no quote that
      reaches its limit and fits the published prices; and an order traded is traded at the largest amount that fits, at
      the best quote for it. */
  lemma {:induction false} RouterLeavesNothing(cfg: RouterConfig, venues: Venues, orders: seq<Order>, i: nat)
    requires ValidConfig(cfg.encoder) && UniqueUids(orders) && AllSigned(orders) && i < |orders|
    requires V3Buildable(cfg, venues, orders) && ZeroForZero(AllQuotes(cfg, venues, orders))
    requires !BatchedOutcome(cfg, venues, orders).StrategyError?
    ensures var r := BatchedOutcome(cfg, venues, orders);
      && (!IsTraded(r, orders[i]) ==> NothingFits(AllQuotes(cfg, venues, orders), orders[i], PublishedPrices(r)))
      && (r.Solved? ==> forall t :: t in r.trades && t.orderUid == orders[i].uid ==>
            && t.executedAmount >= 0 && Payable(r.prices, Fill(orders[i], t.executedAmount))
            && BestFit(AllQuotes(cfg, venues, orders), Fill(orders[i], t.executedAmount), r.prices))
  {
    var quotes := AllQuotes(cfg, venues, orders);
    var r := BatchedOutcome(cfg, venues, orders);
    GatheredQuotesAnswer(cfg, venues, orders);
    if !IsTraded(r, orders[i]) {
      LeftOut(cfg.encoder, orders, quotes, i, r);
    }
    if r.Solved? {
      forall t | t in r.trades && t.orderUid == orders[i].uid
        ensures t.executedAmount >= 0 && Payable(r.prices, Fill(orders[i], t.executedAmount))
        ensures BestFit(quotes, Fill(orders[i], t.executedAmount), r.prices)
      {
        var k :| 0 <= k < |r.trades| && r.trades[k] == t;
        TradedFits(orders, quotes, i, k);
      }
    }
  }

  lemma {:induction false} LeftOut(cfg: Config, orders: seq<Order>, quotes: seq<RouteQuote>, i: nat, r: Outcome)
    requires ValidConfig(cfg) && Quoted(orders, quotes) && i < |orders|
    requires r == OutcomeOf(cfg, RouterLedger(orders, quotes)) && !r.StrategyError? && !IsTraded(r, orders[i])
    ensures NothingFits(quotes, orders[i], PublishedPrices(r))
  {
    var ledger := RouterLedger(orders, quotes);
    RouterTrades(orders, quotes);
    FilledIsTraded(ledger, orders[i].uid);
    assert TradesOf(ledger) == [] ==> ledger == [];
    UnfilledFitsNothing(orders, quotes, i);
  }

  lemma {:induction false} UnfilledFitsNothing(orders: seq<Order>, quotes: seq<RouteQuote>, i: nat)
    requires Quoted(orders, quotes) && i < |orders| && orders[i].uid !in FilledOf(RouterLedger(orders, quotes))
    ensures NothingFits(quotes, orders[i], PricesOf(RouterLedger(orders, quotes)))
  {
    var prices := PricesOf(RouterLedger(orders, quotes));
    FilledExactlyWhenCompatible(orders, quotes, i);
    forall e | e in Attempts(orders[i], quotes) ensures !EntryAgrees(prices, e) {
      var k :| 0 <= k < |Attempts(orders[i], quotes)| && Attempts(orders[i], quotes)[k] == e;
    }
    if orders[i].kind.Buy? {
      BuyConflicts(orders, quotes, i, prices);
    } else {
      SellConflicts(orders, quotes, i, prices);
    }
  }

  lemma FilledIsTraded(ledger: seq<Entry>, uid: Uid)
    ensures uid in FilledOf(ledger) ==> exists t :: t in TradesOf(ledger) && t.orderUid == uid
  {
    if uid in FilledOf(ledger) {
      var f :| f in FillsOf(ledger) && f.order.uid == uid;
      var k :| 0 <= k < |FillsOf(ledger)| && FillsOf(ledger)[k] == f;
      assert TradesOf(ledger)[k] in TradesOf(ledger) && TradesOf(ledger)[k].orderUid == uid;
    }
  }

  lemma {:induction false} TradedFits(orders: seq<Order>, quotes: seq<RouteQuote>, i: nat, k: nat)
    requires Quoted(orders, quotes) && i < |orders| && k < |TradesOf(RouterLedger(orders, quotes))|
    requires TradesOf(RouterLedger(orders, quotes))[k].orderUid == orders[i].uid
    ensures var t := TradesOf(RouterLedger(orders, quotes))[k];
      && t.executedAmount >= 0 && Payable(PricesOf(RouterLedger(orders, quotes)), Fill(orders[i], t.executedAmount))
      && BestFit(quotes, Fill(orders[i], t.executedAmount), PricesOf(RouterLedger(orders, quotes)))
  {
    var ledger := RouterLedger(orders, quotes);
    RouterTrades(orders, quotes);
    RouterUniformPrices(orders, quotes);
    RealisedRateIsExact(orders, quotes, k);
    var e := ledger[k];
    SameUid(orders, e.fills[0].order, orders[i]);
    ChosenForOrder(orders, quotes, i, e);
    ChosenIsBestFit(orders, quotes, i, PricesOf(ledger), e);
  }

  lemma SameUid(orders: seq<Order>, o: Order, p: Order)
    requires UniqueUids(orders) && o in orders && p in orders && o.uid == p.uid
    ensures o == p
  {
  }
}
