/** The router against its judge: when the router's own quoting meets no error, the EBBO check on the same
    chain accepts every router solution of at most 20 trades, at any tolerance, whatever errors the check's
    own quoting meets. */
module RouterPassesEbbo {
  import opened Wrappers
  import opened IntDivision
  import opened Models
  import opened Encoder
  import opened Candidates
  import opened Selection
  import opened Ledger
  import opened ClearingLoop
  import opened Router
  import opened RouterInvariants
  import opened RouterQuotes
  import opened RouterMarket
  import opened Scoring
  import opened Ebbo
  import V3Batched
  import BatchedQuoter
  import Multicall

  // ---- one chain, one quote per path ----------------------------------------------------------------

  /** The quoting of these paths meets no error but the gas cap. */
  ghost predicate Answered(chain: V3Batched.Chain, paths: seq<V3Batched.Path>) {
    BatchedQuoter.Answered(V3Batched.QuoterOf(chain), paths)
  }

  /** An answered batch gets each path's own quote. */
  lemma AnsweredQuotes(chain: V3Batched.Chain, paths: seq<V3Batched.Path>)
    requires Answered(chain, paths)
    ensures forall k :: 0 <= k < |paths| ==>
              BatchedQuoter.QuotesBySize(V3Batched.QuoterOf(chain), paths, V3Batched.MAX_CALLS_PER_BATCH)[k]
                == BatchedQuoter.Quoted(paths[k], V3Batched.PathQuote(chain, paths[k]))
  {
    BatchedQuoter.BatchSizeIndependent(V3Batched.QuoterOf(chain), paths, V3Batched.MAX_CALLS_PER_BATCH);
  }

  /** So every V3 candidate of an order is in the router's pool at its own quote. */
  lemma {:induction false} PoolHasQuote(cfg: RouterConfig, venues: Venues, orders: seq<Order>, p: V3Batched.Path)
    requires Answered(venues.chain, V3Paths(orders, cfg.mids)) && p in V3Paths(orders, cfg.mids)
    ensures RouteQuote(V3(p), V3Batched.PathQuote(venues.chain, p)) in AllQuotes(cfg, venues, orders)
  {
    var paths := V3Paths(orders, cfg.mids);
    AnsweredQuotes(venues.chain, paths);
    var k :| 0 <= k < |paths| && paths[k] == p;
    var quoted := BatchedQuoter.QuotesBySize(V3Batched.QuoterOf(venues.chain), paths, V3Batched.MAX_CALLS_PER_BATCH);
    assert V3QuotesOf(quoted)[k] == RouteQuote(V3(p), V3Batched.PathQuote(venues.chain, p));
    assert AllQuotes(cfg, venues, orders)[k] == V3QuotesOf(quoted)[k];
  }

  // ---- an emitted fill is no worse than any quote for its amount ------------------------------------

  /** No quote for the executed amount beats the emitted fill. */
  lemma AttemptBeatsQuotes(orders: seq<Order>, quotes: seq<RouteQuote>, i: nat, e: Entry, q: RouteQuote)
    requires Quoted(orders, quotes) && i < |orders| && e in Attempts(orders[i], quotes)
    requires q in quotes && |e.fills| == 1 && Eligible(q, orders[i].uid, Some(e.fills[0].executed))
    ensures if orders[i].kind.Buy? then e.sold <= q.amountOut else q.amountOut <= e.bought
  {
    var o := orders[i];
    var k :| 0 <= k < |quotes| && quotes[k] == q;
    BestOfOrder(orders, quotes, i, None);
    assert Eligible(quotes[k], o.uid, None);
    if o.kind.Sell? && o.partiallyFillable {
      BestOfOrder(orders, quotes, i, Some(Fractions(o)[0].0));
      BestOfOrder(orders, quotes, i, Some(Fractions(o)[1].0));
    }
  }

  /** The external quote for an order, when there is one, is some candidate's own: a path of the order's pair
      for that amount. */
  lemma ExternalIsCandidate(chain: V3Batched.Chain, o: Order, amount: nat, mids: seq<Token>)
    requires Multicall.FitsOneByOne(chain.node)
    ensures var external := ExternalQuote(chain, o.sellToken, o.buyToken, amount, o.kind.Buy?, mids);
            external.Amount? ==>
              && external.amount > 0
              && exists p :: && p in PairPaths(o.uid, o.sellToken, o.buyToken, amount, o.kind.Buy?, mids)
                             && PathOf(p, o.uid, o.sellToken, o.buyToken, amount, o.kind.Buy?)
                             && V3Batched.PathQuote(chain, p) == external.amount
  {
    var external := ExternalQuote(chain, o.sellToken, o.buyToken, amount, o.kind.Buy?, mids);
    if external.Amount? {
      var p := ExternalPath(chain, o.sellToken, o.buyToken, amount, o.kind.Buy?, mids);
      PairPathsRename("", o.uid, o.sellToken, o.buyToken, amount, o.kind.Buy?, mids);
      TierPathsShape("", o.sellToken, o.buyToken, amount, o.kind.Buy?, None, |FEE_TIERS|);
      MidPathsShape("", o.sellToken, o.buyToken, amount, o.kind.Buy?, mids);
      assert PathOf(p, "", o.sellToken, o.buyToken, amount, o.kind.Buy?);
      V3Batched.QuoteIgnoresUid(chain, p, o.uid);
      assert V3Batched.PathQuote(chain, p.(orderUid := o.uid)) == external.amount;
    }
  }

  /** The path behind an external quote. */
  lemma {:induction false} ExternalPath(chain: V3Batched.Chain, sellToken: Token, buyToken: Token, amount: nat, exactOutput: bool, mids: seq<Token>)
    returns (p: V3Batched.Path)
    requires Multicall.FitsOneByOne(chain.node) && ExternalQuote(chain, sellToken, buyToken, amount, exactOutput, mids).Amount?
    ensures p in PairPaths("", sellToken, buyToken, amount, exactOutput, mids)
    ensures V3Batched.PathQuote(chain, p) == ExternalQuote(chain, sellToken, buyToken, amount, exactOutput, mids).amount > 0
  {
    var paths := PairPaths("", sellToken, buyToken, amount, exactOutput, mids);
    var found := BatchedQuoter.QuotesBySize(V3Batched.QuoterOf(chain), paths, V3Batched.MAX_CALLS_PER_BATCH);
    BestAmountIsBest(found, exactOutput);
    var k :| 0 <= k < |found| && found[k].amountOut == ExternalQuote(chain, sellToken, buyToken, amount, exactOutput, mids).amount > 0;
    BatchedQuoter.PositiveQuoteIsOwn(V3Batched.QuoterOf(chain), paths, V3Batched.MAX_CALLS_PER_BATCH, k);
    p := paths[k];
  }

  /** The EBBO quote for an emitted fill's amount never beats the fill. */
  lemma {:induction false} ExternalNeverBeats(cfg: RouterConfig, venues: Venues, orders: seq<Order>, i: nat, e: Entry)
    requires Answered(venues.chain, V3Paths(orders, cfg.mids))
    requires Quoted(orders, AllQuotes(cfg, venues, orders))
    requires i < |orders| && e in Attempts(orders[i], AllQuotes(cfg, venues, orders)) && AttemptFor(orders[i], e)
    ensures var o := orders[i];
            var external := ExternalQuote(venues.chain, o.sellToken, o.buyToken, e.fills[0].executed, o.kind.Buy?, cfg.mids);
            external.Amount? ==> if o.kind.Buy? then e.sold <= external.amount else external.amount <= e.bought
  {
    var o := orders[i];
    var amount := e.fills[0].executed;
    var external := ExternalQuote(venues.chain, o.sellToken, o.buyToken, amount, o.kind.Buy?, cfg.mids);
    ExternalIsCandidate(venues.chain, o, amount, cfg.mids);
    if external.Amount? {
      var p :| && p in PairPaths(o.uid, o.sellToken, o.buyToken, amount, o.kind.Buy?, cfg.mids)
               && PathOf(p, o.uid, o.sellToken, o.buyToken, amount, o.kind.Buy?)
               && V3Batched.PathQuote(venues.chain, p) == external.amount;
      assert amount in QuotedAmounts(o);
      PairPathsAt(o, QuotedAmounts(o), cfg.mids, amount);
      PairPathsListed(orders, cfg.mids, i, p);
      PoolHasQuote(cfg, venues, orders, p);
      AttemptBeatsQuotes(orders, AllQuotes(cfg, venues, orders), i, e, RouteQuote(V3(p), external.amount));
    }
  }

  /** An entry no worse than the external quote never lags, at any tolerance. */
  lemma NeverLags(o: Order, e: Entry, t: Trade, byUid: map<Uid, Order>, prices: Prices, chain: V3Batched.Chain,
                  mids: seq<Token>, toleranceBps: nat)
    requires Signed(o) && AttemptFor(o, e) && PricedAs(prices, e)
    requires o.uid in byUid && byUid[o.uid] == o && t == Trade(Fulfillment, o.uid, e.fills[0].executed)
    requires var external := ExternalQuote(chain, o.sellToken, o.buyToken, e.fills[0].executed, o.kind.Buy?, mids);
             external.Amount? ==> if o.kind.Buy? then e.sold <= external.amount else external.amount <= e.bought
    ensures !JudgeTrade(t, byUid, prices, chain, mids, toleranceBps).Lags?
  {
    var executed := e.fills[0].executed;
    assert PriceAt(prices, o.sellToken) == e.bought && PriceAt(prices, o.buyToken) == e.sold;
    var external := ExternalQuote(chain, o.sellToken, o.buyToken, executed, o.kind.Buy?, mids);
    if external.Amount? {
      Tolerances(external.amount, toleranceBps);
      if o.kind.Sell? {
        assert executed * e.bought == e.bought * e.sold;
        CeilDivExact(e.bought, e.sold);
      } else {
        assert executed * e.sold == e.sold * e.bought;
        DivExact(e.sold, e.bought);
      }
    }
  }

  lemma Tolerances(amount: nat, toleranceBps: nat)
    ensures amount * (Ebbo.BPS - toleranceBps) / Ebbo.BPS <= amount <= amount * (Ebbo.BPS + toleranceBps) / Ebbo.BPS
  {
    MulLe(Ebbo.BPS - toleranceBps, Ebbo.BPS, amount);
    MulLe(Ebbo.BPS, Ebbo.BPS + toleranceBps, amount);
    assert amount * (Ebbo.BPS - toleranceBps) <= amount * Ebbo.BPS <= amount * (Ebbo.BPS + toleranceBps);
  }

  /** The trades and prices a solve ends with. */
  function RouterSolution(cfg: RouterConfig, venues: Venues, orders: seq<Order>): seq<Entry>
    requires V3Buildable(cfg, venues, orders)
  {
    RouterLedger(orders, AllQuotes(cfg, venues, orders))
  }

  /** The router passes EBBO: no trade of any router solution lags the external quote, whatever mix of
      full sells, fraction sells and buys it holds and whatever V4 and Curve quoted. So the check accepts
      the solution exactly when it holds at most 20 trades, at any tolerance. */
  lemma {:induction false} RouterPassesEbboExactly(cfg: RouterConfig, venues: Venues, auction: seq<Order>, orders: seq<Order>, toleranceBps: nat)
    requires UniqueUids(auction) && UniqueUids(orders) && AllSigned(orders) && forall o :: o in orders ==> o in auction
    requires Answered(venues.chain, V3Paths(orders, cfg.mids)) && ZeroForZero(AllQuotes(cfg, venues, orders))
    ensures var ledger := RouterSolution(cfg, venues, orders);
            var r := EbboCheck(TradesOf(ledger), PricesOf(ledger), auction, venues.chain, cfg.mids, toleranceBps);
      && (r.passes <==> |TradesOf(ledger)| <= MAX_TRADES_PER_CHECK)
      && r.violations == if r.passes then [] else [Truncation(|TradesOf(ledger)|)]
  {
    var ledger := RouterSolution(cfg, venues, orders);
    GatheredQuotesAnswer(cfg, venues, orders);
    forall k: nat | k < |TradesOf(ledger)|
      ensures !JudgeTrade(TradesOf(ledger)[k], ByUid(auction), PricesOf(ledger), venues.chain, cfg.mids, toleranceBps).Lags?
    {
      TradeNeverLags(cfg, venues, auction, orders, toleranceBps, k);
    }
    CheckPassesExact(TradesOf(ledger), PricesOf(ledger), auction, venues.chain, cfg.mids, toleranceBps);
  }

  lemma {:induction false} TradeNeverLags(cfg: RouterConfig, venues: Venues, auction: seq<Order>, orders: seq<Order>, toleranceBps: nat, k: nat)
    requires UniqueUids(auction) && forall o :: o in orders ==> o in auction
    requires Answered(venues.chain, V3Paths(orders, cfg.mids)) && Quoted(orders, AllQuotes(cfg, venues, orders))
    requires k < |TradesOf(RouterSolution(cfg, venues, orders))|
    ensures var ledger := RouterSolution(cfg, venues, orders);
            !JudgeTrade(TradesOf(ledger)[k], ByUid(auction), PricesOf(ledger), venues.chain, cfg.mids, toleranceBps).Lags?
  {
    var quotes := AllQuotes(cfg, venues, orders);
    var items := AttemptLists(orders, quotes);
    var ledger := RouterSolution(cfg, venues, orders);
    RouterUniformPrices(orders, quotes);
    RouterTrades(orders, quotes);
    RunMembers([], items, k);
    var i :| 0 <= i < |items| && ledger[k] in items[i];
    AttemptShape(orders, quotes, i);
    var o := orders[i];
    assert o in orders;
    ByUidFinds(auction, o);
    ExternalNeverBeats(cfg, venues, orders, i, ledger[k]);
    assert PricedAs(PricesOf(ledger), ledger[k]);
    NeverLags(o, ledger[k], TradesOf(ledger)[k], ByUid(auction), PricesOf(ledger), venues.chain, cfg.mids, toleranceBps);
  }

  /** End to end: quote, clear and check. The check's verdict on a solved auction is decided by the number
      of trades alone. */
  method SolveThenCheck(cfg: RouterConfig, venues: Venues, auction: seq<Order>, orders: seq<Order>, toleranceBps: nat)
    returns (r: Outcome, verdict: EbboResult)
    requires ValidConfig(cfg.encoder)
    requires UniqueUids(auction) && UniqueUids(orders) && AllSigned(orders) && forall o :: o in orders ==> o in auction
    requires V3Buildable(cfg, venues, orders) ==>
               Answered(venues.chain, V3Paths(orders, cfg.mids)) && ZeroForZero(AllQuotes(cfg, venues, orders))
    ensures r == BatchedOutcome(cfg, venues, orders)
    ensures r.Solved? ==> (verdict.passes <==> |r.trades| <= MAX_TRADES_PER_CHECK)
  {
    r := SolveV3Batched(cfg, venues, orders);
    verdict := EbboResult(true, [], 0, 0, 0);
    if r.Solved? {
      RouterPassesEbboExactly(cfg, venues, auction, orders, toleranceBps);
      verdict := ValidateSolutionEbbo(r.trades, r.prices, auction, venues.chain, cfg.mids, toleranceBps);
    }
  }
}
