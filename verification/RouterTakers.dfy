/** Who takes a quote. A market that gives one answer to one question tells it to every order that asks, and the
    first of them to take it sets the prices of the pair for the rest of the batch. */
module RouterTakers {
  import opened Wrappers
  import opened Models
  import opened Encoder
  import opened Candidates
  import opened Selection
  import opened Ledger
  import opened ClearingLoop
  import opened Router
  import opened RouterInvariants
  import opened RouterQuotes
  import opened RouterMarket

  /** A sell of the pair that is quoted for `part` and sells at `out`: in full, or a fraction of just that
      amount. */
  predicate SellTakes(r: Order, sellToken: Token, buyToken: Token, part: nat, out: nat) {
    && r.kind.Sell? && r.sellToken == sellToken && r.buyToken == buyToken && part in QuotedAmounts(r)
    && (|| out >= r.buyAmount
        || (r.partiallyFillable
            && ((Fractions(r)[0].0 == part && out >= Fractions(r)[0].1) || (Fractions(r)[1].0 == part && out >= Fractions(r)[1].1))))
  }

  /** A buy of the pair that wants exactly `out` and pays `part` for it. */
  predicate BuyTakes(r: Order, sellToken: Token, buyToken: Token, part: nat, out: nat) {
    r.kind.Buy? && r.sellToken == sellToken && r.buyToken == buyToken && r.buyAmount == out && part <= r.sellAmount
  }

  predicate Takes(r: Order, sellToken: Token, buyToken: Token, part: nat, out: nat) {
    SellTakes(r, sellToken, buyToken, part, out) || BuyTakes(r, sellToken, buyToken, part, out)
  }

  /** It takes the quote for `part` and no more: the whole of a larger sell is not within reach. */
  predicate TakesFairly(r: Order, sellToken: Token, buyToken: Token, part: nat, out: nat) {
    && Takes(r, sellToken, buyToken, part, out)
    && (r.kind.Sell? && out >= r.buyAmount ==> r.sellAmount == part)
  }

  /** Every positive quote is of one pair. */
  ghost predicate OnPair(quotes: seq<RouteQuote>, sellToken: Token, buyToken: Token) {
    forall q :: q in quotes && q.amountOut > 0 ==> q.path.TokenIn() == sellToken && q.path.TokenOut() == buyToken
  }

  /** All the market offers is `out` for `part`, to those who sell `part` and to those who buy `out`. */
  ghost predicate OnlyOffers(quotes: seq<RouteQuote>, sellToken: Token, buyToken: Token, part: nat, out: nat) {
    && part > 0 && out > 0 && OnPair(quotes, sellToken, buyToken)
    && forall q :: q in quotes && q.amountOut > 0 ==>
         if q.path.ExactOutput() then q.path.AmountIn() == out && q.amountOut == part
         else q.path.AmountIn() == part && q.amountOut == out
  }

  lemma OffersNotForNothing(quotes: seq<RouteQuote>, sellToken: Token, buyToken: Token, part: nat, out: nat)
    requires OnlyOffers(quotes, sellToken, buyToken, part, out)
    ensures ZeroForZero(quotes)
  {
  }

  /** The quote behind an attempt. */
  lemma {:induction false} AttemptQuote(orders: seq<Order>, quotes: seq<RouteQuote>, i: nat, e: Entry)
    requires Quoted(orders, quotes) && i < |orders| && e in Attempts(orders[i], quotes)
    ensures exists q :: QuoteBehind(orders[i], quotes, e, q)
  {
    var o := orders[i];
    BestOfOrder(orders, quotes, i, None);
    BestOfOrder(orders, quotes, i, Some(Fractions(o)[0].0));
    BestOfOrder(orders, quotes, i, Some(Fractions(o)[1].0));
    var best := BestFor(quotes, o.uid, None);
    if o.kind.Buy? || (best.Some? && best.value.amountOut >= o.buyAmount) {
      assert QuoteBehind(o, quotes, e, best.value);
    } else {
      var f := if e in FractionAttempt(o, quotes, Fractions(o)[0].0, Fractions(o)[0].1) then 0 else 1;
      assert QuoteBehind(o, quotes, e, BestFor(quotes, o.uid, Some(Fractions(o)[f].0)).value);
    }
  }

  ghost predicate QuoteBehind(o: Order, quotes: seq<RouteQuote>, e: Entry, q: RouteQuote) {
    && q in quotes && Eligible(q, o.uid, None) && q.path == e.route && QuoteMatches(o, q)
    && q.amountOut == if o.kind.Buy? then e.sold else e.bought
  }

  /** An order that is told a quote it takes has something to try. */
  lemma {:induction false} TakerTries(orders: seq<Order>, quotes: seq<RouteQuote>, j: nat, q: RouteQuote, part: nat, out: nat)
    requires Quoted(orders, quotes) && j < |orders| && q in quotes && Eligible(q, orders[j].uid, None)
    requires SellTakes(orders[j], orders[j].sellToken, orders[j].buyToken, part, out)
    requires q.path.AmountIn() == part && q.amountOut >= out
    ensures Attempts(orders[j], quotes) != []
  {
    var o := orders[j];
    var k :| 0 <= k < |quotes| && quotes[k] == q;
    BestOfOrder(orders, quotes, j, None);
    BestOfOrder(orders, quotes, j, Some(Fractions(o)[0].0));
    BestOfOrder(orders, quotes, j, Some(Fractions(o)[1].0));
    assert Eligible(quotes[k], o.uid, None) && Eligible(quotes[k], o.uid, Some(part));
  }

  lemma {:induction false} BuyerTries(orders: seq<Order>, quotes: seq<RouteQuote>, j: nat, q: RouteQuote)
    requires Quoted(orders, quotes) && j < |orders| && q in quotes && Eligible(q, orders[j].uid, None)
    requires orders[j].kind.Buy? && q.amountOut <= orders[j].sellAmount
    ensures Attempts(orders[j], quotes) != []
  {
    var k :| 0 <= k < |quotes| && quotes[k] == q;
    BestOfOrder(orders, quotes, j, None);
    assert Eligible(quotes[k], orders[j].uid, None);
  }

  /** In a market with one offer whoever tries anything takes the offer, and a fair taker trades exactly it. */
  lemma {:induction false} TriesAreTakers(orders: seq<Order>, quotes: seq<RouteQuote>, j: nat, e: Entry, sellToken: Token, buyToken: Token,
                       part: nat, out: nat)
    requires Quoted(orders, quotes) && j < |orders| && e in Attempts(orders[j], quotes)
    requires OnlyOffers(quotes, sellToken, buyToken, part, out)
    ensures Takes(orders[j], sellToken, buyToken, part, out)
    ensures e.sellToken == sellToken && e.buyToken == buyToken
    ensures TakesFairly(orders[j], sellToken, buyToken, part, out) ==> e.sold == part && e.bought == out
  {
    AttemptQuote(orders, quotes, j, e);
    AttemptShape(orders, quotes, j);
    var q :| QuoteBehind(orders[j], quotes, e, q);
    BestOfOrder(orders, quotes, j, None);
    assert q.amountOut > 0;
  }

  /** An order that takes what another was told is told it too, and has something to try. */
  lemma {:induction false} TakerIsTold(cfg: RouterConfig, venues: Venues, orders: seq<Order>, q: RouteQuote, j: nat, out: nat)
    requires Answering(cfg, venues, orders) && Quoted(orders, AllQuotes(cfg, venues, orders))
    requires j < |orders| && q in AllQuotes(cfg, venues, orders) && 0 < q.amountOut && out <= q.amountOut && !q.path.ExactOutput()
    requires SellTakes(orders[j], q.path.TokenIn(), q.path.TokenOut(), q.path.AmountIn(), out)
    ensures Attempts(orders[j], AllQuotes(cfg, venues, orders)) != []
  {
    TakerAsks(orders[j], q, out);
    SharedQuote(cfg, venues, orders, q, j);
    TakerTries(orders, AllQuotes(cfg, venues, orders), j, Told(q, orders[j].uid), q.path.AmountIn(), out);
  }

  function Told(q: RouteQuote, uid: Uid): RouteQuote {
    RouteQuote(Renamed(q.path, uid), q.amountOut)
  }

  lemma TakerAsks(r: Order, q: RouteQuote, out: nat)
    requires q.amountOut > 0 && !q.path.ExactOutput() && SellTakes(r, q.path.TokenIn(), q.path.TokenOut(), q.path.AmountIn(), out)
    ensures Asks(r, q.path) && Eligible(Told(q, r.uid), r.uid, None) && Told(q, r.uid).path.AmountIn() == q.path.AmountIn()
    ensures SellTakes(r, r.sellToken, r.buyToken, q.path.AmountIn(), out)
  {
  }

  // ---- markets of one pair --------------------------------------------------------------------------

  /** An emitted swap and the order it is for. */
  ghost predicate EmittedFor(orders: seq<Order>, quotes: seq<RouteQuote>, i: nat, e: Entry) {
    i < |orders| && e in Attempts(orders[i], quotes) && e in RouterLedger(orders, quotes)
  }

  /** The first order that has anything to try gets its first attempt. */
  lemma {:induction false} FirstTrade(orders: seq<Order>, quotes: seq<RouteQuote>, i: nat) returns (m: nat)
    requires Quoted(orders, quotes) && i < |orders| && Attempts(orders[i], quotes) != []
    ensures m <= i && Attempts(orders[m], quotes) != [] && EmittedFor(orders, quotes, m, Attempts(orders[m], quotes)[0])
    ensures PricedAs(PricesOf(RouterLedger(orders, quotes)), Attempts(orders[m], quotes)[0])
    ensures forall j :: 0 <= j < m ==> Attempts(orders[j], quotes) == []
  {
    AttemptListsShape(orders, quotes);
    m := FirstOfferWins(AttemptLists(orders, quotes), i);
    forall j: nat | j < m ensures Attempts(orders[j], quotes) == [] {
      assert AttemptLists(orders, quotes)[j] == [];
    }
  }

  lemma {:induction false} TradesPair(orders: seq<Order>, quotes: seq<RouteQuote>, i: nat, e: Entry, sellToken: Token, buyToken: Token)
    requires Quoted(orders, quotes) && OnPair(quotes, sellToken, buyToken) && i < |orders| && e in Attempts(orders[i], quotes)
    ensures e.sellToken == orders[i].sellToken == sellToken && e.buyToken == orders[i].buyToken == buyToken
  {
    AttemptQuote(orders, quotes, i, e);
    AttemptShape(orders, quotes, i);
    var q :| QuoteBehind(orders[i], quotes, e, q);
  }

  lemma {:induction false} EmittedIsPriced(orders: seq<Order>, quotes: seq<RouteQuote>, e: Entry)
    requires Quoted(orders, quotes) && e in RouterLedger(orders, quotes)
    ensures PricedAs(PricesOf(RouterLedger(orders, quotes)), e)
  {
    RouterUniformPrices(orders, quotes);
    var k :| 0 <= k < |RouterLedger(orders, quotes)| && RouterLedger(orders, quotes)[k] == e;
  }

  /** In a market of one pair every emitted swap has the rate of the first one. */
  lemma {:induction false} OneRate(orders: seq<Order>, quotes: seq<RouteQuote>, i: nat, e: Entry, sellToken: Token, buyToken: Token)
    returns (m: nat, first: Entry)
    requires Quoted(orders, quotes) && OnPair(quotes, sellToken, buyToken) && EmittedFor(orders, quotes, i, e)
    ensures m <= i && EmittedFor(orders, quotes, m, first) && first == Attempts(orders[m], quotes)[0]
    ensures forall j :: 0 <= j < m ==> Attempts(orders[j], quotes) == []
    ensures orders[m].sellToken == orders[i].sellToken == sellToken && orders[m].buyToken == orders[i].buyToken == buyToken
    ensures first.sold == e.sold && first.bought == e.bought
  {
    m := FirstTrade(orders, quotes, i);
    first := Attempts(orders[m], quotes)[0];
    TradesPair(orders, quotes, i, e, sellToken, buyToken);
    TradesPair(orders, quotes, m, first, sellToken, buyToken);
    EmittedIsPriced(orders, quotes, e);
  }

  /** A market in which only V3 answers is encoded. */
  lemma {:induction false} V3OnlyEncodes(cfg: RouterConfig, venues: Venues, orders: seq<Order>)
    requires ValidConfig(cfg.encoder) && AddressesOk(cfg, orders)
    requires V3Buildable(cfg, venues, orders) && Quoted(orders, AllQuotes(cfg, venues, orders))
    requires forall q :: q in AllQuotes(cfg, venues, orders) && q.amountOut > 0 ==> q.path.V3?
    ensures AllEncodable(cfg.encoder, RouterLedger(orders, AllQuotes(cfg, venues, orders)))
  {
    var quotes := AllQuotes(cfg, venues, orders);
    var ledger := RouterLedger(orders, quotes);
    PoolFromVenues(cfg, venues, orders);
    forall k | 0 <= k < |ledger| ensures Encoding(cfg.encoder, ledger[k]).Success? {
      RunMembers([], AttemptLists(orders, quotes), k);
      var i :| 0 <= i < |orders| && ledger[k] in AttemptLists(orders, quotes)[i];
      AttemptQuote(orders, quotes, i, ledger[k]);
      var q :| QuoteBehind(orders[i], quotes, ledger[k], q);
      assert FromVenue(cfg, orders, q);
      V3NeverRaises(cfg, orders, ledger[k].route.v3, ledger[k].sold, ledger[k].bought);
    }
  }
}
