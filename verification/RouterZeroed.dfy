/** Which auctions the scorer can zero: when some market makes the router's own batch break the scorer's limit. */
module RouterZeroed {
  import opened Wrappers
  import opened Models
  import opened Encoder
  import opened Candidates
  import opened Selection
  import opened Ledger
  import opened ClearingLoop
  import opened Router
  import opened RouterInvariants
  import opened RouterQuotes
  import opened RouterMarket
  import opened RouterTables
  import opened RouterTakers
  import opened RouterScore
  import opened Scoring
  import V3Batched
  import V4Quoter
  import V3Path

  /** The router solves, and its solution breaks the scorer's rounded limit, which zeroes all of it. */
  ghost predicate Zeroed(cfg: RouterConfig, venues: Venues, auction: seq<Order>, orders: seq<Order>)
    requires ValidConfig(cfg.encoder)
  {
    var r := BatchedOutcome(cfg, venues, orders);
    r.Solved? && !ValidTrades(r.trades, ByUid(auction), r.prices)
  }

  /** With safe amounts no market of any kind lets that happen. */
  lemma {:induction false} ZeroedNeedsUnsafe(cfg: RouterConfig, venues: Venues, auction: seq<Order>, orders: seq<Order>)
    requires ValidConfig(cfg.encoder) && UniqueUids(auction) && UniqueUids(orders) && AllSigned(orders)
    requires forall o :: o in orders ==> o in auction
    requires V3Buildable(cfg, venues, orders) ==> ZeroForZero(AllQuotes(cfg, venues, orders))
    requires Zeroed(cfg, venues, auction, orders)
    ensures HasUnsafe(orders)
  {
    GatheredQuotesAnswer(cfg, venues, orders);
    if !HasUnsafe(orders) {
      NoneUnsafe(orders);
      SafeAmountsNeverZeroed(auction, orders, AllQuotes(cfg, venues, orders));
    }
  }

  // ---- when an unsafe order does break the limit ----------------------------------------------------

  /** The quoting meets no errors, and what is quoted at all is quoted for one pair. */
  ghost predicate OnePair(cfg: RouterConfig, venues: Venues, orders: seq<Order>) {
    && Answering(cfg, venues, orders) && ZeroForZero(AllQuotes(cfg, venues, orders))
    && exists sellToken, buyToken :: OnPair(AllQuotes(cfg, venues, orders), sellToken, buyToken)
  }

  /** An auction of one pair knows no other markets. */
  lemma {:induction false} AuctionOfOnePair(cfg: RouterConfig, venues: Venues, orders: seq<Order>, sellToken: Token, buyToken: Token)
    requires Answering(cfg, venues, orders) && ZeroForZero(AllQuotes(cfg, venues, orders))
    requires forall o :: o in orders ==> o.sellToken == sellToken && o.buyToken == buyToken
    ensures OnePair(cfg, venues, orders)
  {
    var quotes := AllQuotes(cfg, venues, orders);
    PoolFromVenues(cfg, venues, orders);
    forall q | q in quotes ensures q.path.TokenIn() == sellToken && q.path.TokenOut() == buyToken {
      assert FromVenue(cfg, orders, q);
      QuoteAnswersSome(cfg, orders, q);
      var i :| 0 <= i < |orders| && Answers(orders[i], q.path);
      assert orders[i] in orders;
    }
    assert OnPair(quotes, sellToken, buyToken);
  }

  /** Fraction `k` of order `i` is unsafe, and among the orders up to it the first to take the least output that its
      guard lets through for that fraction takes no more than the fraction. */
  ghost predicate Unguarded(orders: seq<Order>, i: nat, k: nat) {
    && i < |orders| && k < 2 && orders[i].kind.Sell? && orders[i].partiallyFillable && !FractionSafe(orders[i], k)
    && exists m: nat :: m <= i && FirstFairTaker(orders, m, orders[i], k)
  }

  ghost predicate FirstFairTaker(orders: seq<Order>, m: nat, o: Order, k: nat)
    requires m < |orders| && k < 2
  {
    && TakesFairly(orders[m], o.sellToken, o.buyToken, Fractions(o)[k].0, LeastAccepted(o, k))
    && forall j :: 0 <= j < m ==> !Takes(orders[j], o.sellToken, o.buyToken, Fractions(o)[k].0, LeastAccepted(o, k))
  }

  /** The unsafe order itself takes it, and fairly. */
  lemma UnsafeTakes(o: Order, k: nat)
    requires Signed(o) && o.kind.Sell? && o.partiallyFillable && k < 2 && !FractionSafe(o, k)
    ensures TakesFairly(o, o.sellToken, o.buyToken, Fractions(o)[k].0, LeastAccepted(o, k))
  {
    UnsafeAmounts(o, k);
    assert QuotedAmounts(o)[k + 1] == Fractions(o)[k].0;
  }

  // ---- from a zeroed batch to an unguarded order ----------------------------------------------------

  /** A fill that breaks the limit is an unsafe fraction at the least output its guard lets through. */
  lemma ShortFillIsLeast(o: Order, e: Entry) returns (k: nat)
    requires Signed(o) && o.kind.Sell? && AttemptFor(o, e) && e.bought < LimitBuy(o, e.fills[0].executed)
    ensures k < 2 && o.partiallyFillable && !FractionSafe(o, k)
    ensures e.sold == Fractions(o)[k].0 == e.route.AmountIn() && e.bought == LeastAccepted(o, k)
  {
    if IsFullFill(o, e) {
      FullSellMeetsLimit(o, e);
    }
    k := if IsFractionFill(o, e, 0) then 0 else 1;
    assert IsFractionFill(o, e, k);
    var least := LeastAccepted(o, k);
    FractionNearLimit(o, k, least);
    FractionGuardExact(o, k);
    assert GuardAccepts(o, k, e.bought) && !MeetsLimit(o, k, e.bought);
  }

  /** The order behind it. */
  lemma {:induction false} ZeroedEmitsShort(cfg: RouterConfig, venues: Venues, auction: seq<Order>, orders: seq<Order>) returns (i: nat, k: nat, e: Entry)
    requires ValidConfig(cfg.encoder) && UniqueUids(auction) && forall o :: o in orders ==> o in auction
    requires V3Buildable(cfg, venues, orders) && Quoted(orders, AllQuotes(cfg, venues, orders))
    requires Zeroed(cfg, venues, auction, orders)
    ensures EmittedFor(orders, AllQuotes(cfg, venues, orders), i, e) && k < 2
    ensures orders[i].kind.Sell? && orders[i].partiallyFillable && !FractionSafe(orders[i], k)
    ensures e.sold == Fractions(orders[i])[k].0 == e.route.AmountIn() && e.bought == LeastAccepted(orders[i], k)
  {
    var quotes := AllQuotes(cfg, venues, orders);
    var ledger := RouterLedger(orders, quotes);
    var m := ShortTrade(auction, orders, quotes);
    e := ledger[m];
    RunMembers([], AttemptLists(orders, quotes), m);
    i :| 0 <= i < |orders| && e in AttemptLists(orders, quotes)[i];
    AttemptShape(orders, quotes, i);
    assert orders[i] in orders;
    k := ShortFillIsLeast(orders[i], e);
  }

  lemma {:induction false} ShortTrade(auction: seq<Order>, orders: seq<Order>, quotes: seq<RouteQuote>) returns (m: nat)
    requires UniqueUids(auction) && Quoted(orders, quotes) && forall o :: o in orders ==> o in auction
    requires !ValidTrades(TradesOf(RouterLedger(orders, quotes)), ByUid(auction), PricesOf(RouterLedger(orders, quotes)))
    ensures m < |RouterLedger(orders, quotes)|
    ensures var e := RouterLedger(orders, quotes)[m];
            |e.fills| == 1 && Signed(OrderOf(e)) && OrderOf(e).kind.Sell? && e.bought < LimitBuy(OrderOf(e), e.fills[0].executed)
  {
    RouterTradesJudged(auction, orders, quotes, map[]);
    var ledger := RouterLedger(orders, quotes);
    m :| 0 <= m < |TradesOf(ledger)| && Violates(TradesOf(ledger)[m], ByUid(auction), PricesOf(ledger));
  }

  /** The order that sets the rate of the pair takes the offer fairly. */
  lemma {:induction false} RateSetterIsFair(orders: seq<Order>, quotes: seq<RouteQuote>, m: nat, first: Entry)
    requires Quoted(orders, quotes) && m < |orders| && Attempts(orders[m], quotes) != [] && first == Attempts(orders[m], quotes)[0]
    ensures TakesFairly(orders[m], orders[m].sellToken, orders[m].buyToken, first.sold, first.bought)
  {
    var o := orders[m];
    assert o in orders && first in Attempts(o, quotes);
    AttemptQuote(orders, quotes, m, first);
    var q :| QuoteBehind(o, quotes, first, q);
    var k :| 0 <= k < |quotes| && quotes[k] == q;
    BestOfOrder(orders, quotes, m, None);
    AttemptShape(orders, quotes, m);
    assert Eligible(quotes[k], o.uid, None);
  }

  /** Nobody before the rate setter sells at what a later order was told. */
  lemma {:induction false} NoSellerBefore(cfg: RouterConfig, venues: Venues, orders: seq<Order>, m: nat, i: nat, e: Entry, sellToken: Token, buyToken: Token)
    requires Answering(cfg, venues, orders) && Quoted(orders, AllQuotes(cfg, venues, orders))
    requires EmittedFor(orders, AllQuotes(cfg, venues, orders), i, e) && orders[i].kind.Sell? && e.sold == e.route.AmountIn()
    requires orders[i].sellToken == sellToken && orders[i].buyToken == buyToken && m <= |orders|
    requires forall j :: 0 <= j < m ==> Attempts(orders[j], AllQuotes(cfg, venues, orders)) == []
    ensures forall j :: 0 <= j < m ==> !SellTakes(orders[j], sellToken, buyToken, e.sold, e.bought)
  {
    var quotes := AllQuotes(cfg, venues, orders);
    AttemptQuote(orders, quotes, i, e);
    var q :| QuoteBehind(orders[i], quotes, e, q);
    forall j: nat | j < m && SellTakes(orders[j], sellToken, buyToken, e.sold, e.bought) ensures false {
      TakerIsTold(cfg, venues, orders, q, j, e.bought);
    }
  }

  /** Up to a fair taker, with no seller before it, the first taker of all is fair: buyers always are. */
  lemma FirstTakerIsFair(orders: seq<Order>, m: nat, o: Order, k: nat) returns (f: nat)
    requires m < |orders| && k < 2
    requires TakesFairly(orders[m], o.sellToken, o.buyToken, Fractions(o)[k].0, LeastAccepted(o, k))
    requires forall j :: 0 <= j < m ==> !SellTakes(orders[j], o.sellToken, o.buyToken, Fractions(o)[k].0, LeastAccepted(o, k))
    ensures f <= m && FirstFairTaker(orders, f, o, k)
  {
    f := 0;
    while !Takes(orders[f], o.sellToken, o.buyToken, Fractions(o)[k].0, LeastAccepted(o, k))
      invariant f <= m
      invariant forall j :: 0 <= j < f ==> !Takes(orders[j], o.sellToken, o.buyToken, Fractions(o)[k].0, LeastAccepted(o, k))
      decreases m - f
    {
      f := f + 1;
    }
  }

  lemma {:induction false} ZeroedIsUnguarded(cfg: RouterConfig, venues: Venues, auction: seq<Order>, orders: seq<Order>)
    requires ValidConfig(cfg.encoder) && UniqueUids(auction) && UniqueUids(orders) && AllSigned(orders)
    requires forall o :: o in orders ==> o in auction
    requires OnePair(cfg, venues, orders) && Zeroed(cfg, venues, auction, orders)
    ensures exists i, k :: Unguarded(orders, i, k)
  {
    var quotes := AllQuotes(cfg, venues, orders);
    GatheredQuotesAnswer(cfg, venues, orders);
    var sellToken, buyToken :| OnPair(quotes, sellToken, buyToken);
    var i, k, e := ZeroedEmitsShort(cfg, venues, auction, orders);
    var m, first := OneRate(orders, quotes, i, e, sellToken, buyToken);
    RateSetterIsFair(orders, quotes, m, first);
    NoSellerBefore(cfg, venues, orders, m, i, e, sellToken, buyToken);
    var f := FirstTakerIsFair(orders, m, orders[i], k);
    assert Unguarded(orders, i, k);
  }

  // ---- from an unguarded order to a zeroed batch ----------------------------------------------------

  /** A market of one V3 pool that pays `out` for `part`, and asks `part` for `out`. */
  function TwoWayPool(sellToken: Token, buyToken: Token, part: nat, out: nat): Venues {
    TableMarket(c => if c == V3Batched.QuoteSingle(false, sellToken, buyToken, part, 100) then out
                     else if c == V3Batched.QuoteSingle(true, sellToken, buyToken, out, 100) then part else 0,
                _ => 0)
  }

  lemma {:induction false} TwoWayPoolOffers(cfg: RouterConfig, orders: seq<Order>, sellToken: Token, buyToken: Token, part: nat, out: nat)
    requires ValidConfig(cfg.encoder) && AddressesOk(cfg, orders) && part > 0 && out > 0
    ensures var venues := TwoWayPool(sellToken, buyToken, part, out);
      && Answering(cfg, venues, orders)
      && OnlyOffers(AllQuotes(cfg, venues, orders), sellToken, buyToken, part, out)
      && forall q :: q in AllQuotes(cfg, venues, orders) && q.amountOut > 0 ==> q.path.V3?
  {
    var v3: V3Batched.QuoterCall -> nat :=
      c => if c == V3Batched.QuoteSingle(false, sellToken, buyToken, part, 100) then out
           else if c == V3Batched.QuoteSingle(true, sellToken, buyToken, out, 100) then part else 0;
    var v4: V4Quoter.QuoterCall -> nat := _ => 0;
    var venues := TwoWayPool(sellToken, buyToken, part, out);
    TableMarketAnswers(cfg, orders, v3, v4);
    forall q | q in AllQuotes(cfg, venues, orders) && q.amountOut > 0
      ensures q.path.V3? && q.path.TokenIn() == sellToken && q.path.TokenOut() == buyToken
      ensures if q.path.ExactOutput() then q.path.AmountIn() == out && q.amountOut == part
              else q.path.AmountIn() == part && q.amountOut == out
    {
      PoolIsOwn(cfg, venues, orders, q.path);
      TableQuotes(v3, v4, q.path);
    }
  }

  /** Everyone who takes the offer is told of it. */
  lemma {:induction false} TwoWayPoolTells(cfg: RouterConfig, orders: seq<Order>, j: nat, sellToken: Token, buyToken: Token, part: nat, out: nat)
    returns (q: RouteQuote)
    requires ValidConfig(cfg.encoder) && AddressesOk(cfg, orders) && part > 0 && out > 0
    requires j < |orders| && Takes(orders[j], sellToken, buyToken, part, out)
    ensures var venues := TwoWayPool(sellToken, buyToken, part, out);
            V3Buildable(cfg, venues, orders) && q in AllQuotes(cfg, venues, orders) && Eligible(q, orders[j].uid, None)
    ensures if orders[j].kind.Buy? then q.amountOut == part else q.path.AmountIn() == part && q.amountOut == out
  {
    var o := orders[j];
    assert o in orders;
    var venues := TwoWayPool(sellToken, buyToken, part, out);
    var v3: V3Batched.QuoterCall -> nat :=
      c => if c == V3Batched.QuoteSingle(false, sellToken, buyToken, part, 100) then out
           else if c == V3Batched.QuoteSingle(true, sellToken, buyToken, out, 100) then part else 0;
    var v4: V4Quoter.QuoterCall -> nat := _ => 0;
    var amount := if o.kind.Buy? then out else part;
    var r := V3(DirectPath(o.uid, sellToken, buyToken, amount, o.kind.Buy?, 100));
    TableMarketAnswers(cfg, orders, v3, v4);
    DirectListed(cfg, orders, j, amount);
    DirectBuilds(r.v3);
    TableQuotes(v3, v4, r);
    PoolIsOwn(cfg, venues, orders, r);
    q := RouteQuote(r, OwnQuote(venues, r));
  }

  lemma {:induction false} TakerTriesHere(cfg: RouterConfig, orders: seq<Order>, j: nat, sellToken: Token, buyToken: Token, part: nat, out: nat)
    requires ValidConfig(cfg.encoder) && AddressesOk(cfg, orders) && part > 0 && out > 0
    requires V3Buildable(cfg, TwoWayPool(sellToken, buyToken, part, out), orders)
    requires Quoted(orders, AllQuotes(cfg, TwoWayPool(sellToken, buyToken, part, out), orders))
    requires j < |orders| && Takes(orders[j], sellToken, buyToken, part, out)
    ensures Attempts(orders[j], AllQuotes(cfg, TwoWayPool(sellToken, buyToken, part, out), orders)) != []
  {
    var q := TwoWayPoolTells(cfg, orders, j, sellToken, buyToken, part, out);
    if orders[j].kind.Buy? {
      BuyerTries(orders, AllQuotes(cfg, TwoWayPool(sellToken, buyToken, part, out), orders), j, q);
    } else {
      TakerTries(orders, AllQuotes(cfg, TwoWayPool(sellToken, buyToken, part, out), orders), j, q, part, out);
    }
  }

  /** In a market with one offer, the first to take it being fair, every fair taker gets it. */
  lemma {:induction false} FairTakersTrade(orders: seq<Order>, quotes: seq<RouteQuote>, m: nat, i: nat, sellToken: Token, buyToken: Token,
                                           part: nat, out: nat) returns (e: Entry)
    requires Quoted(orders, quotes) && OnlyOffers(quotes, sellToken, buyToken, part, out)
    requires m <= i < |orders| && Attempts(orders[m], quotes) != [] && Attempts(orders[i], quotes) != []
    requires TakesFairly(orders[m], sellToken, buyToken, part, out) && TakesFairly(orders[i], sellToken, buyToken, part, out)
    requires forall j :: 0 <= j < m ==> !Takes(orders[j], sellToken, buyToken, part, out)
    ensures EmittedFor(orders, quotes, i, e) && e.sold == part && e.bought == out
  {
    var f := FirstTrade(orders, quotes, m);
    var first := Attempts(orders[f], quotes)[0];
    TriesAreTakers(orders, quotes, f, first, sellToken, buyToken, part, out);
    assert f == m;
    var a := Attempts(orders[i], quotes)[0];
    TriesAreTakers(orders, quotes, i, a, sellToken, buyToken, part, out);
    FilledExactlyWhenCompatible(orders, quotes, i);
    e := Choose(PricesOf(RouterLedger(orders, quotes)), Attempts(orders[i], quotes)).value;
    ChooseIn(PricesOf(RouterLedger(orders, quotes)), Attempts(orders[i], quotes));
    TriesAreTakers(orders, quotes, i, e, sellToken, buyToken, part, out);
  }

  lemma {:induction false} UnguardedTrades(cfg: RouterConfig, orders: seq<Order>, i: nat, k: nat) returns (e: Entry)
    requires ValidConfig(cfg.encoder) && AddressesOk(cfg, orders) && UniqueUids(orders) && AllSigned(orders)
    requires Unguarded(orders, i, k)
    ensures var o := orders[i];
            var venues := TwoWayPool(o.sellToken, o.buyToken, Fractions(o)[k].0, LeastAccepted(o, k));
      && OnePair(cfg, venues, orders) && Quoted(orders, AllQuotes(cfg, venues, orders))
      && EmittedFor(orders, AllQuotes(cfg, venues, orders), i, e)
      && e.sold == Fractions(o)[k].0 && e.bought == LeastAccepted(o, k)
  {
    var o := orders[i];
    assert o in orders;
    var part, out := Fractions(o)[k].0, LeastAccepted(o, k);
    UnsafeAmounts(o, k);
    var venues := TwoWayPool(o.sellToken, o.buyToken, part, out);
    TwoWayPoolOffers(cfg, orders, o.sellToken, o.buyToken, part, out);
    OffersNotForNothing(AllQuotes(cfg, venues, orders), o.sellToken, o.buyToken, part, out);
    GatheredQuotesAnswer(cfg, venues, orders);
    var m: nat :| m <= i && FirstFairTaker(orders, m, o, k);
    UnsafeTakes(o, k);
    TakerTriesHere(cfg, orders, m, o.sellToken, o.buyToken, part, out);
    TakerTriesHere(cfg, orders, i, o.sellToken, o.buyToken, part, out);
    e := FairTakersTrade(orders, AllQuotes(cfg, venues, orders), m, i, o.sellToken, o.buyToken, part, out);
  }

  lemma {:induction false} UnguardedIsZeroed(cfg: RouterConfig, auction: seq<Order>, orders: seq<Order>, i: nat, k: nat)
    requires ValidConfig(cfg.encoder) && AddressesOk(cfg, orders) && UniqueUids(auction) && UniqueUids(orders) && AllSigned(orders)
    requires forall o :: o in orders ==> o in auction
    requires Unguarded(orders, i, k)
    ensures var o := orders[i];
            var venues := TwoWayPool(o.sellToken, o.buyToken, Fractions(o)[k].0, LeastAccepted(o, k));
            OnePair(cfg, venues, orders) && Zeroed(cfg, venues, auction, orders)
  {
    var o := orders[i];
    assert o in orders;
    var venues := TwoWayPool(o.sellToken, o.buyToken, Fractions(o)[k].0, LeastAccepted(o, k));
    var e := UnguardedTrades(cfg, orders, i, k);
    UnsafeAmounts(o, k);
    TwoWayPoolOffers(cfg, orders, o.sellToken, o.buyToken, Fractions(o)[k].0, LeastAccepted(o, k));
    V3OnlyEncodes(cfg, venues, orders);
    AttemptShape(orders, AllQuotes(cfg, venues, orders), i);
    ShortIsFraction(o, e, k);
    ShortFillZeroes(auction, orders, AllQuotes(cfg, venues, orders), e);
  }

  lemma ShortIsFraction(o: Order, e: Entry, k: nat)
    requires Signed(o) && o.kind.Sell? && AttemptFor(o, e) && k < 2 && e.sold == Fractions(o)[k].0 && e.bought == LeastAccepted(o, k)
    requires !FractionSafe(o, k)
    ensures e.fills[0].executed == Fractions(o)[k].0 && e.bought < LimitBuy(o, e.fills[0].executed)
  {
    UnsafeAmounts(o, k);
  }

  /** Which auctions the scorer can zero, settled for the markets that answer for one pair: some such market makes the
      router publish a batch that breaks the scorer's limit if and only if some unsafe fraction is unguarded. */
  lemma {:induction false} ZeroableExact(cfg: RouterConfig, auction: seq<Order>, orders: seq<Order>)
    requires ValidConfig(cfg.encoder) && AddressesOk(cfg, orders) && UniqueUids(auction) && UniqueUids(orders) && AllSigned(orders)
    requires forall o :: o in orders ==> o in auction
    ensures (exists venues :: OnePair(cfg, venues, orders) && Zeroed(cfg, venues, auction, orders))
       <==> exists i, k :: Unguarded(orders, i, k)
  {
    if exists i, k :: Unguarded(orders, i, k) {
      var i, k :| Unguarded(orders, i, k);
      UnguardedIsZeroed(cfg, auction, orders, i, k);
    }
    forall venues | OnePair(cfg, venues, orders) && Zeroed(cfg, venues, auction, orders)
      ensures exists i, k :: Unguarded(orders, i, k)
    {
      ZeroedIsUnguarded(cfg, venues, auction, orders);
    }
  }

  // ---- instances ------------------------------------------------------------------------------------

  /** A partially fillable sell on a pair. */
  function PartialSell(uid: Uid, sellToken: Token, buyToken: Token, sellAmount: nat, buyAmount: nat): Order {
    Order(uid, sellToken, buyToken, sellAmount, buyAmount, Sell, true, "w", false, true, false)
  }

  /** Four for two, on any pair of addresses: a pool that pays 1 for 3 makes the router publish a solution that sells
      3 for 1, and the scorer gives it 0, for the signed rate rounds up to 2. */
  lemma {:induction false} UnsafeFractionScoresZero(cfg: RouterConfig, sellToken: Token, buyToken: Token, native: map<Token, nat>)
    requires ValidConfig(cfg.encoder) && sellToken != buyToken
    requires forall t :: t in cfg.mids + [sellToken, buyToken] ==> V3Path.IsAddress(t)
    ensures var o := PartialSell("u", sellToken, buyToken, 4, 2);
            var r := BatchedOutcome(cfg, TwoWayPool(sellToken, buyToken, 3, 1), [o]);
      && r.Solved? && r.trades == [Trade(Fulfillment, "u", 3)]
      && Score(r.trades, ByUid([o]), r.prices, native) == 0
  {
    var o := PartialSell("u", sellToken, buyToken, 4, 2);
    UnsafeAlone(o);
    LoneUnsafeTrades(cfg, [o], 0);
  }

  lemma UnsafeAlone(o: Order)
    requires Signed(o) && o.kind.Sell? && o.partiallyFillable && o.sellAmount == 4 && o.buyAmount == 2
    ensures Fractions(o)[0].0 == 3 && LeastAccepted(o, 0) == 1 && Unguarded([o], 0, 0)
  {
    assert !FractionSafe(o, 0);
    UnsafeTakes(o, 0);
    assert FirstFairTaker([o], 0, o, 0);
  }

  /** An unsafe order alone is zeroed by the pool that pays its fraction's least output. */
  lemma {:induction false} LoneUnsafeTrades(cfg: RouterConfig, orders: seq<Order>, k: nat)
    requires ValidConfig(cfg.encoder) && AddressesOk(cfg, orders) && AllSigned(orders) && |orders| == 1 && Unguarded(orders, 0, k)
    ensures var o := orders[0];
            var r := BatchedOutcome(cfg, TwoWayPool(o.sellToken, o.buyToken, Fractions(o)[k].0, LeastAccepted(o, k)), orders);
      && r.Solved? && r.trades == [Trade(Fulfillment, o.uid, Fractions(o)[k].0)]
      && !ValidTrades(r.trades, ByUid(orders), r.prices)
  {
    var o := orders[0];
    assert o in orders;
    var venues := TwoWayPool(o.sellToken, o.buyToken, Fractions(o)[k].0, LeastAccepted(o, k));
    UnguardedIsZeroed(cfg, orders, orders, 0, k);
    var e := UnguardedTrades(cfg, orders, 0, k);
    OneOrderLedger(orders, AllQuotes(cfg, venues, orders), e);
    AttemptShape(orders, AllQuotes(cfg, venues, orders), 0);
    ShortIsFraction(o, e, k);
    OneTrade(e);
  }

  lemma {:induction false} OneTrade(e: Entry)
    requires |e.fills| == 1
    ensures TradesOf([e]) == [Trade(Fulfillment, e.fills[0].order.uid, e.fills[0].executed)]
  {
    assert [e][..0] == [] && FillsOf([e]) == [] + e.fills;
  }

  /** An auction of one order has one swap at most. */
  lemma {:induction false} OneOrderLedger(orders: seq<Order>, quotes: seq<RouteQuote>, e: Entry)
    requires |orders| == 1 && e in RouterLedger(orders, quotes)
    ensures RouterLedger(orders, quotes) == [e]
  {
    var items := AttemptLists(orders, quotes);
    assert items[..0] == [] && Run([], items[..0]) == [];
  }

  /** A partially fillable sell of 5 for 1, and after it one of 4 for 2 on the same pair. */
  predicate FiveThenFour(orders: seq<Order>) {
    && |orders| == 2 && orders[0].sellToken == orders[1].sellToken && orders[0].buyToken == orders[1].buyToken
    && (forall i :: 0 <= i < 2 ==> orders[i].kind.Sell? && orders[i].partiallyFillable)
    && orders[0].sellAmount == 5 && orders[0].buyAmount == 1 && orders[1].sellAmount == 4 && orders[1].buyAmount == 2
  }

  /** Unsafe, and yet never zeroed: behind a sell of 5 for 1, no market that answers without errors makes the sell of 4
      for 2 break its limit. Whoever pays 1 for 3 also fills the 5 in full, at a price that the 3 contradict. */
  lemma {:induction false} OvertakenNeverZeroed(cfg: RouterConfig, venues: Venues, auction: seq<Order>, orders: seq<Order>)
    requires ValidConfig(cfg.encoder) && FiveThenFour(orders) && UniqueUids(auction) && UniqueUids(orders) && AllSigned(orders)
    requires forall o :: o in orders ==> o in auction
    requires Answering(cfg, venues, orders) && ZeroForZero(AllQuotes(cfg, venues, orders))
    ensures HasUnsafe(orders) && !Zeroed(cfg, venues, auction, orders)
  {
    OvertakenAmounts(orders[0], orders[1]);
    assert !FractionSafe(orders[1], 0);
    AuctionOfOnePair(cfg, venues, orders, orders[0].sellToken, orders[0].buyToken);
    if Zeroed(cfg, venues, auction, orders) {
      ZeroedIsUnguarded(cfg, venues, auction, orders);
      var i, k :| Unguarded(orders, i, k);
      OvertakenIsGuarded(orders, i, k);
    }
  }

  lemma OvertakenAmounts(p: Order, o: Order)
    requires p.kind.Sell? && p.partiallyFillable && p.sellAmount == 5 && p.buyAmount == 1
    requires o.kind.Sell? && o.partiallyFillable && o.sellAmount == 4 && o.buyAmount == 2
    ensures FractionSafe(p, 0) && FractionSafe(p, 1) && !FractionSafe(o, 0) && FractionSafe(o, 1)
    ensures Fractions(o)[0].0 == 3 && LeastAccepted(o, 0) == 1 && QuotedAmounts(p)[1] == 3
  {
  }

  lemma OvertakenIsGuarded(orders: seq<Order>, i: nat, k: nat)
    requires FiveThenFour(orders)
    ensures !Unguarded(orders, i, k)
  {
    OvertakenAmounts(orders[0], orders[1]);
    assert Takes(orders[0], orders[0].sellToken, orders[0].buyToken, 3, 1);
    assert !TakesFairly(orders[0], orders[0].sellToken, orders[0].buyToken, 3, 1);
  }
}
