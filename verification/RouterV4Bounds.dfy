/** Can the V4 encoder's uint128 checks be reached from a solve? The router keeps V4 out of quotes above
    uint128 and holds the checks unreachable; the exact answer depends on the orders. */
module RouterV4Bounds {
  import opened Wrappers
  import opened Models
  import opened Encoder
  import opened Candidates
  import opened Selection
  import opened Ledger
  import opened ClearingLoop
  import opened Router
  import opened RouterInvariants
  import opened RouterQuotes
  import opened RouterMarket
  import opened RouterTables
  import opened RouterTakers
  import V3Batched
  import V4Quoter
  import BatchedQuoter
  import Multicall

  // ---- what raises is exposed, in any market --------------------------------------------------------

  lemma {:induction false} V3EntryEncodes(cfg: RouterConfig, orders: seq<Order>, e: Entry)
    requires ValidConfig(cfg.encoder) && AddressesOk(cfg, orders) && e.route.V3? && e.route.v3 in V3Paths(orders, cfg.mids)
    ensures Encoding(cfg.encoder, e).Success?
  {
    V3NeverRaises(cfg, orders, e.route.v3, e.sold, e.bought);
  }

  lemma {:induction false} CurveEntryEncodes(cfg: RouterConfig, orders: seq<Order>, e: Entry)
    requires ValidConfig(cfg.encoder) && AllSigned(orders) && e.route.Curve? && e.route.curve in CurvePaths(cfg.pools, orders)
    requires e.sold > 0 && e.bought > 0
    ensures Encoding(cfg.encoder, e).Success?
  {
    assert forall i :: 0 <= i < |orders| ==> orders[i] in orders;
    CurveCoinsDiffer(cfg.pools, orders);
  }

  /** A full V4 fill of an exposed order, executed at more than its path was quoted for. */
  predicate Oversized(o: Order, e: Entry) {
    && Exposed(o) && e.route.V4? && IsFullFill(o, e) && e.bought < UINT128_LIMIT
    && e.route.AmountIn() < UINT128_LIMIT && e.route.AmountIn() in [Fractions(o)[0].0, Fractions(o)[1].0]
  }

  /** A V4 fill whose output fits fails to encode only when it executes more than its quote was for. */
  lemma V4EntryExposed(cfg: Config, o: Order, e: Entry)
    requires ValidConfig(cfg) && Signed(o) && o.kind.Sell? && AttemptFor(o, e)
    requires e.route.V4? && e.bought < UINT128_LIMIT
    requires e.route.v4.amountIn in QuotedAmounts(o) && e.route.v4.amountIn < UINT128_LIMIT
    requires Encoding(cfg, e).Failure?
    ensures Oversized(o, e)
  {
    SlippageBrackets(e.bought, cfg.slippageBps);
    assert e.sold >= UINT128_LIMIT;
    assert IsFullFill(o, e);
    assert o.sellAmount / 2 <= 3 * o.sellAmount / 4;
  }

  /** Only the oversized full fill of an exposed order fails to encode. */
  lemma {:induction false} RaisingEntryIsOversized(cfg: RouterConfig, orders: seq<Order>, quotes: seq<RouteQuote>, i: nat, e: Entry)
    requires ValidConfig(cfg.encoder) && AddressesOk(cfg, orders)
    requires Quoted(orders, quotes) && forall q :: q in quotes ==> FromVenue(cfg, orders, q)
    requires i < |orders| && e in Attempts(orders[i], quotes) && Encoding(cfg.encoder, e).Failure?
    ensures Oversized(orders[i], e)
  {
    AttemptQuote(orders, quotes, i, e);
    var q :| QuoteBehind(orders[i], quotes, e, q);
    AttemptShape(orders, quotes, i);
    QuotedEntryIsOversized(cfg, orders, orders[i], q, e);
  }

  lemma QuotedEntryIsOversized(cfg: RouterConfig, orders: seq<Order>, o: Order, q: RouteQuote, e: Entry)
    requires ValidConfig(cfg.encoder) && AddressesOk(cfg, orders) && AllSigned(orders) && o in orders
    requires FromVenue(cfg, orders, q) && QuoteMatches(o, q) && q.path == e.route && AttemptFor(o, e)
    requires q.amountOut == if o.kind.Buy? then e.sold else e.bought
    requires Encoding(cfg.encoder, e).Failure?
    ensures Oversized(o, e)
  {
    if e.route.V3? {
      V3EntryEncodes(cfg, orders, e);
    } else if e.route.Curve? {
      CurveEntryEncodes(cfg, orders, e);
    } else {
      V4PathsShape(orders);
      V4EntryExposed(cfg.encoder, o, e);
    }
  }

  /** A raising solve has emitted an oversized fill. */
  lemma {:induction false} RaisingEmitsOversized(cfg: RouterConfig, venues: Venues, orders: seq<Order>) returns (i: nat, e: Entry)
    requires ValidConfig(cfg.encoder) && AddressesOk(cfg, orders) && UniqueUids(orders) && AllSigned(orders)
    requires V3Buildable(cfg, venues, orders) && ZeroForZero(AllQuotes(cfg, venues, orders))
    requires BatchedOutcome(cfg, venues, orders).StrategyError?
    ensures EmittedFor(orders, AllQuotes(cfg, venues, orders), i, e) && Oversized(orders[i], e)
  {
    var quotes := AllQuotes(cfg, venues, orders);
    GatheredQuotesAnswer(cfg, venues, orders);
    PoolFromVenues(cfg, venues, orders);
    var ledger := RouterLedger(orders, quotes);
    var items := AttemptLists(orders, quotes);
    var k :| 0 <= k < |ledger| && Encoding(cfg.encoder, ledger[k]).Failure?;
    e := ledger[k];
    RunMembers([], items, k);
    i :| 0 <= i < |items| && e in items[i];
    RaisingEntryIsOversized(cfg, orders, quotes, i, e);
  }

  /** With no exposed order no market of any kind makes the strategy raise. */
  lemma {:induction false} RaisingNeedsExposed(cfg: RouterConfig, venues: Venues, orders: seq<Order>)
    requires ValidConfig(cfg.encoder) && AddressesOk(cfg, orders) && UniqueUids(orders) && AllSigned(orders)
    requires V3Buildable(cfg, venues, orders) && ZeroForZero(AllQuotes(cfg, venues, orders))
    requires BatchedOutcome(cfg, venues, orders).StrategyError?
    ensures exists i :: 0 <= i < |orders| && Exposed(orders[i])
  {
    var i, e := RaisingEmitsOversized(cfg, venues, orders);
  }

  // ---- when an exposed order does raise -------------------------------------------------------------

  /** The quoting meets no errors, and what is quoted at all is quoted by V4, for one pair. */
  ghost predicate V4Alone(cfg: RouterConfig, venues: Venues, orders: seq<Order>) {
    && Answering(cfg, venues, orders) && ZeroForZero(AllQuotes(cfg, venues, orders))
    && exists sellToken, buyToken :: V4AloneOn(cfg, venues, orders, sellToken, buyToken)
  }

  ghost predicate V4AloneOn(cfg: RouterConfig, venues: Venues, orders: seq<Order>, sellToken: Token, buyToken: Token)
    requires V3Buildable(cfg, venues, orders)
  {
    && OnPair(AllQuotes(cfg, venues, orders), sellToken, buyToken)
    && forall q :: q in AllQuotes(cfg, venues, orders) && q.amountOut > 0 ==> q.path.V4?
  }

  /** Order `i` is exposed at its fraction `part`, and no earlier sell of its pair that is quoted for `part` would
      sell at the least output order `i` takes: as when it is the first of its pair, or of all. */
  ghost predicate Unshadowed(orders: seq<Order>, i: nat, part: nat) {
    && i < |orders| && Exposed(orders[i])
    && part in [Fractions(orders[i])[0].0, Fractions(orders[i])[1].0] && part < UINT128_LIMIT
    && forall j :: 0 <= j < i ==> !SellTakes(orders[j], orders[i].sellToken, orders[i].buyToken, part, orders[i].buyAmount)
  }

  /** A V4 swap of more than a V4 quote can be for is oversized. */
  lemma BigSwapIsOversized(o: Order, q: RouteQuote, e: Entry)
    requires AttemptFor(o, e) && QuoteMatches(o, q) && q.path == e.route && q.path.V4? && q.path.AmountIn() < UINT128_LIMIT
    requires q.amountOut < UINT128_LIMIT && q.amountOut == if o.kind.Buy? then e.sold else e.bought
    requires e.sold >= UINT128_LIMIT
    ensures Oversized(o, e) && o.buyAmount <= e.bought
  {
    assert IsFullFill(o, e);
    assert o.sellAmount / 2 <= 3 * o.sellAmount / 4;
  }

  /** The quote behind a big first swap, when only V4 quotes anything. */
  lemma {:induction false} BigSwapQuote(cfg: RouterConfig, orders: seq<Order>, quotes: seq<RouteQuote>, m: nat, first: Entry) returns (q: RouteQuote)
    requires Quoted(orders, quotes) && m < |orders| && first in Attempts(orders[m], quotes) && first.sold >= UINT128_LIMIT
    requires forall r :: r in quotes ==> FromVenue(cfg, orders, r) && (r.amountOut > 0 ==> r.path.V4?)
    ensures QuoteBehind(orders[m], quotes, first, q) && Oversized(orders[m], first) && orders[m].buyAmount <= q.amountOut
  {
    AttemptQuote(orders, quotes, m, first);
    AttemptShape(orders, quotes, m);
    q :| QuoteBehind(orders[m], quotes, first, q);
    assert FromVenue(cfg, orders, q) && q.path.V4?;
    V4PathsFrom(orders, q.path.v4);
    BigSwapIsOversized(orders[m], q, first);
  }

  lemma {:induction false} RaisingIsUnshadowed(cfg: RouterConfig, venues: Venues, orders: seq<Order>)
    requires ValidConfig(cfg.encoder) && AddressesOk(cfg, orders) && UniqueUids(orders) && AllSigned(orders)
    requires V4Alone(cfg, venues, orders) && BatchedOutcome(cfg, venues, orders).StrategyError?
    ensures exists i, part :: Unshadowed(orders, i, part)
  {
    GatheredQuotesAnswer(cfg, venues, orders);
    var sellToken, buyToken :| V4AloneOn(cfg, venues, orders, sellToken, buyToken);
    var i, e := RaisingEmitsOversized(cfg, venues, orders);
    var m, first := OneRate(orders, AllQuotes(cfg, venues, orders), i, e, sellToken, buyToken);
    FirstIsUnshadowed(cfg, venues, orders, m, first);
  }

  /** The first order to trade, trading that much, is unshadowed. */
  lemma {:induction false} FirstIsUnshadowed(cfg: RouterConfig, venues: Venues, orders: seq<Order>, m: nat, first: Entry)
    requires V4Alone(cfg, venues, orders) && Quoted(orders, AllQuotes(cfg, venues, orders))
    requires m < |orders| && first in Attempts(orders[m], AllQuotes(cfg, venues, orders)) && first.sold >= UINT128_LIMIT
    requires forall j :: 0 <= j < m ==> Attempts(orders[j], AllQuotes(cfg, venues, orders)) == []
    ensures exists part :: Unshadowed(orders, m, part)
  {
    PoolFromVenues(cfg, venues, orders);
    var q := BigSwapQuote(cfg, orders, AllQuotes(cfg, venues, orders), m, first);
    forall j: nat | j < m && SellTakes(orders[j], orders[m].sellToken, orders[m].buyToken, q.path.AmountIn(), orders[m].buyAmount)
      ensures false
    {
      TakerIsTold(cfg, venues, orders, q, j, orders[m].buyAmount);
    }
    assert Unshadowed(orders, m, q.path.AmountIn());
  }

  /** A market where one V4 pool pays `out` for `part`, and nothing else is quoted. */
  function OnePool(sellToken: Token, buyToken: Token, part: nat, out: nat): Venues {
    TableMarket(_ => 0, c => if c == V4Quoter.QuoterCall(sellToken, buyToken, 100, 1, part) then out else 0)
  }

  lemma {:induction false} OnePoolQuotes(cfg: RouterConfig, orders: seq<Order>, sellToken: Token, buyToken: Token, part: nat, out: nat)
    requires ValidConfig(cfg.encoder) && AddressesOk(cfg, orders) && part > 0 && out > 0
    ensures var venues := OnePool(sellToken, buyToken, part, out);
      && Answering(cfg, venues, orders) && V4AloneOn(cfg, venues, orders, sellToken, buyToken)
      && OnlyOffers(AllQuotes(cfg, venues, orders), sellToken, buyToken, part, out)
  {
    var v3: V3Batched.QuoterCall -> nat := _ => 0;
    var v4: V4Quoter.QuoterCall -> nat := c => if c == V4Quoter.QuoterCall(sellToken, buyToken, 100, 1, part) then out else 0;
    var venues := OnePool(sellToken, buyToken, part, out);
    TableMarketAnswers(cfg, orders, v3, v4);
    forall q | q in AllQuotes(cfg, venues, orders) && q.amountOut > 0
      ensures q.path.V4? && q.path.TokenIn() == sellToken && q.path.TokenOut() == buyToken
      ensures q.path.AmountIn() == part && q.amountOut == out
    {
      PoolIsOwn(cfg, venues, orders, q.path);
      TableQuotes(v3, v4, q.path);
    }
  }

  /** The exposed order is told of it. */
  lemma {:induction false} OnePoolTells(cfg: RouterConfig, orders: seq<Order>, i: nat, part: nat, out: nat)
    requires ValidConfig(cfg.encoder) && AddressesOk(cfg, orders) && cfg.v4Enabled
    requires i < |orders| && orders[i].kind.Sell? && part in QuotedAmounts(orders[i]) && part < UINT128_LIMIT && 0 < out < UINT128_LIMIT
    ensures var o := orders[i];
            var venues := OnePool(o.sellToken, o.buyToken, part, out);
      && V3Buildable(cfg, venues, orders)
      && RouteQuote(V4(V4Path(o.uid, o.sellToken, o.buyToken, 100, 1, part)), out) in AllQuotes(cfg, venues, orders)
  {
    var o := orders[i];
    var v3: V3Batched.QuoterCall -> nat := _ => 0;
    var v4: V4Quoter.QuoterCall -> nat := c => if c == V4Quoter.QuoterCall(o.sellToken, o.buyToken, 100, 1, part) then out else 0;
    var venues := OnePool(o.sellToken, o.buyToken, part, out);
    var p := V4Path(o.uid, o.sellToken, o.buyToken, 100, 1, part);
    TableMarketAnswers(cfg, orders, v3, v4);
    V4PathOf(orders, i, part, STANDARD_V4_TIERS[0]);
    V4CallBuilt(cfg, orders, p);
    TableQuotes(v3, v4, V4(p));
    PoolIsOwn(cfg, venues, orders, V4(p));
  }

  /** Told only of a fraction, at its limit, an exposed order gets the one full fill no V4 encoder accepts. */
  lemma {:induction false} FractionQuoteOverruns(cfg: Config, orders: seq<Order>, quotes: seq<RouteQuote>, i: nat, part: nat, q: RouteQuote)
    requires ValidConfig(cfg) && Quoted(orders, quotes) && i < |orders| && Exposed(orders[i])
    requires OnlyOffers(quotes, orders[i].sellToken, orders[i].buyToken, part, orders[i].buyAmount)
    requires forall r :: r in quotes && r.amountOut > 0 ==> r.path.V4?
    requires q in quotes && Eligible(q, orders[i].uid, None)
    ensures |Attempts(orders[i], quotes)| == 1 && Encoding(cfg, Attempts(orders[i], quotes)[0]).Failure?
  {
    var o := orders[i];
    assert o in orders;
    BestOfOrder(orders, quotes, i, None);
    var k :| 0 <= k < |quotes| && quotes[k] == q;
    assert Eligible(quotes[k], o.uid, None);
  }

  lemma {:induction false} UnshadowedRaises(cfg: RouterConfig, orders: seq<Order>, i: nat, part: nat)
    requires ValidConfig(cfg.encoder) && AddressesOk(cfg, orders) && cfg.v4Enabled
    requires UniqueUids(orders) && AllSigned(orders) && Unshadowed(orders, i, part)
    ensures var venues := OnePool(orders[i].sellToken, orders[i].buyToken, part, orders[i].buyAmount);
            V4Alone(cfg, venues, orders) && BatchedOutcome(cfg, venues, orders).StrategyError?
  {
    var o := orders[i];
    assert o in orders;
    var venues := OnePool(o.sellToken, o.buyToken, part, o.buyAmount);
    OnePoolQuotes(cfg, orders, o.sellToken, o.buyToken, part, o.buyAmount);
    var quotes := AllQuotes(cfg, venues, orders);
    OffersNotForNothing(quotes, o.sellToken, o.buyToken, part, o.buyAmount);
    GatheredQuotesAnswer(cfg, venues, orders);
    OnePoolTells(cfg, orders, i, part, o.buyAmount);
    FractionQuoteOverruns(cfg.encoder, orders, quotes, i, part,
                          RouteQuote(V4(V4Path(o.uid, o.sellToken, o.buyToken, 100, 1, part)), o.buyAmount));
    forall j: nat | j < i ensures Attempts(orders[j], quotes) == [] {
      NothingBefore(orders, quotes, i, j, part);
    }
    FirstAttemptRaises(cfg.encoder, orders, quotes, i);
  }

  /** Nobody before an unshadowed order has anything to try in its market. */
  lemma {:induction false} NothingBefore(orders: seq<Order>, quotes: seq<RouteQuote>, i: nat, j: nat, part: nat)
    requires Quoted(orders, quotes) && Unshadowed(orders, i, part) && j < i
    requires OnlyOffers(quotes, orders[i].sellToken, orders[i].buyToken, part, orders[i].buyAmount)
    requires forall r :: r in quotes && r.amountOut > 0 ==> r.path.V4?
    ensures Attempts(orders[j], quotes) == []
  {
    if Attempts(orders[j], quotes) != [] {
      var e := Attempts(orders[j], quotes)[0];
      TriesAreTakers(orders, quotes, j, e, orders[i].sellToken, orders[i].buyToken, part, orders[i].buyAmount);
      AttemptQuote(orders, quotes, j, e);
    }
  }

  lemma {:induction false} FirstAttemptRaises(cfg: Config, orders: seq<Order>, quotes: seq<RouteQuote>, i: nat)
    requires ValidConfig(cfg) && Quoted(orders, quotes) && i < |orders|
    requires Attempts(orders[i], quotes) != [] && Encoding(cfg, Attempts(orders[i], quotes)[0]).Failure?
    requires forall j :: 0 <= j < i ==> Attempts(orders[j], quotes) == []
    ensures OutcomeOf(cfg, RouterLedger(orders, quotes)).StrategyError?
  {
    AttemptListsShape(orders, quotes);
    var items := AttemptLists(orders, quotes);
    FirstOfferEmitted(items, i);
    var k :| 0 <= k < |RouterLedger(orders, quotes)| && RouterLedger(orders, quotes)[k] == items[i][0];
  }

  /** The claim that the V4 encoder's bounds cannot be reached, settled for the markets where V4 alone answers,
      for one pair: some such market makes the strategy raise if and only if some exposed order is unshadowed. */
  lemma {:induction false} EncoderBoundsExact(cfg: RouterConfig, orders: seq<Order>)
    requires ValidConfig(cfg.encoder) && AddressesOk(cfg, orders) && cfg.v4Enabled
    requires UniqueUids(orders) && AllSigned(orders)
    ensures (exists venues :: V4Alone(cfg, venues, orders) && BatchedOutcome(cfg, venues, orders).StrategyError?)
       <==> exists i, part :: Unshadowed(orders, i, part)
  {
    if exists i, part :: Unshadowed(orders, i, part) {
      var i, part :| Unshadowed(orders, i, part);
      UnshadowedRaises(cfg, orders, i, part);
    }
    forall venues | V4Alone(cfg, venues, orders) && BatchedOutcome(cfg, venues, orders).StrategyError?
      ensures exists i, part :: Unshadowed(orders, i, part)
    {
      RaisingIsUnshadowed(cfg, venues, orders);
    }
  }

  // ---- exposed, and yet out of reach ----------------------------------------------------------------

  /** A fill-or-kill sell of just the fraction an exposed order is quoted for, at no tighter a limit. */
  predicate Shadows(p: Order, o: Order) {
    && Exposed(o) && 3 * o.sellAmount / 4 >= UINT128_LIMIT
    && p.kind.Sell? && !p.partiallyFillable && p.sellToken == o.sellToken && p.buyToken == o.buyToken
    && p.sellAmount == o.sellAmount / 2 && p.buyAmount <= o.buyAmount
  }

  /** What V4 is asked for one amount. */
  function V4Asked(o: Order, amount: nat): seq<V4Path> {
    if amount >= UINT128_LIMIT then [] else V4TierPaths(o, amount)
  }

  lemma {:induction false} V4OneAmount(o: Order, amount: nat)
    ensures V4PathsAt(o, [amount]) == V4Asked(o, amount)
  {
    assert [amount][..0] == [] && V4PathsAt(o, []) == [];
  }

  lemma {:induction false} V4ThreeAmounts(o: Order, a: nat, b: nat, c: nat)
    ensures V4PathsAt(o, [a, b, c]) == V4Asked(o, a) + V4Asked(o, b) + V4Asked(o, c)
  {
    assert [a, b, c][..2] == [a, b] && [a, b][..1] == [a];
    V4OneAmount(o, a);
  }

  lemma {:induction false} OneAmountAsked(p: Order)
    requires p.kind.Sell? && !p.partiallyFillable && p.sellAmount < UINT128_LIMIT
    ensures V4PathsAt(p, QuotedAmounts(p)) == V4TierPaths(p, p.sellAmount)
  {
    V4OneAmount(p, p.sellAmount);
  }

  lemma {:induction false} OnlyHalfAsked(o: Order)
    requires Exposed(o) && 3 * o.sellAmount / 4 >= UINT128_LIMIT
    ensures V4PathsAt(o, QuotedAmounts(o)) == V4TierPaths(o, o.sellAmount / 2)
  {
    V4ThreeAmounts(o, o.sellAmount, 3 * o.sellAmount / 4, o.sellAmount / 2);
  }

  lemma {:induction false} ShadowPaths(orders: seq<Order>)
    requires |orders| == 2 && Shadows(orders[0], orders[1])
    ensures var half := orders[1].sellAmount / 2;
            V4Paths(orders) == V4TierPaths(orders[0], half) + V4TierPaths(orders[1], half)
  {
    V4PathsNext([], orders[0]);
    V4PathsNext([orders[0]], orders[1]);
    assert [] + [orders[0]] == [orders[0]] && [orders[0]] + [orders[1]] == orders && V4Paths([]) == [];
    OneAmountAsked(orders[0]);
    OnlyHalfAsked(orders[1]);
  }

  /** Both orders ask the same four pools the same, in one chunk: whatever errors it meets, they are told the same. */
  lemma {:induction false} ShadowToldToo(cfg: RouterConfig, venues: Venues, orders: seq<Order>, q: RouteQuote)
    requires |orders| == 2 && Shadows(orders[0], orders[1]) && Multicall.FitsOneByOne(venues.v4.node)
    requires q in V4Part(cfg, venues, orders) && q.path.OrderUid() == orders[1].uid != orders[0].uid && q.amountOut > 0
    ensures Told(q, orders[0].uid) in V4Part(cfg, venues, orders)
  {
    var quoter, paths := V4Quoter.QuoterOf(venues.v4), V4Paths(orders);
    var quoted := BatchedQuoter.QuotesBySize(quoter, paths, V4Quoter.MAX_CALLS_PER_BATCH);
    V4QuotesShape(quoted);
    var k :| 0 <= k < |quoted| && quoted[k] == BatchedQuoter.Quoted(q.path.v4, q.amountOut);
    var j := ShadowTwin(venues.v4, orders, k);
    assert quoted[j] == BatchedQuoter.Quoted(q.path.v4.(orderUid := orders[0].uid), q.amountOut);
  }

  /** The shadow's path to the same pool. */
  lemma {:induction false} ShadowTwin(chain: V4Quoter.Chain, orders: seq<Order>, k: nat) returns (j: nat)
    requires |orders| == 2 && Shadows(orders[0], orders[1]) && Multicall.FitsOneByOne(chain.node)
    requires BatchedQuoter.Buildable(V4Quoter.QuoterOf(chain), V4Paths(orders)) && k < |V4Paths(orders)|
    requires BatchedQuoter.QuotesBySize(V4Quoter.QuoterOf(chain), V4Paths(orders), V4Quoter.MAX_CALLS_PER_BATCH)[k].path.orderUid
             == orders[1].uid != orders[0].uid
    ensures var quoted := BatchedQuoter.QuotesBySize(V4Quoter.QuoterOf(chain), V4Paths(orders), V4Quoter.MAX_CALLS_PER_BATCH);
            j < |quoted| && quoted[j] == BatchedQuoter.Quoted(quoted[k].path.(orderUid := orders[0].uid), quoted[k].amountOut)
  {
    var paths := V4Paths(orders);
    ShadowPaths(orders);
    BatchedQuoter.PositiveQuoteIsOwn(V4Quoter.QuoterOf(chain), paths, V4Quoter.MAX_CALLS_PER_BATCH, k);
    assert k >= 4;
    j := k - 4;
    assert paths[j] == paths[k].(orderUid := orders[0].uid);
    OneChunk(chain, paths, k, j);
  }

  lemma {:induction false} OneChunk(chain: V4Quoter.Chain, paths: seq<V4Path>, k: nat, j: nat)
    requires Multicall.FitsOneByOne(chain.node) && BatchedQuoter.Buildable(V4Quoter.QuoterOf(chain), paths)
    requires |paths| <= V4Quoter.MAX_CALLS_PER_BATCH && k < |paths| && j < |paths|
    requires V4Quoter.BuildCall(paths[k]) == V4Quoter.BuildCall(paths[j])
    ensures var quoted := BatchedQuoter.QuotesBySize(V4Quoter.QuoterOf(chain), paths, V4Quoter.MAX_CALLS_PER_BATCH);
            quoted[k].amountOut == quoted[j].amountOut && quoted[j].path == paths[j]
  {
    BatchedQuoter.ChunkFailureIsLocal(V4Quoter.QuoterOf(chain), paths, V4Quoter.MAX_CALLS_PER_BATCH, k);
    BatchedQuoter.ChunkFailureIsLocal(V4Quoter.QuoterOf(chain), paths, V4Quoter.MAX_CALLS_PER_BATCH, j);
  }

  /** An exposed order behind its shadow never raises, whatever the venues answer and whatever errors they meet: an
      output that could overrun the order fills its shadow first, at a price the overrun then contradicts. */
  lemma {:induction false} ShadowedNeverRaises(cfg: RouterConfig, venues: Venues, orders: seq<Order>)
    requires ValidConfig(cfg.encoder) && AddressesOk(cfg, orders) && UniqueUids(orders) && AllSigned(orders)
    requires |orders| == 2 && Shadows(orders[0], orders[1]) && Multicall.FitsOneByOne(venues.v4.node)
    requires V3Buildable(cfg, venues, orders) && ZeroForZero(AllQuotes(cfg, venues, orders))
    ensures !BatchedOutcome(cfg, venues, orders).StrategyError?
  {
    var quotes := AllQuotes(cfg, venues, orders);
    if BatchedOutcome(cfg, venues, orders).StrategyError? {
      GatheredQuotesAnswer(cfg, venues, orders);
      var i, e := RaisingEmitsOversized(cfg, venues, orders);
      assert i == 1;
      var told := ShadowIsTold(cfg, venues, orders, e);
      ShadowBlocks(orders, quotes, e, told);
    }
  }

  lemma {:induction false} ShadowIsTold(cfg: RouterConfig, venues: Venues, orders: seq<Order>, e: Entry) returns (told: RouteQuote)
    requires |orders| == 2 && Shadows(orders[0], orders[1]) && Multicall.FitsOneByOne(venues.v4.node)
    requires V3Buildable(cfg, venues, orders) && Quoted(orders, AllQuotes(cfg, venues, orders))
    requires e in Attempts(orders[1], AllQuotes(cfg, venues, orders)) && Oversized(orders[1], e)
    ensures told in AllQuotes(cfg, venues, orders) && Eligible(told, orders[0].uid, None)
    ensures told.amountOut >= orders[0].buyAmount && told.path.AmountIn() == orders[0].sellAmount
  {
    AttemptQuote(orders, AllQuotes(cfg, venues, orders), 1, e);
    var q :| QuoteBehind(orders[1], AllQuotes(cfg, venues, orders), e, q);
    V4QuoteFromPart(cfg, venues, orders, q);
    ShadowToldToo(cfg, venues, orders, q);
    told := Told(q, orders[0].uid);
  }

  lemma V4QuoteFromPart(cfg: RouterConfig, venues: Venues, orders: seq<Order>, q: RouteQuote)
    requires V3Buildable(cfg, venues, orders) && q in AllQuotes(cfg, venues, orders) && q.path.V4?
    ensures q in V4Part(cfg, venues, orders)
  {
  }

  /** Once the first order sells its whole amount, a swap of another amount on the pair is refused. */
  lemma {:induction false} ShadowBlocks(orders: seq<Order>, quotes: seq<RouteQuote>, e: Entry, told: RouteQuote)
    requires Quoted(orders, quotes) && |orders| == 2 && Shadows(orders[0], orders[1])
    requires told in quotes && Eligible(told, orders[0].uid, None) && told.amountOut >= orders[0].buyAmount
    requires told.path.AmountIn() == orders[0].sellAmount
    requires EmittedFor(orders, quotes, 1, e)
    ensures e.sold == orders[0].sellAmount
  {
    TakerTries(orders, quotes, 0, told, orders[0].sellAmount, orders[0].buyAmount);
    var m := FirstTrade(orders, quotes, 0);
    AttemptShape(orders, quotes, 0);
    AttemptShape(orders, quotes, 1);
    EmittedIsPriced(orders, quotes, e);
  }
}
