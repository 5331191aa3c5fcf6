/** The batched router (solver/router.py): quote every candidate, pick the best per order, and emit fills
    one by one under one clearing price per token. */
module Router {
  import opened Wrappers
  import opened Models
  import opened Encoder
  import opened Candidates
  import opened Selection
  import opened Ledger
  import opened ClearingLoop
  import opened Sequences
  import opened ClearingState
  import V3Batched
  import V4Quoter
  import CurveQuoter
  import BatchedQuoter

  datatype RouterConfig = RouterConfig(
    mids: seq<Token>,
    encoder: Config,
    v4Enabled: bool,
    curveEnabled: bool,
    pools: seq<CurvePool>
  )

  /** The three quoters during one solve. */
  datatype Venues = Venues(chain: V3Batched.Chain, v4: V4Quoter.Chain, curve: CurveQuoter.Chain)

  function SingleFill(o: Order, executed: nat, route: Route, sold: nat, bought: nat): Entry {
    Entry([Fill(o, executed)], o.sellToken, o.buyToken, route, sold, bought)
  }

  /** The fractions tried when the full amount misses its limit, with their pro-rata limits. */
  function Fractions(o: Order): (fractions: seq<(nat, nat)>)
    ensures |fractions| == 2
  {
    [(3 * o.sellAmount / 4, 3 * o.buyAmount / 4), (o.sellAmount / 2, o.buyAmount / 2)]
  }

  function FractionAttempt(o: Order, quotes: seq<RouteQuote>, partialSell: nat, partialBuyLimit: nat): seq<Entry> {
    var best := BestFor(quotes, o.uid, Some(partialSell));
    if best.Some? && best.value.amountOut >= partialBuyLimit
    then [SingleFill(o, partialSell, best.value.path, partialSell, best.value.amountOut)]
    else []
  }

  /** The fills of an order that clear its limit, in the order the router tries them. */
  function Attempts(o: Order, quotes: seq<RouteQuote>): seq<Entry> {
    var best := BestFor(quotes, o.uid, None);
    if o.kind.Buy? then
      if best.Some? && best.value.amountOut <= o.sellAmount
      then [SingleFill(o, o.buyAmount, best.value.path, best.value.amountOut, o.buyAmount)]
      else []
    else if best.Some? && best.value.amountOut >= o.buyAmount
    then [SingleFill(o, o.sellAmount, best.value.path, o.sellAmount, best.value.amountOut)]
    else if o.partiallyFillable
    then FractionAttempt(o, quotes, Fractions(o)[0].0, Fractions(o)[0].1)
         + FractionAttempt(o, quotes, Fractions(o)[1].0, Fractions(o)[1].1)
    else []
  }

  function AttemptLists(orders: seq<Order>, quotes: seq<RouteQuote>): (items: seq<seq<Entry>>)
    ensures |items| == |orders|
  {
    seq(|orders|, i requires 0 <= i < |orders| => Attempts(orders[i], quotes))
  }

  function V3QuotesOf(quotes: seq<BatchedQuoter.Quoted<V3Batched.Path>>): seq<RouteQuote> {
    seq(|quotes|, i requires 0 <= i < |quotes| => RouteQuote(V3(quotes[i].path), quotes[i].amountOut))
  }

  /** V4 quotes that fit uint128. */
  function V4QuotesOf(quotes: seq<BatchedQuoter.Quoted<V4Path>>): seq<RouteQuote> {
    if quotes == [] then []
    else
      var q := quotes[|quotes| - 1];
      V4QuotesOf(quotes[..|quotes| - 1]) + (if q.amountOut < UINT128_LIMIT then [RouteQuote(V4(q.path), q.amountOut)] else [])
  }

  function CurveQuotesOf(quotes: seq<BatchedQuoter.Quoted<CurvePath>>): seq<RouteQuote> {
    seq(|quotes|, i requires 0 <= i < |quotes| => RouteQuote(Curve(quotes[i].path), quotes[i].amountOut))
  }

  /** The V4 part of the pool: none when the venue is off or a call cannot be built. */
  function V4Part(cfg: RouterConfig, venues: Venues, orders: seq<Order>): seq<RouteQuote> {
    var paths := V4Paths(orders);
    if cfg.v4Enabled && BatchedQuoter.Buildable(V4Quoter.QuoterOf(venues.v4), paths)
    then V4QuotesOf(BatchedQuoter.QuotesBySize(V4Quoter.QuoterOf(venues.v4), paths, V4Quoter.MAX_CALLS_PER_BATCH))
    else []
  }

  /** The Curve part. */
  function CurvePart(cfg: RouterConfig, venues: Venues, orders: seq<Order>): seq<RouteQuote> {
    var paths := CurvePaths(cfg.pools, orders);
    if cfg.curveEnabled && BatchedQuoter.Buildable(CurveQuoter.QuoterOf(venues.curve), paths)
    then CurveQuotesOf(BatchedQuoter.QuotesBySize(CurveQuoter.QuoterOf(venues.curve), paths, CurveQuoter.MAX_CALLS_PER_BATCH))
    else []
  }

  predicate V3Buildable(cfg: RouterConfig, venues: Venues, orders: seq<Order>) {
    BatchedQuoter.Buildable(V3Batched.QuoterOf(venues.chain), V3Paths(orders, cfg.mids))
  }

  function V3Part(cfg: RouterConfig, venues: Venues, orders: seq<Order>): seq<RouteQuote>
    requires V3Buildable(cfg, venues, orders)
  {
    V3QuotesOf(BatchedQuoter.QuotesBySize(V3Batched.QuoterOf(venues.chain), V3Paths(orders, cfg.mids),
                                          V3Batched.MAX_CALLS_PER_BATCH))
  }

  /** The pool of quotes selection works on. */
  function AllQuotes(cfg: RouterConfig, venues: Venues, orders: seq<Order>): seq<RouteQuote>
    requires V3Buildable(cfg, venues, orders)
  {
    V3Part(cfg, venues, orders) + (V4Part(cfg, venues, orders) + CurvePart(cfg, venues, orders))
  }

  datatype Outcome =
    | Solved(prices: Prices, trades: seq<Trade>, interactions: seq<Interaction>)
    | NoSolution
    | StrategyError

  /** The partial-fraction loop of one sell order. */
  method EmitFraction(cfg: Config, batch: Clearing, o: Order, quotes: seq<RouteQuote>) returns (r: Emission)
    requires ValidConfig(cfg) && batch.Valid(cfg)
    modifies batch
    ensures var attempts := FractionAttempt(o, quotes, Fractions(o)[0].0, Fractions(o)[0].1)
                            + FractionAttempt(o, quotes, Fractions(o)[1].0, Fractions(o)[1].1);
            Chosen(cfg, old(batch.ledger), Choose(PricesOf(old(batch.ledger)), attempts), batch, r)
  {
    var fractions := Fractions(o);
    ghost var first := FractionAttempt(o, quotes, fractions[0].0, fractions[0].1);
    ghost var second := FractionAttempt(o, quotes, fractions[1].0, fractions[1].1);
    assert second + [] == second;
    var i := 0;
    while i < |fractions|
      invariant 0 <= i <= |fractions|
      invariant batch.Valid(cfg) && batch.ledger == old(batch.ledger)
      invariant Choose(batch.prices, first + second)
             == Choose(batch.prices, if i == 0 then first + second else if i == 1 then second else [])
    {
      var (partialSell, partialBuyLimit) := fractions[i];
      var bestAtFraction := SelectBestQuotePerOrder(quotes, Some(partialSell));
      ghost var attempt := FractionAttempt(o, quotes, partialSell, partialBuyLimit);
      ghost var rest := if i == 0 then second else [];
      assert attempt + rest == if i == 0 then first + second else second;
      assert bestAtFraction.Keys == bestAtFraction.Keys;
      if o.uid in bestAtFraction && bestAtFraction[o.uid].amountOut >= partialBuyLimit {
        var best := bestAtFraction[o.uid];
        var e := SingleFill(o, partialSell, best.path, partialSell, best.amountOut);
        assert attempt == [e];
        assert (attempt + rest)[1..] == rest;
        r := batch.Emit(cfg, e);
        if r != Refused {
          return r;
        }
      } else {
        assert attempt + rest == rest;
      }
      i := i + 1;
    }
    return Refused;
  }

  /** The state after an order whose chosen fill is `choice`. */
  ghost predicate Chosen(cfg: Config, before: seq<Entry>, choice: Option<Entry>, batch: Clearing, r: Emission)
    requires ValidConfig(cfg)
    reads batch
  {
    match r
    case Refused => choice.None? && batch.Valid(cfg) && batch.ledger == before
    case Emitted => choice.Some? && batch.Valid(cfg) && batch.ledger == before + [choice.value]
    case Raised => choice.Some? && Encoding(cfg, choice.value).Failure?
  }

  /** The body of the emission loop, for one order. */
  method EmitOrder(cfg: Config, batch: Clearing, o: Order, quotes: seq<RouteQuote>, bestPerOrder: map<Uid, RouteQuote>)
    returns (r: Emission)
    requires ValidConfig(cfg) && batch.Valid(cfg)
    requires BestFor(quotes, o.uid, None) == if o.uid in bestPerOrder then Some(bestPerOrder[o.uid]) else None
    modifies batch
    ensures Chosen(cfg, old(batch.ledger), Choose(PricesOf(old(batch.ledger)), Attempts(o, quotes)), batch, r)
  {
    if o.kind == Buy {
      if o.uid !in bestPerOrder {
        return Refused;
      }
      var best := bestPerOrder[o.uid];
      if best.amountOut > o.sellAmount {
        return Refused;
      }
      r := batch.Emit(cfg, SingleFill(o, o.buyAmount, best.path, best.amountOut, o.buyAmount));
    } else if o.uid in bestPerOrder && bestPerOrder[o.uid].amountOut >= o.buyAmount {
      var best := bestPerOrder[o.uid];
      r := batch.Emit(cfg, SingleFill(o, o.sellAmount, best.path, o.sellAmount, best.amountOut));
    } else if o.partiallyFillable {
      r := EmitFraction(cfg, batch, o, quotes);
    } else {
      return Refused;
    }
  }

  /** The emission loop, from the state a batch is in. */
  method EmitOrders(cfg: Config, batch: Clearing, orders: seq<Order>, quotes: seq<RouteQuote>) returns (ok: bool)
    requires ValidConfig(cfg) && batch.Valid(cfg)
    modifies batch
    ensures var ledger := Run(old(batch.ledger), AttemptLists(orders, quotes));
      && (ok <==> AllEncodable(cfg, ledger))
      && (ok ==> batch.Valid(cfg) && batch.ledger == ledger)
  {
    var bestPerOrder := SelectBestQuotePerOrder(quotes, None);
    ghost var start := batch.ledger;
    ghost var items := AttemptLists(orders, quotes);
    for i := 0 to |orders|
      invariant batch.Valid(cfg) && batch.ledger == Run(start, items[..i])
    {
      RunNext(start, items, i);
      var r := EmitOrder(cfg, batch, orders[i], quotes, bestPerOrder);
      if r == Raised {
        return false;
      }
    }
    TakeAll(items);
    return true;
  }

  /** The quoting half of `_solve_v3_batched`; None when V3 quoting raised. */
  method GatherQuotes(cfg: RouterConfig, venues: Venues, orders: seq<Order>) returns (r: Option<seq<RouteQuote>>)
    ensures r.Some? <==> V3Buildable(cfg, venues, orders)
    ensures r.Some? ==> r.value == AllQuotes(cfg, venues, orders)
  {
    var paths := BuildV3CandidatePaths(orders, cfg.mids);
    var v3 := BatchedQuoter.BatchedQuote(V3Batched.QuoterOf(venues.chain), paths, V3Batched.MAX_CALLS_PER_BATCH);
    if v3.None? {
      return None;
    }
    var others: seq<RouteQuote> := [];
    if cfg.v4Enabled {
      var v4Paths := BuildV4CandidatePaths(orders);
      var v4 := BatchedQuoter.BatchedQuote(V4Quoter.QuoterOf(venues.v4), v4Paths, V4Quoter.MAX_CALLS_PER_BATCH);
      if v4.Some? {
        others := V4QuotesOf(v4.value);
      }
    }
    if cfg.curveEnabled {
      var curvePaths := BuildCurveCandidatePaths(cfg.pools, orders);
      var curve := BatchedQuoter.BatchedQuote(CurveQuoter.QuoterOf(venues.curve), curvePaths, CurveQuoter.MAX_CALLS_PER_BATCH);
      if curve.Some? {
        others := others + CurveQuotesOf(curve.value);
      }
    }
    return Some(V3QuotesOf(v3.value) + others);
  }

  /** What `_solve_v3_batched` returns for the ledger its loop ends with. */
  function OutcomeOf(cfg: Config, ledger: seq<Entry>): Outcome
    requires ValidConfig(cfg)
  {
    if !AllEncodable(cfg, ledger) then StrategyError
    else if TradesOf(ledger) == [] then NoSolution
    else Solved(PricesOf(ledger), TradesOf(ledger), InteractionsOf(cfg, ledger))
  }

  function BatchedOutcome(cfg: RouterConfig, venues: Venues, orders: seq<Order>): Outcome
    requires ValidConfig(cfg.encoder)
  {
    if V3Buildable(cfg, venues, orders)
    then OutcomeOf(cfg.encoder, Run([], AttemptLists(orders, AllQuotes(cfg, venues, orders))))
    else NoSolution
  }

  /** One path without a call loses the whole batch. */
  lemma {:induction false} Unbuildable(cfg: RouterConfig, venues: Venues, orders: seq<Order>)
    ensures (exists p :: p in V3Paths(orders, cfg.mids) && V3Batched.BuildCall(p).None?) ==> !V3Buildable(cfg, venues, orders)
  {
    var paths := V3Paths(orders, cfg.mids);
    if p :| p in paths && V3Batched.BuildCall(p).None? {
      var i :| 0 <= i < |paths| && paths[i] == p;
      assert V3Batched.QuoterOf(venues.chain).build(paths[i]).None?;
    }
  }

  /** `_solve_v3_batched`, with the V2 fallback off. (No orders means no paths, and no solution.) */
  method SolveV3Batched(cfg: RouterConfig, venues: Venues, orders: seq<Order>) returns (r: Outcome)
    requires ValidConfig(cfg.encoder)
    ensures r == BatchedOutcome(cfg, venues, orders)
    ensures (exists p :: p in V3Paths(orders, cfg.mids) && V3Batched.BuildCall(p).None?) ==> r == NoSolution
  {
    Unbuildable(cfg, venues, orders);
    if orders == [] {
      return NoSolution;
    }
    var quotes := GatherQuotes(cfg, venues, orders);
    if quotes.None? {
      return NoSolution;
    }
    var batch := new Clearing();
    var ok := EmitOrders(cfg.encoder, batch, orders, quotes.value);
    if !ok {
      return StrategyError;
    }
    if batch.trades == [] {
      return NoSolution;
    }
    return Solved(batch.prices, batch.trades, batch.interactions);
  }
}
