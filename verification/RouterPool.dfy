/** The quotes the router works with, candidate by candidate. */
module RouterPool {
  import opened Models
  import opened Encoder
  import opened Selection
  import opened CandidatesExact
  import opened Router
  import opened RouterQuotes
  import opened RouterMarket

  /** What an enabled venue is asked for one of the orders. */
  ghost predicate Candidate(cfg: RouterConfig, orders: seq<Order>, r: Route) {
    match r
    case V3(p) =>
      exists o :: o in orders && QuotedAt(o, p.amountIn)
                  && PairCandidate(p, o.uid, o.sellToken, o.buyToken, p.amountIn, o.kind.Buy?, cfg.mids)
    case V4(p) => cfg.v4Enabled && exists o :: o in orders && QuotedAt(o, p.amountIn) && V4Candidate(p, o)
    case Curve(p) =>
      cfg.curveEnabled && exists o, pool :: o in orders && pool in cfg.pools && QuotedAt(o, p.amountIn) && CurveCandidate(p, o, pool)
  }

  lemma {:induction false} ListedExact(cfg: RouterConfig, orders: seq<Order>, r: Route)
    ensures Listed(cfg, orders, r) <==> Candidate(cfg, orders, r)
  {
    match r
    case V3(p) => V3PathsExact(orders, cfg.mids, p);
    case V4(p) => V4PathsExact(orders, p);
    case Curve(p) => CurvePathsExact(cfg.pools, orders, p);
  }

  /** In an answered market the quotes are the candidates, each at its own quote, less the V4 outputs that do not fit 128
      bits; and nothing else. */
  lemma {:induction false} PoolExact(cfg: RouterConfig, venues: Venues, orders: seq<Order>, q: RouteQuote)
    requires Answering(cfg, venues, orders)
    ensures q in AllQuotes(cfg, venues, orders)
       <==> && Candidate(cfg, orders, q.path) && q.amountOut == OwnQuote(venues, q.path)
            && (q.path.V4? ==> q.amountOut < 0x1_0000_0000_0000_0000_0000_0000_0000_0000)
  {
    ListedExact(cfg, orders, q.path);
    PoolIsOwn(cfg, venues, orders, q.path);
    PoolFromVenues(cfg, venues, orders);
    if q in AllQuotes(cfg, venues, orders) {
      assert FromVenue(cfg, orders, q);
    }
  }
}
