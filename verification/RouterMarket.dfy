/** The market behind a pool of quotes: every quote of an answered market is the venue's own answer to a call
    that does not name the order, so orders that ask the same are told the same. */
module RouterMarket {
  import opened Wrappers
  import opened Models
  import opened Encoder
  import opened Candidates
  import opened Selection
  import opened Router
  import opened RouterQuotes
  import V3Batched
  import V4Quoter
  import CurveQuoter
  import BatchedQuoter

  // ---- candidates do not depend on whose they are ---------------------------------------------------

  lemma {:induction false} TierPathsRename(from: Uid, uid: Uid, tokenIn: Token, tokenOut: Token, amount: nat, exactOutput: bool, mid: Option<Token>, n: nat)
    requires n <= |FEE_TIERS|
    ensures forall p :: p in TierPaths(from, tokenIn, tokenOut, amount, exactOutput, mid, n) ==>
              p.(orderUid := uid) in TierPaths(uid, tokenIn, tokenOut, amount, exactOutput, mid, n)
  {
    if n > 0 {
      TierPathsRename(from, uid, tokenIn, tokenOut, amount, exactOutput, mid, n - 1);
    }
  }

  lemma {:induction false} MidPathsRename(from: Uid, uid: Uid, tokenIn: Token, tokenOut: Token, amount: nat, exactOutput: bool, mids: seq<Token>)
    ensures forall p :: p in MidPaths(from, tokenIn, tokenOut, amount, exactOutput, mids) ==>
              p.(orderUid := uid) in MidPaths(uid, tokenIn, tokenOut, amount, exactOutput, mids)
  {
    if mids != [] {
      var n := |mids| - 1;
      MidPathsRename(from, uid, tokenIn, tokenOut, amount, exactOutput, mids[..n]);
      TierPathsRename(from, uid, tokenIn, tokenOut, amount, exactOutput, Some(mids[n]), |FEE_TIERS|);
    }
  }

  /** The candidates of a pair under one uid are those under any other. */
  lemma PairPathsRename(from: Uid, uid: Uid, tokenIn: Token, tokenOut: Token, amount: nat, exactOutput: bool, mids: seq<Token>)
    ensures forall p :: p in PairPaths(from, tokenIn, tokenOut, amount, exactOutput, mids) ==>
              p.(orderUid := uid) in PairPaths(uid, tokenIn, tokenOut, amount, exactOutput, mids)
  {
    TierPathsRename(from, uid, tokenIn, tokenOut, amount, exactOutput, None, |FEE_TIERS|);
    MidPathsRename(from, uid, tokenIn, tokenOut, amount, exactOutput, mids);
  }

  lemma {:induction false} PairPathsAt(o: Order, amounts: seq<nat>, mids: seq<Token>, amount: nat)
    requires amount in amounts
    ensures forall p :: p in PairPaths(o.uid, o.sellToken, o.buyToken, amount, o.kind.Buy?, mids) ==> p in V3PathsAt(o, amounts, mids)
  {
    var n := |amounts| - 1;
    if amounts[n] != amount {
      assert amounts == amounts[..n] + [amounts[n]];
      PairPathsAt(o, amounts[..n], mids, amount);
    }
  }

  lemma {:induction false} PairPathsListed(orders: seq<Order>, mids: seq<Token>, i: nat, p: V3Batched.Path)
    requires i < |orders| && p in V3PathsAt(orders[i], QuotedAmounts(orders[i]), mids)
    ensures p in V3Paths(orders, mids)
  {
    var n := |orders| - 1;
    if i < n {
      PairPathsListed(orders[..n], mids, i, p);
    }
  }

  /** The same route, asked for by another order. */
  function Renamed(r: Route, uid: Uid): Route {
    match r
    case V3(p) => V3(p.(orderUid := uid))
    case V4(p) => V4(p.(orderUid := uid))
    case Curve(p) => Curve(p.(orderUid := uid))
  }

  /** A candidate of an enabled venue. */
  predicate Listed(cfg: RouterConfig, orders: seq<Order>, r: Route) {
    match r
    case V3(p) => p in V3Paths(orders, cfg.mids)
    case V4(p) => cfg.v4Enabled && p in V4Paths(orders)
    case Curve(p) => cfg.curveEnabled && p in CurvePaths(cfg.pools, orders)
  }

  lemma {:induction false} V3PathsAtFrom(o: Order, amounts: seq<nat>, mids: seq<Token>, p: V3Batched.Path)
    requires p in V3PathsAt(o, amounts, mids)
    ensures p in PairPaths(o.uid, p.tokenIn, p.tokenOut, p.amountIn, p.exactOutput, mids)
  {
    var n := |amounts| - 1;
    if p in V3PathsAt(o, amounts[..n], mids) {
      V3PathsAtFrom(o, amounts[..n], mids, p);
    } else {
      TierPathsShape(o.uid, o.sellToken, o.buyToken, amounts[n], o.kind.Buy?, None, |FEE_TIERS|);
      MidPathsShape(o.uid, o.sellToken, o.buyToken, amounts[n], o.kind.Buy?, mids);
      assert PathOf(p, o.uid, o.sellToken, o.buyToken, amounts[n], o.kind.Buy?);
    }
  }

  lemma {:induction false} V3PathsFrom(orders: seq<Order>, mids: seq<Token>, p: V3Batched.Path)
    requires p in V3Paths(orders, mids)
    ensures p in PairPaths(p.orderUid, p.tokenIn, p.tokenOut, p.amountIn, p.exactOutput, mids)
  {
    var n := |orders| - 1;
    if p in V3Paths(orders[..n], mids) {
      V3PathsFrom(orders[..n], mids, p);
    } else {
      V3PathsAtShape(orders[n], QuotedAmounts(orders[n]), mids);
      V3PathsAtFrom(orders[n], QuotedAmounts(orders[n]), mids, p);
      assert Answers(orders[n], V3(p));
    }
  }

  lemma {:induction false} V4PathsAtFrom(o: Order, amounts: seq<nat>, p: V4Path)
    requires p in V4PathsAt(o, amounts)
    ensures p.amountIn < UINT128_LIMIT && p in V4TierPaths(o, p.amountIn)
  {
    var n := |amounts| - 1;
    if p in V4PathsAt(o, amounts[..n]) {
      V4PathsAtFrom(o, amounts[..n], p);
    }
  }

  lemma {:induction false} V4PathsFrom(orders: seq<Order>, p: V4Path)
    requires p in V4Paths(orders)
    ensures p.amountIn < UINT128_LIMIT && (p.fee, p.tickSpacing) in STANDARD_V4_TIERS
  {
    var n := |orders| - 1;
    if p in V4Paths(orders[..n]) {
      V4PathsFrom(orders[..n], p);
    } else {
      V4PathsAtFrom(orders[n], QuotedAmounts(orders[n]), p);
      var t :| 0 <= t < |STANDARD_V4_TIERS| && V4TierPaths(orders[n], p.amountIn)[t] == p;
      assert STANDARD_V4_TIERS[t] == (p.fee, p.tickSpacing);
    }
  }

  lemma {:induction false} V4PathsAtHas(o: Order, amounts: seq<nat>, p: V4Path)
    requires p.amountIn in amounts && p.amountIn < UINT128_LIMIT && p in V4TierPaths(o, p.amountIn)
    ensures p in V4PathsAt(o, amounts)
  {
    var n := |amounts| - 1;
    if amounts[n] != p.amountIn {
      assert amounts == amounts[..n] + [amounts[n]];
      V4PathsAtHas(o, amounts[..n], p);
    }
  }

  lemma {:induction false} V4PathsGrow(orders: seq<Order>, k: nat)
    requires k <= |orders|
    ensures forall p :: p in V4Paths(orders[..k]) ==> p in V4Paths(orders)
  {
    var n := |orders| - 1;
    if k == |orders| {
      assert orders[..k] == orders;
    } else {
      V4PathsGrow(orders[..n], k);
      assert orders[..n][..k] == orders[..k];
    }
  }

  lemma {:induction false} V4PathsNext(orders: seq<Order>, o: Order)
    requires o.kind.Sell?
    ensures V4Paths(orders + [o]) == V4Paths(orders) + V4PathsAt(o, QuotedAmounts(o))
  {
    assert (orders + [o])[..|orders|] == orders;
  }

  /** Everything asked of V4 for one sell is in the list. */
  lemma {:induction false} V4PathsHas(orders: seq<Order>, i: nat, o: Order, block: seq<V4Path>)
    requires i < |orders| && orders[i] == o && o.kind.Sell? && block == V4PathsAt(o, QuotedAmounts(o))
    ensures forall p :: p in block ==> p in V4Paths(orders)
  {
    var before := orders[..i];
    V4PathsNext(before, o);
    assert before + [o] == orders[..i + 1];
    V4PathsGrow(orders, i + 1);
    forall p | p in block ensures p in V4Paths(orders) {
      LastHas(V4Paths(before), block, p);
    }
  }

  /** Every standard pool of a sell's pair is asked at every amount quoted for it that fits. */
  lemma {:induction false} V4PathOf(orders: seq<Order>, i: nat, amount: nat, tier: (nat, nat))
    requires i < |orders| && orders[i].kind.Sell? && amount in QuotedAmounts(orders[i]) && amount < UINT128_LIMIT
    requires tier in STANDARD_V4_TIERS
    ensures V4Path(orders[i].uid, orders[i].sellToken, orders[i].buyToken, tier.0, tier.1, amount) in V4Paths(orders)
  {
    var o := orders[i];
    var p := V4Path(o.uid, o.sellToken, o.buyToken, tier.0, tier.1, amount);
    var t :| 0 <= t < |STANDARD_V4_TIERS| && STANDARD_V4_TIERS[t] == tier;
    assert V4TierPaths(o, amount)[t] == p;
    V4PathsAtHas(o, QuotedAmounts(o), p);
    V4PathsHas(orders, i, o, V4PathsAt(o, QuotedAmounts(o)));
  }

  lemma {:induction false} CurvePathsOfRename(pools: seq<CurvePool>, o: Order, r: Order, amount: nat, p: CurvePath)
    requires p in CurvePathsOf(pools, o, amount) && r.sellToken == o.sellToken && r.buyToken == o.buyToken
    ensures p.(orderUid := r.uid) in CurvePathsOf(pools, r, amount)
  {
    var n := |pools| - 1;
    if p in CurvePathsOf(pools[..n], o, amount) {
      CurvePathsOfRename(pools[..n], o, r, amount, p);
    }
  }

  lemma {:induction false} CurvePathsAtFrom(pools: seq<CurvePool>, o: Order, amounts: seq<nat>, p: CurvePath)
    requires p in CurvePathsAt(pools, o, amounts)
    ensures exists amount: nat :: p in CurvePathsOf(pools, o, amount)
  {
    var n := |amounts| - 1;
    if p in CurvePathsAt(pools, o, amounts[..n]) {
      CurvePathsAtFrom(pools, o, amounts[..n], p);
    } else {
      assert p in CurvePathsOf(pools, o, amounts[n]);
    }
  }

  lemma {:induction false} CurvePathsOfIs(pools: seq<CurvePool>, o: Order, amount: nat, p: CurvePath)
    requires p in CurvePathsOf(pools, o, amount)
    ensures p.amountIn == amount && p.tokenIn == o.sellToken && p.tokenOut == o.buyToken
  {
    var n := |pools| - 1;
    if p in CurvePathsOf(pools[..n], o, amount) {
      CurvePathsOfIs(pools[..n], o, amount, p);
    }
  }

  /** A Curve candidate is one of some sell's pair and of its own amount. */
  lemma {:induction false} CurvePathsFrom(pools: seq<CurvePool>, orders: seq<Order>, p: CurvePath)
    requires p in CurvePaths(pools, orders)
    ensures exists o :: p in CurvePathsOf(pools, o, p.amountIn) && p.tokenIn == o.sellToken && p.tokenOut == o.buyToken
  {
    var n := |orders| - 1;
    if p in CurvePaths(pools, orders[..n]) {
      CurvePathsFrom(pools, orders[..n], p);
    } else {
      CurvePathsAtFrom(pools, orders[n], QuotedAmounts(orders[n]), p);
      var amount: nat :| p in CurvePathsOf(pools, orders[n], amount);
      CurvePathsOfIs(pools, orders[n], amount, p);
    }
  }

  lemma {:induction false} CurvePathsAtHas(pools: seq<CurvePool>, o: Order, amounts: seq<nat>, amount: nat, p: CurvePath)
    requires amount in amounts && p in CurvePathsOf(pools, o, amount)
    ensures p in CurvePathsAt(pools, o, amounts)
  {
    var n := |amounts| - 1;
    if amounts[n] != amount {
      assert amounts == amounts[..n] + [amounts[n]];
      CurvePathsAtHas(pools, o, amounts[..n], amount, p);
    }
  }

  lemma {:induction false} CurvePathsGrow(pools: seq<CurvePool>, orders: seq<Order>, k: nat)
    requires k <= |orders|
    ensures forall p :: p in CurvePaths(pools, orders[..k]) ==> p in CurvePaths(pools, orders)
  {
    var n := |orders| - 1;
    if k == |orders| {
      assert orders[..k] == orders;
    } else {
      CurvePathsGrow(pools, orders[..n], k);
      assert orders[..n][..k] == orders[..k];
    }
  }

  lemma {:induction false} CurvePathsNext(pools: seq<CurvePool>, orders: seq<Order>, o: Order)
    requires o.kind.Sell?
    ensures CurvePaths(pools, orders + [o]) == CurvePaths(pools, orders) + CurvePathsAt(pools, o, QuotedAmounts(o))
  {
    assert (orders + [o])[..|orders|] == orders;
  }

  /** Everything asked of Curve for one sell is in the list. */
  lemma {:induction false} CurvePathsHas(pools: seq<CurvePool>, orders: seq<Order>, i: nat, o: Order, block: seq<CurvePath>)
    requires i < |orders| && orders[i] == o && o.kind.Sell? && block == CurvePathsAt(pools, o, QuotedAmounts(o))
    ensures forall p :: p in block ==> p in CurvePaths(pools, orders)
  {
    var before := orders[..i];
    CurvePathsNext(pools, before, o);
    assert before + [o] == orders[..i + 1];
    CurvePathsGrow(pools, orders, i + 1);
    forall p | p in block ensures p in CurvePaths(pools, orders) {
      LastHas(CurvePaths(pools, before), block, p);
    }
  }

  lemma LastHas<T>(a: seq<T>, b: seq<T>, x: T)
    requires x in b
    ensures x in a + b
  {
  }

  /** Order `r` asks what the route asks: its pair, its direction, one of its amounts. */
  predicate Asks(r: Order, route: Route) {
    && r.sellToken == route.TokenIn() && r.buyToken == route.TokenOut()
    && (route.ExactOutput() <==> r.kind.Buy?) && route.AmountIn() in QuotedAmounts(r)
  }

  lemma {:induction false} ListedForAll(cfg: RouterConfig, orders: seq<Order>, i: nat, route: Route)
    requires Listed(cfg, orders, route) && i < |orders| && Asks(orders[i], route)
    ensures Listed(cfg, orders, Renamed(route, orders[i].uid))
  {
    var r := orders[i];
    match route
    case V3(p) =>
      V3PathsFrom(orders, cfg.mids, p);
      PairPathsRename(p.orderUid, r.uid, r.sellToken, r.buyToken, p.amountIn, p.exactOutput, cfg.mids);
      PairPathsAt(r, QuotedAmounts(r), cfg.mids, p.amountIn);
      PairPathsListed(orders, cfg.mids, i, p.(orderUid := r.uid));
    case V4(p) =>
      V4PathsFrom(orders, p);
      V4PathOf(orders, i, p.amountIn, (p.fee, p.tickSpacing));
      assert p.(orderUid := r.uid) == V4Path(r.uid, r.sellToken, r.buyToken, p.fee, p.tickSpacing, p.amountIn);
    case Curve(p) =>
      CurvePathsFrom(cfg.pools, orders, p);
      var o :| p in CurvePathsOf(cfg.pools, o, p.amountIn) && p.tokenIn == o.sellToken && p.tokenOut == o.buyToken;
      CurvePathsOfRename(cfg.pools, o, r, p.amountIn, p);
      CurvePathsAtHas(cfg.pools, r, QuotedAmounts(r), p.amountIn, p.(orderUid := r.uid));
      CurvePathsHas(cfg.pools, orders, i, r, CurvePathsAt(cfg.pools, r, QuotedAmounts(r)));
  }

  // ---- quotes are the venues' own answers -----------------------------------------------------------

  /** What the venue quotes for a route asked alone, 0 where no call can be built. */
  function OwnQuote(venues: Venues, r: Route): nat {
    match r
    case V3(p) => V3Batched.PathQuote(venues.chain, p)
    case V4(p) => V4Quoter.PathQuote(venues.v4, p)
    case Curve(p) => CurveQuoter.PathQuote(venues.curve, p)
  }

  /** No venue's call names the order. */
  lemma OwnQuoteIgnoresUid(venues: Venues, r: Route, uid: Uid)
    ensures OwnQuote(venues, Renamed(r, uid)) == OwnQuote(venues, r)
  {
  }

  /** The quoting of every enabled venue meets no error but the gas cap. */
  ghost predicate Answering(cfg: RouterConfig, venues: Venues, orders: seq<Order>) {
    && BatchedQuoter.Answered(V3Batched.QuoterOf(venues.chain), V3Paths(orders, cfg.mids))
    && (cfg.v4Enabled ==> BatchedQuoter.Answered(V4Quoter.QuoterOf(venues.v4), V4Paths(orders)))
    && (cfg.curveEnabled ==> BatchedQuoter.Answered(CurveQuoter.QuoterOf(venues.curve), CurvePaths(cfg.pools, orders)))
  }

  /** A part of the pool holds exactly its candidates at their own quotes; V4 drops those above uint128. */
  ghost predicate OwnPart(cfg: RouterConfig, venues: Venues, orders: seq<Order>, part: seq<RouteQuote>, r: Route) {
    && (forall q :: q in part && q.path == r ==> Listed(cfg, orders, r) && q.amountOut == OwnQuote(venues, r))
    && (Listed(cfg, orders, r) && (r.V4? ==> OwnQuote(venues, r) < UINT128_LIMIT) ==> RouteQuote(r, OwnQuote(venues, r)) in part)
  }

  lemma V3PartIsOwn(cfg: RouterConfig, venues: Venues, orders: seq<Order>, r: Route)
    requires Answering(cfg, venues, orders) && r.V3?
    ensures OwnPart(cfg, venues, orders, V3Part(cfg, venues, orders), r)
  {
    var q, paths := V3Batched.QuoterOf(venues.chain), V3Paths(orders, cfg.mids);
    var quoted := BatchedQuoter.QuotesBySize(q, paths, V3Batched.MAX_CALLS_PER_BATCH);
    forall out: nat
      ensures BatchedQuoter.Quoted(r.v3, out) in quoted <==> r.v3 in paths && out == V3Batched.PathQuote(venues.chain, r.v3)
    {
      BatchedQuoter.AnsweredHolds(q, paths, V3Batched.MAX_CALLS_PER_BATCH, r.v3, out);
    }
    V3QuotesShape(quoted);
  }

  lemma V4PartIsOwn(cfg: RouterConfig, venues: Venues, orders: seq<Order>, r: Route)
    requires Answering(cfg, venues, orders) && r.V4?
    ensures OwnPart(cfg, venues, orders, V4Part(cfg, venues, orders), r)
  {
    if cfg.v4Enabled {
      var q, paths := V4Quoter.QuoterOf(venues.v4), V4Paths(orders);
      var quoted := BatchedQuoter.QuotesBySize(q, paths, V4Quoter.MAX_CALLS_PER_BATCH);
      forall out: nat
        ensures BatchedQuoter.Quoted(r.v4, out) in quoted <==> r.v4 in paths && out == V4Quoter.PathQuote(venues.v4, r.v4)
      {
        BatchedQuoter.AnsweredHolds(q, paths, V4Quoter.MAX_CALLS_PER_BATCH, r.v4, out);
      }
      V4QuotesShape(quoted);
    }
  }

  lemma CurvePartIsOwn(cfg: RouterConfig, venues: Venues, orders: seq<Order>, r: Route)
    requires Answering(cfg, venues, orders) && r.Curve?
    ensures OwnPart(cfg, venues, orders, CurvePart(cfg, venues, orders), r)
  {
    if cfg.curveEnabled {
      var q, paths := CurveQuoter.QuoterOf(venues.curve), CurvePaths(cfg.pools, orders);
      var quoted := BatchedQuoter.QuotesBySize(q, paths, CurveQuoter.MAX_CALLS_PER_BATCH);
      forall out: nat
        ensures BatchedQuoter.Quoted(r.curve, out) in quoted <==> r.curve in paths && out == CurveQuoter.PathQuote(venues.curve, r.curve)
      {
        BatchedQuoter.AnsweredHolds(q, paths, CurveQuoter.MAX_CALLS_PER_BATCH, r.curve, out);
      }
      CurveQuotesShape(quoted);
    }
  }

  /** The pool of an answered market: every candidate at its own quote, and nothing else. */
  lemma {:induction false} PoolIsOwn(cfg: RouterConfig, venues: Venues, orders: seq<Order>, r: Route)
    requires Answering(cfg, venues, orders)
    ensures OwnPart(cfg, venues, orders, AllQuotes(cfg, venues, orders), r)
  {
    V3PartShape(cfg, venues, orders);
    V4PartShape(cfg, venues, orders);
    CurvePartShape(cfg, venues, orders);
    match r
    case V3(_) => V3PartIsOwn(cfg, venues, orders, r);
    case V4(_) => V4PartIsOwn(cfg, venues, orders, r);
    case Curve(_) => CurvePartIsOwn(cfg, venues, orders, r);
  }

  /** Orders that ask the same are told the same: any quote of the pool is also quoted to every other order of
      its pair and direction that is quoted for its amount. */
  lemma {:induction false} SharedQuote(cfg: RouterConfig, venues: Venues, orders: seq<Order>, q: RouteQuote, i: nat)
    requires Answering(cfg, venues, orders) && q in AllQuotes(cfg, venues, orders)
    requires i < |orders| && Asks(orders[i], q.path)
    ensures RouteQuote(Renamed(q.path, orders[i].uid), q.amountOut) in AllQuotes(cfg, venues, orders)
  {
    var r := Renamed(q.path, orders[i].uid);
    PoolIsOwn(cfg, venues, orders, q.path);
    PoolFromVenues(cfg, venues, orders);
    assert FromVenue(cfg, orders, q);
    ListedForAll(cfg, orders, i, q.path);
    OwnQuoteIgnoresUid(venues, q.path, orders[i].uid);
    PoolIsOwn(cfg, venues, orders, r);
  }
}
