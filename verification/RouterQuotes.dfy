/** From venues to quotes: the pool of quotes the router gathers answers for its orders. */
module RouterQuotes {
  import opened Wrappers
  import opened Models
  import opened Encoder
  import opened Candidates
  import opened Selection
  import opened Router
  import opened RouterInvariants
  import V3Path
  import V3Batched
  import V4Quoter
  import CurveQuoter
  import BatchedQuoter

  // ---- every candidate path answers for one of the orders -------------------------------------------

  predicate Answers(o: Order, r: Route) {
    && r.OrderUid() == o.uid && r.TokenIn() == o.sellToken && r.TokenOut() == o.buyToken
    && (r.ExactOutput() <==> o.kind.Buy?)
    && r.AmountIn() in QuotedAmounts(o)
  }

  ghost predicate AnswersSome(orders: seq<Order>, r: Route) {
    exists i :: 0 <= i < |orders| && Answers(orders[i], r)
  }

  predicate PathOf(p: V3Batched.Path, uid: Uid, tokenIn: Token, tokenOut: Token, amount: nat, exactOutput: bool) {
    p.orderUid == uid && p.tokenIn == tokenIn && p.tokenOut == tokenOut && p.amountIn == amount && p.exactOutput == exactOutput
  }

  lemma {:induction false} TierPathsShape(uid: Uid, tokenIn: Token, tokenOut: Token, amount: nat, exactOutput: bool, mid: Option<Token>, n: nat)
    requires n <= |FEE_TIERS|
    ensures forall p :: p in TierPaths(uid, tokenIn, tokenOut, amount, exactOutput, mid, n) ==>
              PathOf(p, uid, tokenIn, tokenOut, amount, exactOutput)
  {
    if n > 0 {
      TierPathsShape(uid, tokenIn, tokenOut, amount, exactOutput, mid, n - 1);
    }
  }

  lemma {:induction false} MidPathsShape(uid: Uid, tokenIn: Token, tokenOut: Token, amount: nat, exactOutput: bool, mids: seq<Token>)
    ensures forall p :: p in MidPaths(uid, tokenIn, tokenOut, amount, exactOutput, mids) ==>
              PathOf(p, uid, tokenIn, tokenOut, amount, exactOutput)
  {
    if mids != [] {
      var n := |mids| - 1;
      MidPathsShape(uid, tokenIn, tokenOut, amount, exactOutput, mids[..n]);
      TierPathsShape(uid, tokenIn, tokenOut, amount, exactOutput, Some(mids[n]), |FEE_TIERS|);
    }
  }

  lemma {:induction false} V3PathsAtShape(o: Order, amounts: seq<nat>, mids: seq<Token>)
    requires forall k :: 0 <= k < |amounts| ==> amounts[k] in QuotedAmounts(o)
    ensures forall p :: p in V3PathsAt(o, amounts, mids) ==> Answers(o, V3(p))
  {
    if amounts != [] {
      var n := |amounts| - 1;
      V3PathsAtShape(o, amounts[..n], mids);
      TierPathsShape(o.uid, o.sellToken, o.buyToken, amounts[n], o.kind.Buy?, None, |FEE_TIERS|);
      MidPathsShape(o.uid, o.sellToken, o.buyToken, amounts[n], o.kind.Buy?, mids);
    }
  }

  lemma AnswersMore(orders: seq<Order>, n: nat, r: Route)
    requires n <= |orders| && AnswersSome(orders[..n], r)
    ensures AnswersSome(orders, r)
  {
    var i :| 0 <= i < n && Answers(orders[..n][i], r);
    assert Answers(orders[i], r);
  }

  lemma {:induction false} V3PathsShape(orders: seq<Order>, mids: seq<Token>)
    ensures forall p :: p in V3Paths(orders, mids) ==> AnswersSome(orders, V3(p))
  {
    if orders != [] {
      var n := |orders| - 1;
      V3PathsShape(orders[..n], mids);
      V3PathsAtShape(orders[n], QuotedAmounts(orders[n]), mids);
      forall p | p in V3Paths(orders, mids) ensures AnswersSome(orders, V3(p)) {
        if p in V3Paths(orders[..n], mids) {
          AnswersMore(orders, n, V3(p));
        }
      }
    }
  }

  lemma {:induction false} V4PathsAtShape(o: Order, amounts: seq<nat>)
    requires o.kind.Sell? && forall k :: 0 <= k < |amounts| ==> amounts[k] in QuotedAmounts(o)
    ensures forall p :: p in V4PathsAt(o, amounts) ==> Answers(o, V4(p)) && p.amountIn < UINT128_LIMIT
  {
    if amounts != [] {
      V4PathsAtShape(o, amounts[..|amounts| - 1]);
    }
  }

  lemma {:induction false} V4PathsShape(orders: seq<Order>)
    ensures forall p :: p in V4Paths(orders) ==> AnswersSome(orders, V4(p)) && p.amountIn < UINT128_LIMIT
  {
    if orders != [] {
      var n := |orders| - 1;
      V4PathsShape(orders[..n]);
      if orders[n].kind.Sell? {
        V4PathsAtShape(orders[n], QuotedAmounts(orders[n]));
      }
      forall p | p in V4Paths(orders) ensures AnswersSome(orders, V4(p)) {
        if p in V4Paths(orders[..n]) {
          AnswersMore(orders, n, V4(p));
        }
      }
    }
  }

  lemma {:induction false} CurvePathsOfShape(pools: seq<CurvePool>, o: Order, amount: nat)
    requires o.kind.Sell? && amount in QuotedAmounts(o)
    ensures forall p :: p in CurvePathsOf(pools, o, amount) ==> Answers(o, Curve(p)) && (o.sellToken != o.buyToken ==> p.i != p.j)
  {
    if pools != [] {
      CurvePathsOfShape(pools[..|pools| - 1], o, amount);
    }
  }

  lemma {:induction false} CurvePathsAtShape(pools: seq<CurvePool>, o: Order, amounts: seq<nat>)
    requires o.kind.Sell? && forall k :: 0 <= k < |amounts| ==> amounts[k] in QuotedAmounts(o)
    ensures forall p :: p in CurvePathsAt(pools, o, amounts) ==> Answers(o, Curve(p)) && (o.sellToken != o.buyToken ==> p.i != p.j)
  {
    if amounts != [] {
      var n := |amounts| - 1;
      CurvePathsAtShape(pools, o, amounts[..n]);
      CurvePathsOfShape(pools, o, amounts[n]);
    }
  }

  lemma {:induction false} CurvePathsShape(pools: seq<CurvePool>, orders: seq<Order>)
    ensures forall p :: p in CurvePaths(pools, orders) ==> AnswersSome(orders, Curve(p))
  {
    if orders != [] {
      var n := |orders| - 1;
      CurvePathsShape(pools, orders[..n]);
      if orders[n].kind.Sell? {
        CurvePathsAtShape(pools, orders[n], QuotedAmounts(orders[n]));
      }
      forall p | p in CurvePaths(pools, orders) ensures AnswersSome(orders, Curve(p)) {
        if p in CurvePaths(pools, orders[..n]) {
          AnswersMore(orders, n, Curve(p));
        }
      }
    }
  }

  /** The two coins of a Curve path are different ones. */
  lemma {:induction false} CurveCoinsDiffer(pools: seq<CurvePool>, orders: seq<Order>)
    requires forall i :: 0 <= i < |orders| ==> orders[i].sellToken != orders[i].buyToken
    ensures forall p :: p in CurvePaths(pools, orders) ==> p.i != p.j
  {
    if orders != [] {
      var n := |orders| - 1;
      CurveCoinsDiffer(pools, orders[..n]);
      if orders[n].kind.Sell? {
        CurvePathsAtShape(pools, orders[n], QuotedAmounts(orders[n]));
      }
    }
  }

  lemma {:induction false} V4QuotesShape(quoted: seq<BatchedQuoter.Quoted<V4Path>>)
    ensures forall q :: q in V4QuotesOf(quoted) ==>
              q.path.V4? && BatchedQuoter.Quoted(q.path.v4, q.amountOut) in quoted && q.amountOut < UINT128_LIMIT
    ensures forall p: V4Path, out: nat :: BatchedQuoter.Quoted(p, out) in quoted && out < UINT128_LIMIT ==> RouteQuote(V4(p), out) in V4QuotesOf(quoted)
  {
    if quoted != [] {
      V4QuotesShape(quoted[..|quoted| - 1]);
    }
  }

  /** A quote from the pool, by venue. */
  predicate FromVenue(cfg: RouterConfig, orders: seq<Order>, q: RouteQuote) {
    match q.path
    case V3(p) => p in V3Paths(orders, cfg.mids)
    case V4(p) => p in V4Paths(orders) && q.amountOut < UINT128_LIMIT
    case Curve(p) => p in CurvePaths(cfg.pools, orders)
  }

  lemma V3QuotesShape(quoted: seq<BatchedQuoter.Quoted<V3Batched.Path>>)
    ensures forall q :: q in V3QuotesOf(quoted) ==> q.path.V3? && BatchedQuoter.Quoted(q.path.v3, q.amountOut) in quoted
    ensures forall p: V3Batched.Path, out: nat :: BatchedQuoter.Quoted(p, out) in quoted ==> RouteQuote(V3(p), out) in V3QuotesOf(quoted)
  {
    forall p: V3Batched.Path, out: nat | BatchedQuoter.Quoted(p, out) in quoted ensures RouteQuote(V3(p), out) in V3QuotesOf(quoted) {
      var k :| 0 <= k < |quoted| && quoted[k] == BatchedQuoter.Quoted(p, out);
      assert V3QuotesOf(quoted)[k] == RouteQuote(V3(p), out);
    }
  }

  lemma CurveQuotesShape(quoted: seq<BatchedQuoter.Quoted<CurvePath>>)
    ensures forall q :: q in CurveQuotesOf(quoted) ==> q.path.Curve? && BatchedQuoter.Quoted(q.path.curve, q.amountOut) in quoted
    ensures forall p: CurvePath, out: nat :: BatchedQuoter.Quoted(p, out) in quoted ==> RouteQuote(Curve(p), out) in CurveQuotesOf(quoted)
  {
    forall p: CurvePath, out: nat | BatchedQuoter.Quoted(p, out) in quoted ensures RouteQuote(Curve(p), out) in CurveQuotesOf(quoted) {
      var k :| 0 <= k < |quoted| && quoted[k] == BatchedQuoter.Quoted(p, out);
      assert CurveQuotesOf(quoted)[k] == RouteQuote(Curve(p), out);
    }
  }

  lemma PoolFromVenues(cfg: RouterConfig, venues: Venues, orders: seq<Order>)
    requires V3Buildable(cfg, venues, orders)
    ensures forall q :: q in AllQuotes(cfg, venues, orders) ==> FromVenue(cfg, orders, q)
  {
    V3PartShape(cfg, venues, orders);
    V4PartShape(cfg, venues, orders);
    CurvePartShape(cfg, venues, orders);
  }

  lemma {:induction false} V3PartShape(cfg: RouterConfig, venues: Venues, orders: seq<Order>)
    requires V3Buildable(cfg, venues, orders)
    ensures forall q :: q in V3Part(cfg, venues, orders) ==> q.path.V3? && q.path.v3 in V3Paths(orders, cfg.mids)
  {
    V3QuotesShape(BatchedQuoter.QuotesBySize(V3Batched.QuoterOf(venues.chain), V3Paths(orders, cfg.mids), V3Batched.MAX_CALLS_PER_BATCH));
  }

  lemma {:induction false} CurvePartShape(cfg: RouterConfig, venues: Venues, orders: seq<Order>)
    ensures forall q :: q in CurvePart(cfg, venues, orders) ==> q.path.Curve? && q.path.curve in CurvePaths(cfg.pools, orders)
  {
    var paths := CurvePaths(cfg.pools, orders);
    if BatchedQuoter.Buildable(CurveQuoter.QuoterOf(venues.curve), paths) {
      CurveQuotesShape(BatchedQuoter.QuotesBySize(CurveQuoter.QuoterOf(venues.curve), paths, CurveQuoter.MAX_CALLS_PER_BATCH));
    }
  }

  lemma {:induction false} V4PartShape(cfg: RouterConfig, venues: Venues, orders: seq<Order>)
    ensures forall q :: q in V4Part(cfg, venues, orders) ==> q.path.V4? && q.path.v4 in V4Paths(orders) && q.amountOut < UINT128_LIMIT
  {
    var paths := V4Paths(orders);
    if BatchedQuoter.Buildable(V4Quoter.QuoterOf(venues.v4), paths) {
      V4QuotesShape(BatchedQuoter.QuotesBySize(V4Quoter.QuoterOf(venues.v4), paths, V4Quoter.MAX_CALLS_PER_BATCH));
    }
  }

  ghost predicate ZeroForZero(quotes: seq<RouteQuote>) {
    forall q :: q in quotes && q.path.AmountIn() == 0 ==> q.amountOut == 0
  }

  /** Quotes whose paths answer for some order answer for the order they name. */
  lemma AnsweredQuotesMatch(orders: seq<Order>, quotes: seq<RouteQuote>)
    requires UniqueUids(orders) && ZeroForZero(quotes)
    requires forall q :: q in quotes ==> AnswersSome(orders, q.path)
    ensures QuotesMatch(orders, quotes)
  {
    forall i, j | 0 <= i < |orders| && 0 <= j < |quotes| && quotes[j].path.OrderUid() == orders[i].uid
      ensures QuoteMatches(orders[i], quotes[j])
    {
      assert quotes[j] in quotes && AnswersSome(orders, quotes[j].path);
      var k :| 0 <= k < |orders| && Answers(orders[k], quotes[j].path);
      assert k == i;
    }
  }

  lemma QuoteAnswersSome(cfg: RouterConfig, orders: seq<Order>, q: RouteQuote)
    requires FromVenue(cfg, orders, q)
    ensures AnswersSome(orders, q.path)
  {
    V3PathsShape(orders, cfg.mids);
    V4PathsShape(orders);
    CurvePathsShape(cfg.pools, orders);
  }

  /** The gathered quotes answer for the orders, for any venues that quote nothing for nothing. */
  lemma GatheredQuotesAnswer(cfg: RouterConfig, venues: Venues, orders: seq<Order>)
    requires UniqueUids(orders) && AllSigned(orders) && V3Buildable(cfg, venues, orders)
    requires ZeroForZero(AllQuotes(cfg, venues, orders))
    ensures Quoted(orders, AllQuotes(cfg, venues, orders))
  {
    var quotes := AllQuotes(cfg, venues, orders);
    PoolFromVenues(cfg, venues, orders);
    forall q | q in quotes ensures AnswersSome(orders, q.path) {
      assert FromVenue(cfg, orders, q);
      QuoteAnswersSome(cfg, orders, q);
    }
    AnsweredQuotesMatch(orders, quotes);
  }

  // ---- the V4 encoder's bounds ----------------------------------------------------------------------

  predicate AddressesOk(cfg: RouterConfig, orders: seq<Order>) {
    && (forall t :: t in cfg.mids ==> V3Path.IsAddress(t))
    && (forall o :: o in orders ==> V3Path.IsAddress(o.sellToken) && V3Path.IsAddress(o.buyToken))
  }

  /** A partially fillable sell too large for a V4 quote whose half is not, with a limit V4 can deliver. */
  predicate Exposed(o: Order) {
    && o.kind.Sell? && o.partiallyFillable
    && o.sellAmount >= UINT128_LIMIT && o.sellAmount / 2 < UINT128_LIMIT && o.buyAmount < UINT128_LIMIT
  }

  predicate TierFeesFit(p: V3Batched.Path) {
    p.feeTierIn < 0x1_000_000 && (p.intermediate.Some? <==> p.feeTierOut.Some?) && (p.feeTierOut.Some? ==> p.feeTierOut.value < 0x1_000_000)
  }

  lemma {:induction false} TierFees(uid: Uid, tokenIn: Token, tokenOut: Token, amount: nat, exactOutput: bool, mid: Option<Token>, n: nat)
    requires n <= |FEE_TIERS|
    ensures forall p :: p in TierPaths(uid, tokenIn, tokenOut, amount, exactOutput, mid, n) ==> TierFeesFit(p) && p.intermediate == mid
  {
    if n > 0 {
      TierFees(uid, tokenIn, tokenOut, amount, exactOutput, mid, n - 1);
    }
  }

  lemma {:induction false} MidFees(uid: Uid, tokenIn: Token, tokenOut: Token, amount: nat, exactOutput: bool, mids: seq<Token>)
    ensures forall p :: p in MidPaths(uid, tokenIn, tokenOut, amount, exactOutput, mids) ==>
              TierFeesFit(p) && (p.intermediate.Some? ==> p.intermediate.value in mids)
  {
    if mids != [] {
      var n := |mids| - 1;
      MidFees(uid, tokenIn, tokenOut, amount, exactOutput, mids[..n]);
      TierFees(uid, tokenIn, tokenOut, amount, exactOutput, Some(mids[n]), |FEE_TIERS|);
    }
  }

  lemma {:induction false} V3FeesAt(o: Order, amounts: seq<nat>, mids: seq<Token>)
    ensures forall p :: p in V3PathsAt(o, amounts, mids) ==> TierFeesFit(p) && (p.intermediate.Some? ==> p.intermediate.value in mids)
  {
    if amounts != [] {
      var n := |amounts| - 1;
      V3FeesAt(o, amounts[..n], mids);
      TierFees(o.uid, o.sellToken, o.buyToken, amounts[n], o.kind.Buy?, None, |FEE_TIERS|);
      MidFees(o.uid, o.sellToken, o.buyToken, amounts[n], o.kind.Buy?, mids);
    }
  }

  lemma {:induction false} V3Fees(orders: seq<Order>, mids: seq<Token>)
    ensures forall p :: p in V3Paths(orders, mids) ==> TierFeesFit(p) && (p.intermediate.Some? ==> p.intermediate.value in mids)
  {
    if orders != [] {
      var n := |orders| - 1;
      V3Fees(orders[..n], mids);
      V3FeesAt(orders[n], QuotedAmounts(orders[n]), mids);
    }
  }

  /** On real addresses every V3 candidate can be quoted and encoded. */
  lemma {:induction false} V3NeverRaises(cfg: RouterConfig, orders: seq<Order>, p: V3Batched.Path, sold: nat, bought: nat)
    requires ValidConfig(cfg.encoder) && AddressesOk(cfg, orders) && p in V3Paths(orders, cfg.mids)
    ensures V3Batched.BuildCall(p).Some?
    ensures EncodePathInteraction(cfg.encoder, V3(p), sold, bought).Success?
  {
    V3Fees(orders, cfg.mids);
    V3PathsShape(orders, cfg.mids);
    assert AnswersSome(orders, V3(p));
    var i :| 0 <= i < |orders| && Answers(orders[i], V3(p));
    assert orders[i] in orders;
    FittingPathEncodes(cfg.encoder, p, sold, bought);
  }

  lemma FittingPathEncodes(cfg: Encoder.Config, p: V3Batched.Path, sold: nat, bought: nat)
    requires ValidConfig(cfg) && TierFeesFit(p) && V3Path.IsAddress(p.tokenIn) && V3Path.IsAddress(p.tokenOut)
    requires p.intermediate.Some? ==> V3Path.IsAddress(p.intermediate.value)
    ensures V3Batched.BuildCall(p).Some?
    ensures EncodePathInteraction(cfg, V3(p), sold, bought).Success?
  {
    if p.intermediate.Some? {
      SwapWalksQuotedPath(cfg, p, sold, bought);
    }
  }

  lemma AllV3Buildable(cfg: RouterConfig, venues: Venues, orders: seq<Order>)
    requires ValidConfig(cfg.encoder) && AddressesOk(cfg, orders)
    ensures V3Buildable(cfg, venues, orders)
  {
    var paths := V3Paths(orders, cfg.mids);
    forall i | 0 <= i < |paths| ensures V3Batched.QuoterOf(venues.chain).build(paths[i]).Some? {
      V3NeverRaises(cfg, orders, paths[i], 0, 0);
    }
  }
}
