/** Is what a fill executes what its path was quoted for? */
module RouterAmounts {
  import opened Wrappers
  import opened Models
  import opened Encoder
  import opened Candidates
  import opened Selection
  import opened Ledger
  import opened Router
  import opened RouterInvariants
  import opened RouterQuotes
  import opened RouterMarket
  import opened RouterTables
  import opened RouterTakers
  import V3Batched
  import V4Quoter
  import CurveQuoter
  import BatchedQuoter

  /** The venue was asked about exactly the amount the fill executes. */
  predicate ExecutesQuotedAmount(e: Entry) {
    |e.fills| == 1 && e.route.AmountIn() == e.fills[0].executed
  }

  predicate FullQuote(o: Order, q: RouteQuote) {
    Eligible(q, o.uid, None) && q.path.AmountIn() == o.sellAmount
  }

  /** Quote `j` is for the full amount, beats every earlier fraction quote and no later one beats it. */
  ghost predicate Leads(o: Order, quotes: seq<RouteQuote>, j: nat) {
    && j < |quotes| && FullQuote(o, quotes[j])
    && forall k :: 0 <= k < |quotes| && Eligible(quotes[k], o.uid, None) && !FullQuote(o, quotes[k]) ==>
         if k < j then quotes[k].amountOut < quotes[j].amountOut else quotes[k].amountOut <= quotes[j].amountOut
  }

  ghost predicate FullAmountLeads(o: Order, quotes: seq<RouteQuote>) {
    exists j: nat :: Leads(o, quotes, j)
  }

  /** Selection compares the three amounts of a partially fillable sell in one pool. So a full fill is
      executed at the amount its path was quoted for exactly when a full-amount quote leads that pool;
      every other fill always is. */
  lemma FullFillQuotedExactly(orders: seq<Order>, quotes: seq<RouteQuote>, i: nat, e: Entry)
    requires Quoted(orders, quotes) && i < |orders| && e in Attempts(orders[i], quotes)
    ensures var o := orders[i];
            ExecutesQuotedAmount(e) <==>
              (o.kind.Sell? && o.partiallyFillable && IsFullFill(o, e) ==> FullAmountLeads(o, quotes))
  {
    var o := orders[i];
    assert o in orders;
    AttemptShape(orders, quotes, i);
    assert AttemptFor(o, e);
    if IsFullFill(o, e) {
      FullFillRoute(orders, quotes, i, e);
      BestOfOrder(orders, quotes, i, None);
      assert Eligible(BestFor(quotes, o.uid, None).value, o.uid, None);
      if o.kind.Sell? && o.partiallyFillable {
        LeadIsSelected(orders, quotes, i);
      }
    }
  }

  lemma {:induction false} FullFillRoute(orders: seq<Order>, quotes: seq<RouteQuote>, i: nat, e: Entry)
    requires Quoted(orders, quotes) && i < |orders| && e in Attempts(orders[i], quotes) && IsFullFill(orders[i], e)
    ensures BestFor(quotes, orders[i].uid, None).Some? && e.route == BestFor(quotes, orders[i].uid, None).value.path
  {
    var o := orders[i];
    assert o in orders;
    if o.kind.Sell? && o.partiallyFillable {
      FractionShape(orders, quotes, i, 0);
      FractionShape(orders, quotes, i, 1);
      assert 3 * o.sellAmount / 4 < o.sellAmount && o.sellAmount / 2 < o.sellAmount;
    }
  }

  lemma {:induction false} LeadIsSelected(orders: seq<Order>, quotes: seq<RouteQuote>, i: nat)
    requires Quoted(orders, quotes) && i < |orders| && orders[i].kind.Sell?
    requires BestFor(quotes, orders[i].uid, None).Some?
    ensures BestFor(quotes, orders[i].uid, None).value.path.AmountIn() == orders[i].sellAmount
       <==> FullAmountLeads(orders[i], quotes)
  {
    var o := orders[i];
    assert SameDirection(quotes, o.uid, None, false) by {
      forall m | 0 <= m < |quotes| && Eligible(quotes[m], o.uid, None) ensures !quotes[m].path.ExactOutput() {
        assert QuoteMatches(o, quotes[m]);
      }
    }
    BestIsOptimal(quotes, o.uid, None, false);
    var k: nat :| Optimal(quotes, o.uid, None, k) && quotes[k] == BestFor(quotes, o.uid, None).value;
    OptimalLeads(o, quotes, k);
  }

  lemma OptimalLeads(o: Order, quotes: seq<RouteQuote>, k: nat)
    requires SameDirection(quotes, o.uid, None, false) && Optimal(quotes, o.uid, None, k)
    ensures quotes[k].path.AmountIn() == o.sellAmount <==> FullAmountLeads(o, quotes)
  {
    if FullQuote(o, quotes[k]) {
      assert Leads(o, quotes, k);
    } else if FullAmountLeads(o, quotes) {
      var j: nat :| Leads(o, quotes, j);
      assert false;
    }
  }

  // ---- venues that pay no less for more -------------------------------------------------------------

  function WithAmount(r: Route, amount: nat): Route {
    match r
    case V3(p) => V3(p.(amountIn := amount))
    case V4(p) => V4(p.(amountIn := amount))
    case Curve(p) => Curve(p.(amountIn := amount))
  }

  /** No venue pays a sell less for more along one candidate route. */
  ghost predicate Monotone(cfg: RouterConfig, venues: Venues, orders: seq<Order>) {
    forall r: Route, more: nat :: Listed(cfg, orders, r) && Listed(cfg, orders, WithAmount(r, more)) && !r.ExactOutput() && r.AmountIn() <= more ==>
      OwnQuote(venues, r) <= OwnQuote(venues, WithAmount(r, more))
  }

  /** Everything V4 quotes fits uint128. */
  ghost predicate V4Fits(cfg: RouterConfig, venues: Venues, orders: seq<Order>) {
    forall p :: Listed(cfg, orders, V4(p)) ==> OwnQuote(venues, V4(p)) < UINT128_LIMIT
  }

  predicate PartialSellOrder(o: Order) {
    o.kind.Sell? && o.partiallyFillable
  }

  /** Every element of `mine` follows its image under `full`, or is it. */
  ghost predicate Twinned<P(!new)>(paths: seq<P>, mine: P -> bool, full: P -> P) {
    forall k :: 0 <= k < |paths| && mine(paths[k]) ==> TwinBefore(paths, k, full)
  }

  ghost predicate TwinBefore<P(!new)>(paths: seq<P>, k: nat, full: P -> P)
    requires k < |paths|
  {
    exists j :: 0 <= j <= k && paths[j] == full(paths[k])
  }

  ghost predicate ImagesIn<P(!new)>(paths: seq<P>, images: seq<P>, full: P -> P) {
    |paths| == |images| && forall t :: 0 <= t < |paths| ==> images[t] == full(paths[t])
  }

  lemma ImagesJoin<P(!new)>(a: seq<P>, b: seq<P>, c: seq<P>, d: seq<P>, full: P -> P)
    requires ImagesIn(a, c, full) && ImagesIn(b, d, full)
    ensures ImagesIn(a + b, c + d, full)
  {
  }

  /** Three blocks with one list of images, the first being that list. */
  lemma BlocksTwinned<P(!new)>(a: seq<P>, b: seq<P>, c: seq<P>, mine: P -> bool, full: P -> P)
    requires ImagesIn(a, a, full) && ImagesIn(b, a, full) && ImagesIn(c, a, full)
    ensures Twinned(a + b + c, mine, full)
  {
    var all := a + b + c;
    forall k | 0 <= k < |all| && mine(all[k]) ensures TwinBefore(all, k, full) {
      var j := if k < |a| then k else if k < |a + b| then k - |a| else k - |a + b|;
      assert all[j] == a[j] == full(all[k]);
    }
  }

  lemma TwinnedJoin<P(!new)>(a: seq<P>, b: seq<P>, mine: P -> bool, full: P -> P)
    requires Twinned(a, mine, full) && Twinned(b, mine, full)
    ensures Twinned(a + b, mine, full)
  {
    forall k | 0 <= k < |a + b| && mine((a + b)[k]) ensures TwinBefore(a + b, k, full) {
      if k < |a| {
        assert TwinBefore(a, k, full);
        var j :| 0 <= j <= k && a[j] == full(a[k]);
        assert (a + b)[j] == a[j];
      } else {
        assert TwinBefore(b, k - |a|, full);
        var j :| 0 <= j <= k - |a| && b[j] == full(b[k - |a|]);
        assert (a + b)[j + |a|] == b[j];
      }
    }
  }

  function V3Full(amount: nat): V3Batched.Path -> V3Batched.Path {
    (p: V3Batched.Path) => p.(amountIn := amount)
  }

  function V4Full(amount: nat): V4Path -> V4Path {
    (p: V4Path) => p.(amountIn := amount)
  }

  function CurveFull(amount: nat): CurvePath -> CurvePath {
    (p: CurvePath) => p.(amountIn := amount)
  }

  lemma {:induction false} TiersByAmount(o: Order, amount: nat, more: nat, mid: Option<Token>, n: nat)
    requires n <= |FEE_TIERS|
    ensures ImagesIn(TierPaths(o.uid, o.sellToken, o.buyToken, amount, false, mid, n),
                     TierPaths(o.uid, o.sellToken, o.buyToken, more, false, mid, n), V3Full(more))
  {
    if n > 0 {
      TiersByAmount(o, amount, more, mid, n - 1);
    }
  }

  lemma {:induction false} MidsByAmount(o: Order, amount: nat, more: nat, mids: seq<Token>)
    ensures ImagesIn(MidPaths(o.uid, o.sellToken, o.buyToken, amount, false, mids),
                     MidPaths(o.uid, o.sellToken, o.buyToken, more, false, mids), V3Full(more))
  {
    if mids != [] {
      var n := |mids| - 1;
      MidsByAmount(o, amount, more, mids[..n]);
      if mids[n] != o.sellToken && mids[n] != o.buyToken {
        TiersByAmount(o, amount, more, Some(mids[n]), |FEE_TIERS|);
        ImagesJoin(MidPaths(o.uid, o.sellToken, o.buyToken, amount, false, mids[..n]),
                   TierPaths(o.uid, o.sellToken, o.buyToken, amount, false, Some(mids[n]), |FEE_TIERS|),
                   MidPaths(o.uid, o.sellToken, o.buyToken, more, false, mids[..n]),
                   TierPaths(o.uid, o.sellToken, o.buyToken, more, false, Some(mids[n]), |FEE_TIERS|), V3Full(more));
      }
    }
  }

  lemma {:induction false} PairByAmount(o: Order, amount: nat, more: nat, mids: seq<Token>)
    ensures ImagesIn(PairPaths(o.uid, o.sellToken, o.buyToken, amount, false, mids),
                     PairPaths(o.uid, o.sellToken, o.buyToken, more, false, mids), V3Full(more))
  {
    TiersByAmount(o, amount, more, None, |FEE_TIERS|);
    MidsByAmount(o, amount, more, mids);
    ImagesJoin(TierPaths(o.uid, o.sellToken, o.buyToken, amount, false, None, |FEE_TIERS|),
               MidPaths(o.uid, o.sellToken, o.buyToken, amount, false, mids),
               TierPaths(o.uid, o.sellToken, o.buyToken, more, false, None, |FEE_TIERS|),
               MidPaths(o.uid, o.sellToken, o.buyToken, more, false, mids), V3Full(more));
  }

  /** The three amounts of a partially fillable sell, one at a time. */
  lemma ThreeAmounts(o: Order, full: nat, most: nat, half: nat)
    requires PartialSellOrder(o) && full == o.sellAmount && most == 3 * o.sellAmount / 4 && half == o.sellAmount / 2
    ensures QuotedAmounts(o) == [full, most, half]
    ensures [full, most, half][..2] == [full, most] && [full, most][..1] == [full] && [full][..0] == []
  {
  }

  lemma {:induction false} V3Block(o: Order, full: nat, most: nat, half: nat, mids: seq<Token>)
    requires o.kind.Sell?
    ensures V3PathsAt(o, [full, most, half], mids)
         == PairPaths(o.uid, o.sellToken, o.buyToken, full, false, mids) + PairPaths(o.uid, o.sellToken, o.buyToken, most, false, mids)
            + PairPaths(o.uid, o.sellToken, o.buyToken, half, false, mids)
  {
    assert [full, most, half][..2] == [full, most] && [full, most][..1] == [full] && [full][..0] == [];
    var a := PairPaths(o.uid, o.sellToken, o.buyToken, full, false, mids);
    assert V3PathsAt(o, [full], mids) == [] + a == a;
  }

  /** Among the V3 candidates of a partially fillable sell, every one follows its full-amount twin, or is it. */
  lemma {:induction false} V3BlockTwinned(o: Order, mids: seq<Token>, mine: V3Batched.Path -> bool)
    requires PartialSellOrder(o)
    ensures Twinned(V3PathsAt(o, QuotedAmounts(o), mids), mine, V3Full(o.sellAmount))
  {
    var full, most, half := o.sellAmount, 3 * o.sellAmount / 4, o.sellAmount / 2;
    ThreeAmounts(o, full, most, half);
    V3Block(o, full, most, half, mids);
    PairByAmount(o, full, full, mids);
    PairByAmount(o, most, full, mids);
    PairByAmount(o, half, full, mids);
    BlocksTwinned(PairPaths(o.uid, o.sellToken, o.buyToken, full, false, mids), PairPaths(o.uid, o.sellToken, o.buyToken, most, false, mids),
                  PairPaths(o.uid, o.sellToken, o.buyToken, half, false, mids), mine, V3Full(full));
  }

  /** The order is the last one, and no other has its uid, or it is before the last one, which has another uid. */
  lemma LastOrBefore(orders: seq<Order>, o: Order)
    requires UniqueUids(orders) && o in orders
    ensures var n := |orders| - 1;
            if orders[n] == o then forall i :: 0 <= i < n ==> orders[..n][i].uid != o.uid
            else o in orders[..n] && orders[n].uid != o.uid && UniqueUids(orders[..n])
  {
  }

  lemma {:induction false} V3Twinned(orders: seq<Order>, mids: seq<Token>, o: Order)
    requires UniqueUids(orders) && PartialSellOrder(o) && o in orders
    ensures Twinned(V3Paths(orders, mids), (p: V3Batched.Path) => p.orderUid == o.uid, V3Full(o.sellAmount))
  {
    var n := |orders| - 1;
    var mine := (p: V3Batched.Path) => p.orderUid == o.uid;
    var before, block := V3Paths(orders[..n], mids), V3PathsAt(orders[n], QuotedAmounts(orders[n]), mids);
    LastOrBefore(orders, o);
    if orders[n] == o {
      V3Foreign(orders[..n], mids, o.uid);
      V3BlockTwinned(o, mids, mine);
    } else {
      V3Twinned(orders[..n], mids, o);
      V3BlockForeign(orders[n], mids, o.uid, block);
    }
    TwinnedJoin(before, block, mine, V3Full(o.sellAmount));
  }

  lemma {:induction false} V3Foreign(orders: seq<Order>, mids: seq<Token>, uid: Uid)
    requires forall i :: 0 <= i < |orders| ==> orders[i].uid != uid
    ensures forall k :: 0 <= k < |V3Paths(orders, mids)| ==> V3Paths(orders, mids)[k].orderUid != uid
  {
    var paths := V3Paths(orders, mids);
    V3PathsShape(orders, mids);
    forall k | 0 <= k < |paths| ensures paths[k].orderUid != uid {
      assert paths[k] in paths && AnswersSome(orders, V3(paths[k]));
    }
  }

  lemma {:induction false} V3BlockForeign(o: Order, mids: seq<Token>, uid: Uid, block: seq<V3Batched.Path>)
    requires o.uid != uid && block == V3PathsAt(o, QuotedAmounts(o), mids)
    ensures forall k :: 0 <= k < |block| ==> block[k].orderUid != uid
  {
    V3PathsAtShape(o, QuotedAmounts(o), mids);
    forall k | 0 <= k < |block| ensures block[k].orderUid != uid {
      assert block[k] in block;
    }
  }

  lemma {:induction false} V4Block(o: Order, full: nat, most: nat, half: nat)
    requires full < UINT128_LIMIT && most < UINT128_LIMIT && half < UINT128_LIMIT
    ensures V4PathsAt(o, [full, most, half]) == V4TierPaths(o, full) + V4TierPaths(o, most) + V4TierPaths(o, half)
  {
    assert [full, most, half][..2] == [full, most] && [full, most][..1] == [full] && [full][..0] == [];
    var a := V4TierPaths(o, full);
    assert V4PathsAt(o, [full]) == [] + a == a;
  }

  lemma {:induction false} V4BlockTwinned(o: Order, mine: V4Path -> bool)
    requires PartialSellOrder(o) && o.sellAmount < UINT128_LIMIT
    ensures Twinned(V4PathsAt(o, QuotedAmounts(o)), mine, V4Full(o.sellAmount))
  {
    var full, most, half := o.sellAmount, 3 * o.sellAmount / 4, o.sellAmount / 2;
    ThreeAmounts(o, full, most, half);
    V4Block(o, full, most, half);
    BlocksTwinned(V4TierPaths(o, full), V4TierPaths(o, most), V4TierPaths(o, half), mine, V4Full(full));
  }

  lemma {:induction false} V4Twinned(orders: seq<Order>, o: Order)
    requires UniqueUids(orders) && PartialSellOrder(o) && o.sellAmount < UINT128_LIMIT && o in orders
    ensures Twinned(V4Paths(orders), (p: V4Path) => p.orderUid == o.uid, V4Full(o.sellAmount))
  {
    var n := |orders| - 1;
    var mine := (p: V4Path) => p.orderUid == o.uid;
    var before := V4Paths(orders[..n]);
    var block := if orders[n].kind.Buy? then [] else V4PathsAt(orders[n], QuotedAmounts(orders[n]));
    LastOrBefore(orders, o);
    if orders[n] == o {
      V4Foreign(orders[..n], o.uid);
      V4BlockTwinned(o, mine);
    } else {
      V4Twinned(orders[..n], o);
      V4BlockForeign(orders[n], o.uid, block);
    }
    TwinnedJoin(before, block, mine, V4Full(o.sellAmount));
  }

  lemma {:induction false} V4Foreign(orders: seq<Order>, uid: Uid)
    requires forall i :: 0 <= i < |orders| ==> orders[i].uid != uid
    ensures forall k :: 0 <= k < |V4Paths(orders)| ==> V4Paths(orders)[k].orderUid != uid
  {
    var paths := V4Paths(orders);
    V4PathsShape(orders);
    forall k | 0 <= k < |paths| ensures paths[k].orderUid != uid {
      assert paths[k] in paths && AnswersSome(orders, V4(paths[k]));
    }
  }

  lemma {:induction false} V4BlockForeign(o: Order, uid: Uid, block: seq<V4Path>)
    requires o.uid != uid && block == if o.kind.Buy? then [] else V4PathsAt(o, QuotedAmounts(o))
    ensures forall k :: 0 <= k < |block| ==> block[k].orderUid != uid
  {
    if o.kind.Sell? {
      V4PathsAtShape(o, QuotedAmounts(o));
      forall k | 0 <= k < |block| ensures block[k].orderUid != uid {
        assert block[k] in block;
      }
    }
  }

  lemma {:induction false} CurveByAmount(pools: seq<CurvePool>, o: Order, amount: nat, more: nat)
    ensures ImagesIn(CurvePathsOf(pools, o, amount), CurvePathsOf(pools, o, more), CurveFull(more))
  {
    if pools != [] {
      CurveByAmount(pools[..|pools| - 1], o, amount, more);
    }
  }

  lemma {:induction false} CurveBlock(pools: seq<CurvePool>, o: Order, full: nat, most: nat, half: nat)
    ensures CurvePathsAt(pools, o, [full, most, half])
         == CurvePathsOf(pools, o, full) + CurvePathsOf(pools, o, most) + CurvePathsOf(pools, o, half)
  {
    assert [full, most, half][..2] == [full, most] && [full, most][..1] == [full] && [full][..0] == [];
    var a := CurvePathsOf(pools, o, full);
    assert CurvePathsAt(pools, o, [full]) == [] + a == a;
  }

  lemma {:induction false} CurveBlockTwinned(pools: seq<CurvePool>, o: Order, mine: CurvePath -> bool)
    requires PartialSellOrder(o)
    ensures Twinned(CurvePathsAt(pools, o, QuotedAmounts(o)), mine, CurveFull(o.sellAmount))
  {
    var full, most, half := o.sellAmount, 3 * o.sellAmount / 4, o.sellAmount / 2;
    ThreeAmounts(o, full, most, half);
    CurveBlock(pools, o, full, most, half);
    CurveByAmount(pools, o, full, full);
    CurveByAmount(pools, o, most, full);
    CurveByAmount(pools, o, half, full);
    BlocksTwinned(CurvePathsOf(pools, o, full), CurvePathsOf(pools, o, most), CurvePathsOf(pools, o, half), mine, CurveFull(full));
  }

  lemma {:induction false} CurveTwinned(pools: seq<CurvePool>, orders: seq<Order>, o: Order)
    requires UniqueUids(orders) && PartialSellOrder(o) && o in orders
    ensures Twinned(CurvePaths(pools, orders), (p: CurvePath) => p.orderUid == o.uid, CurveFull(o.sellAmount))
  {
    var n := |orders| - 1;
    var mine := (p: CurvePath) => p.orderUid == o.uid;
    var before := CurvePaths(pools, orders[..n]);
    var block := if orders[n].kind.Buy? then [] else CurvePathsAt(pools, orders[n], QuotedAmounts(orders[n]));
    LastOrBefore(orders, o);
    if orders[n] == o {
      CurveForeign(pools, orders[..n], o.uid);
      CurveBlockTwinned(pools, o, mine);
    } else {
      CurveTwinned(pools, orders[..n], o);
      CurveBlockForeign(pools, orders[n], o.uid, block);
    }
    TwinnedJoin(before, block, mine, CurveFull(o.sellAmount));
  }

  lemma {:induction false} CurveForeign(pools: seq<CurvePool>, orders: seq<Order>, uid: Uid)
    requires forall i :: 0 <= i < |orders| ==> orders[i].uid != uid
    ensures forall k :: 0 <= k < |CurvePaths(pools, orders)| ==> CurvePaths(pools, orders)[k].orderUid != uid
  {
    var paths := CurvePaths(pools, orders);
    CurvePathsShape(pools, orders);
    forall k | 0 <= k < |paths| ensures paths[k].orderUid != uid {
      assert paths[k] in paths && AnswersSome(orders, Curve(paths[k]));
    }
  }

  lemma {:induction false} CurveBlockForeign(pools: seq<CurvePool>, o: Order, uid: Uid, block: seq<CurvePath>)
    requires o.uid != uid && block == if o.kind.Buy? then [] else CurvePathsAt(pools, o, QuotedAmounts(o))
    ensures forall k :: 0 <= k < |block| ==> block[k].orderUid != uid
  {
    if o.kind.Sell? {
      CurvePathsAtShape(pools, o, QuotedAmounts(o));
      forall k | 0 <= k < |block| ensures block[k].orderUid != uid {
        assert block[k] in block;
      }
    }
  }

  /** Position `k` of a pool, when it is the order's, follows its full-amount twin, or is it. */
  ghost predicate FollowsTwin(quotes: seq<RouteQuote>, k: nat, amount: nat)
    requires k < |quotes|
  {
    exists j :: 0 <= j <= k && quotes[j].path == WithAmount(quotes[k].path, amount)
  }

  ghost predicate AllFollow(quotes: seq<RouteQuote>, o: Order) {
    forall k :: 0 <= k < |quotes| && quotes[k].path.OrderUid() == o.uid ==> FollowsTwin(quotes, k, o.sellAmount)
  }

  lemma FollowJoin(a: seq<RouteQuote>, b: seq<RouteQuote>, o: Order)
    requires AllFollow(a, o) && AllFollow(b, o)
    ensures AllFollow(a + b, o)
  {
    forall k | 0 <= k < |a + b| && (a + b)[k].path.OrderUid() == o.uid ensures FollowsTwin(a + b, k, o.sellAmount) {
      if k < |a| {
        assert FollowsTwin(a, k, o.sellAmount);
        var j :| 0 <= j <= k && a[j].path == WithAmount(a[k].path, o.sellAmount);
        assert (a + b)[j] == a[j];
      } else {
        assert FollowsTwin(b, k - |a|, o.sellAmount);
        var j :| 0 <= j <= k - |a| && b[j].path == WithAmount(b[k - |a|].path, o.sellAmount);
        assert (a + b)[j + |a|] == b[j];
      }
    }
  }

  lemma {:induction false} V3PartFollows(cfg: RouterConfig, venues: Venues, orders: seq<Order>, o: Order)
    requires Answering(cfg, venues, orders) && UniqueUids(orders) && PartialSellOrder(o) && o in orders
    ensures AllFollow(V3Part(cfg, venues, orders), o)
  {
    var paths, part := V3Paths(orders, cfg.mids), V3Part(cfg, venues, orders);
    V3Twinned(orders, cfg.mids, o);
    BatchedQuoter.BatchSizeIndependent(V3Batched.QuoterOf(venues.chain), paths, V3Batched.MAX_CALLS_PER_BATCH);
    forall k | 0 <= k < |part| && part[k].path.OrderUid() == o.uid ensures FollowsTwin(part, k, o.sellAmount) {
      assert TwinBefore(paths, k, V3Full(o.sellAmount));
      var j :| 0 <= j <= k && paths[j] == V3Full(o.sellAmount)(paths[k]);
      assert part[j].path == WithAmount(part[k].path, o.sellAmount);
    }
  }

  /** When everything fits the V4 filter drops nothing. */
  lemma {:induction false} V4QuotesAll(quoted: seq<BatchedQuoter.Quoted<V4Path>>)
    requires forall k :: 0 <= k < |quoted| ==> quoted[k].amountOut < UINT128_LIMIT
    ensures |V4QuotesOf(quoted)| == |quoted|
    ensures forall k :: 0 <= k < |quoted| ==> V4QuotesOf(quoted)[k] == RouteQuote(V4(quoted[k].path), quoted[k].amountOut)
  {
    if quoted != [] {
      V4QuotesAll(quoted[..|quoted| - 1]);
    }
  }

  lemma {:induction false} V4PartFollows(cfg: RouterConfig, venues: Venues, orders: seq<Order>, o: Order)
    requires Answering(cfg, venues, orders) && UniqueUids(orders) && PartialSellOrder(o) && o in orders
    requires V4Fits(cfg, venues, orders) && o.sellAmount < UINT128_LIMIT
    ensures AllFollow(V4Part(cfg, venues, orders), o)
  {
    if cfg.v4Enabled {
      var paths, part := V4Paths(orders), V4Part(cfg, venues, orders);
      var quoted := BatchedQuoter.QuotesBySize(V4Quoter.QuoterOf(venues.v4), paths, V4Quoter.MAX_CALLS_PER_BATCH);
      V4Twinned(orders, o);
      BatchedQuoter.BatchSizeIndependent(V4Quoter.QuoterOf(venues.v4), paths, V4Quoter.MAX_CALLS_PER_BATCH);
      forall k | 0 <= k < |quoted| ensures quoted[k].amountOut < UINT128_LIMIT && quoted[k].path == paths[k] {
        assert Listed(cfg, orders, V4(paths[k])) && quoted[k].amountOut == OwnQuote(venues, V4(paths[k]));
      }
      V4QuotesAll(quoted);
      forall k | 0 <= k < |part| && part[k].path.OrderUid() == o.uid ensures FollowsTwin(part, k, o.sellAmount) {
        assert TwinBefore(paths, k, V4Full(o.sellAmount));
        var j :| 0 <= j <= k && paths[j] == V4Full(o.sellAmount)(paths[k]);
        assert part[j].path == WithAmount(part[k].path, o.sellAmount);
      }
    }
  }

  lemma {:induction false} CurvePartFollows(cfg: RouterConfig, venues: Venues, orders: seq<Order>, o: Order)
    requires Answering(cfg, venues, orders) && UniqueUids(orders) && PartialSellOrder(o) && o in orders
    ensures AllFollow(CurvePart(cfg, venues, orders), o)
  {
    if cfg.curveEnabled {
      var paths, part := CurvePaths(cfg.pools, orders), CurvePart(cfg, venues, orders);
      CurveTwinned(cfg.pools, orders, o);
      BatchedQuoter.BatchSizeIndependent(CurveQuoter.QuoterOf(venues.curve), paths, CurveQuoter.MAX_CALLS_PER_BATCH);
      forall k | 0 <= k < |part| && part[k].path.OrderUid() == o.uid ensures FollowsTwin(part, k, o.sellAmount) {
        assert TwinBefore(paths, k, CurveFull(o.sellAmount));
        var j :| 0 <= j <= k && paths[j] == CurveFull(o.sellAmount)(paths[k]);
        assert part[j].path == WithAmount(part[k].path, o.sellAmount);
      }
    }
  }

  lemma {:induction false} PoolFollows(cfg: RouterConfig, venues: Venues, orders: seq<Order>, o: Order)
    requires Answering(cfg, venues, orders) && UniqueUids(orders) && PartialSellOrder(o) && o in orders
    requires V4Fits(cfg, venues, orders) && o.sellAmount < UINT128_LIMIT
    ensures AllFollow(AllQuotes(cfg, venues, orders), o)
  {
    V3PartFollows(cfg, venues, orders, o);
    V4PartFollows(cfg, venues, orders, o);
    CurvePartFollows(cfg, venues, orders, o);
    FollowJoin(V4Part(cfg, venues, orders), CurvePart(cfg, venues, orders), o);
    FollowJoin(V3Part(cfg, venues, orders), V4Part(cfg, venues, orders) + CurvePart(cfg, venues, orders), o);
  }

  /** A quote and an earlier twin for more: the twin pays at least as much. */
  lemma {:induction false} TwinPaysMore(cfg: RouterConfig, venues: Venues, orders: seq<Order>, o: Order, q: RouteQuote, twin: RouteQuote)
    requires Answering(cfg, venues, orders) && Monotone(cfg, venues, orders)
    requires q in AllQuotes(cfg, venues, orders) && twin in AllQuotes(cfg, venues, orders)
    requires twin.path == WithAmount(q.path, o.sellAmount) && !q.path.ExactOutput() && q.path.AmountIn() <= o.sellAmount
    ensures q.amountOut <= twin.amountOut
  {
    PoolIsOwn(cfg, venues, orders, q.path);
    PoolIsOwn(cfg, venues, orders, twin.path);
  }

  ghost predicate TwinsPayMore(quotes: seq<RouteQuote>, o: Order) {
    forall j, k :: 0 <= j <= k < |quotes| && IsTwin(quotes[j], quotes[k], o) ==> quotes[k].amountOut <= quotes[j].amountOut
  }

  predicate IsTwin(twin: RouteQuote, q: RouteQuote, o: Order) {
    q.path.OrderUid() == o.uid && twin.path == WithAmount(q.path, o.sellAmount)
  }

  lemma {:induction false} PoolTwinsPay(cfg: RouterConfig, venues: Venues, orders: seq<Order>, i: nat)
    requires Answering(cfg, venues, orders) && Monotone(cfg, venues, orders) && Quoted(orders, AllQuotes(cfg, venues, orders))
    requires i < |orders| && PartialSellOrder(orders[i])
    ensures TwinsPayMore(AllQuotes(cfg, venues, orders), orders[i])
  {
    var quotes := AllQuotes(cfg, venues, orders);
    forall j, k | 0 <= j <= k < |quotes| && IsTwin(quotes[j], quotes[k], orders[i]) ensures quotes[k].amountOut <= quotes[j].amountOut {
      AskedAtMost(orders[i], quotes[k]);
      assert QuoteMatches(orders[i], quotes[k]);
      TwinPaysMore(cfg, venues, orders, orders[i], quotes[k], quotes[j]);
    }
  }

  lemma AskedAtMost(o: Order, q: RouteQuote)
    requires PartialSellOrder(o)
    ensures QuoteMatches(o, q) ==> !q.path.ExactOutput() && q.path.AmountIn() <= o.sellAmount
  {
  }

  /** The first best quote of a sell is its own twin. */
  lemma {:induction false} BestIsFull(orders: seq<Order>, quotes: seq<RouteQuote>, i: nat)
    requires Quoted(orders, quotes) && i < |orders| && PartialSellOrder(orders[i]) && AllFollow(quotes, orders[i])
    requires TwinsPayMore(quotes, orders[i])
    requires BestFor(quotes, orders[i].uid, None).Some?
    ensures BestFor(quotes, orders[i].uid, None).value.path.AmountIn() == orders[i].sellAmount
  {
    var o := orders[i];
    assert SameDirection(quotes, o.uid, None, false) by {
      forall m | 0 <= m < |quotes| && Eligible(quotes[m], o.uid, None) ensures !quotes[m].path.ExactOutput() {
        assert QuoteMatches(o, quotes[m]);
      }
    }
    BestIsOptimal(quotes, o.uid, None, false);
    var k: nat :| Optimal(quotes, o.uid, None, k) && quotes[k] == BestFor(quotes, o.uid, None).value;
    assert FollowsTwin(quotes, k, o.sellAmount);
    var j :| 0 <= j <= k && quotes[j].path == WithAmount(quotes[k].path, o.sellAmount);
    assert IsTwin(quotes[j], quotes[k], o) && Eligible(quotes[j], o.uid, None);
  }

  /** With venues that pay no less for more, and everything within uint128, a full-amount quote leads, so every fill of
      a partially fillable sell executes exactly what its path was quoted for. */
  lemma {:induction false} MonotoneExecutesQuoted(cfg: RouterConfig, venues: Venues, orders: seq<Order>, i: nat, e: Entry)
    requires Answering(cfg, venues, orders) && Monotone(cfg, venues, orders) && V4Fits(cfg, venues, orders)
    requires Quoted(orders, AllQuotes(cfg, venues, orders))
    requires i < |orders| && PartialSellOrder(orders[i]) && orders[i].sellAmount < UINT128_LIMIT
    requires e in Attempts(orders[i], AllQuotes(cfg, venues, orders))
    ensures IsFullFill(orders[i], e) ==> FullAmountLeads(orders[i], AllQuotes(cfg, venues, orders))
    ensures ExecutesQuotedAmount(e)
  {
    var o, quotes := orders[i], AllQuotes(cfg, venues, orders);
    FullFillQuotedExactly(orders, quotes, i, e);
    if IsFullFill(o, e) {
      FullFillRoute(orders, quotes, i, e);
      PoolFollows(cfg, venues, orders, o);
      PoolTwinsPay(cfg, venues, orders, i);
      BestIsFull(orders, quotes, i);
      LeadIsSelected(orders, quotes, i);
    }
  }

  // ---- a market where it is not ---------------------------------------------------------------------

  /** A pool that pays 8 for 4 and 9 for 3. */
  function FallingPool(sellToken: Token, buyToken: Token): Venues {
    TableMarket(FallingTable(sellToken, buyToken), _ => 0)
  }

  predicate FourForSeven(orders: seq<Order>) {
    && |orders| == 1 && orders[0].kind.Sell? && orders[0].partiallyFillable
    && orders[0].sellAmount == 4 && orders[0].buyAmount == 7
  }

  function FallingTable(sellToken: Token, buyToken: Token): V3Batched.QuoterCall -> nat {
    c => if c == V3Batched.QuoteSingle(false, sellToken, buyToken, 4, 100) then 8
         else if c == V3Batched.QuoteSingle(false, sellToken, buyToken, 3, 100) then 9 else 0
  }

  /** All that is quoted is 8 for 4 and 9 for 3. */
  ghost predicate EightOrNine(quotes: seq<RouteQuote>) {
    forall q :: q in quotes && q.amountOut > 0 ==>
      q.path.V3? && ((q.path.AmountIn() == 4 && q.amountOut == 8) || (q.path.AmountIn() == 3 && q.amountOut == 9))
  }

  lemma {:induction false} FallingPoolQuotes(cfg: RouterConfig, orders: seq<Order>, sellToken: Token, buyToken: Token)
    requires ValidConfig(cfg.encoder) && AddressesOk(cfg, orders)
    ensures Answering(cfg, FallingPool(sellToken, buyToken), orders)
    ensures EightOrNine(AllQuotes(cfg, FallingPool(sellToken, buyToken), orders))
  {
    var v3, v4: V4Quoter.QuoterCall -> nat := FallingTable(sellToken, buyToken), _ => 0;
    TableMarketAnswers(cfg, orders, v3, v4);
    forall q | q in AllQuotes(cfg, TableMarket(v3, v4), orders) && q.amountOut > 0
      ensures q.path.V3? && ((q.path.AmountIn() == 4 && q.amountOut == 8) || (q.path.AmountIn() == 3 && q.amountOut == 9))
    {
      PoolIsOwn(cfg, TableMarket(v3, v4), orders, q.path);
      FallingQuote(sellToken, buyToken, q.path);
    }
  }

  lemma FallingQuote(sellToken: Token, buyToken: Token, r: Route)
    requires OwnQuote(TableMarket(FallingTable(sellToken, buyToken), _ => 0), r) > 0
    ensures var out := OwnQuote(TableMarket(FallingTable(sellToken, buyToken), _ => 0), r);
            r.V3? && ((r.AmountIn() == 4 && out == 8) || (r.AmountIn() == 3 && out == 9))
  {
    TableQuotes(FallingTable(sellToken, buyToken), _ => 0, r);
  }

  lemma {:induction false} NineIsQuoted(cfg: RouterConfig, orders: seq<Order>)
    requires ValidConfig(cfg.encoder) && AddressesOk(cfg, orders) && FourForSeven(orders)
    requires V3Buildable(cfg, FallingPool(orders[0].sellToken, orders[0].buyToken), orders)
    ensures var o := orders[0];
            RouteQuote(V3(DirectPath(o.uid, o.sellToken, o.buyToken, 3, false, 100)), 9)
            in AllQuotes(cfg, FallingPool(o.sellToken, o.buyToken), orders)
  {
    var o := orders[0];
    assert o in orders;
    var v3, v4: V4Quoter.QuoterCall -> nat := FallingTable(o.sellToken, o.buyToken), _ => 0;
    TableMarketAnswers(cfg, orders, v3, v4);
    var r := V3(DirectPath(o.uid, o.sellToken, o.buyToken, 3, false, 100));
    assert QuotedAmounts(o)[1] == 3;
    DirectListed(cfg, orders, 0, 3);
    DirectBuilds(r.v3);
    TableQuotes(v3, v4, r);
    PoolIsOwn(cfg, TableMarket(v3, v4), orders, r);
  }

  /** A pool paying more for less input makes the router promise the whole order the output of its three-quarter
      quote, on any pair of addresses: 4 is sold in full for 9, along a path quoted at 3; the full quote was 8. */
  lemma {:induction false} FullFillMayCarryFractionQuote(cfg: RouterConfig, orders: seq<Order>) returns (e: Entry)
    requires ValidConfig(cfg.encoder) && AddressesOk(cfg, orders) && AllSigned(orders) && FourForSeven(orders)
    ensures var venues := FallingPool(orders[0].sellToken, orders[0].buyToken);
      && V3Buildable(cfg, venues, orders) && EmittedFor(orders, AllQuotes(cfg, venues, orders), 0, e)
      && AllEncodable(cfg.encoder, RouterLedger(orders, AllQuotes(cfg, venues, orders)))
    ensures e.fills == [Fill(orders[0], 4)] && e.sold == 4 && e.bought == 9 && e.route.AmountIn() == 3
  {
    var o := orders[0];
    var venues := FallingPool(o.sellToken, o.buyToken);
    FallingPoolQuotes(cfg, orders, o.sellToken, o.buyToken);
    NineIsQuoted(cfg, orders);
    GatheredQuotesAnswer(cfg, venues, orders);
    V3OnlyEncodes(cfg, venues, orders);
    var q := RouteQuote(V3(DirectPath(o.uid, o.sellToken, o.buyToken, 3, false, 100)), 9);
    NineIsTaken(orders, AllQuotes(cfg, venues, orders), q);
    var m := FirstTrade(orders, AllQuotes(cfg, venues, orders), 0);
    e := Attempts(o, AllQuotes(cfg, venues, orders))[0];
  }

  lemma {:induction false} NineIsTaken(orders: seq<Order>, quotes: seq<RouteQuote>, q: RouteQuote)
    requires Quoted(orders, quotes) && FourForSeven(orders)
    requires EightOrNine(quotes)
    requires q in quotes && q.path.OrderUid() == orders[0].uid && q.amountOut == 9
    ensures var attempts := Attempts(orders[0], quotes);
      && |attempts| == 1 && attempts[0].fills == [Fill(orders[0], 4)]
      && attempts[0].sold == 4 && attempts[0].bought == 9 && attempts[0].route.AmountIn() == 3
  {
    var k :| 0 <= k < |quotes| && quotes[k] == q;
    BestOfOrder(orders, quotes, 0, None);
    assert Eligible(quotes[k], orders[0].uid, None);
  }
}
