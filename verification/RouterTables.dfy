/** Markets to order: a chain for every table of answers, without errors of any kind. */
module RouterTables {
  import opened Wrappers
  import opened Models
  import opened Multicall
  import opened Encoder
  import opened Candidates
  import opened Router
  import opened RouterQuotes
  import opened RouterMarket
  import V3Path
  import V3Batched
  import V4Quoter
  import CurveQuoter
  import BatchedQuoter

  /** A number as an answer of that many bytes. */
  function Unary(n: nat): (data: Bytes)
    ensures |data| == n
  {
    seq(n, _ => 0)
  }

  function TableNode<C>(table: C -> nat): Node<C> {
    Node(c => CallResult(true, Unary(table(c))), _ => false, _ => false)
  }

  function V3Table(table: V3Batched.QuoterCall -> nat): V3Batched.Chain {
    V3Batched.Chain(TableNode(table), data => |data|, data => |data|)
  }

  function V4Table(table: V4Quoter.QuoterCall -> nat): V4Quoter.Chain {
    V4Quoter.Chain(TableNode(table), data => |data|)
  }

  /** A market in which Curve has nothing. */
  function TableMarket(v3: V3Batched.QuoterCall -> nat, v4: V4Quoter.QuoterCall -> nat): Venues {
    Venues(V3Table(v3), V4Table(v4), CurveQuoter.Chain(TableNode(_ => 0), data => |data|))
  }

  lemma TableAnswers<P, C(!new)>(q: BatchedQuoter.Quoter<P, C>, table: C -> nat, paths: seq<P>)
    requires q.node == TableNode(table) && BatchedQuoter.Buildable(q, paths)
    ensures BatchedQuoter.Answered(q, paths)
  {
  }

  /** On real addresses every V4 candidate can be quoted. */
  lemma {:induction false} V4CallBuilt(cfg: RouterConfig, orders: seq<Order>, p: V4Path)
    requires AddressesOk(cfg, orders) && p in V4Paths(orders)
    ensures V4Quoter.BuildCall(p) == Some(V4Quoter.QuoterCall(p.tokenIn, p.tokenOut, p.fee, p.tickSpacing, p.amountIn))
  {
    V4PathsShape(orders);
    assert AnswersSome(orders, V4(p));
    var i :| 0 <= i < |orders| && Answers(orders[i], V4(p));
    assert orders[i] in orders;
    V4PathsFrom(orders, p);
    FittingV4CallBuilt(p);
  }

  lemma FittingV4CallBuilt(p: V4Path)
    requires V3Path.IsAddress(p.tokenIn) && V3Path.IsAddress(p.tokenOut)
    requires p.amountIn < UINT128_LIMIT && (p.fee, p.tickSpacing) in STANDARD_V4_TIERS
    ensures V4Quoter.BuildCall(p) == Some(V4Quoter.QuoterCall(p.tokenIn, p.tokenOut, p.fee, p.tickSpacing, p.amountIn))
  {
    V3Path.HexOfAddress(p.tokenIn);
    V3Path.HexOfAddress(p.tokenOut);
  }

  /** On real addresses a table market answers. */
  lemma {:induction false} TableMarketAnswers(cfg: RouterConfig, orders: seq<Order>, v3: V3Batched.QuoterCall -> nat, v4: V4Quoter.QuoterCall -> nat)
    requires ValidConfig(cfg.encoder) && AddressesOk(cfg, orders)
    ensures Answering(cfg, TableMarket(v3, v4), orders)
  {
    var venues := TableMarket(v3, v4);
    AllV3Buildable(cfg, venues, orders);
    TableAnswers(V3Batched.QuoterOf(venues.chain), v3, V3Paths(orders, cfg.mids));
    forall k | 0 <= k < |V4Paths(orders)| ensures V4Quoter.BuildCall(V4Paths(orders)[k]).Some? {
      V4CallBuilt(cfg, orders, V4Paths(orders)[k]);
    }
    TableAnswers(V4Quoter.QuoterOf(venues.v4), v4, V4Paths(orders));
    TableAnswers(CurveQuoter.QuoterOf(venues.curve), _ => 0, CurvePaths(cfg.pools, orders));
  }

  /** What a table market quotes for a route. */
  lemma TableQuotes(v3: V3Batched.QuoterCall -> nat, v4: V4Quoter.QuoterCall -> nat, r: Route)
    ensures OwnQuote(TableMarket(v3, v4), r)
         == match r
            case V3(p) => if V3Batched.BuildCall(p).None? then 0 else v3(V3Batched.BuildCall(p).value)
            case V4(p) => if V4Quoter.BuildCall(p).None? then 0 else v4(V4Quoter.BuildCall(p).value)
            case Curve(_) => 0
  {
    match r
    case V3(p) =>
      if V3Batched.BuildCall(p).Some? {
        TableAnswer(v3, V3Batched.BuildCall(p).value);
      }
    case V4(p) =>
      if V4Quoter.BuildCall(p).Some? {
        TableAnswer(v4, V4Quoter.BuildCall(p).value);
      }
    case Curve(p) =>
      TableAnswer(_ => 0, CurveQuoter.BuildCall(p).value);
  }

  lemma TableAnswer<C>(table: C -> nat, c: C)
    ensures OneByOne(TableNode(table), c) == CallResult(true, Unary(table(c)))
  {
  }

  // ---- one direct pool ------------------------------------------------------------------------------

  lemma {:induction false} FirstTierListed(uid: Uid, tokenIn: Token, tokenOut: Token, amount: nat, exactOutput: bool, n: nat)
    requires 0 < n <= |FEE_TIERS|
    ensures DirectPath(uid, tokenIn, tokenOut, amount, exactOutput, 100) in TierPaths(uid, tokenIn, tokenOut, amount, exactOutput, None, n)
  {
    if n > 1 {
      FirstTierListed(uid, tokenIn, tokenOut, amount, exactOutput, n - 1);
    }
  }

  /** The cheapest pool of its pair is asked for every order at every amount. */
  lemma {:induction false} DirectListed(cfg: RouterConfig, orders: seq<Order>, j: nat, amount: nat)
    requires j < |orders| && amount in QuotedAmounts(orders[j])
    ensures var o := orders[j];
            Listed(cfg, orders, V3(DirectPath(o.uid, o.sellToken, o.buyToken, amount, o.kind.Buy?, 100)))
  {
    var o := orders[j];
    var p := DirectPath(o.uid, o.sellToken, o.buyToken, amount, o.kind.Buy?, 100);
    FirstTierListed(o.uid, o.sellToken, o.buyToken, amount, o.kind.Buy?, |FEE_TIERS|);
    PairPathsAt(o, QuotedAmounts(o), cfg.mids, amount);
    PairPathsListed(orders, cfg.mids, j, p);
  }

  lemma DirectBuilds(p: V3Batched.Path)
    requires p.intermediate.None? && p.feeTierIn < 0x1_000_000 && V3Path.IsAddress(p.tokenIn) && V3Path.IsAddress(p.tokenOut)
    ensures V3Batched.BuildCall(p) == Some(V3Batched.QuoteSingle(p.exactOutput, p.tokenIn, p.tokenOut, p.amountIn, p.feeTierIn))
  {
    V3Path.HexOfAddress(p.tokenIn);
    V3Path.HexOfAddress(p.tokenOut);
  }
}
