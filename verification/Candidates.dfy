/** Candidate paths per order: V3 (shared by the router and the EBBO check), V4 and Curve
    (router.py, ebbo.py, v4_quoter.py, curve_quoter.py). */
module Candidates {
  import opened Wrappers
  import opened Models
  import V3Batched
  import opened Encoder

  /** Fee and tick spacing of the standard V4 pools. */
  const STANDARD_V4_TIERS: seq<(nat, nat)> := [(100, 1), (500, 10), (3000, 60), (10000, 200)]

  datatype CurvePool = CurvePool(address: Token, coins: seq<Token>)

  function DirectPath(uid: Uid, tokenIn: Token, tokenOut: Token, amount: nat, exactOutput: bool, fee: nat): V3Batched.Path {
    V3Batched.Path(uid, tokenIn, tokenOut, amount, fee, None, None, exactOutput)
  }

  function TwoHopPath(uid: Uid, tokenIn: Token, tokenOut: Token, amount: nat, exactOutput: bool, mid: Token, fee: nat): V3Batched.Path {
    V3Batched.Path(uid, tokenIn, tokenOut, amount, fee, Some(mid), Some(fee), exactOutput)
  }

  /** One path per fee tier; `mid` is None for the direct ones. */
  function TierPaths(uid: Uid, tokenIn: Token, tokenOut: Token, amount: nat, exactOutput: bool, mid: Option<Token>,
                     n: nat): (paths: seq<V3Batched.Path>)
    requires n <= |FEE_TIERS|
  {
    if n == 0 then []
    else
      TierPaths(uid, tokenIn, tokenOut, amount, exactOutput, mid, n - 1)
        + [if mid.None? then DirectPath(uid, tokenIn, tokenOut, amount, exactOutput, FEE_TIERS[n - 1])
           else TwoHopPath(uid, tokenIn, tokenOut, amount, exactOutput, mid.value, FEE_TIERS[n - 1])]
  }

  function MidPaths(uid: Uid, tokenIn: Token, tokenOut: Token, amount: nat, exactOutput: bool, mids: seq<Token>)
    : seq<V3Batched.Path>
  {
    if mids == [] then []
    else
      var n := |mids| - 1;
      MidPaths(uid, tokenIn, tokenOut, amount, exactOutput, mids[..n])
        + (if mids[n] == tokenIn || mids[n] == tokenOut then []
           else TierPaths(uid, tokenIn, tokenOut, amount, exactOutput, Some(mids[n]), |FEE_TIERS|))
  }

  /** All V3 candidates of one pair and amount: direct tiers, then same-fee two-hops per intermediate. */
  function PairPaths(uid: Uid, tokenIn: Token, tokenOut: Token, amount: nat, exactOutput: bool, mids: seq<Token>)
    : seq<V3Batched.Path>
  {
    TierPaths(uid, tokenIn, tokenOut, amount, exactOutput, None, |FEE_TIERS|)
      + MidPaths(uid, tokenIn, tokenOut, amount, exactOutput, mids)
  }

  /** The loop over the fee tiers. */
  method BuildTierPaths(uid: Uid, tokenIn: Token, tokenOut: Token, amount: nat, exactOutput: bool, mid: Option<Token>)
    returns (paths: seq<V3Batched.Path>)
    ensures paths == TierPaths(uid, tokenIn, tokenOut, amount, exactOutput, mid, |FEE_TIERS|)
  {
    paths := [];
    for i := 0 to |FEE_TIERS|
      invariant paths == TierPaths(uid, tokenIn, tokenOut, amount, exactOutput, mid, i)
    {
      paths := paths + [if mid.None? then DirectPath(uid, tokenIn, tokenOut, amount, exactOutput, FEE_TIERS[i])
                        else TwoHopPath(uid, tokenIn, tokenOut, amount, exactOutput, mid.value, FEE_TIERS[i])];
    }
  }

  lemma {:induction false} MidPathsNext(uid: Uid, tokenIn: Token, tokenOut: Token, amount: nat, exactOutput: bool, mids: seq<Token>, m: nat)
    requires m < |mids|
    ensures MidPaths(uid, tokenIn, tokenOut, amount, exactOutput, mids[..m + 1])
         == MidPaths(uid, tokenIn, tokenOut, amount, exactOutput, mids[..m])
            + (if mids[m] == tokenIn || mids[m] == tokenOut then []
               else TierPaths(uid, tokenIn, tokenOut, amount, exactOutput, Some(mids[m]), |FEE_TIERS|))
  {
    assert mids[..m + 1][..m] == mids[..m];
  }

  /** The loop over the intermediates. */
  method BuildMidPaths(uid: Uid, tokenIn: Token, tokenOut: Token, amount: nat, exactOutput: bool, mids: seq<Token>)
    returns (paths: seq<V3Batched.Path>)
    ensures paths == MidPaths(uid, tokenIn, tokenOut, amount, exactOutput, mids)
  {
    paths := [];
    for m := 0 to |mids|
      invariant paths == MidPaths(uid, tokenIn, tokenOut, amount, exactOutput, mids[..m])
    {
      MidPathsNext(uid, tokenIn, tokenOut, amount, exactOutput, mids, m);
      if mids[m] == tokenIn || mids[m] == tokenOut {
        continue;
      }
      var tiers := BuildTierPaths(uid, tokenIn, tokenOut, amount, exactOutput, Some(mids[m]));
      paths := paths + tiers;
    }
    assert mids[..|mids|] == mids;
  }

  /** The nested loops the router and the EBBO check both run for a pair. */
  method BuildPairPaths(uid: Uid, tokenIn: Token, tokenOut: Token, amount: nat, exactOutput: bool, mids: seq<Token>)
    returns (paths: seq<V3Batched.Path>)
    ensures paths == PairPaths(uid, tokenIn, tokenOut, amount, exactOutput, mids)
  {
    var direct := BuildTierPaths(uid, tokenIn, tokenOut, amount, exactOutput, None);
    var twoHops := BuildMidPaths(uid, tokenIn, tokenOut, amount, exactOutput, mids);
    paths := direct + twoHops;
  }

  /** The amount an order fixes: what it sells, or what it buys. */
  function FixedAmount(o: Order): nat {
    if o.kind.Buy? then o.buyAmount else o.sellAmount
  }

  /** The amounts quoted for an order: partially fillable sells also at three quarters and a half. */
  function QuotedAmounts(o: Order): (amounts: seq<nat>)
    ensures |amounts| >= 1 && amounts[0] == FixedAmount(o)
  {
    if o.kind.Sell? && o.partiallyFillable
    then [o.sellAmount, 3 * o.sellAmount / 4, o.sellAmount / 2]
    else [FixedAmount(o)]
  }

  function V3PathsAt(o: Order, amounts: seq<nat>, mids: seq<Token>): seq<V3Batched.Path> {
    if amounts == [] then []
    else
      var n := |amounts| - 1;
      V3PathsAt(o, amounts[..n], mids)
        + PairPaths(o.uid, o.sellToken, o.buyToken, amounts[n], o.kind.Buy?, mids)
  }

  function V3Paths(orders: seq<Order>, mids: seq<Token>): seq<V3Batched.Path> {
    if orders == [] then []
    else
      var n := |orders| - 1;
      V3Paths(orders[..n], mids) + V3PathsAt(orders[n], QuotedAmounts(orders[n]), mids)
  }

  /** The loop over the amounts of one order. */
  method BuildV3PathsAt(o: Order, amounts: seq<nat>, mids: seq<Token>) returns (paths: seq<V3Batched.Path>)
    ensures paths == V3PathsAt(o, amounts, mids)
  {
    paths := [];
    for j := 0 to |amounts|
      invariant paths == V3PathsAt(o, amounts[..j], mids)
    {
      assert amounts[..j + 1][..j] == amounts[..j];
      var pair := BuildPairPaths(o.uid, o.sellToken, o.buyToken, amounts[j], o.kind == Buy, mids);
      paths := paths + pair;
    }
    assert amounts[..|amounts|] == amounts;
  }

  /** `_build_v3_candidate_paths`. */
  method BuildV3CandidatePaths(orders: seq<Order>, mids: seq<Token>) returns (paths: seq<V3Batched.Path>)
    ensures paths == V3Paths(orders, mids)
  {
    paths := [];
    for k := 0 to |orders|
      invariant paths == V3Paths(orders[..k], mids)
    {
      assert orders[..k + 1][..k] == orders[..k];
      var ofOrder := BuildV3PathsAt(orders[k], QuotedAmounts(orders[k]), mids);
      paths := paths + ofOrder;
    }
    assert orders[..|orders|] == orders;
  }

  function V4PathsAt(o: Order, amounts: seq<nat>): seq<V4Path> {
    if amounts == [] then []
    else
      var n := |amounts| - 1;
      V4PathsAt(o, amounts[..n]) + (if amounts[n] >= UINT128_LIMIT then [] else V4TierPaths(o, amounts[n]))
  }

  /** `make_v4_paths`. */
  function V4TierPaths(o: Order, amount: nat): (paths: seq<V4Path>)
    ensures |paths| == |STANDARD_V4_TIERS|
  {
    seq(|STANDARD_V4_TIERS|, i requires 0 <= i < |STANDARD_V4_TIERS| =>
      V4Path(o.uid, o.sellToken, o.buyToken, STANDARD_V4_TIERS[i].0, STANDARD_V4_TIERS[i].1, amount))
  }

  /** Sell orders only, and only amounts a V4 quote can carry. */
  function V4Paths(orders: seq<Order>): seq<V4Path> {
    if orders == [] then []
    else
      var n := |orders| - 1;
      V4Paths(orders[..n]) + (if orders[n].kind.Buy? then [] else V4PathsAt(orders[n], QuotedAmounts(orders[n])))
  }

  method BuildV4PathsAt(o: Order, amounts: seq<nat>) returns (paths: seq<V4Path>)
    ensures paths == V4PathsAt(o, amounts)
  {
    paths := [];
    for j := 0 to |amounts|
      invariant paths == V4PathsAt(o, amounts[..j])
    {
      assert amounts[..j + 1][..j] == amounts[..j];
      if amounts[j] >= UINT128_LIMIT {
        continue;
      }
      paths := paths + V4TierPaths(o, amounts[j]);
    }
    assert amounts[..|amounts|] == amounts;
  }

  /** `_build_v4_candidate_paths`. */
  method BuildV4CandidatePaths(orders: seq<Order>) returns (paths: seq<V4Path>)
    ensures paths == V4Paths(orders)
  {
    paths := [];
    for k := 0 to |orders|
      invariant paths == V4Paths(orders[..k])
    {
      assert orders[..k + 1][..k] == orders[..k];
      if orders[k].kind != Sell {
        continue;
      }
      var ofOrder := BuildV4PathsAt(orders[k], QuotedAmounts(orders[k]));
      paths := paths + ofOrder;
    }
    assert orders[..|orders|] == orders;
  }

  /** Position of the first occurrence, as Python's `list.index`. */
  function IndexOf(coins: seq<Token>, t: Token): (i: nat)
    requires t in coins
    ensures i < |coins| && coins[i] == t
  {
    if coins[0] == t then 0 else 1 + IndexOf(coins[1..], t)
  }

  /** `make_curve_paths`. */
  function CurvePathsOf(pools: seq<CurvePool>, o: Order, amount: nat): seq<CurvePath> {
    if pools == [] then []
    else
      var n := |pools| - 1;
      var pool := pools[n];
      CurvePathsOf(pools[..n], o, amount)
        + (if o.sellToken in pool.coins && o.buyToken in pool.coins
           then [CurvePath(o.uid, o.sellToken, o.buyToken, amount, pool.address,
                           IndexOf(pool.coins, o.sellToken), IndexOf(pool.coins, o.buyToken))]
           else [])
  }

  function CurvePathsAt(pools: seq<CurvePool>, o: Order, amounts: seq<nat>): seq<CurvePath> {
    if amounts == [] then []
    else
      var n := |amounts| - 1;
      CurvePathsAt(pools, o, amounts[..n]) + CurvePathsOf(pools, o, amounts[n])
  }

  function CurvePaths(pools: seq<CurvePool>, orders: seq<Order>): seq<CurvePath> {
    if orders == [] then []
    else
      var n := |orders| - 1;
      CurvePaths(pools, orders[..n])
        + (if orders[n].kind.Buy? then [] else CurvePathsAt(pools, orders[n], QuotedAmounts(orders[n])))
  }

  method BuildCurvePathsAt(pools: seq<CurvePool>, o: Order, amounts: seq<nat>) returns (paths: seq<CurvePath>)
    ensures paths == CurvePathsAt(pools, o, amounts)
  {
    paths := [];
    for j := 0 to |amounts|
      invariant paths == CurvePathsAt(pools, o, amounts[..j])
    {
      assert amounts[..j + 1][..j] == amounts[..j];
      paths := paths + CurvePathsOf(pools, o, amounts[j]);
    }
    assert amounts[..|amounts|] == amounts;
  }

  /** `_build_curve_candidate_paths`. */
  method BuildCurveCandidatePaths(pools: seq<CurvePool>, orders: seq<Order>) returns (paths: seq<CurvePath>)
    ensures paths == CurvePaths(pools, orders)
  {
    paths := [];
    for k := 0 to |orders|
      invariant paths == CurvePaths(pools, orders[..k])
    {
      assert orders[..k + 1][..k] == orders[..k];
      if orders[k].kind != Sell {
        continue;
      }
      var ofOrder := BuildCurvePathsAt(pools, orders[k], QuotedAmounts(orders[k]));
      paths := paths + ofOrder;
    }
    assert orders[..|orders|] == orders;
  }
}
