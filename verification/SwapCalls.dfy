/** What the published calls say: the swap of a route names what was quoted, in the same direction, and pulls only what
    was approved before it. */
module SwapCalls {
  import opened Wrappers
  import opened Models
  import opened Encoder
  import V3Path
  import V3Batched
  import V4Quoter
  import CurveQuoter

  /** `minimum` is the largest amount at most the slippage below `amount`. */
  predicate LowerGuard(minimum: nat, amount: nat, slippageBps: nat) {
    minimum * 10_000 <= amount * (10_000 - slippageBps) < (minimum + 1) * 10_000
  }

  /** `maximum` is the smallest amount that covers `amount` with the slippage on top. */
  predicate UpperGuard(maximum: nat, amount: nat, slippageBps: nat) {
    amount * (10_000 + slippageBps) <= maximum * 10_000 < amount * (10_000 + slippageBps) + 10_000
  }

  /** The calls for `sold` of one token swapped into `bought` of another are an approval of the token sold, what else the
      venue needs, and the swap, which declares both amounts and pulls exactly what was approved. */
  predicate ApprovedSwap(ixs: seq<Interaction>, tokenIn: Token, tokenOut: Token, sold: nat, bought: nat) {
    && |ixs| >= 2
    && var swap := ixs[|ixs| - 1];
    && swap.inputs == [Flow(tokenIn, sold)] && swap.outputs == [Flow(tokenOut, bought)]
    && ixs[0].target == tokenIn && ixs[0].call.Approve? && ixs[0].call.amount == MaxPull(swap.call)
    && (forall k :: 0 <= k < |ixs| - 1 ==> ixs[k].inputs == [] && ixs[k].outputs == [])
    && if |ixs| == 2 then ixs[0].call.spender == swap.target
       else |ixs| == 3 && ixs[1].target == ixs[0].call.spender
            && ixs[1].call == Permit2Approve(tokenIn, swap.target, MaxPull(swap.call))
  }

  /** One hop over V3: the pair, the fee, the direction and the executed amounts. */
  predicate OneHopCall(call: SettleCall, p: V3Batched.Path, sold: nat, bought: nat, slippageBps: nat) {
    if p.exactOutput then
      && call.ExactOutputSingle? && call.tokenIn == p.tokenIn && call.tokenOut == p.tokenOut && call.fee == p.feeTierIn
      && call.amountOut == bought && UpperGuard(call.amountInMaximum, sold, slippageBps)
    else
      && call.ExactInputSingle? && call.tokenIn == p.tokenIn && call.tokenOut == p.tokenOut && call.fee == p.feeTierIn
      && call.amountIn == sold && LowerGuard(call.amountOutMinimum, bought, slippageBps)
  }

  /** Two hops over V3: the bytes lead from the token sold through the intermediate to the token bought, the other way
      round for a buy. */
  predicate TwoHopCall(call: SettleCall, p: V3Batched.Path, sold: nat, bought: nat, slippageBps: nat)
    requires p.intermediate.Some? && p.feeTierOut.Some?
  {
    if p.exactOutput then
      && call.ExactOutput? && call.amountOut == bought && UpperGuard(call.amountInMaximum, sold, slippageBps)
      && V3Path.Parse(call.path) == Some((V3Path.LowerAll([p.tokenOut, p.intermediate.value, p.tokenIn]), [p.feeTierOut.value, p.feeTierIn]))
    else
      && call.ExactInput? && call.amountIn == sold && LowerGuard(call.amountOutMinimum, bought, slippageBps)
      && V3Path.Parse(call.path) == Some((V3Path.LowerAll([p.tokenIn, p.intermediate.value, p.tokenOut]), [p.feeTierIn, p.feeTierOut.value]))
  }

  /** The call the quoter gets for a V3 path: the same pools, in the same direction, for the path's amount. */
  predicate QuoterAsks(ask: V3Batched.QuoterCall, swap: SettleCall, amount: nat) {
    match swap
    case ExactInputSingle(tokenIn, tokenOut, fee, _, _) => ask == V3Batched.QuoteSingle(false, tokenIn, tokenOut, amount, fee)
    case ExactOutputSingle(tokenIn, tokenOut, fee, _, _) => ask == V3Batched.QuoteSingle(true, tokenIn, tokenOut, amount, fee)
    case ExactInput(path, _, _) => ask == V3Batched.QuotePath(false, path, amount)
    case ExactOutput(path, _, _) => ask == V3Batched.QuotePath(true, path, amount)
    case _ => false
  }

  ghost predicate RealPath(p: V3Batched.Path) {
    && V3Path.IsAddress(p.tokenIn) && V3Path.IsAddress(p.tokenOut) && p.feeTierIn < 0x1_000_000
    && (p.intermediate.Some? <==> p.feeTierOut.Some?)
    && (p.intermediate.Some? ==> V3Path.IsAddress(p.intermediate.value) && p.feeTierOut.value < 0x1_000_000)
  }

  /** A V3 path on real addresses: the encoded calls walk the path, on the executed amounts, and ask for what the quoter
      was asked. */
  lemma V3CallExact(cfg: Config, p: V3Batched.Path, sold: nat, bought: nat)
    requires ValidConfig(cfg) && RealPath(p)
    ensures EncodePathInteraction(cfg, V3(p), sold, bought).Success? && V3Batched.BuildCall(p).Some?
    ensures var ixs := EncodePathInteraction(cfg, V3(p), sold, bought).value;
      && ApprovedSwap(ixs, p.tokenIn, p.tokenOut, sold, bought) && |ixs| == 2 && ixs[1].target == cfg.v3Router
      && (p.intermediate.None? ==> OneHopCall(ixs[1].call, p, sold, bought, cfg.slippageBps))
      && (p.intermediate.Some? ==> TwoHopCall(ixs[1].call, p, sold, bought, cfg.slippageBps))
      && QuoterAsks(V3Batched.BuildCall(p).value, ixs[1].call, p.amountIn)
  {
    Guards(cfg, sold, bought);
    if p.intermediate.Some? {
      assert forall t :: t in [p.tokenIn, p.intermediate.value, p.tokenOut] ==> V3Path.IsAddress(t);
      SwapWalksQuotedPath(cfg, p, sold, bought);
    } else {
      V3Path.HexOfAddress(p.tokenIn);
      V3Path.HexOfAddress(p.tokenOut);
    }
  }

  lemma Guards(cfg: Config, sold: nat, bought: nat)
    requires ValidConfig(cfg)
    ensures UpperGuard(ApplySlippageUp(sold, cfg.slippageBps), sold, cfg.slippageBps)
    ensures LowerGuard(ApplySlippageDown(bought, cfg.slippageBps), bought, cfg.slippageBps)
  {
    SlippageBrackets(sold, cfg.slippageBps);
    SlippageBrackets(bought, cfg.slippageBps);
  }

  /** A V4 path that encodes: the pool, direction and amounts of the call, which the quoter was asked about for the path's
      own amount. */
  lemma V4CallExact(cfg: Config, p: V4Path, sold: nat, bought: nat)
    requires ValidConfig(cfg) && EncodePathInteraction(cfg, V4(p), sold, bought).Success?
    ensures var ixs := EncodePathInteraction(cfg, V4(p), sold, bought).value;
            var call := ixs[|ixs| - 1].call;
      && ApprovedSwap(ixs, p.tokenIn, p.tokenOut, sold, bought) && |ixs| == 3
      && ixs[2].target == cfg.universalRouter && ixs[1].target == cfg.permit2
      && call.V4Swap? && call.sellToken == p.tokenIn && call.buyToken == p.tokenOut
      && call.fee == p.fee && call.tickSpacing == p.tickSpacing
      && call.amountIn == sold && LowerGuard(call.amountOutMinimum, bought, cfg.slippageBps)
    ensures V4Quoter.BuildCall(p).Some? <==>
              && V3Path.HexAddress(p.tokenIn) && V3Path.HexAddress(p.tokenOut)
              && p.fee < 0x1_000_000 && p.tickSpacing < 0x800_000 && p.amountIn < UINT128_LIMIT
    ensures V4Quoter.BuildCall(p).Some? ==>
              V4Quoter.BuildCall(p).value == V4Quoter.QuoterCall(p.tokenIn, p.tokenOut, p.fee, p.tickSpacing, p.amountIn)
  {
    Guards(cfg, sold, bought);
  }

  /** A Curve path that encodes: the pool and coin positions of `get_dy`. */
  lemma CurveCallExact(cfg: Config, p: CurvePath, sold: nat, bought: nat)
    requires ValidConfig(cfg) && EncodePathInteraction(cfg, Curve(p), sold, bought).Success?
    ensures var ixs := EncodePathInteraction(cfg, Curve(p), sold, bought).value;
            var call := ixs[|ixs| - 1].call;
      && ApprovedSwap(ixs, p.tokenIn, p.tokenOut, sold, bought) && |ixs| == 2 && ixs[1].target == p.pool
      && call.CurveExchange? && call.i == p.i && call.j == p.j
      && call.dx == sold && LowerGuard(call.minDy, bought, cfg.slippageBps)
    ensures CurveQuoter.BuildCall(p) == Some(CurveQuoter.GetDy(p.pool, p.i, p.j, p.amountIn))
  {
    Guards(cfg, sold, bought);
  }

  /** Whatever the venue, what is encoded is an approved swap. */
  lemma EncodedIsApproved(cfg: Config, route: Route, sold: nat, bought: nat)
    requires ValidConfig(cfg) && EncodePathInteraction(cfg, route, sold, bought).Success?
    ensures ApprovedSwap(EncodePathInteraction(cfg, route, sold, bought).value, route.TokenIn(), route.TokenOut(), sold, bought)
  {
  }

  /** When a V4 or Curve swap cannot be encoded: V4 takes no empty amount, none of 2^128 or more, and no pool of one token;
      Curve takes no empty amount and no single coin. */
  lemma EncoderRaisesExact(cfg: Config, route: Route, sold: nat, bought: nat)
    requires ValidConfig(cfg) && !route.V3?
    ensures EncodePathInteraction(cfg, route, sold, bought).Failure? <==>
              match route
              case V3(_) => false
              case V4(p) =>
                || sold == 0 || sold >= UINT128_LIMIT || p.tokenIn == p.tokenOut
                || bought * (BPS - cfg.slippageBps) >= UINT128_LIMIT * BPS
              case Curve(p) => sold == 0 || bought == 0 || p.i == p.j
  {
    Guards(cfg, sold, bought);
    var minimum := ApplySlippageDown(bought, cfg.slippageBps);
    assert minimum >= UINT128_LIMIT <==> bought * (BPS - cfg.slippageBps) >= UINT128_LIMIT * BPS;
  }
}
