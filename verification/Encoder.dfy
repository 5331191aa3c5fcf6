/** Settlement interactions for a chosen path (encoder/v3.py, encoder/v4_calldata.py,
    encoder/curve_calldata.py, RouterSolver._encode_path_interaction). Calldata is kept as the arguments
    it carries; recipient and deadline, constant over a solve, are omitted. */
module Encoder {
  import opened Wrappers
  import opened IntDivision
  import opened Models
  import opened Multicall
  import V3Path
  import V3Batched

  const BPS: nat := 10_000
  const UINT128_LIMIT: nat := 0x1_0000_0000_0000_0000_0000_0000_0000_0000

  datatype SettleCall =
    | Approve(spender: Token, amount: nat)
    | Permit2Approve(token: Token, spender: Token, amount: nat)
    | ExactInputSingle(tokenIn: Token, tokenOut: Token, fee: nat, amountIn: nat, amountOutMinimum: nat)
    | ExactOutputSingle(tokenIn: Token, tokenOut: Token, fee: nat, amountOut: nat, amountInMaximum: nat)
    | ExactInput(path: Bytes, amountIn: nat, amountOutMinimum: nat)
    | ExactOutput(path: Bytes, amountOut: nat, amountInMaximum: nat)
    | V4Swap(sellToken: Token, buyToken: Token, fee: nat, tickSpacing: nat, amountIn: nat, amountOutMinimum: nat)
    | CurveExchange(i: nat, j: nat, dx: nat, minDy: nat)

  datatype Interaction = Interaction(target: Token, call: SettleCall, inputs: seq<Flow>, outputs: seq<Flow>)

  datatype V4Path = V4Path(orderUid: Uid, tokenIn: Token, tokenOut: Token, fee: nat, tickSpacing: nat, amountIn: nat)

  datatype CurvePath = CurvePath(orderUid: Uid, tokenIn: Token, tokenOut: Token, amountIn: nat, pool: Token, i: nat, j: nat)

  /** A candidate path of any venue. V4 and Curve paths are exact-input only. */
  datatype Route = V3(v3: V3Batched.Path) | V4(v4: V4Path) | Curve(curve: CurvePath) {
    function OrderUid(): Uid {
      match this case V3(p) => p.orderUid case V4(p) => p.orderUid case Curve(p) => p.orderUid
    }
    function TokenIn(): Token {
      match this case V3(p) => p.tokenIn case V4(p) => p.tokenIn case Curve(p) => p.tokenIn
    }
    function TokenOut(): Token {
      match this case V3(p) => p.tokenOut case V4(p) => p.tokenOut case Curve(p) => p.tokenOut
    }
    function AmountIn(): nat {
      match this case V3(p) => p.amountIn case V4(p) => p.amountIn case Curve(p) => p.amountIn
    }
    predicate ExactOutput() {
      V3? && v3.exactOutput
    }
  }

  datatype Config = Config(slippageBps: nat, v3Router: Token, universalRouter: Token, permit2: Token)

  predicate ValidConfig(cfg: Config) {
    cfg.slippageBps < BPS
  }

  function ApplySlippageDown(amount: nat, slippageBps: nat): nat
    requires slippageBps < BPS
  {
    amount * (BPS - slippageBps) / BPS
  }

  function ApplySlippageUp(amount: nat, slippageBps: nat): nat {
    (amount * (BPS + slippageBps) + 9_999) / BPS
  }

  /** The slippage guards bracket the quote, by the slippage rounded leniently and by no more: the lower one is the
      largest amount within the slippage, the upper one the smallest that covers it. Neither moves the quote when
      slippage is zero. */
  lemma SlippageBrackets(amount: nat, slippageBps: nat)
    requires slippageBps < BPS
    ensures ApplySlippageDown(amount, slippageBps) <= amount <= ApplySlippageUp(amount, slippageBps)
    ensures ApplySlippageDown(amount, slippageBps) * BPS <= amount * (BPS - slippageBps)
    ensures (ApplySlippageDown(amount, slippageBps) + 1) * BPS > amount * (BPS - slippageBps)
    ensures ApplySlippageUp(amount, slippageBps) * BPS >= amount * (BPS + slippageBps)
    ensures amount > 0 ==> (ApplySlippageUp(amount, slippageBps) - 1) * BPS < amount * (BPS + slippageBps)
    ensures slippageBps == 0 ==> ApplySlippageDown(amount, 0) == amount == ApplySlippageUp(amount, 0)
  {
    var down, up := ApplySlippageDown(amount, slippageBps), ApplySlippageUp(amount, slippageBps);
    assert up == CeilDiv(amount * (BPS + slippageBps), BPS);
    DivBounds(amount * (BPS - slippageBps), BPS);
    MulLe(BPS - slippageBps, BPS, amount);
    MulLe(BPS, BPS + slippageBps, amount);
    assert down * BPS <= amount * BPS && amount * BPS <= up * BPS;
  }

  /** Exceptions an encoder can raise. */
  datatype EncodeError = BadPath | Uint128Exceeded | BadCurveArguments | SameToken

  /** `encode_v3_swap`: four entry points, by number of hops and by kind. */
  function EncodeV3Swap(cfg: Config, p: V3Batched.Path, executedSell: nat, executedBuy: nat): Result<Interaction, EncodeError>
    requires ValidConfig(cfg)
  {
    var call :=
      if p.intermediate.None? then
        Success(
          if p.exactOutput
          then ExactOutputSingle(p.tokenIn, p.tokenOut, p.feeTierIn, executedBuy, ApplySlippageUp(executedSell, cfg.slippageBps))
          else ExactInputSingle(p.tokenIn, p.tokenOut, p.feeTierIn, executedSell, ApplySlippageDown(executedBuy, cfg.slippageBps)))
      else if p.feeTierOut.None? then Failure(BadPath)
      else
        var packed :=
          if p.exactOutput
          then V3Path.Pack([p.tokenOut, p.intermediate.value, p.tokenIn], [p.feeTierOut.value, p.feeTierIn])
          else V3Path.Pack([p.tokenIn, p.intermediate.value, p.tokenOut], [p.feeTierIn, p.feeTierOut.value]);
        if packed.Failure? then Failure(BadPath)
        else
          Success(
            if p.exactOutput
            then ExactOutput(packed.value, executedBuy, ApplySlippageUp(executedSell, cfg.slippageBps))
            else ExactInput(packed.value, executedSell, ApplySlippageDown(executedBuy, cfg.slippageBps)));
    if call.Failure? then Failure(call.error)
    else Success(Interaction(cfg.v3Router, call.value, [Flow(p.tokenIn, executedSell)], [Flow(p.tokenOut, executedBuy)]))
  }

  /** `_encode_path_interaction`: the approvals a swap needs, then the swap. */
  function EncodePathInteraction(cfg: Config, route: Route, executedSell: nat, executedBuy: nat)
    : Result<seq<Interaction>, EncodeError>
    requires ValidConfig(cfg)
  {
    match route
    case Curve(p) =>
      if executedBuy == 0 || executedSell == 0 || p.i == p.j then Failure(BadCurveArguments)
      else
        Success([
          Interaction(p.tokenIn, Approve(p.pool, executedSell), [], []),
          Interaction(p.pool, CurveExchange(p.i, p.j, executedSell, ApplySlippageDown(executedBuy, cfg.slippageBps)),
                      [Flow(p.tokenIn, executedSell)], [Flow(p.tokenOut, executedBuy)])])
    case V4(p) =>
      var minimum := ApplySlippageDown(executedBuy, cfg.slippageBps);
      if executedSell == 0 || executedSell >= UINT128_LIMIT || minimum >= UINT128_LIMIT then Failure(Uint128Exceeded)
      else if p.tokenIn == p.tokenOut then Failure(SameToken)
      else
        Success([
          Interaction(p.tokenIn, Approve(cfg.permit2, executedSell), [], []),
          Interaction(cfg.permit2, Permit2Approve(p.tokenIn, cfg.universalRouter, executedSell), [], []),
          Interaction(cfg.universalRouter, V4Swap(p.tokenIn, p.tokenOut, p.fee, p.tickSpacing, executedSell, minimum),
                      [Flow(p.tokenIn, executedSell)], [Flow(p.tokenOut, executedBuy)])])
    case V3(p) =>
      var cap := if p.exactOutput then ApplySlippageUp(executedSell, cfg.slippageBps) else executedSell;
      var swap := EncodeV3Swap(cfg, p, executedSell, executedBuy);
      if swap.Failure? then Failure(swap.error)
      else Success([Interaction(p.tokenIn, Approve(cfg.v3Router, cap), [], []), swap.value])
  }

  /** The most of its input token a swap call can pull out of the settlement. */
  function MaxPull(call: SettleCall): nat {
    match call
    case Approve(_, _) => 0
    case Permit2Approve(_, _, _) => 0
    case ExactInputSingle(_, _, _, amountIn, _) => amountIn
    case ExactOutputSingle(_, _, _, _, amountInMaximum) => amountInMaximum
    case ExactInput(_, amountIn, _) => amountIn
    case ExactOutput(_, _, amountInMaximum) => amountInMaximum
    case V4Swap(_, _, _, _, amountIn, _) => amountIn
    case CurveExchange(_, _, dx, _) => dx
  }

  function FlowSum(flows: seq<Flow>, token: Token): nat {
    if flows == [] then 0
    else FlowSum(flows[..|flows| - 1], token)
         + (if flows[|flows| - 1].token == token then flows[|flows| - 1].amount else 0)
  }

  /** Declared inputs and outputs of a list of interactions, per token. */
  function InputsOf(ixs: seq<Interaction>, token: Token): nat {
    if ixs == [] then 0 else InputsOf(ixs[..|ixs| - 1], token) + FlowSum(ixs[|ixs| - 1].inputs, token)
  }

  function OutputsOf(ixs: seq<Interaction>, token: Token): nat {
    if ixs == [] then 0 else OutputsOf(ixs[..|ixs| - 1], token) + FlowSum(ixs[|ixs| - 1].outputs, token)
  }

  function AmountAt(token: Token, at: Token, amount: nat): nat {
    if token == at then amount else 0
  }

  lemma {:induction false} FlowSumOne(f: Flow, token: Token)
    ensures FlowSum([f], token) == AmountAt(token, f.token, f.amount)
    ensures FlowSum([], token) == 0
  {
    assert [f][..0] == [];
  }

  lemma {:induction false} FlowsAppend(a: seq<Interaction>, b: seq<Interaction>, token: Token)
    ensures InputsOf(a + b, token) == InputsOf(a, token) + InputsOf(b, token)
    ensures OutputsOf(a + b, token) == OutputsOf(a, token) + OutputsOf(b, token)
    decreases |b|
  {
    if b == [] {
      assert a + b == a;
    } else {
      var n := |b| - 1;
      assert (a + b)[..|a + b| - 1] == a + b[..n];
      FlowsAppend(a, b[..n], token);
    }
  }

  lemma {:induction false} SilentFlows(ixs: seq<Interaction>, token: Token)
    requires forall k :: 0 <= k < |ixs| ==> ixs[k].inputs == [] && ixs[k].outputs == []
    ensures InputsOf(ixs, token) == 0 && OutputsOf(ixs, token) == 0
  {
    if ixs != [] {
      SilentFlows(ixs[..|ixs| - 1], token);
    }
  }

  /** Whatever the venue and kind, the declared flows of one encoded fill are exactly what was executed:
      approvals declare nothing and slippage guards never leak into the declaration. */
  lemma {:induction false} EncodedFlows(cfg: Config, route: Route, executedSell: nat, executedBuy: nat, token: Token)
    requires ValidConfig(cfg)
    requires EncodePathInteraction(cfg, route, executedSell, executedBuy).Success?
    ensures var ixs := EncodePathInteraction(cfg, route, executedSell, executedBuy).value;
      && InputsOf(ixs, token) == AmountAt(token, route.TokenIn(), executedSell)
      && OutputsOf(ixs, token) == AmountAt(token, route.TokenOut(), executedBuy)
  {
    var ixs := EncodePathInteraction(cfg, route, executedSell, executedBuy).value;
    var n := |ixs| - 1;
    FlowSumOne(Flow(route.TokenIn(), executedSell), token);
    FlowSumOne(Flow(route.TokenOut(), executedBuy), token);
    SilentFlows(ixs[..n], token);
  }

  /** The swap comes last, and every approval before it grants exactly what the swap can pull, which is
      never less than what was executed. */
  lemma ApprovalMatchesPull(cfg: Config, route: Route, executedSell: nat, executedBuy: nat)
    requires ValidConfig(cfg)
    requires EncodePathInteraction(cfg, route, executedSell, executedBuy).Success?
    ensures var ixs := EncodePathInteraction(cfg, route, executedSell, executedBuy).value;
            var swap := ixs[|ixs| - 1].call;
      && |ixs| >= 2 && ixs[0].target == route.TokenIn()
      && ixs[0].call.Approve? && ixs[0].call.amount == MaxPull(swap)
      && (|ixs| == 3 ==> ixs[1].call.Permit2Approve? && ixs[1].call.amount == MaxPull(swap))
      && (|ixs| == 2 ==> ixs[0].call.spender == ixs[1].target)
      && MaxPull(swap) >= executedSell
      && (!route.ExactOutput() ==> MaxPull(swap) == executedSell)
  {
    SlippageBrackets(executedSell, cfg.slippageBps);
  }

  /** Quoter and swap walk the same pools: for every two-hop path, in both directions, the bytes that were
      quoted are the bytes that are swapped; a two-hop buy parses back to the reversed path. */
  lemma SwapWalksQuotedPath(cfg: Config, p: V3Batched.Path, executedSell: nat, executedBuy: nat)
    requires ValidConfig(cfg) && p.intermediate.Some? && p.feeTierOut.Some?
    requires forall t :: t in [p.tokenIn, p.intermediate.value, p.tokenOut] ==> V3Path.IsAddress(t)
    requires p.feeTierIn < 0x1_000_000 && p.feeTierOut.value < 0x1_000_000
    ensures V3Batched.BuildCall(p).Some? && V3Batched.BuildCall(p).value.QuotePath?
    ensures EncodeV3Swap(cfg, p, executedSell, executedBuy).Success?
    ensures var swap := EncodeV3Swap(cfg, p, executedSell, executedBuy).value.call;
            var bytes := V3Batched.BuildCall(p).value.path;
            var mid := p.intermediate.value;
      && (if p.exactOutput then swap.ExactOutput? && swap.path == bytes else swap.ExactInput? && swap.path == bytes)
      && V3Path.Parse(bytes) == Some(
           if p.exactOutput
           then (V3Path.LowerAll([p.tokenOut, mid, p.tokenIn]), [p.feeTierOut.value, p.feeTierIn])
           else (V3Path.LowerAll([p.tokenIn, mid, p.tokenOut]), [p.feeTierIn, p.feeTierOut.value]))
  {
    var mid := p.intermediate.value;
    assert V3Path.IsAddress(p.tokenIn) && V3Path.IsAddress(mid) && V3Path.IsAddress(p.tokenOut);
    if p.exactOutput {
      TwoHopBytes(p.tokenOut, p.feeTierOut.value, mid, p.feeTierIn, p.tokenIn);
    } else {
      TwoHopBytes(p.tokenIn, p.feeTierIn, mid, p.feeTierOut.value, p.tokenOut);
    }
  }

  /** Quoter and packer give one path the same bytes, and these parse back to it. */
  lemma TwoHopBytes(first: Token, feeFirst: nat, mid: Token, feeLast: nat, last: Token)
    requires V3Path.IsAddress(first) && V3Path.IsAddress(mid) && V3Path.IsAddress(last)
    requires feeFirst < 0x1_000_000 && feeLast < 0x1_000_000
    ensures V3Path.Pack([first, mid, last], [feeFirst, feeLast]).Success?
    ensures var bytes := V3Path.Pack([first, mid, last], [feeFirst, feeLast]).value;
      && V3Batched.EncodePathBytes(first, feeFirst, Some(mid), Some(feeLast), last) == Some(bytes)
      && V3Path.Parse(bytes) == Some((V3Path.LowerAll([first, mid, last]), [feeFirst, feeLast]))
  {
    var tokens, fees := [first, mid, last], [feeFirst, feeLast];
    V3Path.PackInjective(tokens, fees, tokens, fees);
    V3Path.PackRoundTrip(tokens, fees);
    forall k | 0 <= k < |tokens| ensures V3Path.BlankFree(tokens[k]) {
      V3Path.HexDecodes(tokens[k][2..]);
    }
    V3Batched.EncodersAgree(first, feeFirst, mid, feeLast, last);
  }
}
