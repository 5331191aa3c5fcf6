/** The batched V4 quoter (routing/v4_quoter.py): which call asks for a path, and what the chain answers. */
module V4Quoter {
  import opened Wrappers
  import opened Models
  import opened Multicall
  import opened Encoder
  import V3Path
  import BatchedQuoter

  const MAX_CALLS_PER_BATCH: nat := 8

  /** `quoteExactInputSingle` on a pool without hooks. The pool key sorts the two currencies and a flag gives
      the direction; the ordered pair says the same. */
  datatype QuoterCall = QuoterCall(currencyIn: Token, currencyOut: Token, fee: nat, tickSpacing: nat, amount: nat)

  /** `_build_call`, None where the ABI encoder raises. The order uid plays no part in it. */
  function BuildCall(p: V4Path): Option<QuoterCall> {
    if && V3Path.HexAddress(p.tokenIn) && V3Path.HexAddress(p.tokenOut)
       && p.fee < 0x1_000_000 && p.tickSpacing < 0x800_000 && p.amountIn < UINT128_LIMIT
    then Some(QuoterCall(p.tokenIn, p.tokenOut, p.fee, p.tickSpacing, p.amountIn))
    else None
  }

  /** The V4 quoter contract: a node and the decoder of its answers, 0 where that gives up. */
  datatype Chain = Chain(node: Node<QuoterCall>, decode: Bytes -> nat)

  function QuoterOf(chain: Chain): BatchedQuoter.Quoter<V4Path, QuoterCall> {
    BatchedQuoter.Quoter(BuildCall, (p, data) => chain.decode(data), chain.node)
  }

  /** The amount the chain quotes for a path asked alone, 0 where no call can be built. */
  function PathQuote(chain: Chain, p: V4Path): nat {
    if BuildCall(p).None? then 0 else BatchedQuoter.QuoteOne(QuoterOf(chain), p)
  }
}
