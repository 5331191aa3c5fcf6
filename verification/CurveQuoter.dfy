/** The batched Curve quoter (routing/curve_quoter.py): `get_dy` on a pool, by coin positions. */
module CurveQuoter {
  import opened Wrappers
  import opened Models
  import opened Multicall
  import opened Encoder
  import BatchedQuoter

  const MAX_CALLS_PER_BATCH: nat := 8

  datatype GetDy = GetDy(pool: Token, i: nat, j: nat, dx: nat)

  /** `_build_call`: neither the order uid nor the tokens play a part in it. */
  function BuildCall(p: CurvePath): Option<GetDy> {
    Some(GetDy(p.pool, p.i, p.j, p.amountIn))
  }

  datatype Chain = Chain(node: Node<GetDy>, decode: Bytes -> nat)

  function QuoterOf(chain: Chain): BatchedQuoter.Quoter<CurvePath, GetDy> {
    BatchedQuoter.Quoter(BuildCall, (p, data) => chain.decode(data), chain.node)
  }

  function PathQuote(chain: Chain, p: CurvePath): nat {
    BatchedQuoter.QuoteOne(QuoterOf(chain), p)
  }
}
