/** The entities of an auction and a solution (models/order.py, models/solution.py). Token addresses and
    order uids are strings in one canonical case, so the source's `.lower()` calls are the identity. */
module Models {
  type Token = string
  type Uid = string

  /** Uniswap V3 pool fees, in hundredths of a basis point. */
  const FEE_TIERS: seq<nat> := [100, 500, 3000, 10000]

  datatype Kind = Sell | Buy

  datatype Order = Order(
    uid: Uid,
    sellToken: Token,
    buyToken: Token,
    sellAmount: nat,
    buyAmount: nat,
    kind: Kind,
    partiallyFillable: bool,
    owner: string,
    presign: bool,            // signing_scheme is "presign"
    erc20Funded: bool,        // sell_token_balance is "erc20"
    hasPreInteractions: bool
  )

  /** What the protocol guarantees of a signed order. */
  predicate Signed(o: Order) {
    o.sellToken != o.buyToken && o.sellAmount > 0 && o.buyAmount > 0
  }

  ghost predicate UniqueUids(orders: seq<Order>) {
    forall i, j :: 0 <= i < j < |orders| ==> orders[i].uid != orders[j].uid
  }

  ghost predicate AllSigned(orders: seq<Order>) {
    forall o :: o in orders ==> Signed(o)
  }

  datatype TradeKind = Fulfillment | Jit

  datatype Trade = Trade(kind: TradeKind, orderUid: Uid, executedAmount: int)

  /** Token flow the settlement hands to, and takes back from, an interaction. */
  datatype Flow = Flow(token: Token, amount: nat)
}
