/** What the scorer gives a single trade, told without its functions. Together with `Scoring.ScoreSplits` this is the score
    of any batch. */
module ScoringExact {
  import opened IntDivision
  import opened Models
  import opened Scoring

  ghost predicate FloorOf(q: nat, a: nat, b: nat) {
    q * b <= a < (q + 1) * b
  }

  ghost predicate CeilOf(q: nat, a: nat, b: nat) {
    a <= q * b < a + b
  }

  ghost predicate Priced(prices: map<Token, nat>, t: Token, price: nat) {
    t in prices && prices[t] == price > 0
  }

  /** A fulfillment of a known order, for a positive amount, at clearing prices for both its tokens. */
  ghost predicate Scorable(t: Trade, o: Order, executed: nat, orders: map<Uid, Order>, prices: map<Token, nat>, cpSell: nat, cpBuy: nat) {
    && t.kind == Fulfillment && t.orderUid in orders && orders[t.orderUid] == o && t.executedAmount == executed > 0
    && o.sellAmount > 0 && o.buyAmount > 0 && Priced(prices, o.sellToken, cpSell) && Priced(prices, o.buyToken, cpBuy)
  }

  function Excess(a: nat, b: nat): nat {
    if a > b then a - b else 0
  }

  lemma FloorExact(a: nat, b: nat)
    requires b > 0
    ensures forall q :: FloorOf(q, a, b) <==> q == a / b
  {
    DivBounds(a, b);
    forall q | FloorOf(q, a, b) ensures q == a / b {
      DivUnique(a, b, q);
    }
  }

  lemma CeilExact(a: nat, b: nat)
    requires b > 0
    ensures forall q :: CeilOf(q, a, b) <==> q == CeilDiv(a, b)
  {
    forall q | CeilOf(q, a, b) ensures q == CeilDiv(a, b) {
      CeilDivUnique(a, b, q);
    }
  }

  lemma {:induction false} OneTrade(t: Trade, orders: map<Uid, Order>, prices: map<Token, nat>, native: map<Token, nat>)
    ensures Score([t], orders, prices, native)
         == if orders == map[] || native == map[] || Violates(t, orders, prices) then 0 else TradeScore(t, orders, prices, native)
  {
    assert [t][..0] == [];
    assert [t][0] == t;
    assert SumScores([], orders, prices, native) == 0;
  }

  /** A sell brings `bought` where its order asks for `limit`, both rounded up. It breaks its limit exactly when that is
      less, and scores the difference at the native price of the bought token. */
  lemma {:induction false} SellScoreExact(t: Trade, o: Order, executed: nat, orders: map<Uid, Order>, prices: map<Token, nat>,
      native: map<Token, nat>, cpSell: nat, cpBuy: nat, price: nat, bought: nat, limit: nat)
    requires Scorable(t, o, executed, orders, prices, cpSell, cpBuy) && o.kind.Sell? && Priced(native, o.buyToken, price)
    requires CeilOf(bought, executed * cpSell, cpBuy) && CeilOf(limit, executed * o.buyAmount, o.sellAmount)
    ensures Violates(t, orders, prices) <==> bought < limit
    ensures FloorOf(Score([t], orders, prices, native), Excess(bought, limit) * price, 1_000_000_000_000_000_000)
  {
    CeilExact(executed * cpSell, cpBuy);
    CeilExact(executed * o.buyAmount, o.sellAmount);
    FloorExact(Excess(bought, limit) * price, WEI);
    OneTrade(t, orders, prices, native);
  }

  /** A buy costs `sold` where its order allows `limit`, both rounded down. It breaks its limit exactly when that is more,
      and scores the difference, turned into the bought token at the signed rate, at that token's native price. */
  lemma {:induction false} BuyScoreExact(t: Trade, o: Order, executed: nat, orders: map<Uid, Order>, prices: map<Token, nat>,
      native: map<Token, nat>, cpSell: nat, cpBuy: nat, price: nat, sold: nat, limit: nat, surplus: nat)
    requires Scorable(t, o, executed, orders, prices, cpSell, cpBuy) && o.kind.Buy? && Priced(native, o.buyToken, price)
    requires FloorOf(sold, executed * cpBuy, cpSell) && FloorOf(limit, executed * o.sellAmount, o.buyAmount)
    requires FloorOf(surplus, Excess(limit, sold) * o.buyAmount, o.sellAmount)
    ensures Violates(t, orders, prices) <==> sold > limit
    ensures FloorOf(Score([t], orders, prices, native), surplus * price, 1_000_000_000_000_000_000)
  {
    FloorExact(executed * cpBuy, cpSell);
    FloorExact(executed * o.sellAmount, o.buyAmount);
    FloorExact(Excess(limit, sold) * o.buyAmount, o.sellAmount);
    FloorExact(surplus * price, WEI);
    OneTrade(t, orders, prices, native);
  }

  /** Any other trade counts for nothing, and breaks nothing unless only the native price is missing. */
  lemma {:induction false} UnscorableExact(t: Trade, orders: map<Uid, Order>, prices: map<Token, nat>, native: map<Token, nat>)
    ensures (forall o, executed, cpSell, cpBuy :: !Scorable(t, o, executed, orders, prices, cpSell, cpBuy)) ==>
              !Violates(t, orders, prices) && Score([t], orders, prices, native) == 0
    ensures (t.orderUid in orders && forall price :: !Priced(native, orders[t.orderUid].buyToken, price)) ==>
              Score([t], orders, prices, native) == 0
  {
    OneTrade(t, orders, prices, native);
    if Judged(t, orders, prices) {
      var o := orders[t.orderUid];
      assert Scorable(t, o, t.executedAmount, orders, prices, PriceAt(prices, o.sellToken), PriceAt(prices, o.buyToken));
      if PriceAt(native, o.buyToken) > 0 {
        assert Priced(native, o.buyToken, PriceAt(native, o.buyToken));
      }
    }
  }
}
