/** The CIP-14 scorer (shadow/scoring.py): reject a solution that breaks a limit, otherwise add up the
    surplus of its trades in wei. */
module Scoring {
  import opened IntDivision
  import opened Models

  const WEI: nat := 1_000_000_000_000_000_000

  /** `_score_sell_trade`. */
  function ScoreSellTrade(executed: nat, signedSell: nat, signedBuy: nat, cpSell: nat, cpBuy: nat, native: nat): nat
    requires signedSell > 0 && cpBuy > 0
  {
    var limitBuy := CeilDiv(executed * signedBuy, signedSell);
    var bought := CeilDiv(executed * cpSell, cpBuy);
    if bought <= limitBuy then 0 else MulDiv(bought - limitBuy, native, WEI)
  }

  /** `_score_buy_trade`. */
  function ScoreBuyTrade(executed: nat, signedSell: nat, signedBuy: nat, cpSell: nat, cpBuy: nat, native: nat): nat
    requires signedSell > 0 && signedBuy > 0 && cpSell > 0
  {
    var limitSell := MulDiv(executed, signedSell, signedBuy);
    var sold := MulDiv(executed, cpBuy, cpSell);
    if limitSell <= sold then 0 else MulDiv(MulDiv(limitSell - sold, signedBuy, signedSell), native, WEI)
  }

  /** `cp.get(token, 0)`. */
  function PriceAt(prices: map<Token, nat>, t: Token): nat {
    if t in prices then prices[t] else 0
  }

  /** The trade is a fulfillment of a known order, for a positive amount, with all amounts and clearing
      prices it is judged by present. */
  predicate Judged(t: Trade, orders: map<Uid, Order>, prices: map<Token, nat>) {
    && t.kind.Fulfillment? && t.orderUid in orders && t.executedAmount > 0
    && var o := orders[t.orderUid];
       o.sellAmount > 0 && o.buyAmount > 0 && PriceAt(prices, o.sellToken) > 0 && PriceAt(prices, o.buyToken) > 0
  }

  /** The rounded limit check, for `executed` of an order at a pair of clearing prices. */
  predicate BreaksLimit(o: Order, executed: nat, cpSell: nat, cpBuy: nat)
    requires o.sellAmount > 0 && o.buyAmount > 0 && cpSell > 0 && cpBuy > 0
  {
    if o.kind.Sell?
    then CeilDiv(executed * cpSell, cpBuy) < CeilDiv(executed * o.buyAmount, o.sellAmount)
    else executed * cpBuy / cpSell > executed * o.sellAmount / o.buyAmount
  }

  predicate Violates(t: Trade, orders: map<Uid, Order>, prices: map<Token, nat>) {
    && Judged(t, orders, prices)
    && var o := orders[t.orderUid];
       BreaksLimit(o, t.executedAmount, PriceAt(prices, o.sellToken), PriceAt(prices, o.buyToken))
  }

  function TradeScore(t: Trade, orders: map<Uid, Order>, prices: map<Token, nat>, native: map<Token, nat>): nat {
    if !Judged(t, orders, prices) then 0
    else
      var o := orders[t.orderUid];
      var cpSell, cpBuy, nativeBuy := PriceAt(prices, o.sellToken), PriceAt(prices, o.buyToken), PriceAt(native, o.buyToken);
      if nativeBuy == 0 then 0
      else if o.kind.Sell? then ScoreSellTrade(t.executedAmount, o.sellAmount, o.buyAmount, cpSell, cpBuy, nativeBuy)
      else ScoreBuyTrade(t.executedAmount, o.sellAmount, o.buyAmount, cpSell, cpBuy, nativeBuy)
  }

  predicate ValidTrades(trades: seq<Trade>, orders: map<Uid, Order>, prices: map<Token, nat>) {
    forall i :: 0 <= i < |trades| ==> !Violates(trades[i], orders, prices)
  }

  function SumScores(trades: seq<Trade>, orders: map<Uid, Order>, prices: map<Token, nat>, native: map<Token, nat>): nat {
    if trades == [] then 0
    else SumScores(trades[..|trades| - 1], orders, prices, native) + TradeScore(trades[|trades| - 1], orders, prices, native)
  }

  function Score(trades: seq<Trade>, orders: map<Uid, Order>, prices: map<Token, nat>, native: map<Token, nat>): nat {
    if orders == map[] || native == map[] || !ValidTrades(trades, orders, prices) then 0
    else SumScores(trades, orders, prices, native)
  }

  /** `compute_solution_score`: the validity pass, then the summing pass. */
  method ComputeSolutionScore(trades: seq<Trade>, orders: map<Uid, Order>, prices: map<Token, nat>, native: map<Token, nat>)
    returns (total: nat)
    ensures total == Score(trades, orders, prices, native)
  {
    if orders == map[] || native == map[] {
      return 0;
    }
    for i := 0 to |trades|
      invariant ValidTrades(trades[..i], orders, prices)
    {
      var t := trades[i];
      if !t.kind.Fulfillment? || t.orderUid !in orders || t.executedAmount <= 0 {
        continue;
      }
      var o := orders[t.orderUid];
      var cpSell, cpBuy := PriceAt(prices, o.sellToken), PriceAt(prices, o.buyToken);
      if o.sellAmount == 0 || o.buyAmount == 0 || cpSell == 0 || cpBuy == 0 {
        continue;
      }
      if BreaksLimit(o, t.executedAmount, cpSell, cpBuy) {
        assert Violates(trades[i], orders, prices);
        return 0;
      }
    }
    assert trades[..|trades|] == trades;
    total := 0;
    for i := 0 to |trades|
      invariant total == SumScores(trades[..i], orders, prices, native)
    {
      assert trades[..i + 1][..i] == trades[..i];
      var t := trades[i];
      if !t.kind.Fulfillment? || t.orderUid !in orders || t.executedAmount <= 0 {
        continue;
      }
      var o := orders[t.orderUid];
      var cpSell, cpBuy, nativeBuy := PriceAt(prices, o.sellToken), PriceAt(prices, o.buyToken), PriceAt(native, o.buyToken);
      if o.sellAmount == 0 || o.buyAmount == 0 || cpSell == 0 || cpBuy == 0 || nativeBuy == 0 {
        continue;
      }
      if o.kind.Sell? {
        total := total + ScoreSellTrade(t.executedAmount, o.sellAmount, o.buyAmount, cpSell, cpBuy, nativeBuy);
      } else {
        total := total + ScoreBuyTrade(t.executedAmount, o.sellAmount, o.buyAmount, cpSell, cpBuy, nativeBuy);
      }
    }
    assert trades[..|trades|] == trades;
  }

  // ---- only price ratios matter ---------------------------------------------------------------------

  function Scaled(prices: map<Token, nat>, k: nat): map<Token, nat> {
    map t | t in prices :: prices[t] * k
  }

  lemma ScaledPrices(prices: map<Token, nat>, k: nat, t: Token)
    ensures PriceAt(Scaled(prices, k), t) == PriceAt(prices, t) * k
  {
  }

  lemma ScaledTrade(t: Trade, orders: map<Uid, Order>, prices: map<Token, nat>, native: map<Token, nat>, k: nat)
    requires k > 0
    ensures Violates(t, orders, Scaled(prices, k)) == Violates(t, orders, prices)
    ensures TradeScore(t, orders, Scaled(prices, k), native) == TradeScore(t, orders, prices, native)
  {
    if t.orderUid in orders {
      var o := orders[t.orderUid];
      var cpSell, cpBuy := PriceAt(prices, o.sellToken), PriceAt(prices, o.buyToken);
      ScaledPrices(prices, k, o.sellToken);
      ScaledPrices(prices, k, o.buyToken);
      assert cpSell * k > 0 <==> cpSell > 0 by { if cpSell > 0 { MulLt(0, cpSell, k); } }
      assert cpBuy * k > 0 <==> cpBuy > 0 by { if cpBuy > 0 { MulLt(0, cpBuy, k); } }
      if Judged(t, orders, prices) {
        var executed: nat := t.executedAmount;
        assert executed * (cpSell * k) == executed * cpSell * k;
        assert executed * (cpBuy * k) == executed * cpBuy * k;
        CeilDivScale(executed * cpSell, cpBuy, k);
        DivScale(executed * cpBuy, cpSell, k);
      }
    }
  }

  lemma {:induction false} ScaledSum(trades: seq<Trade>, orders: map<Uid, Order>, prices: map<Token, nat>, native: map<Token, nat>, k: nat)
    requires k > 0
    ensures SumScores(trades, orders, Scaled(prices, k), native) == SumScores(trades, orders, prices, native)
  {
    if trades != [] {
      ScaledSum(trades[..|trades| - 1], orders, prices, native, k);
      ScaledTrade(trades[|trades| - 1], orders, prices, native, k);
    }
  }

  /** Multiplying every clearing price by the same positive factor changes no score. */
  lemma ScaleInvariant(trades: seq<Trade>, orders: map<Uid, Order>, prices: map<Token, nat>, native: map<Token, nat>, k: nat)
    requires k > 0
    ensures Score(trades, orders, Scaled(prices, k), native) == Score(trades, orders, prices, native)
  {
    ScaledSum(trades, orders, prices, native, k);
    forall i | 0 <= i < |trades|
      ensures Violates(trades[i], orders, Scaled(prices, k)) == Violates(trades[i], orders, prices)
    {
      ScaledTrade(trades[i], orders, prices, native, k);
    }
  }

  // ---- the limit, without rounding ------------------------------------------------------------------

  /** The signed limit cross-multiplied: the clearing rate is at least the signed one. */
  predicate WithinSignedRate(o: Order, cpSell: nat, cpBuy: nat) {
    cpSell * o.sellAmount >= o.buyAmount * cpBuy
  }

  lemma SellRateSuffices(o: Order, executed: nat, cpSell: nat, cpBuy: nat, product: nat)
    requires Signed(o) && o.kind.Sell? && cpSell > 0 && cpBuy > 0
    requires product == executed * cpSell * o.sellAmount && product >= executed * o.buyAmount * cpBuy
    ensures !BreaksLimit(o, executed, cpSell, cpBuy)
  {
    var limit := CeilDiv(executed * o.buyAmount, o.sellAmount);
    if limit > 0 {
      CeilDivAtLeast(executed * o.buyAmount, o.sellAmount, limit);
      CeilDivAtLeast(executed * cpSell, cpBuy, limit);
      MulLt((limit - 1) * o.sellAmount, executed * o.buyAmount, cpBuy);
      RatesCompare(executed * cpSell, o.sellAmount, executed * o.buyAmount, cpBuy, limit - 1);
    }
  }

  lemma BuyRateSuffices(o: Order, executed: nat, cpSell: nat, cpBuy: nat, product: nat)
    requires Signed(o) && o.kind.Buy? && cpSell > 0 && cpBuy > 0
    requires product == executed * o.sellAmount * cpSell && product >= executed * cpBuy * o.buyAmount
    ensures !BreaksLimit(o, executed, cpSell, cpBuy)
  {
    var sold := executed * cpBuy / cpSell;
    DivAtLeast(executed * cpBuy, cpSell, sold);
    DivAtLeast(executed * o.sellAmount, o.buyAmount, sold);
    MulLe(sold * cpSell, executed * cpBuy, o.buyAmount);
    assert sold * o.buyAmount * cpSell == sold * cpSell * o.buyAmount;
    MulCancelLe(sold * o.buyAmount, executed * o.sellAmount, cpSell);
  }

  /** The cross-multiplied limit passes the rounded check at every executed amount. */
  lemma SignedRateSuffices(o: Order, executed: nat, cpSell: nat, cpBuy: nat)
    requires Signed(o) && cpSell > 0 && cpBuy > 0 && WithinSignedRate(o, cpSell, cpBuy)
    ensures !BreaksLimit(o, executed, cpSell, cpBuy)
  {
    var product := executed * (cpSell * o.sellAmount);
    assert product >= executed * (o.buyAmount * cpBuy) by {
      MulLe(o.buyAmount * cpBuy, cpSell * o.sellAmount, executed);
    }
    Regroup(executed, cpSell, o.sellAmount);
    Regroup(executed, o.buyAmount, cpBuy);
    if o.kind.Sell? {
      SellRateSuffices(o, executed, cpSell, cpBuy, product);
    } else {
      BuyRateSuffices(o, executed, cpSell, cpBuy, product);
    }
  }

  lemma Regroup(a: nat, b: nat, c: nat)
    ensures a * (b * c) == a * b * c == a * c * b
  {
  }

  lemma RatesCompare(got: nat, sell: nat, wanted: nat, cpBuy: nat, x: nat)
    requires sell > 0
    requires got * sell >= wanted * cpBuy && wanted * cpBuy > x * sell * cpBuy
    ensures got > x * cpBuy
  {
    assert x * sell * cpBuy == x * cpBuy * sell;
    MulCancelLt(x * cpBuy, got, sell);
  }

  /** And nothing weaker does: the rounded check passes at EVERY amount exactly when the clearing rate is
      within the signed rate. */
  lemma SignedRateExact(o: Order, cpSell: nat, cpBuy: nat)
    requires Signed(o) && cpSell > 0 && cpBuy > 0
    ensures (forall executed: nat :: !BreaksLimit(o, executed, cpSell, cpBuy)) <==> WithinSignedRate(o, cpSell, cpBuy)
  {
    if WithinSignedRate(o, cpSell, cpBuy) {
      forall executed: nat ensures !BreaksLimit(o, executed, cpSell, cpBuy) {
        SignedRateSuffices(o, executed, cpSell, cpBuy);
      }
    } else if o.kind.Sell? {
      var executed := cpBuy * o.sellAmount;
      assert executed * cpSell == cpSell * o.sellAmount * cpBuy;
      assert executed * o.buyAmount == o.buyAmount * cpBuy * o.sellAmount;
      CeilDivExact(cpSell * o.sellAmount, cpBuy);
      CeilDivExact(o.buyAmount * cpBuy, o.sellAmount);
      assert BreaksLimit(o, executed, cpSell, cpBuy);
    } else {
      var executed := cpSell * o.buyAmount;
      assert executed * cpBuy == o.buyAmount * cpBuy * cpSell;
      assert executed * o.sellAmount == cpSell * o.sellAmount * o.buyAmount;
      DivExact(o.buyAmount * cpBuy, cpSell);
      DivExact(cpSell * o.sellAmount, o.buyAmount);
      assert BreaksLimit(o, executed, cpSell, cpBuy);
    }
  }

  // ---- sub-batches ----------------------------------------------------------------------------------

  /** The trades a selection keeps. */
  function Kept(trades: seq<Trade>, keep: seq<bool>): seq<Trade>
    requires |keep| == |trades|
  {
    if trades == [] then []
    else
      var n := |trades| - 1;
      Kept(trades[..n], keep[..n]) + (if keep[n] then [trades[n]] else [])
  }

  lemma {:induction false} SumAppend(trades: seq<Trade>, t: Trade, orders: map<Uid, Order>, prices: map<Token, nat>, native: map<Token, nat>)
    ensures SumScores(trades + [t], orders, prices, native)
         == SumScores(trades, orders, prices, native) + TradeScore(t, orders, prices, native)
  {
    assert (trades + [t])[..|trades|] == trades;
  }

  lemma {:induction false} KeptOf(trades: seq<Trade>, keep: seq<bool>)
    requires |keep| == |trades|
    ensures forall t :: t in Kept(trades, keep) ==> t in trades
  {
    if trades != [] {
      KeptOf(trades[..|trades| - 1], keep[..|trades| - 1]);
    }
  }

  lemma {:induction false} SubBatchSum(trades: seq<Trade>, keep: seq<bool>, orders: map<Uid, Order>, prices: map<Token, nat>, native: map<Token, nat>)
    requires |keep| == |trades|
    ensures SumScores(Kept(trades, keep), orders, prices, native) <= SumScores(trades, orders, prices, native)
  {
    if trades != [] {
      var n := |trades| - 1;
      SubBatchSum(trades[..n], keep[..n], orders, prices, native);
      if keep[n] {
        SumAppend(Kept(trades[..n], keep[..n]), trades[n], orders, prices, native);
      } else {
        assert Kept(trades, keep) == Kept(trades[..n], keep[..n]);
      }
    }
  }

  /** A valid solution scores at least as much as any part of it at the same prices. */
  lemma {:induction false} SubBatchScoresLess(trades: seq<Trade>, keep: seq<bool>, orders: map<Uid, Order>, prices: map<Token, nat>, native: map<Token, nat>)
    requires |keep| == |trades| && ValidTrades(trades, orders, prices)
    ensures Score(Kept(trades, keep), orders, prices, native) <= Score(trades, orders, prices, native)
  {
    SubBatchSum(trades, keep, orders, prices, native);
    KeptOf(trades, keep);
    var kept := Kept(trades, keep);
    forall i | 0 <= i < |kept| ensures !Violates(kept[i], orders, prices) {
      assert kept[i] in trades;
    }
  }

  lemma {:induction false} SumSplits(a: seq<Trade>, b: seq<Trade>, orders: map<Uid, Order>, prices: map<Token, nat>, native: map<Token, nat>)
    ensures SumScores(a + b, orders, prices, native) == SumScores(a, orders, prices, native) + SumScores(b, orders, prices, native)
    decreases |b|
  {
    if b == [] {
      assert a + b == a;
    } else {
      var n := |b| - 1;
      SumSplits(a, b[..n], orders, prices, native);
      assert a + b == a + b[..n] + [b[n]];
      SumAppend(a + b[..n], b[n], orders, prices, native);
    }
  }

  /** How scores of two batches at the same prices combine: they add up when both are valid, and one
      broken limit anywhere sinks the whole. */
  lemma ScoreSplits(a: seq<Trade>, b: seq<Trade>, orders: map<Uid, Order>, prices: map<Token, nat>, native: map<Token, nat>)
    ensures Score(a + b, orders, prices, native)
         == if ValidTrades(a, orders, prices) && ValidTrades(b, orders, prices)
            then Score(a, orders, prices, native) + Score(b, orders, prices, native) else 0
  {
    SumSplits(a, b, orders, prices, native);
    var all := a + b;
    if ValidTrades(all, orders, prices) {
      assert forall i :: 0 <= i < |a| ==> a[i] == all[i];
      assert forall i :: 0 <= i < |b| ==> b[i] == all[|a| + i];
    }
  }

  /** `orders_by_uid_from_auction` (and the EBBO check's lookup): the last order wins a uid. */
  function ByUid(orders: seq<Order>): map<Uid, Order> {
    if orders == [] then map[] else ByUid(orders[..|orders| - 1])[orders[|orders| - 1].uid := orders[|orders| - 1]]
  }

  lemma {:induction false} ByUidFinds(orders: seq<Order>, o: Order)
    requires UniqueUids(orders) && o in orders
    ensures o.uid in ByUid(orders) && ByUid(orders)[o.uid] == o
  {
    var n := |orders| - 1;
    if orders[n] != o {
      var i :| 0 <= i < |orders| && orders[i] == o;
      assert orders[..n][i] == o;
      ByUidFinds(orders[..n], o);
    }
  }

  lemma {:induction false} ByUidKnows(orders: seq<Order>, uid: Uid)
    ensures uid in ByUid(orders) <==> exists o :: o in orders && o.uid == uid
    ensures uid in ByUid(orders) ==> ByUid(orders)[uid] in orders && ByUid(orders)[uid].uid == uid
  {
    if orders != [] {
      ByUidKnows(orders[..|orders| - 1], uid);
      assert orders == orders[..|orders| - 1] + [orders[|orders| - 1]];
    }
  }
}
