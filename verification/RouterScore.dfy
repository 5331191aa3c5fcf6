/** The router's solutions under the scorer: which pass the validity pass, and what they score. */
module RouterScore {
  import opened IntDivision
  import opened Models
  import opened Selection
  import opened Ledger
  import opened Router
  import opened RouterInvariants
  import opened Scoring

  /** The scorer's rounded-up limit for a sell fill. */
  function LimitBuy(o: Order, executed: nat): nat
    requires o.sellAmount > 0
  {
    CeilDiv(executed * o.buyAmount, o.sellAmount)
  }

  // ---- full fills -----------------------------------------------------------------------------------

  /** Every full fill keeps the signed limit, cross-multiplied and unrounded, at its clearing prices. */
  lemma FullFillWithinSignedRate(o: Order, e: Entry)
    requires Signed(o) && IsFullFill(o, e)
    ensures WithinSignedRate(o, e.bought, e.sold)
  {
    if o.kind.Buy? {
      MulLe(e.sold, o.sellAmount, o.buyAmount);
      assert o.buyAmount * e.sold == e.sold * o.buyAmount;
      assert e.bought * o.sellAmount == o.sellAmount * o.buyAmount;
    } else {
      MulLe(o.buyAmount, e.bought, o.sellAmount);
    }
  }

  // ---- fraction fills -------------------------------------------------------------------------------

  lemma PartLimit(part: nat, s: nat, b: nat, num: nat, den: nat, x: nat)
    requires den > 0 && part * den <= num * s && num * b <= x * den
    ensures part * b <= x * s
  {
    MulLe(part * den, num * s, b);
    MulLe(num * b, x * den, s);
    assert part * den * b == part * b * den;
    assert num * s * b == num * b * s;
    assert x * den * s == x * s * den;
    MulCancelLe(part * b, x * s, den);
  }

  /** A floored `num/den` part of a sell, at the floored part of its limit. */
  lemma FractionShortfall(s: nat, b: nat, num: nat, den: nat)
    requires s > 0 && 0 < num < den
    ensures CeilDiv(num * s / den * b, s) <= num * b / den + 1
    ensures b % den == 0 ==> CeilDiv(num * s / den * b, s) <= num * b / den
  {
    var part: nat := num * s / den;
    var limit: nat := num * b / den;
    DivBounds(num * s, den);
    DivBounds(num * b, den);
    PartLimit(part, s, b, num, den, limit + 1);
    CeilDivAtLeast(part * b, s, limit + 2);
    if b % den == 0 {
      WholeParts(b, num, den);
      PartLimit(part, s, b, num, den, limit);
      CeilDivAtLeast(part * b, s, limit + 1);
    }
  }

  lemma WholeParts(b: nat, num: nat, den: nat)
    requires den > 0 && b % den == 0
    ensures num * b / den * den == num * b
  {
    var q := b / den;
    assert b == q * den;
    assert num * b == num * q * den;
    DivExact(num * q, den);
  }

  /** Three-quarter and half fills stay within one unit of the scorer's limit, and reach it whenever the
      bought amount divides by 4 (or 2). */
  lemma FractionNearLimit(o: Order, k: nat, out: nat)
    requires Signed(o) && k < 2 && out >= Fractions(o)[k].1
    ensures out + 1 >= LimitBuy(o, Fractions(o)[k].0)
    ensures o.buyAmount % (if k == 0 then 4 else 2) == 0 ==> out >= LimitBuy(o, Fractions(o)[k].0)
  {
    if k == 0 {
      FractionShortfall(o.sellAmount, o.buyAmount, 3, 4);
    } else {
      FractionShortfall(o.sellAmount, o.buyAmount, 1, 2);
      assert 1 * o.sellAmount / 2 == o.sellAmount / 2 && 1 * o.buyAmount / 2 == o.buyAmount / 2;
    }
  }

  /** The least output the fraction guard lets through: a quote is never zero. */
  function LeastAccepted(o: Order, k: nat): nat
    requires k < 2
  {
    if Fractions(o)[k].1 == 0 then 1 else Fractions(o)[k].1
  }

  /** A condition on the signed amounts alone: the floored pro-rata limit covers the fraction's exact one. */
  predicate FractionSafe(o: Order, k: nat)
    requires k < 2
  {
    Fractions(o)[k].0 * o.buyAmount <= LeastAccepted(o, k) * o.sellAmount
  }

  predicate GuardAccepts(o: Order, k: nat, out: nat)
    requires k < 2
  {
    out > 0 && out >= Fractions(o)[k].1
  }

  predicate MeetsLimit(o: Order, k: nat, out: nat)
    requires k < 2 && o.sellAmount > 0
  {
    out >= LimitBuy(o, Fractions(o)[k].0)
  }

  /** When the router's guard implies the scorer's: every output the fraction guard accepts meets the
      scorer's limit if and only if the order's amounts are `FractionSafe`. */
  lemma FractionGuardExact(o: Order, k: nat)
    requires Signed(o) && k < 2
    ensures (forall out: nat :: GuardAccepts(o, k, out) ==> MeetsLimit(o, k, out)) <==> FractionSafe(o, k)
  {
    var least := LeastAccepted(o, k);
    CeilDivAtLeast(Fractions(o)[k].0 * o.buyAmount, o.sellAmount, least + 1);
    assert GuardAccepts(o, k, least);
    assert MeetsLimit(o, k, least) <==> FractionSafe(o, k);
  }

  /** On evenly divisible sells this is divisibility of the bought amount: for a sell amount divisible by 4
      (by 2), the three-quarter (half) guard is safe exactly when the bought amount divides by 4 (by 2) or
      is a single unit. A bought amount divisible by 4 makes both safe at any sell amount. */
  lemma FractionSafeWhenDivisible(o: Order)
    requires Signed(o)
    ensures o.sellAmount % 4 == 0 ==> (FractionSafe(o, 0) <==> o.buyAmount % 4 == 0 || o.buyAmount == 1)
    ensures o.sellAmount % 2 == 0 ==> (FractionSafe(o, 1) <==> o.buyAmount % 2 == 0 || o.buyAmount == 1)
    ensures o.buyAmount % 4 == 0 ==> FractionSafe(o, 0) && FractionSafe(o, 1)
  {
    if o.sellAmount % 4 == 0 { ThreeQuartersSafe(o); }
    if o.sellAmount % 2 == 0 { HalfSafe(o); }
    if o.buyAmount % 4 == 0 {
      DivisibleSafe(o, 0);
      DivisibleSafe(o, 1);
    }
  }

  lemma DivisibleSafe(o: Order, k: nat)
    requires Signed(o) && k < 2 && o.buyAmount % 4 == 0
    ensures FractionSafe(o, k)
  {
    var least := LeastAccepted(o, k);
    assert o.buyAmount % (if k == 0 then 4 else 2) == 0;
    FractionNearLimit(o, k, least);
    LimitReached(o, Fractions(o)[k].0, least);
  }

  lemma LimitReached(o: Order, executed: nat, out: nat)
    requires o.sellAmount > 0
    ensures out >= LimitBuy(o, executed) <==> executed * o.buyAmount <= out * o.sellAmount
  {
    CeilDivAtLeast(executed * o.buyAmount, o.sellAmount, out + 1);
  }

  lemma ThreeQuartersSafe(o: Order)
    requires Signed(o) && o.sellAmount % 4 == 0
    ensures FractionSafe(o, 0) <==> o.buyAmount % 4 == 0 || o.buyAmount == 1
  {
    var m, b, least := o.sellAmount / 4, o.buyAmount, LeastAccepted(o, 0);
    assert o.sellAmount == m * 4 && Fractions(o)[0].0 == 3 * m;
    SafeReduces(m, 3, 4, b, least);
    assert least == if 3 * b / 4 == 0 then 1 else 3 * b / 4;
  }

  lemma HalfSafe(o: Order)
    requires Signed(o) && o.sellAmount % 2 == 0
    ensures FractionSafe(o, 1) <==> o.buyAmount % 2 == 0 || o.buyAmount == 1
  {
    var m, b, least := o.sellAmount / 2, o.buyAmount, LeastAccepted(o, 1);
    assert o.sellAmount == m * 2 && Fractions(o)[1].0 == 1 * m;
    SafeReduces(m, 1, 2, b, least);
    assert least == if b / 2 == 0 then 1 else b / 2;
  }

  lemma SafeReduces(m: nat, num: nat, den: nat, b: nat, least: nat)
    requires m > 0
    ensures num * m * b <= least * (m * den) <==> num * b <= least * den
  {
    assert num * m * b == num * b * m && least * (m * den) == least * den * m;
    if num * b <= least * den {
      MulLe(num * b, least * den, m);
    } else {
      MulLt(least * den, num * b, m);
    }
  }

  // ---- whole solutions ------------------------------------------------------------------------------

  /** The order an entry fills, and how much of it. */
  function OrderOf(e: Entry): Order
    requires |e.fills| == 1
  {
    e.fills[0].order
  }

  /** Surplus of one entry in wei, from the amounts the swap really moves. */
  function EntryScore(e: Entry, nativeBuy: nat): nat
    requires |e.fills| == 1 && OrderOf(e).sellAmount > 0
  {
    var o := OrderOf(e);
    if o.kind.Sell? then
      var limit := LimitBuy(o, e.fills[0].executed);
      if e.bought <= limit then 0 else MulDiv(e.bought - limit, nativeBuy, WEI)
    else if o.sellAmount <= e.sold then 0
    else MulDiv(MulDiv(o.sellAmount - e.sold, o.buyAmount, o.sellAmount), nativeBuy, WEI)
  }

  /** What the scorer sees of one emitted fill: its clearing rate gives back the swap's own amounts. */
  lemma EntryJudged(o: Order, e: Entry, t: Trade, byUid: map<Uid, Order>, prices: Prices, native: map<Token, nat>)
    requires Signed(o) && AttemptFor(o, e) && PricedAs(prices, e)
    requires o.uid in byUid && byUid[o.uid] == o
    requires t == Trade(Fulfillment, o.uid, e.fills[0].executed)
    ensures Violates(t, byUid, prices) <==> (o.kind.Sell? && e.bought < LimitBuy(o, e.fills[0].executed))
    ensures TradeScore(t, byUid, prices, native) == EntryScore(e, PriceAt(native, o.buyToken))
  {
    var executed := e.fills[0].executed;
    assert PriceAt(prices, o.sellToken) == e.bought && PriceAt(prices, o.buyToken) == e.sold;
    assert Judged(t, byUid, prices);
    if o.kind.Sell? {
      assert executed * e.bought == e.bought * e.sold;
      CeilDivExact(e.bought, e.sold);
    } else {
      assert executed * e.sold == e.sold * e.bought && executed * o.sellAmount == o.sellAmount * o.buyAmount;
      DivExact(e.sold, e.bought);
      DivExact(o.sellAmount, o.buyAmount);
    }
    if PriceAt(native, o.buyToken) == 0 && o.kind.Sell? {
      assert (e.bought - LimitBuy(o, executed)) * 0 == 0;
    }
  }

  /** Limit soundness of what the router emits, at the final prices of the whole batch. Every emitted fill is a
      full fill or one of the two fractions. Every full fill keeps the signed limit, cross-multiplied and
      unrounded. Every fraction pays its user at most one unit less than the scorer's rounded-up limit, and
      reaches it whenever the order's amounts are safe for it or its bought amount divides by 4 (by 2). */
  lemma RouterLimitSoundness(orders: seq<Order>, quotes: seq<RouteQuote>, k: nat)
    requires Quoted(orders, quotes) && k < |RouterLedger(orders, quotes)|
    ensures var ledger := RouterLedger(orders, quotes);
            var prices := PricesOf(ledger);
            var e := ledger[k];
      && |e.fills| == 1 && Signed(OrderOf(e)) && Payable(prices, e.fills[0])
      && var o := OrderOf(e);
      && (IsFullFill(o, e) || IsFractionFill(o, e, 0) || IsFractionFill(o, e, 1))
      && (IsFullFill(o, e) ==> WithinSignedRate(o, prices[o.sellToken], prices[o.buyToken]))
      && forall f: nat :: f < 2 && IsFractionFill(o, e, f) ==>
           && UserGets(prices, e.fills[0]) + 1 >= LimitBuy(o, e.fills[0].executed)
           && (FractionSafe(o, f) || o.buyAmount % (if f == 0 then 4 else 2) == 0 ==>
                 UserGets(prices, e.fills[0]) >= LimitBuy(o, e.fills[0].executed))
  {
    RouterUniformPrices(orders, quotes);
    RealisedRateIsExact(orders, quotes, k);
    var e := RouterLedger(orders, quotes)[k];
    var o := OrderOf(e);
    assert o in orders && PricedAs(PricesOf(RouterLedger(orders, quotes)), e);
    if IsFullFill(o, e) {
      FullFillWithinSignedRate(o, e);
    }
    forall f: nat | f < 2 && IsFractionFill(o, e, f)
      ensures e.bought + 1 >= LimitBuy(o, e.fills[0].executed)
      ensures FractionSafe(o, f) || o.buyAmount % (if f == 0 then 4 else 2) == 0 ==> e.bought >= LimitBuy(o, e.fills[0].executed)
    {
      FractionNearLimit(o, f, e.bought);
      FractionGuardExact(o, f);
      assert GuardAccepts(o, f, e.bought);
      assert FractionSafe(o, f) ==> MeetsLimit(o, f, e.bought);
    }
  }

  /** The fills of a ledger all reach the scorer's rounded limit. Full fills always do. */
  predicate LimitsMet(ledger: seq<Entry>)
    requires forall k :: 0 <= k < |ledger| ==> |ledger[k].fills| == 1 && OrderOf(ledger[k]).sellAmount > 0
  {
    forall k :: 0 <= k < |ledger| && IsFraction(ledger[k]) ==>
      ledger[k].bought >= LimitBuy(OrderOf(ledger[k]), ledger[k].fills[0].executed)
  }

  predicate IsFraction(e: Entry)
    requires |e.fills| == 1
  {
    OrderOf(e).kind.Sell? && e.fills[0].executed != OrderOf(e).sellAmount
  }

  function SumEntryScores(ledger: seq<Entry>, native: map<Token, nat>): nat
    requires forall k :: 0 <= k < |ledger| ==> |ledger[k].fills| == 1 && OrderOf(ledger[k]).sellAmount > 0
  {
    if ledger == [] then 0
    else
      var e := ledger[|ledger| - 1];
      SumEntryScores(ledger[..|ledger| - 1], native) + EntryScore(e, PriceAt(native, OrderOf(e).buyToken))
  }

  lemma {:induction false} SumMatches(ledger: seq<Entry>, trades: seq<Trade>, byUid: map<Uid, Order>, prices: Prices, native: map<Token, nat>)
    requires |trades| == |ledger|
    requires forall k :: 0 <= k < |ledger| ==> |ledger[k].fills| == 1 && OrderOf(ledger[k]).sellAmount > 0
    requires forall k :: 0 <= k < |ledger| ==>
               TradeScore(trades[k], byUid, prices, native) == EntryScore(ledger[k], PriceAt(native, OrderOf(ledger[k]).buyToken))
    ensures SumScores(trades, byUid, prices, native) == SumEntryScores(ledger, native)
  {
    if ledger != [] {
      var n := |ledger| - 1;
      SumMatches(ledger[..n], trades[..n], byUid, prices, native);
    }
  }

  /** Trade by trade, what the scorer makes of a router solution. */
  lemma {:induction false} RouterTradesJudged(auction: seq<Order>, orders: seq<Order>, quotes: seq<RouteQuote>, native: map<Token, nat>)
    requires UniqueUids(auction) && Quoted(orders, quotes) && forall o :: o in orders ==> o in auction
    ensures var ledger := RouterLedger(orders, quotes);
            var trades := TradesOf(ledger);
      && |trades| == |ledger|
      && forall k :: 0 <= k < |ledger| ==>
           && |ledger[k].fills| == 1 && Signed(OrderOf(ledger[k])) && AttemptFor(OrderOf(ledger[k]), ledger[k])
           && (Violates(trades[k], ByUid(auction), PricesOf(ledger)) <==>
                 OrderOf(ledger[k]).kind.Sell? && ledger[k].bought < LimitBuy(OrderOf(ledger[k]), ledger[k].fills[0].executed))
           && TradeScore(trades[k], ByUid(auction), PricesOf(ledger), native)
              == EntryScore(ledger[k], PriceAt(native, OrderOf(ledger[k]).buyToken))
  {
    var ledger := RouterLedger(orders, quotes);
    RouterUniformPrices(orders, quotes);
    RouterTrades(orders, quotes);
    forall k | 0 <= k < |ledger|
      ensures |ledger[k].fills| == 1 && Signed(OrderOf(ledger[k])) && AttemptFor(OrderOf(ledger[k]), ledger[k])
      ensures Violates(TradesOf(ledger)[k], ByUid(auction), PricesOf(ledger)) <==>
                OrderOf(ledger[k]).kind.Sell? && ledger[k].bought < LimitBuy(OrderOf(ledger[k]), ledger[k].fills[0].executed)
      ensures TradeScore(TradesOf(ledger)[k], ByUid(auction), PricesOf(ledger), native)
           == EntryScore(ledger[k], PriceAt(native, OrderOf(ledger[k]).buyToken))
    {
      var o := OrderOf(ledger[k]);
      assert o in orders && o in auction;
      ByUidFinds(auction, o);
      assert PricedAs(PricesOf(ledger), ledger[k]);
      EntryJudged(o, ledger[k], TradesOf(ledger)[k], ByUid(auction), PricesOf(ledger), native);
    }
  }

  /** Exactly which router solutions survive the scorer: those whose fraction fills reach the rounded-up
      limit. A surviving solution scores the sum of its fills' real surpluses, with no rounding from the
      clearing prices; any other scores 0 as a whole. */
  lemma {:induction false} RouterScoreExact(auction: seq<Order>, orders: seq<Order>, quotes: seq<RouteQuote>, native: map<Token, nat>)
    requires UniqueUids(auction) && Quoted(orders, quotes) && forall o :: o in orders ==> o in auction
    requires auction != [] && native != map[]
    ensures var ledger := RouterLedger(orders, quotes);
      && (forall k :: 0 <= k < |ledger| ==> |ledger[k].fills| == 1 && OrderOf(ledger[k]).sellAmount > 0)
      && (ValidTrades(TradesOf(ledger), ByUid(auction), PricesOf(ledger)) <==> LimitsMet(ledger))
      && Score(TradesOf(ledger), ByUid(auction), PricesOf(ledger), native)
         == if LimitsMet(ledger) then SumEntryScores(ledger, native) else 0
  {
    var ledger := RouterLedger(orders, quotes);
    var trades := TradesOf(ledger);
    RouterTradesJudged(auction, orders, quotes, native);
    forall k | 0 <= k < |ledger| && ledger[k].fills[0].executed == OrderOf(ledger[k]).sellAmount && OrderOf(ledger[k]).kind.Sell?
      ensures ledger[k].bought >= LimitBuy(OrderOf(ledger[k]), ledger[k].fills[0].executed)
    {
      FullSellMeetsLimit(OrderOf(ledger[k]), ledger[k]);
    }
    SumMatches(ledger, trades, ByUid(auction), PricesOf(ledger), native);
    assert auction[|auction| - 1].uid in ByUid(auction);
  }

  lemma FullSellMeetsLimit(o: Order, e: Entry)
    requires Signed(o) && o.kind.Sell? && AttemptFor(o, e) && e.fills[0].executed == o.sellAmount
    ensures e.bought >= LimitBuy(o, e.fills[0].executed)
  {
    assert o.sellAmount * o.buyAmount == o.buyAmount * o.sellAmount;
    CeilDivExact(o.buyAmount, o.sellAmount);
    assert 3 * o.sellAmount / 4 < o.sellAmount && o.sellAmount / 2 < o.sellAmount;
    assert IsFullFill(o, e);
  }

  /** So a batch whose partially fillable sells all have safe amounts is never zeroed by the scorer,
      whatever the venues quote. */
  lemma {:induction false} SafeAmountsNeverZeroed(auction: seq<Order>, orders: seq<Order>, quotes: seq<RouteQuote>)
    requires UniqueUids(auction) && Quoted(orders, quotes) && forall o :: o in orders ==> o in auction
    requires forall o :: o in orders && o.kind.Sell? && o.partiallyFillable ==> FractionSafe(o, 0) && FractionSafe(o, 1)
    ensures ValidTrades(TradesOf(RouterLedger(orders, quotes)), ByUid(auction), PricesOf(RouterLedger(orders, quotes)))
  {
    var ledger := RouterLedger(orders, quotes);
    RouterTradesJudged(auction, orders, quotes, map[]);
    RouterUniformPrices(orders, quotes);
    forall k | 0 <= k < |ledger| ensures !Violates(TradesOf(ledger)[k], ByUid(auction), PricesOf(ledger)) {
      if OrderOf(ledger[k]).kind.Sell? {
        SafeFillMeetsLimit(OrderOf(ledger[k]), ledger[k]);
      }
    }
  }

  lemma SafeFillMeetsLimit(o: Order, e: Entry)
    requires Signed(o) && o.kind.Sell? && AttemptFor(o, e)
    requires o.partiallyFillable ==> FractionSafe(o, 0) && FractionSafe(o, 1)
    ensures e.bought >= LimitBuy(o, e.fills[0].executed)
  {
    if e.fills[0].executed == o.sellAmount {
      FullSellMeetsLimit(o, e);
    } else {
      var k := if IsFractionFill(o, e, 0) then 0 else 1;
      assert IsFractionFill(o, e, k);
      FractionGuardExact(o, k);
      assert GuardAccepts(o, k, e.bought);
      assert MeetsLimit(o, k, e.bought);
    }
  }

  // ---- unsafe fractions -----------------------------------------------------------------------------

  /** An unsafe fraction sells something, for less than the signed amount and less than its rounded limit. */
  lemma UnsafeAmounts(o: Order, k: nat)
    requires Signed(o) && k < 2 && !FractionSafe(o, k)
    ensures Fractions(o)[k].0 > 0 && LeastAccepted(o, k) < o.buyAmount
    ensures LeastAccepted(o, k) < LimitBuy(o, Fractions(o)[k].0)
  {
    var part, least := Fractions(o)[k].0, LeastAccepted(o, k);
    CeilDivAtLeast(part * o.buyAmount, o.sellAmount, least + 1);
    assert part <= o.sellAmount;
    MulLe(part, o.sellAmount, o.buyAmount);
    assert o.sellAmount * o.buyAmount == o.buyAmount * o.sellAmount;
    MulCancelLt(least, o.buyAmount, o.sellAmount);
  }

  lemma {:induction false} ShortFillZeroes(auction: seq<Order>, orders: seq<Order>, quotes: seq<RouteQuote>, e: Entry)
    requires UniqueUids(auction) && Quoted(orders, quotes) && forall o :: o in orders ==> o in auction
    requires e in RouterLedger(orders, quotes) && |e.fills| == 1 && OrderOf(e).kind.Sell? && OrderOf(e).sellAmount > 0
    requires e.bought < LimitBuy(OrderOf(e), e.fills[0].executed)
    ensures !ValidTrades(TradesOf(RouterLedger(orders, quotes)), ByUid(auction), PricesOf(RouterLedger(orders, quotes)))
  {
    RouterTradesJudged(auction, orders, quotes, map[]);
    var m :| 0 <= m < |RouterLedger(orders, quotes)| && RouterLedger(orders, quotes)[m] == e;
    assert Violates(TradesOf(RouterLedger(orders, quotes))[m], ByUid(auction), PricesOf(RouterLedger(orders, quotes)));
  }

  ghost predicate HasUnsafe(orders: seq<Order>) {
    exists i, k :: 0 <= i < |orders| && 0 <= k < 2
      && orders[i].kind.Sell? && orders[i].partiallyFillable && !FractionSafe(orders[i], k)
  }

  lemma NoneUnsafe(orders: seq<Order>)
    requires !HasUnsafe(orders)
    ensures forall o :: o in orders && o.kind.Sell? && o.partiallyFillable ==> FractionSafe(o, 0) && FractionSafe(o, 1)
  {
    forall o | o in orders && o.kind.Sell? && o.partiallyFillable ensures FractionSafe(o, 0) && FractionSafe(o, 1) {
      var i :| 0 <= i < |orders| && orders[i] == o;
    }
  }
}
