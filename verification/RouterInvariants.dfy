/** What holds of every ledger the router's loop can produce, whatever the quotes were. */
module RouterInvariants {
  import opened Wrappers
  import opened IntDivision
  import opened Models
  import opened Encoder
  import opened Candidates
  import opened Selection
  import opened Ledger
  import opened ClearingLoop
  import opened Router

  /** Signed orders with unique uids, and quotes that answer for them. */
  ghost predicate Quoted(orders: seq<Order>, quotes: seq<RouteQuote>) {
    UniqueUids(orders) && AllSigned(orders) && QuotesMatch(orders, quotes)
  }

  /** The ledger a router solve ends with. */
  function RouterLedger(orders: seq<Order>, quotes: seq<RouteQuote>): seq<Entry> {
    Run([], AttemptLists(orders, quotes))
  }

  // ---- the shape of one attempt ---------------------------------------------------------------------

  predicate IsFullFill(o: Order, e: Entry) {
    && e.fills == [Fill(o, FixedAmount(o))]
    && if o.kind.Buy? then e.bought == o.buyAmount && e.sold <= o.sellAmount
       else e.sold == o.sellAmount && e.bought >= o.buyAmount
  }

  predicate IsFractionFill(o: Order, e: Entry, k: nat)
    requires k < 2
  {
    && o.kind.Sell? && o.partiallyFillable
    && e.fills == [Fill(o, Fractions(o)[k].0)]
    && e.sold == Fractions(o)[k].0 == e.route.AmountIn()
    && e.bought >= Fractions(o)[k].1
  }

  /** An attempt fills its own order, in full within the signed limit or at a fraction within the floored
      pro-rata limit, along a path quoted for that order. */
  predicate AttemptFor(o: Order, e: Entry) {
    && Balanced(e) && |e.fills| == 1 && e.fills[0].order == o && e.route.OrderUid() == o.uid
    && (IsFullFill(o, e) || IsFractionFill(o, e, 0) || IsFractionFill(o, e, 1))
  }

  lemma SingleBalanced(o: Order, executed: nat, route: Route, sold: nat, bought: nat)
    requires Signed(o) && sold > 0 && bought > 0
    requires route.TokenIn() == o.sellToken && route.TokenOut() == o.buyToken
    requires if o.kind.Sell? then executed == sold else executed == bought
    ensures Balanced(SingleFill(o, executed, route, sold, bought))
  {
    var e := SingleFill(o, executed, route, sold, bought);
    assert e.fills[..0] == [];
    assert SumExecuted(e.fills) == executed;
  }

  lemma FractionShape(orders: seq<Order>, quotes: seq<RouteQuote>, i: nat, k: nat)
    requires Quoted(orders, quotes) && i < |orders| && k < 2
    requires orders[i].kind.Sell? && orders[i].partiallyFillable
    ensures var f := Fractions(orders[i])[k];
            forall e :: e in FractionAttempt(orders[i], quotes, f.0, f.1) ==> AttemptFor(orders[i], e)
  {
    var o := orders[i];
    var f := Fractions(o)[k];
    assert o in orders;
    BestOfOrder(orders, quotes, i, Some(f.0));
    var best := BestFor(quotes, o.uid, Some(f.0));
    if best.Some? {
      SingleBalanced(o, f.0, best.value.path, f.0, best.value.amountOut);
    }
  }

  lemma AttemptShape(orders: seq<Order>, quotes: seq<RouteQuote>, i: nat)
    requires Quoted(orders, quotes) && i < |orders|
    ensures forall e :: e in Attempts(orders[i], quotes) ==> AttemptFor(orders[i], e)
  {
    var o := orders[i];
    assert o in orders;
    BestOfOrder(orders, quotes, i, None);
    var best := BestFor(quotes, o.uid, None);
    if best.Some? {
      if o.kind.Buy? {
        SingleBalanced(o, o.buyAmount, best.value.path, best.value.amountOut, o.buyAmount);
      } else {
        SingleBalanced(o, o.sellAmount, best.value.path, o.sellAmount, best.value.amountOut);
      }
    }
    if o.kind.Sell? && o.partiallyFillable {
      FractionShape(orders, quotes, i, 0);
      FractionShape(orders, quotes, i, 1);
    }
  }

  /** The same for all attempt lists at once, in the terms of the clearing loop. */
  lemma AttemptListsShape(orders: seq<Order>, quotes: seq<RouteQuote>)
    requires Quoted(orders, quotes)
    ensures var items := AttemptLists(orders, quotes);
      && AllTwoTokens(items) && ItemsApart(items)
      && forall i, e :: 0 <= i < |items| && e in items[i] ==> AttemptFor(orders[i], e)
  {
    var items: seq<seq<Entry>> := AttemptLists(orders, quotes);
    forall i: nat, e: Entry | i < |items| && e in items[i] ensures AttemptFor(orders[i], e) {
      AttemptShape(orders, quotes, i);
    }
    AttemptsForApart(orders, items);
  }

  /** Attempts for distinct orders trade apart. */
  lemma AttemptsForApart(orders: seq<Order>, items: seq<seq<Entry>>)
    requires UniqueUids(orders) && AllSigned(orders) && |items| == |orders|
    requires forall i, e :: 0 <= i < |items| && e in items[i] ==> AttemptFor(orders[i], e)
    ensures AllTwoTokens(items) && ItemsApart(items)
  {
    forall i: nat, k: nat | i < |items| && k < |items[i]|
      ensures items[i][k].sellToken != items[i][k].buyToken && DistinctUids(items[i][k].fills)
    {
      assert items[i][k] in items[i] && orders[i] in orders;
    }
    forall i: nat, j: nat, e: Entry, e': Entry | i < j < |items| && e in items[i] && e' in items[j]
      ensures ApartFrom(e.fills, e'.fills)
    {
      assert AttemptFor(orders[i], e) && AttemptFor(orders[j], e');
    }
  }

  // ---- invariants of the whole loop -----------------------------------------------------------------

  /** One clearing price per token over the whole run: at the end every emitted fill is still priced at its
      own realised rate, and every fill is a balanced swap for one of the orders within its limit. */
  lemma RouterUniformPrices(orders: seq<Order>, quotes: seq<RouteQuote>)
    requires Quoted(orders, quotes)
    ensures var ledger := RouterLedger(orders, quotes);
      && Uniform(ledger) && AllBalanced(ledger)
      && forall k :: 0 <= k < |ledger| ==>
           |ledger[k].fills| == 1 && ledger[k].fills[0].order in orders && AttemptFor(ledger[k].fills[0].order, ledger[k])
  {
    var items: seq<seq<Entry>> := AttemptLists(orders, quotes);
    var ledger := Run([], items);
    AttemptListsShape(orders, quotes);
    RunKeepsUniform([], items);
    forall k | 0 <= k < |ledger|
      ensures Balanced(ledger[k]) && |ledger[k].fills| == 1
      ensures ledger[k].fills[0].order in orders && AttemptFor(ledger[k].fills[0].order, ledger[k])
    {
      RunMembers([], items, k);
      var i :| 0 <= i < |items| && ledger[k] in items[i];
      assert AttemptFor(orders[i], ledger[k]);
    }
  }

  /** Greedy maximality, both ways: an order is filled exactly when one of its limit-clearing attempts
      agrees with the FINAL prices, and then by the first such attempt. So every order left out has no
      attempt within its limit, or would still be refused after the whole batch. */
  lemma FilledExactlyWhenCompatible(orders: seq<Order>, quotes: seq<RouteQuote>, i: nat)
    requires Quoted(orders, quotes) && i < |orders|
    ensures var ledger := RouterLedger(orders, quotes);
            var attempts := Attempts(orders[i], quotes);
      && (orders[i].uid in FilledOf(ledger) <==> exists k :: 0 <= k < |attempts| && EntryAgrees(PricesOf(ledger), attempts[k]))
      && (Choose(PricesOf(ledger), attempts).Some? ==> Choose(PricesOf(ledger), attempts).value in ledger)
  {
    var items: seq<seq<Entry>> := AttemptLists(orders, quotes);
    var prices := PricesOf(Run([], items));
    RouterLedgerIsDeclarative(orders, quotes);
    ChooseIn(prices, items[i]);
    FillsOwnUid(orders, quotes, i);
    FilledWhenChosen(prices, items, i, orders[i].uid);
    if Choose(prices, items[i]).Some? {
      CollectContains(prices, items, i);
    }
  }

  /** The router's ledger, read off its final prices. */
  lemma RouterLedgerIsDeclarative(orders: seq<Order>, quotes: seq<RouteQuote>)
    requires Quoted(orders, quotes)
    ensures RouterLedger(orders, quotes) == Collect(PricesOf(RouterLedger(orders, quotes)), AttemptLists(orders, quotes))
  {
    AttemptListsShape(orders, quotes);
    RunFromNothing(AttemptLists(orders, quotes));
  }

  lemma FillsOwnUid(orders: seq<Order>, quotes: seq<RouteQuote>, i: nat)
    requires Quoted(orders, quotes) && i < |orders|
    ensures var items := AttemptLists(orders, quotes);
            forall j, k :: 0 <= j < |items| && 0 <= k < |items[j]| ==> (Fills(items[j][k], orders[i].uid) <==> j == i)
  {
    var items: seq<seq<Entry>> := AttemptLists(orders, quotes);
    AttemptListsShape(orders, quotes);
    forall j: nat, k: nat | j < |items| && k < |items[j]|
      ensures Fills(items[j][k], orders[i].uid) <==> j == i
    {
      var e := items[j][k];
      assert AttemptFor(orders[j], e);
      assert e.fills[0] in e.fills;
    }
  }

  lemma AttemptsDescend(orders: seq<Order>, quotes: seq<RouteQuote>, i: nat)
    requires Quoted(orders, quotes) && i < |orders|
    ensures var attempts := Attempts(orders[i], quotes);
      && (forall k :: 0 <= k < |attempts| ==> |attempts[k].fills| == 1)
      && forall a, b :: 0 <= a < b < |attempts| ==> attempts[a].fills[0].executed >= attempts[b].fills[0].executed
  {
    AttemptShape(orders, quotes, i);
    assert 3 * orders[i].sellAmount / 4 >= orders[i].sellAmount / 2;
  }

  /** The largest feasible fill: every larger attempt of a filled order is still refused at the final prices,
      and a fraction is sold only when no quote at all reaches the full limit. */
  lemma LargestFillWins(orders: seq<Order>, quotes: seq<RouteQuote>, i: nat, e: Entry)
    requires Quoted(orders, quotes) && i < |orders|
    requires e in RouterLedger(orders, quotes) && |e.fills| == 1 && e.fills[0].order == orders[i]
    ensures e in Attempts(orders[i], quotes)
    ensures forall k :: 0 <= k < |Attempts(orders[i], quotes)| ==>
              var larger := Attempts(orders[i], quotes)[k];
              |larger.fills| == 1
              && (larger.fills[0].executed > e.fills[0].executed ==> !EntryAgrees(PricesOf(RouterLedger(orders, quotes)), larger))
    ensures orders[i].kind.Sell? && e.fills[0].executed < orders[i].sellAmount ==>
              forall q :: q in quotes && Eligible(q, orders[i].uid, None) ==> q.amountOut < orders[i].buyAmount
  {
    ChosenForOrder(orders, quotes, i, e);
    AttemptsDescend(orders, quotes, i);
    ChosenIsLargest(PricesOf(RouterLedger(orders, quotes)), Attempts(orders[i], quotes));
    BestOfOrder(orders, quotes, i, None);
    forall q | q in quotes && Eligible(q, orders[i].uid, None) && orders[i].kind.Sell? && e.fills[0].executed < orders[i].sellAmount
      ensures q.amountOut < orders[i].buyAmount
    {
      var k :| 0 <= k < |quotes| && quotes[k] == q;
    }
  }

  /** An entry of the ledger is what the final prices choose for its order. */
  lemma ChosenForOrder(orders: seq<Order>, quotes: seq<RouteQuote>, i: nat, e: Entry)
    requires Quoted(orders, quotes) && i < |orders|
    requires e in RouterLedger(orders, quotes) && |e.fills| == 1 && e.fills[0].order == orders[i]
    ensures Choose(PricesOf(RouterLedger(orders, quotes)), Attempts(orders[i], quotes)) == Some(e)
    ensures e in Attempts(orders[i], quotes)
  {
    var items: seq<seq<Entry>> := AttemptLists(orders, quotes);
    var prices := PricesOf(RouterLedger(orders, quotes));
    RouterLedgerIsDeclarative(orders, quotes);
    CollectedFrom(prices, items, e);
    var j :| 0 <= j < |items| && Choose(prices, items[j]) == Some(e);
    ChooseIn(prices, items[j]);
    AttemptShape(orders, quotes, j);
    assert AttemptFor(orders[j], e);
    assert j == i;
  }

  /** No order is filled twice, and only given orders are filled. */
  lemma RouterFillsOnce(orders: seq<Order>, quotes: seq<RouteQuote>)
    requires Quoted(orders, quotes)
    ensures var fills := FillsOf(RouterLedger(orders, quotes));
      && DistinctUids(fills)
      && forall f :: f in fills ==> f.order in orders
  {
    var items := AttemptLists(orders, quotes);
    var ledger := RouterLedger(orders, quotes);
    AttemptListsShape(orders, quotes);
    RouterLedgerIsDeclarative(orders, quotes);
    CollectDistinct(PricesOf(ledger), items);
    forall f | f in FillsOf(ledger) ensures f.order in orders {
      FilledIsGiven(orders, quotes, f);
    }
  }

  lemma FilledIsGiven(orders: seq<Order>, quotes: seq<RouteQuote>, f: Fill)
    requires Quoted(orders, quotes) && f in FillsOf(RouterLedger(orders, quotes))
    ensures f.order in orders
  {
    var ledger := RouterLedger(orders, quotes);
    RouterUniformPrices(orders, quotes);
    FillsOfMember(ledger, f);
    var k :| 0 <= k < |ledger| && f in ledger[k].fills;
    LoneFill(ledger[k], f);
  }

  lemma {:induction false} FillsOfSingles(ledger: seq<Entry>)
    requires forall k :: 0 <= k < |ledger| ==> |ledger[k].fills| == 1
    ensures |FillsOf(ledger)| == |ledger|
    ensures forall k :: 0 <= k < |ledger| ==> FillsOf(ledger)[k] == ledger[k].fills[0]
  {
    if ledger != [] {
      var n := |ledger| - 1;
      FillsOfSingles(ledger[..n]);
      assert forall k :: 0 <= k < n ==> ledger[..n][k] == ledger[k];
    }
  }

  /** Trade `k` of the solution is entry `k` of the ledger. */
  lemma RouterTrades(orders: seq<Order>, quotes: seq<RouteQuote>)
    requires Quoted(orders, quotes)
    ensures var ledger := RouterLedger(orders, quotes);
      && |TradesOf(ledger)| == |FillsOf(ledger)| == |ledger|
      && forall k :: 0 <= k < |ledger| ==>
           && |ledger[k].fills| == 1 && FillsOf(ledger)[k] == ledger[k].fills[0]
           && TradesOf(ledger)[k] == Trade(Fulfillment, ledger[k].fills[0].order.uid, ledger[k].fills[0].executed)
  {
    RouterUniformPrices(orders, quotes);
    FillsOfSingles(RouterLedger(orders, quotes));
  }

  // ---- conservation and rounding --------------------------------------------------------------------

  /** Exact token conservation of every router solution: for each token, what users pay at the final
      clearing prices plus declared swap outputs equals what users are paid plus declared swap inputs. */
  lemma {:induction false} RouterConserves(cfg: Config, orders: seq<Order>, quotes: seq<RouteQuote>, token: Token)
    requires ValidConfig(cfg) && Quoted(orders, quotes) && AllEncodable(cfg, RouterLedger(orders, quotes))
    ensures var ledger := RouterLedger(orders, quotes);
            var prices := PricesOf(ledger);
      && AllPayable(prices, FillsOf(ledger))
      && PaidIn(prices, FillsOf(ledger), token) + OutputsOf(InteractionsOf(cfg, ledger), token)
         == PaidOut(prices, FillsOf(ledger), token) + InputsOf(InteractionsOf(cfg, ledger), token)
  {
    var ledger := RouterLedger(orders, quotes);
    RouterUniformPrices(orders, quotes);
    Conservation(cfg, PricesOf(ledger), ledger, token);
    NoDust(ledger, token);
  }

  /** The realised rate is reproduced without rounding error: at the final prices each filled order pays
      exactly what its swap sells and gets exactly what its swap buys. */
  lemma RealisedRateIsExact(orders: seq<Order>, quotes: seq<RouteQuote>, k: nat)
    requires Quoted(orders, quotes) && k < |RouterLedger(orders, quotes)|
    ensures var ledger := RouterLedger(orders, quotes);
            var prices := PricesOf(ledger);
      && |ledger[k].fills| == 1 && Payable(prices, ledger[k].fills[0])
      && UserPays(prices, ledger[k].fills[0]) == ledger[k].sold
      && UserGets(prices, ledger[k].fills[0]) == ledger[k].bought
  {
    var ledger := RouterLedger(orders, quotes);
    var prices := PricesOf(ledger);
    RouterUniformPrices(orders, quotes);
    var e := ledger[k];
    var f := e.fills[0];
    assert PricedAs(prices, e) && AttemptFor(f.order, e);
    if f.order.kind.Sell? {
      assert f.executed * e.bought == e.bought * e.sold;
      CeilDivExact(e.bought, e.sold);
    } else {
      assert f.executed * e.sold == e.sold * e.bought;
      DivExact(e.sold, e.bought);
    }
  }
}
