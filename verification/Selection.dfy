/** Best quote per order (RouterSolver._select_best_quote_per_order). */
module Selection {
  import opened Wrappers
  import opened Models
  import opened Encoder
  import opened Candidates

  /** A candidate path and the amount its venue quoted: output of a sell, input of a buy, 0 for none. */
  datatype RouteQuote = RouteQuote(path: Route, amountOut: nat)

  predicate Eligible(q: RouteQuote, uid: Uid, amountIn: Option<nat>) {
    && q.amountOut != 0
    && q.path.OrderUid() == uid
    && (amountIn.Some? ==> q.path.AmountIn() == amountIn.value)
  }

  predicate Better(q: RouteQuote, current: RouteQuote) {
    if q.path.ExactOutput() then q.amountOut < current.amountOut else q.amountOut > current.amountOut
  }

  /** The quote the selection keeps for one order. */
  function BestFor(quotes: seq<RouteQuote>, uid: Uid, amountIn: Option<nat>): Option<RouteQuote> {
    if quotes == [] then None
    else
      var q := quotes[|quotes| - 1];
      var current := BestFor(quotes[..|quotes| - 1], uid, amountIn);
      if !Eligible(q, uid, amountIn) then current
      else if current.None? || Better(q, current.value) then Some(q)
      else current
  }

  /** `_select_best_quote_per_order`: one pass filling a map by order uid. */
  method SelectBestQuotePerOrder(quotes: seq<RouteQuote>, amountIn: Option<nat>) returns (best: map<Uid, RouteQuote>)
    ensures forall uid :: BestFor(quotes, uid, amountIn) == if uid in best then Some(best[uid]) else None
  {
    best := map[];
    for i := 0 to |quotes|
      invariant forall uid :: BestFor(quotes[..i], uid, amountIn) == if uid in best then Some(best[uid]) else None
    {
      assert quotes[..i + 1][..i] == quotes[..i];
      var q := quotes[i];
      if q.amountOut == 0 {
        continue;
      }
      if amountIn.Some? && q.path.AmountIn() != amountIn.value {
        continue;
      }
      var uid := q.path.OrderUid();
      if uid !in best {
        best := best[uid := q];
      } else if q.path.ExactOutput() {
        if q.amountOut < best[uid].amountOut {
          best := best[uid := q];
        }
      } else if q.amountOut > best[uid].amountOut {
        best := best[uid := q];
      }
    }
    assert quotes[..|quotes|] == quotes;
  }

  /** Quote `k` is the first eligible one that no eligible quote beats. */
  ghost predicate Optimal(quotes: seq<RouteQuote>, uid: Uid, amountIn: Option<nat>, k: nat) {
    && k < |quotes| && Eligible(quotes[k], uid, amountIn)
    && (forall i :: 0 <= i < |quotes| && Eligible(quotes[i], uid, amountIn) ==> !Better(quotes[i], quotes[k]))
    && (forall i :: 0 <= i < k && Eligible(quotes[i], uid, amountIn) ==> Better(quotes[k], quotes[i]))
  }

  ghost predicate SameDirection(quotes: seq<RouteQuote>, uid: Uid, amountIn: Option<nat>, exactOutput: bool) {
    forall i :: 0 <= i < |quotes| && Eligible(quotes[i], uid, amountIn) ==> quotes[i].path.ExactOutput() == exactOutput
  }

  lemma KeepsCurrent(quotes: seq<RouteQuote>, uid: Uid, amountIn: Option<nat>, exactOutput: bool, k: nat)
    requires quotes != [] && SameDirection(quotes, uid, amountIn, exactOutput)
    requires Optimal(quotes[..|quotes| - 1], uid, amountIn, k)
    requires !(Eligible(quotes[|quotes| - 1], uid, amountIn) && Better(quotes[|quotes| - 1], quotes[k]))
    ensures Optimal(quotes, uid, amountIn, k)
  {
    var before := quotes[..|quotes| - 1];
    assert forall i :: 0 <= i < |before| ==> before[i] == quotes[i];
  }

  lemma TakesLast(quotes: seq<RouteQuote>, uid: Uid, amountIn: Option<nat>, exactOutput: bool, k: nat)
    requires quotes != [] && SameDirection(quotes, uid, amountIn, exactOutput)
    requires Optimal(quotes[..|quotes| - 1], uid, amountIn, k)
    requires Eligible(quotes[|quotes| - 1], uid, amountIn) && Better(quotes[|quotes| - 1], quotes[k])
    ensures Optimal(quotes, uid, amountIn, |quotes| - 1)
  {
    var before := quotes[..|quotes| - 1];
    forall i | 0 <= i < |before| && Eligible(quotes[i], uid, amountIn)
      ensures Better(quotes[|quotes| - 1], quotes[i])
    {
      assert before[i] == quotes[i];
    }
  }

  /** What the pass keeps: nothing exactly when no quote is eligible, otherwise the first optimal quote. */
  lemma {:induction false} BestIsOptimal(quotes: seq<RouteQuote>, uid: Uid, amountIn: Option<nat>, exactOutput: bool)
    requires SameDirection(quotes, uid, amountIn, exactOutput)
    ensures BestFor(quotes, uid, amountIn).None? <==>
              forall i :: 0 <= i < |quotes| ==> !Eligible(quotes[i], uid, amountIn)
    ensures BestFor(quotes, uid, amountIn).Some? ==>
              exists k: nat :: Optimal(quotes, uid, amountIn, k) && quotes[k] == BestFor(quotes, uid, amountIn).value
  {
    if quotes != [] {
      var n := |quotes| - 1;
      var before := quotes[..n];
      assert forall i :: 0 <= i < n ==> before[i] == quotes[i];
      BestIsOptimal(before, uid, amountIn, exactOutput);
      var current := BestFor(before, uid, amountIn);
      if current.None? {
        if Eligible(quotes[n], uid, amountIn) {
          assert Optimal(quotes, uid, amountIn, n);
        }
      } else {
        var k: nat :| Optimal(before, uid, amountIn, k) && before[k] == current.value;
        if Eligible(quotes[n], uid, amountIn) && Better(quotes[n], quotes[k]) {
          TakesLast(quotes, uid, amountIn, exactOutput, k);
        } else {
          KeepsCurrent(quotes, uid, amountIn, exactOutput, k);
        }
      }
    }
  }

  /** A quote answers for an order: same pair, same direction, one of the order's quoted amounts, and
      nothing for a zero amount. */
  predicate QuoteMatches(o: Order, q: RouteQuote) {
    && q.path.TokenIn() == o.sellToken && q.path.TokenOut() == o.buyToken
    && (q.path.ExactOutput() <==> o.kind.Buy?)
    && q.path.AmountIn() in QuotedAmounts(o)
    && (q.path.AmountIn() == 0 ==> q.amountOut == 0)
  }

  ghost predicate QuotesMatch(orders: seq<Order>, quotes: seq<RouteQuote>) {
    forall i, j :: 0 <= i < |orders| && 0 <= j < |quotes| && quotes[j].path.OrderUid() == orders[i].uid ==>
      QuoteMatches(orders[i], quotes[j])
  }

  /** The selected quote of an order, in the order's own terms. */
  lemma {:induction false} BestOfOrder(orders: seq<Order>, quotes: seq<RouteQuote>, i: nat, amountIn: Option<nat>)
    requires QuotesMatch(orders, quotes) && i < |orders|
    ensures var best := BestFor(quotes, orders[i].uid, amountIn);
      && (best.None? <==> forall k :: 0 <= k < |quotes| ==> !Eligible(quotes[k], orders[i].uid, amountIn))
      && (best.Some? ==>
            && best.value in quotes && Eligible(best.value, orders[i].uid, amountIn)
            && QuoteMatches(orders[i], best.value)
            && forall k :: 0 <= k < |quotes| && Eligible(quotes[k], orders[i].uid, amountIn) ==>
                 if orders[i].kind.Buy? then best.value.amountOut <= quotes[k].amountOut
                 else quotes[k].amountOut <= best.value.amountOut)
  {
    BestIsOptimal(quotes, orders[i].uid, amountIn, orders[i].kind.Buy?);
    var best := BestFor(quotes, orders[i].uid, amountIn);
    if best.Some? {
      var k: nat :| Optimal(quotes, orders[i].uid, amountIn, k) && quotes[k] == best.value;
      assert QuoteMatches(orders[i], quotes[k]);
    }
  }
}
