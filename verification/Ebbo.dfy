/** The pre-submission best-bid-offer check (solver/ebbo.py): every trade is compared with a fresh V3
    quote of the same amount. */
module Ebbo {
  import opened Sequences
  import opened IntDivision
  import opened Models
  import opened Candidates
  import opened Ledger
  import opened Scoring
  import V3Batched
  import BatchedQuoter

  const BPS: nat := 10_000
  const MAX_TRADES_PER_CHECK: nat := 20

  /** An external quote: asking raised, no route, or the best amount. */
  datatype External = QuoteFailed | NoRoute | Amount(amount: nat)

  /** Largest (`lowest` false) or smallest positive amount of a quote list. */
  function BestAmount(quotes: seq<BatchedQuoter.Quoted<V3Batched.Path>>, lowest: bool): External {
    if quotes == [] then NoRoute
    else
      var q := quotes[|quotes| - 1];
      var best := BestAmount(quotes[..|quotes| - 1], lowest);
      if q.amountOut > 0 && (!best.Amount? || (if lowest then q.amountOut < best.amount else q.amountOut > best.amount))
      then Amount(q.amountOut)
      else best
  }

  /** What the chain pays for (or charges for) an amount over the EBBO candidate set. */
  function ExternalQuote(chain: V3Batched.Chain, sellToken: Token, buyToken: Token, amount: nat, exactOutput: bool,
                         mids: seq<Token>): External {
    var paths := PairPaths("", sellToken, buyToken, amount, exactOutput, mids);
    if !BatchedQuoter.Buildable(V3Batched.QuoterOf(chain), paths) then QuoteFailed
    else BestAmount(BatchedQuoter.QuotesBySize(V3Batched.QuoterOf(chain), paths, V3Batched.MAX_CALLS_PER_BATCH), exactOutput)
  }

  /** `_quote_best_exact_input` (the largest output) and `_quote_best_exact_output` (the least input). */
  method QuoteBest(chain: V3Batched.Chain, sellToken: Token, buyToken: Token, amount: nat, exactOutput: bool, mids: seq<Token>)
    returns (r: External)
    ensures r == ExternalQuote(chain, sellToken, buyToken, amount, exactOutput, mids)
  {
    var paths := BuildPairPaths("", sellToken, buyToken, amount, exactOutput, mids);
    var quotes := BatchedQuoter.BatchedQuote(V3Batched.QuoterOf(chain), paths, V3Batched.MAX_CALLS_PER_BATCH);
    if quotes.None? {
      return QuoteFailed;
    }
    var best: External := NoRoute;
    for i := 0 to |quotes.value|
      invariant best == BestAmount(quotes.value[..i], exactOutput)
    {
      assert quotes.value[..i + 1][..i] == quotes.value[..i];
      var amountOut := quotes.value[i].amountOut;
      if amountOut > 0 && (!best.Amount? || (if exactOutput then amountOut < best.amount else amountOut > best.amount)) {
        best := Amount(amountOut);
      }
    }
    assert quotes.value[..|quotes.value|] == quotes.value;
    return best;
  }

  datatype Violation = Violation(uid: Uid, ours: nat, external: nat) | Truncation(nTrades: nat)

  datatype EbboResult = EbboResult(passes: bool, violations: seq<Violation>, nChecked: nat, nSkipped: nat, nTruncated: nat)

  datatype Verdict = Skipped | Beats | Lags(violation: Violation)

  /** What the user gets of a sell, or pays for a buy, at the clearing prices. */
  function Ours(kind: Kind, executed: nat, cpSell: nat, cpBuy: nat): nat
    requires cpSell > 0 && cpBuy > 0
  {
    if kind.Sell? then CeilDiv(executed * cpSell, cpBuy) else executed * cpBuy / cpSell
  }

  /** The external amount, relaxed by the tolerance in the solver's favour. */
  function Threshold(kind: Kind, external: nat, toleranceBps: nat): int {
    if kind.Sell? then external * (BPS - toleranceBps) / BPS else external * (BPS + toleranceBps) / BPS
  }

  /** One trade against the external quote, within a tolerance in basis points. */
  function JudgeTrade(t: Trade, orders: map<Uid, Order>, prices: map<Token, nat>, chain: V3Batched.Chain,
                      mids: seq<Token>, toleranceBps: nat): Verdict {
    if t.orderUid !in orders then Skipped
    else
      var o := orders[t.orderUid];
      var cpSell, cpBuy := PriceAt(prices, o.sellToken), PriceAt(prices, o.buyToken);
      if cpSell == 0 || cpBuy == 0 || t.executedAmount < 0 then Skipped
      else
        var executed: nat := t.executedAmount;
        var external := ExternalQuote(chain, o.sellToken, o.buyToken, executed, o.kind.Buy?, mids);
        if !external.Amount? then Skipped
        else
          var ours := Ours(o.kind, executed, cpSell, cpBuy);
          var threshold := Threshold(o.kind, external.amount, toleranceBps);
          if (if o.kind.Sell? then ours < threshold else ours > threshold)
          then Lags(Violation(o.uid, ours, external.amount))
          else Beats
  }

  function Verdicts(trades: seq<Trade>, orders: map<Uid, Order>, prices: map<Token, nat>, chain: V3Batched.Chain,
                    mids: seq<Token>, toleranceBps: nat): (verdicts: seq<Verdict>)
    ensures |verdicts| == |trades|
  {
    seq(|trades|, i requires 0 <= i < |trades| => JudgeTrade(trades[i], orders, prices, chain, mids, toleranceBps))
  }

  /** One verdict counted. */
  function Count(r: EbboResult, v: Verdict): EbboResult {
    match v
    case Skipped => r.(nSkipped := r.nSkipped + 1)
    case Beats => r.(nChecked := r.nChecked + 1)
    case Lags(violation) => r.(passes := false, nChecked := r.nChecked + 1, violations := r.violations + [violation])
  }

  /** The counts and violations of a list of verdicts. */
  function Tally(verdicts: seq<Verdict>): EbboResult {
    if verdicts == [] then EbboResult(true, [], 0, 0, 0)
    else Count(Tally(verdicts[..|verdicts| - 1]), verdicts[|verdicts| - 1])
  }

  lemma TallyNext(verdicts: seq<Verdict>, i: nat)
    requires i < |verdicts|
    ensures Tally(verdicts[..i + 1]) == Count(Tally(verdicts[..i]), verdicts[i])
  {
    TakeNext(verdicts, i);
  }

  /** One round of the check's loop. */
  method CheckTrade(t: Trade, orders: map<Uid, Order>, prices: map<Token, nat>, chain: V3Batched.Chain,
                    mids: seq<Token>, toleranceBps: nat) returns (v: Verdict)
    ensures v == JudgeTrade(t, orders, prices, chain, mids, toleranceBps)
  {
    if t.orderUid !in orders {
      return Skipped;
    }
    var o := orders[t.orderUid];
    var cpSell, cpBuy := PriceAt(prices, o.sellToken), PriceAt(prices, o.buyToken);
    if cpSell == 0 || cpBuy == 0 {
      return Skipped;
    }
    // A negative amount is no uint256: building its quote raises, and the trade is waived.
    if t.executedAmount < 0 {
      return Skipped;
    }
    var executed: nat := t.executedAmount;
    var external := QuoteBest(chain, o.sellToken, o.buyToken, executed, o.kind == Buy, mids);
    if !external.Amount? {
      return Skipped;
    }
    var ours := Ours(o.kind, executed, cpSell, cpBuy);
    var threshold := Threshold(o.kind, external.amount, toleranceBps);
    if o.kind == Sell {
      return if ours < threshold then Lags(Violation(o.uid, ours, external.amount)) else Beats;
    } else {
      return if ours > threshold then Lags(Violation(o.uid, ours, external.amount)) else Beats;
    }
  }

  /** The check's result: refused unread above the cap, otherwise the tally of its trades. */
  function EbboCheck(trades: seq<Trade>, prices: map<Token, nat>, auction: seq<Order>, chain: V3Batched.Chain,
                     mids: seq<Token>, toleranceBps: nat): EbboResult {
    if |trades| > MAX_TRADES_PER_CHECK then EbboResult(false, [Truncation(|trades|)], 0, 0, |trades| - MAX_TRADES_PER_CHECK)
    else Tally(Verdicts(trades, ByUid(auction), prices, chain, mids, toleranceBps))
  }

  /** `validate_solution_ebbo`. */
  method ValidateSolutionEbbo(trades: seq<Trade>, prices: map<Token, nat>, auction: seq<Order>, chain: V3Batched.Chain,
                              mids: seq<Token>, toleranceBps: nat) returns (r: EbboResult)
    ensures r == EbboCheck(trades, prices, auction, chain, mids, toleranceBps)
  {
    if |trades| > MAX_TRADES_PER_CHECK {
      return EbboResult(false, [Truncation(|trades|)], 0, 0, |trades| - MAX_TRADES_PER_CHECK);
    }
    var orders := ByUid(auction);
    ghost var verdicts := Verdicts(trades, orders, prices, chain, mids, toleranceBps);
    var violations: seq<Violation>, nChecked: nat, nSkipped: nat := [], 0, 0;
    for i := 0 to |trades|
      invariant EbboResult(violations == [], violations, nChecked, nSkipped, 0) == Tally(verdicts[..i])
    {
      TallyNext(verdicts, i);
      var v := CheckTrade(trades[i], orders, prices, chain, mids, toleranceBps);
      match v {
        case Skipped => nSkipped := nSkipped + 1;
        case Beats => nChecked := nChecked + 1;
        case Lags(violation) =>
          nChecked := nChecked + 1;
          violations := violations + [violation];
      }
    }
    TakeAll(verdicts);
    return EbboResult(violations == [], violations, nChecked, nSkipped, 0);
  }

  /** The best amount is a quoted one that no other quoted one beats. */
  lemma {:induction false} BestAmountIsBest(quotes: seq<BatchedQuoter.Quoted<V3Batched.Path>>, lowest: bool)
    ensures !BestAmount(quotes, lowest).QuoteFailed?
    ensures BestAmount(quotes, lowest).Amount? ==>
              exists i :: 0 <= i < |quotes| && quotes[i].amountOut == BestAmount(quotes, lowest).amount > 0
    ensures forall i :: 0 <= i < |quotes| && quotes[i].amountOut > 0 ==>
              BestAmount(quotes, lowest).Amount?
              && if lowest then BestAmount(quotes, lowest).amount <= quotes[i].amountOut
                 else quotes[i].amountOut <= BestAmount(quotes, lowest).amount
  {
    if quotes != [] {
      var n := |quotes| - 1;
      BestAmountIsBest(quotes[..n], lowest);
      assert forall i :: 0 <= i < n ==> quotes[..n][i] == quotes[i];
    }
  }

  /** A batch passes exactly when none of its trades lags; every trade is then checked or waived. */
  lemma {:induction false} TallyPasses(verdicts: seq<Verdict>)
    ensures var r := Tally(verdicts);
      && (r.passes <==> forall i :: 0 <= i < |verdicts| ==> !verdicts[i].Lags?)
      && (r.passes <==> r.violations == [])
      && r.nChecked + r.nSkipped == |verdicts| && r.nTruncated == 0
  {
    if verdicts != [] {
      TallyPasses(verdicts[..|verdicts| - 1]);
    }
  }

  /** The violations are those of the lagging trades, in order, and the waived trades are counted as skipped. */
  ghost predicate Tallied(verdicts: seq<Verdict>, r: EbboResult, at: seq<nat>) {
    && |at| == |r.violations|
    && (forall k :: 0 <= k < |at| ==> at[k] < |verdicts| && verdicts[at[k]] == Lags(r.violations[k]))
    && (forall k, l :: 0 <= k < l < |at| ==> at[k] < at[l])
    && (forall i :: 0 <= i < |verdicts| && verdicts[i].Lags? ==> i in at)
    && r.nSkipped == |SkippedIn(verdicts)|
  }

  function SkippedIn(verdicts: seq<Verdict>): set<nat> {
    set i | 0 <= i < |verdicts| && verdicts[i].Skipped?
  }

  lemma {:induction false} TallyExact(verdicts: seq<Verdict>) returns (at: seq<nat>)
    ensures Tallied(verdicts, Tally(verdicts), at)
  {
    if verdicts == [] {
      return [];
    }
    var n := |verdicts| - 1;
    var before := verdicts[..n];
    at := TallyExact(before);
    assert forall i :: 0 <= i < n ==> before[i] == verdicts[i];
    SkippedNext(verdicts);
    if verdicts[n].Lags? {
      at := at + [n];
      assert at[|at| - 1] == n;
    }
  }

  lemma SkippedNext(verdicts: seq<Verdict>)
    requires verdicts != []
    ensures |SkippedIn(verdicts)|
         == |SkippedIn(verdicts[..|verdicts| - 1])| + if verdicts[|verdicts| - 1].Skipped? then 1 else 0
  {
    var n := |verdicts| - 1;
    assert SkippedIn(verdicts) == SkippedIn(verdicts[..n]) + if verdicts[n].Skipped? then {n} else {};
  }

  /** What the check compares is what the settlement moves: the payout of a sell, the debit of a buy. */
  lemma OursIsSettled(t: Trade, o: Order, prices: map<Token, nat>)
    requires t.executedAmount >= 0 && Payable(prices, Fill(o, t.executedAmount))
    ensures Ours(o.kind, t.executedAmount, prices[o.sellToken], prices[o.buyToken])
         == if o.kind.Sell? then UserGets(prices, Fill(o, t.executedAmount)) else UserPays(prices, Fill(o, t.executedAmount))
  {
  }

  /** The external quote for a trade the check can judge: its order is known, its tokens are priced, and the
      quoting of its amount brings something back. */
  ghost predicate Comparable(t: Trade, orders: map<Uid, Order>, prices: map<Token, nat>, chain: V3Batched.Chain, mids: seq<Token>) {
    && t.orderUid in orders && t.executedAmount >= 0
    && var o := orders[t.orderUid];
    && Payable(prices, Fill(o, t.executedAmount))
    && ExternalQuote(chain, o.sellToken, o.buyToken, t.executedAmount, o.kind.Buy?, mids).Amount?
  }

  /** Exactly which trades are waived, and which lag, without the check's divisions: of the comparable ones,
      those whose payout is more than a unit below the quote less the tolerance, or whose debit is above the
      quote plus the tolerance. */
  lemma LagsExact(t: Trade, orders: map<Uid, Order>, prices: map<Token, nat>, chain: V3Batched.Chain, mids: seq<Token>,
                  toleranceBps: nat)
    ensures JudgeTrade(t, orders, prices, chain, mids, toleranceBps).Skipped? <==> !Comparable(t, orders, prices, chain, mids)
    ensures JudgeTrade(t, orders, prices, chain, mids, toleranceBps).Lags? ==>
              var o := orders[t.orderUid];
              var f := Fill(o, t.executedAmount);
              JudgeTrade(t, orders, prices, chain, mids, toleranceBps).violation
              == Violation(o.uid, if o.kind.Sell? then UserGets(prices, f) else UserPays(prices, f),
                           ExternalQuote(chain, o.sellToken, o.buyToken, t.executedAmount, o.kind.Buy?, mids).amount)
    ensures JudgeTrade(t, orders, prices, chain, mids, toleranceBps).Lags? <==>
              && Comparable(t, orders, prices, chain, mids)
              && var o := orders[t.orderUid];
                 var f := Fill(o, t.executedAmount);
                 var external := ExternalQuote(chain, o.sellToken, o.buyToken, t.executedAmount, o.kind.Buy?, mids).amount;
              if o.kind.Sell? then (UserGets(prices, f) + 1) * 10_000 <= external * (10_000 - toleranceBps)
              else UserPays(prices, f) * 10_000 > external * (10_000 + toleranceBps)
  {
    if Comparable(t, orders, prices, chain, mids) {
      var o := orders[t.orderUid];
      OursIsSettled(t, o, prices);
      var external := ExternalQuote(chain, o.sellToken, o.buyToken, t.executedAmount, o.kind.Buy?, mids);
      var ours := Ours(o.kind, t.executedAmount, prices[o.sellToken], prices[o.buyToken]);
      FloorAbove(external.amount * (BPS - toleranceBps), ours);
      FloorAbove(external.amount * (BPS + toleranceBps), ours);
    }
  }

  /** Comparing with a floored quotient is comparing with the product. */
  lemma FloorAbove(x: int, y: nat)
    ensures y < x / BPS <==> (y + 1) * BPS <= x
    ensures y > x / BPS <==> y * BPS > x
  {
  }

  /** A batch passes exactly when it is small enough to be read and none of its trades lags. */
  lemma {:induction false} CheckPassesExact(trades: seq<Trade>, prices: map<Token, nat>, auction: seq<Order>, chain: V3Batched.Chain,
                         mids: seq<Token>, toleranceBps: nat)
    ensures EbboCheck(trades, prices, auction, chain, mids, toleranceBps).passes
       <==> && |trades| <= 20
            && forall m :: 0 <= m < |trades| ==> !JudgeTrade(trades[m], ByUid(auction), prices, chain, mids, toleranceBps).Lags?
    ensures var r := EbboCheck(trades, prices, auction, chain, mids, toleranceBps);
      && (r.passes <==> r.violations == [])
      && (|trades| > 20 ==> r.violations == [Truncation(|trades|)])
  {
    var verdicts := Verdicts(trades, ByUid(auction), prices, chain, mids, toleranceBps);
    TallyPasses(verdicts);
    assert forall m :: 0 <= m < |trades| ==> verdicts[m] == JudgeTrade(trades[m], ByUid(auction), prices, chain, mids, toleranceBps);
  }
}
