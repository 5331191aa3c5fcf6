/** The state a clearing loop builds up: uniform clearing prices, trades and interactions. A ledger lists
    what was emitted, in order; prices, trades, filled uids and interactions are functions of it. */
module Ledger {
  import opened Wrappers
  import opened IntDivision
  import opened Models
  import opened Encoder

  /** One order filled by `executed` of the amount it fixes. */
  datatype Fill = Fill(order: Order, executed: nat)

  /** One swap of `sold` for `bought` along `route`, and the orders it fills. */
  datatype Entry = Entry(fills: seq<Fill>, sellToken: Token, buyToken: Token, route: Route, sold: nat, bought: nat)

  type Prices = map<Token, nat>

  /** The `_register_prices` guard: neither token is already priced differently. */
  predicate Agrees(prices: Prices, sellToken: Token, buyToken: Token, executedBuy: nat, executedSell: nat) {
    && (sellToken in prices ==> prices[sellToken] == executedBuy)
    && (buyToken in prices ==> prices[buyToken] == executedSell)
  }

  predicate EntryAgrees(prices: Prices, e: Entry) {
    Agrees(prices, e.sellToken, e.buyToken, e.bought, e.sold)
  }

  function PricesOf(ledger: seq<Entry>): Prices {
    if ledger == [] then map[]
    else
      var e := ledger[|ledger| - 1];
      PricesOf(ledger[..|ledger| - 1])[e.sellToken := e.bought][e.buyToken := e.sold]
  }

  function TradesOfFills(fills: seq<Fill>): seq<Trade> {
    seq(|fills|, i requires 0 <= i < |fills| => Trade(Fulfillment, fills[i].order.uid, fills[i].executed))
  }

  function FillsOf(ledger: seq<Entry>): seq<Fill> {
    if ledger == [] then [] else FillsOf(ledger[..|ledger| - 1]) + ledger[|ledger| - 1].fills
  }

  function TradesOf(ledger: seq<Entry>): seq<Trade> {
    TradesOfFills(FillsOf(ledger))
  }

  function UidsOf(fills: seq<Fill>): set<Uid> {
    set f | f in fills :: f.order.uid
  }

  function FilledOf(ledger: seq<Entry>): set<Uid> {
    UidsOf(FillsOf(ledger))
  }

  function Encoding(cfg: Config, e: Entry): Result<seq<Interaction>, EncodeError>
    requires ValidConfig(cfg)
  {
    EncodePathInteraction(cfg, e.route, e.sold, e.bought)
  }

  predicate AllEncodable(cfg: Config, ledger: seq<Entry>)
    requires ValidConfig(cfg)
  {
    forall i :: 0 <= i < |ledger| ==> Encoding(cfg, ledger[i]).Success?
  }

  function InteractionsOf(cfg: Config, ledger: seq<Entry>): seq<Interaction>
    requires ValidConfig(cfg) && AllEncodable(cfg, ledger)
  {
    if ledger == [] then []
    else InteractionsOf(cfg, ledger[..|ledger| - 1]) + Encoding(cfg, ledger[|ledger| - 1]).value
  }

  lemma {:induction false} LedgerAppend(ledger: seq<Entry>, e: Entry)
    ensures PricesOf(ledger + [e]) == PricesOf(ledger)[e.sellToken := e.bought][e.buyToken := e.sold]
    ensures FillsOf(ledger + [e]) == FillsOf(ledger) + e.fills
  {
    assert (ledger + [e])[..|ledger|] == ledger;
  }

  lemma LoneFill(e: Entry, f: Fill)
    requires |e.fills| == 1 && f in e.fills
    ensures f == e.fills[0]
  {
  }

  lemma FillsJoin(a: seq<Fill>, b: seq<Fill>)
    ensures TradesOfFills(a + b) == TradesOfFills(a) + TradesOfFills(b)
    ensures UidsOf(a + b) == UidsOf(a) + UidsOf(b)
  {
    UidsJoin(a, b);
  }

  lemma UidsJoin(a: seq<Fill>, b: seq<Fill>)
    ensures UidsOf(a + b) == UidsOf(a) + UidsOf(b)
  {
    assert forall f :: f in a + b <==> f in a || f in b;
  }

  lemma TradesAppend(ledger: seq<Entry>, e: Entry)
    ensures TradesOf(ledger + [e]) == TradesOf(ledger) + TradesOfFills(e.fills)
    ensures FilledOf(ledger + [e]) == FilledOf(ledger) + UidsOf(e.fills)
  {
    LedgerAppend(ledger, e);
    FillsJoin(FillsOf(ledger), e.fills);
  }

  lemma {:induction false} InteractionsAppend(cfg: Config, ledger: seq<Entry>, e: Entry)
    requires ValidConfig(cfg) && AllEncodable(cfg, ledger) && Encoding(cfg, e).Success?
    ensures AllEncodable(cfg, ledger + [e])
    ensures InteractionsOf(cfg, ledger + [e]) == InteractionsOf(cfg, ledger) + Encoding(cfg, e).value
  {
    assert (ledger + [e])[..|ledger|] == ledger;
  }

  // ---- uniform prices -------------------------------------------------------------------------------

  /** `later` prices everything `earlier` does, at the same price. */
  ghost predicate Extends(earlier: Prices, later: Prices) {
    forall t :: t in earlier ==> t in later && later[t] == earlier[t]
  }

  predicate PricedAs(prices: Prices, e: Entry) {
    && e.sellToken in prices && prices[e.sellToken] == e.bought
    && e.buyToken in prices && prices[e.buyToken] == e.sold
  }

  /** One clearing price per token: every entry's realised rate is still the registered one at the end. */
  ghost predicate Uniform(ledger: seq<Entry>) {
    forall i :: 0 <= i < |ledger| ==> PricedAs(PricesOf(ledger), ledger[i])
  }

  /** Appending an agreeing entry of two distinct tokens keeps every earlier price and rate. */
  lemma {:induction false} RegisterKeepsUniform(ledger: seq<Entry>, e: Entry)
    requires Uniform(ledger) && EntryAgrees(PricesOf(ledger), e) && e.sellToken != e.buyToken
    ensures Uniform(ledger + [e])
    ensures Extends(PricesOf(ledger), PricesOf(ledger + [e]))
  {
    LedgerAppend(ledger, e);
    var prices := PricesOf(ledger + [e]);
    forall i | 0 <= i < |ledger + [e]|
      ensures PricedAs(prices, (ledger + [e])[i])
    {
      if i < |ledger| {
        assert PricedAs(PricesOf(ledger), ledger[i]);
        assert (ledger + [e])[i] == ledger[i];
      }
    }
  }

  /** Why the guard and the distinct tokens are needed: appending leaves every earlier price alone exactly
      when the entry's rates agree, and the entry's own rate is the one on record afterwards exactly when
      its tokens differ or its amounts do not. */
  lemma {:induction false} RegisterExact(ledger: seq<Entry>, e: Entry)
    ensures e.sellToken != e.buyToken ==>
              (Extends(PricesOf(ledger), PricesOf(ledger + [e])) <==> EntryAgrees(PricesOf(ledger), e))
    ensures PricedAs(PricesOf(ledger + [e]), e) <==> (e.sellToken != e.buyToken || e.sold == e.bought)
  {
    LedgerAppend(ledger, e);
    var before, after := PricesOf(ledger), PricesOf(ledger + [e]);
    if e.sellToken != e.buyToken && EntryAgrees(before, e) {
      forall t | t in before ensures t in after && after[t] == before[t] {
      }
    }
  }

  /** Tokens are priced by the entries and by nothing else. */
  lemma {:induction false} PricedTokens(ledger: seq<Entry>, t: Token)
    ensures t in PricesOf(ledger) <==> exists i :: 0 <= i < |ledger| && (t == ledger[i].sellToken || t == ledger[i].buyToken)
  {
    if ledger != [] {
      PricedTokens(ledger[..|ledger| - 1], t);
    }
  }

  // ---- what users pay and get -----------------------------------------------------------------------

  /** What a filled order gives up, by the settlement's rounding at clearing prices. */
  function UserPays(prices: Prices, f: Fill): nat
    requires f.order.sellToken in prices && f.order.buyToken in prices && prices[f.order.sellToken] > 0
  {
    if f.order.kind.Sell? then f.executed
    else (f.executed * prices[f.order.buyToken]) / prices[f.order.sellToken]
  }

  /** What a filled order receives. */
  function UserGets(prices: Prices, f: Fill): nat
    requires f.order.sellToken in prices && f.order.buyToken in prices && prices[f.order.buyToken] > 0
  {
    if f.order.kind.Sell? then CeilDiv(f.executed * prices[f.order.sellToken], prices[f.order.buyToken])
    else f.executed
  }

  /** The fill's tokens are priced, and not at zero. */
  predicate Payable(prices: Prices, f: Fill) {
    && f.order.sellToken in prices && f.order.buyToken in prices
    && prices[f.order.sellToken] > 0 && prices[f.order.buyToken] > 0
  }

  predicate AllPayable(prices: Prices, fills: seq<Fill>) {
    forall i :: 0 <= i < |fills| ==> Payable(prices, fills[i])
  }

  function PaidIn(prices: Prices, fills: seq<Fill>, token: Token): nat
    requires AllPayable(prices, fills)
  {
    if fills == [] then 0
    else
      var f := fills[|fills| - 1];
      PaidIn(prices, fills[..|fills| - 1], token) + AmountAt(token, f.order.sellToken, UserPays(prices, f))
  }

  function PaidOut(prices: Prices, fills: seq<Fill>, token: Token): nat
    requires AllPayable(prices, fills)
  {
    if fills == [] then 0
    else
      var f := fills[|fills| - 1];
      PaidOut(prices, fills[..|fills| - 1], token) + AmountAt(token, f.order.buyToken, UserGets(prices, f))
  }

  lemma {:induction false} PaidAppend(prices: Prices, a: seq<Fill>, b: seq<Fill>, token: Token)
    requires AllPayable(prices, a) && AllPayable(prices, b)
    ensures AllPayable(prices, a + b)
    ensures PaidIn(prices, a + b, token) == PaidIn(prices, a, token) + PaidIn(prices, b, token)
    ensures PaidOut(prices, a + b, token) == PaidOut(prices, a, token) + PaidOut(prices, b, token)
    decreases |b|
  {
    if b == [] {
      assert a + b == a;
    } else {
      var n := |b| - 1;
      assert (a + b)[..|a + b| - 1] == a + b[..n];
      PaidAppend(prices, a, b[..n], token);
    }
  }

  function SumExecuted(fills: seq<Fill>): nat {
    if fills == [] then 0 else SumExecuted(fills[..|fills| - 1]) + fills[|fills| - 1].executed
  }

  /** A swap that is fully accounted for by the orders it fills: either sells that together put in what
      was swapped, or one buy that takes out what was swapped. */
  predicate Balanced(e: Entry) {
    && e.sold > 0 && e.bought > 0 && e.fills != []
    && e.sellToken != e.buyToken
    && e.route.TokenIn() == e.sellToken && e.route.TokenOut() == e.buyToken
    && (forall i :: 0 <= i < |e.fills| ==>
          e.fills[i].order.sellToken == e.sellToken && e.fills[i].order.buyToken == e.buyToken)
    && (|| ((forall i :: 0 <= i < |e.fills| ==> e.fills[i].order.kind.Sell?) && SumExecuted(e.fills) == e.sold)
        || (|e.fills| == 1 && e.fills[0].order.kind.Buy? && e.fills[0].executed == e.bought))
  }

  /** Sum of what sells of `sold` in total are paid at `bought` for `sold`, each rounded up. */
  function SumCeil(fills: seq<Fill>, bought: nat, sold: nat): nat
    requires sold > 0
  {
    if fills == [] then 0
    else SumCeil(fills[..|fills| - 1], bought, sold) + CeilDiv(fills[|fills| - 1].executed * bought, sold)
  }

  /** One more payout: the running products move by the payout's own products. */
  lemma SumStep(sum: nat, executed: nat, total: nat, payout: nat, bought: nat, sold: nat, n: nat)
    requires sold > 0
    ensures (sum + executed) * bought == sum * bought + executed * bought
    ensures (total + payout) * sold == total * sold + payout * sold
    ensures (n + 1) * (sold - 1) == n * (sold - 1) + (sold - 1)
  {
  }

  lemma {:induction false} SumCeilBounds(fills: seq<Fill>, bought: nat, sold: nat)
    requires sold > 0
    ensures SumExecuted(fills) * bought <= SumCeil(fills, bought, sold) * sold
    ensures SumCeil(fills, bought, sold) * sold <= SumExecuted(fills) * bought + |fills| * (sold - 1)
  {
    if fills == [] {
      assert SumExecuted(fills) == 0 && SumCeil(fills, bought, sold) == 0;
    } else {
      var n := |fills| - 1;
      var rest, executed := fills[..n], fills[n].executed;
      SumCeilBounds(rest, bought, sold);
      var payout := CeilDiv(executed * bought, sold);
      SumStep(SumExecuted(rest), executed, SumCeil(rest, bought, sold), payout, bought, sold, n);
      assert SumCeil(fills, bought, sold) == SumCeil(rest, bought, sold) + payout;
      assert SumExecuted(fills) == SumExecuted(rest) + executed;
    }
  }

  /** The dust bound: rounding every payout up hands out at least the swap's output and at most one unit
      less than the number of orders on top of it. */
  lemma {:induction false} DustBound(fills: seq<Fill>, bought: nat, sold: nat)
    requires sold > 0 && fills != [] && SumExecuted(fills) == sold
    ensures bought <= SumCeil(fills, bought, sold) <= bought + |fills| - 1
  {
    SumCeilBounds(fills, bought, sold);
    var total := SumCeil(fills, bought, sold);
    assert sold * bought == bought * sold;
    MulCancelLe(bought, total, sold);
    assert (bought + |fills|) * sold == bought * sold + |fills| * sold;
    assert |fills| * (sold - 1) == |fills| * sold - |fills|;
    MulCancelLt(total, bought + |fills|, sold);
  }

  predicate Divides(f: Fill, bought: nat, sold: nat)
    requires sold > 0
  {
    CeilDiv(f.executed * bought, sold) * sold == f.executed * bought
  }

  /** No dust arises exactly when every single payout divides evenly. */
  lemma {:induction false} DustFree(fills: seq<Fill>, bought: nat, sold: nat)
    requires sold > 0
    ensures SumCeil(fills, bought, sold) * sold == SumExecuted(fills) * bought
       <==> forall i :: 0 <= i < |fills| ==> Divides(fills[i], bought, sold)
  {
    if fills == [] {
      assert SumExecuted(fills) == 0 && SumCeil(fills, bought, sold) == 0;
    } else {
      var n := |fills| - 1;
      var rest, executed := fills[..n], fills[n].executed;
      DustFree(rest, bought, sold);
      SumCeilBounds(rest, bought, sold);
      var payout := CeilDiv(executed * bought, sold);
      SumStep(SumExecuted(rest), executed, SumCeil(rest, bought, sold), payout, bought, sold, n);
      assert SumCeil(fills, bought, sold) == SumCeil(rest, bought, sold) + payout;
      assert SumExecuted(fills) == SumExecuted(rest) + executed;
      assert forall i :: 0 <= i < n ==> rest[i] == fills[i];
    }
  }

  /** What an entry hands out beyond the output of its swap. */
  function Dust(e: Entry): nat
    requires Balanced(e)
  {
    if e.fills[0].order.kind.Buy? then 0
    else
      DustBound(e.fills, e.bought, e.sold);
      SumCeil(e.fills, e.bought, e.sold) - e.bought
  }

  lemma {:induction false} SellsPaid(prices: Prices, e: Entry, fills: seq<Fill>, token: Token)
    requires PricedAs(prices, e) && e.sold > 0 && e.bought > 0
    requires forall i :: 0 <= i < |fills| ==>
               && fills[i].order.kind.Sell?
               && fills[i].order.sellToken == e.sellToken && fills[i].order.buyToken == e.buyToken
    ensures AllPayable(prices, fills)
    ensures PaidIn(prices, fills, token) == AmountAt(token, e.sellToken, SumExecuted(fills))
    ensures PaidOut(prices, fills, token) == AmountAt(token, e.buyToken, SumCeil(fills, e.bought, e.sold))
  {
    if fills != [] {
      SellsPaid(prices, e, fills[..|fills| - 1], token);
    }
  }

  /** At its own realised rate an entry takes from its users what it swaps in, and pays them what it swaps
      out plus its dust: a lone sell or buy is reproduced with no rounding error at all. */
  lemma {:induction false} EntryPaid(prices: Prices, e: Entry, token: Token)
    requires Balanced(e) && PricedAs(prices, e)
    ensures AllPayable(prices, e.fills)
    ensures PaidIn(prices, e.fills, token) == AmountAt(token, e.sellToken, e.sold)
    ensures PaidOut(prices, e.fills, token) == AmountAt(token, e.buyToken, e.bought + Dust(e))
    ensures Dust(e) <= |e.fills| - 1
  {
    if e.fills[0].order.kind.Buy? {
      var f := e.fills[0];
      DivExact(e.sold, e.bought);
      assert f.executed * e.sold == e.sold * e.bought;
      assert UserPays(prices, f) == e.sold;
      assert e.fills[..0] == [];
    } else {
      DustBound(e.fills, e.bought, e.sold);
      SellsPaid(prices, e, e.fills, token);
    }
  }

  ghost predicate AllBalanced(ledger: seq<Entry>) {
    forall i :: 0 <= i < |ledger| ==> Balanced(ledger[i])
  }

  ghost predicate AllPricedAs(prices: Prices, ledger: seq<Entry>) {
    forall i :: 0 <= i < |ledger| ==> PricedAs(prices, ledger[i])
  }

  function DustAt(ledger: seq<Entry>, token: Token): nat
    requires AllBalanced(ledger)
  {
    if ledger == [] then 0
    else
      var e := ledger[|ledger| - 1];
      DustAt(ledger[..|ledger| - 1], token) + AmountAt(token, e.buyToken, Dust(e))
  }

  /** Token conservation at the final prices, for every token and any mix of venues and kinds: what users
      pay in plus what swaps bring is what users are paid plus what swaps consume, less the dust. */
  lemma {:induction false} Conservation(cfg: Config, prices: Prices, ledger: seq<Entry>, token: Token)
    requires ValidConfig(cfg) && AllEncodable(cfg, ledger)
    requires AllBalanced(ledger) && AllPricedAs(prices, ledger)
    ensures AllPayable(prices, FillsOf(ledger))
    ensures PaidIn(prices, FillsOf(ledger), token) + OutputsOf(InteractionsOf(cfg, ledger), token) + DustAt(ledger, token)
         == PaidOut(prices, FillsOf(ledger), token) + InputsOf(InteractionsOf(cfg, ledger), token)
    ensures DustAt(ledger, token) <= |FillsOf(ledger)| - |ledger|
  {
    if ledger != [] {
      var n := |ledger| - 1;
      var e := ledger[n];
      Conservation(cfg, prices, ledger[..n], token);
      EntryPaid(prices, e, token);
      EncodedFlows(cfg, e.route, e.sold, e.bought, token);
      PaidAppend(prices, FillsOf(ledger[..n]), e.fills, token);
      FlowsAppend(InteractionsOf(cfg, ledger[..n]), Encoding(cfg, e).value, token);
    }
  }

  /** With one order per swap there is no dust: conservation is exact. */
  lemma {:induction false} NoDust(ledger: seq<Entry>, token: Token)
    requires AllBalanced(ledger) && forall i :: 0 <= i < |ledger| ==> |ledger[i].fills| == 1
    ensures DustAt(ledger, token) == 0
  {
    if ledger != [] {
      var e := ledger[|ledger| - 1];
      NoDust(ledger[..|ledger| - 1], token);
      if e.fills[0].order.kind.Sell? {
        DustBound(e.fills, e.bought, e.sold);
      }
    }
  }
}
