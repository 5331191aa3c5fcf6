/** What a solver publishes: prices, trades and interactions, read without knowing how they came about. */
module Published {
  import opened Sequences
  import opened Models
  import opened Encoder
  import opened Ledger
  import opened ClearingLoop
  import opened Scoring
  import opened SwapCalls
  import Router

  /** Every trade fulfils an order of the list, for a positive amount. */
  predicate TradesKnown(orders: seq<Order>, trades: seq<Trade>) {
    forall k :: 0 <= k < |trades| ==> trades[k].kind.Fulfillment? && trades[k].orderUid in ByUid(orders) && trades[k].executedAmount > 0
  }

  ghost predicate DistinctTrades(trades: seq<Trade>) {
    forall i, j :: 0 <= i < j < |trades| ==> trades[i].orderUid != trades[j].orderUid
  }

  /** The orders of the trades, with what is executed of them. */
  function TradedFills(orders: seq<Order>, trades: seq<Trade>): (fills: seq<Fill>)
    requires TradesKnown(orders, trades)
    ensures |fills| == |trades|
  {
    seq(|trades|, k requires 0 <= k < |trades| => Fill(ByUid(orders)[trades[k].orderUid], trades[k].executedAmount))
  }

  /** What the settlement is given, token by token: the traded orders pay in and are paid out at the clearing prices, the
      swaps declare what they take and bring. `dust` is what is paid out beyond what comes in. */
  ghost predicate Conserves(orders: seq<Order>, prices: Prices, trades: seq<Trade>, interactions: seq<Interaction>, token: Token, dust: nat) {
    && TradesKnown(orders, trades)
    && var fills := TradedFills(orders, trades);
    && AllPayable(prices, fills)
    && PaidIn(prices, fills, token) + OutputsOf(interactions, token) + dust
       == PaidOut(prices, fills, token) + InputsOf(interactions, token)
  }

  /** One swap and the trades it serves: all of one pair; the swap comes approved, takes exactly what these trades pay and
      brings what they are paid, up to one unit for each trade after the first. */
  ghost predicate Serves(prices: Prices, part: seq<Fill>, block: seq<Interaction>) {
    && part != [] && AllPayable(prices, part)
    && var sellToken, buyToken := part[0].order.sellToken, part[0].order.buyToken;
    && (forall i :: 0 <= i < |part| ==> part[i].order.sellToken == sellToken && part[i].order.buyToken == buyToken)
    && exists bought: nat ::
         && ApprovedSwap(block, sellToken, buyToken, PaidIn(prices, part, sellToken), bought)
         && bought <= PaidOut(prices, part, buyToken) <= bought + |part| - 1
  }

  /** The interactions are one such block of calls per swap, in the order of the trades they serve. */
  ghost predicate SwapsServe(prices: Prices, fills: seq<Fill>, interactions: seq<Interaction>, parts: seq<seq<Fill>>,
                             blocks: seq<seq<Interaction>>) {
    && |parts| == |blocks| && Flatten(parts) == fills && Flatten(blocks) == interactions
    && forall k :: 0 <= k < |parts| ==> Serves(prices, parts[k], blocks[k])
  }

  // ---- from a ledger --------------------------------------------------------------------------------

  /** What publishing asks of a ledger. */
  ghost predicate Publishable(orders: seq<Order>, ledger: seq<Entry>) {
    && UniqueUids(orders) && AllBalanced(ledger) && Uniform(ledger) && DistinctUids(FillsOf(ledger))
    && forall f :: f in FillsOf(ledger) ==> f.order in orders && f.executed > 0
  }

  lemma {:induction false} FillsAreTraded(orders: seq<Order>, fills: seq<Fill>)
    requires UniqueUids(orders) && forall f :: f in fills ==> f.order in orders && f.executed > 0
    ensures TradesKnown(orders, TradesOfFills(fills)) && TradedFills(orders, TradesOfFills(fills)) == fills
  {
    forall k | 0 <= k < |fills|
      ensures fills[k].order.uid in ByUid(orders) && ByUid(orders)[fills[k].order.uid] == fills[k].order && fills[k].executed > 0
    {
      assert fills[k] in fills;
      ByUidFinds(orders, fills[k].order);
    }
  }

  function Parts(ledger: seq<Entry>): (parts: seq<seq<Fill>>)
    ensures |parts| == |ledger|
  {
    seq(|ledger|, k requires 0 <= k < |ledger| => ledger[k].fills)
  }

  function Blocks(cfg: Config, ledger: seq<Entry>): (blocks: seq<seq<Interaction>>)
    requires ValidConfig(cfg) && AllEncodable(cfg, ledger)
    ensures |blocks| == |ledger|
  {
    seq(|ledger|, k requires 0 <= k < |ledger| => Encoding(cfg, ledger[k]).value)
  }

  lemma {:induction false} PartsFlatten(ledger: seq<Entry>)
    ensures Flatten(Parts(ledger)) == FillsOf(ledger)
  {
    if ledger != [] {
      var n := |ledger| - 1;
      PartsFlatten(ledger[..n]);
      assert Parts(ledger) == Parts(ledger[..n]) + [ledger[n].fills];
      FlattenNext(Parts(ledger[..n]), ledger[n].fills);
    }
  }

  lemma BlocksNext(cfg: Config, ledger: seq<Entry>)
    requires ValidConfig(cfg) && AllEncodable(cfg, ledger) && ledger != []
    ensures Blocks(cfg, ledger) == Blocks(cfg, ledger[..|ledger| - 1]) + [Encoding(cfg, ledger[|ledger| - 1]).value]
  {
    assert forall k :: 0 <= k < |ledger| - 1 ==> ledger[..|ledger| - 1][k] == ledger[k];
  }

  lemma {:induction false} BlocksFlatten(cfg: Config, ledger: seq<Entry>)
    requires ValidConfig(cfg) && AllEncodable(cfg, ledger)
    ensures Flatten(Blocks(cfg, ledger)) == InteractionsOf(cfg, ledger)
  {
    if ledger != [] {
      var n := |ledger| - 1;
      BlocksFlatten(cfg, ledger[..n]);
      BlocksNext(cfg, ledger);
      FlattenNext(Blocks(cfg, ledger[..n]), Encoding(cfg, ledger[n]).value);
    }
  }

  lemma {:induction false} EntryServes(cfg: Config, prices: Prices, e: Entry)
    requires ValidConfig(cfg) && Encoding(cfg, e).Success? && Balanced(e) && PricedAs(prices, e)
    ensures Serves(prices, e.fills, Encoding(cfg, e).value)
  {
    EntryPaid(prices, e, e.sellToken);
    EntryPaid(prices, e, e.buyToken);
    EncodedIsApproved(cfg, e.route, e.sold, e.bought);
  }

  /** The swaps of a published ledger serve its trades. */
  lemma {:induction false} LedgerServes(cfg: Config, orders: seq<Order>, ledger: seq<Entry>)
    requires ValidConfig(cfg) && AllEncodable(cfg, ledger) && Publishable(orders, ledger)
    ensures SwapsServe(PricesOf(ledger), FillsOf(ledger), InteractionsOf(cfg, ledger), Parts(ledger), Blocks(cfg, ledger))
  {
    PartsFlatten(ledger);
    BlocksFlatten(cfg, ledger);
    forall k | 0 <= k < |ledger| ensures Serves(PricesOf(ledger), Parts(ledger)[k], Blocks(cfg, ledger)[k]) {
      EntryServes(cfg, PricesOf(ledger), ledger[k]);
    }
  }

  /** A published ledger conserves every token, but for its dust. */
  lemma {:induction false} LedgerConserves(cfg: Config, orders: seq<Order>, ledger: seq<Entry>, token: Token)
    requires ValidConfig(cfg) && AllEncodable(cfg, ledger) && Publishable(orders, ledger)
    ensures Conserves(orders, PricesOf(ledger), TradesOf(ledger), InteractionsOf(cfg, ledger), token, DustAt(ledger, token))
    ensures DustAt(ledger, token) <= |TradesOf(ledger)| - |ledger|
  {
    FillsAreTraded(orders, FillsOf(ledger));
    Conservation(cfg, PricesOf(ledger), ledger, token);
  }

  lemma {:induction false} DistinctAsTrades(ledger: seq<Entry>)
    requires DistinctUids(FillsOf(ledger))
    ensures DistinctTrades(TradesOf(ledger))
  {
  }

  /** A price is published for the tokens of the traded orders, and for no other. */
  ghost predicate OnlyTradedPriced(prices: Prices, fills: seq<Fill>) {
    forall t :: t in prices <==> exists f :: f in fills && (t == f.order.sellToken || t == f.order.buyToken)
  }

  lemma {:induction false} LedgerPricesTraded(orders: seq<Order>, ledger: seq<Entry>)
    requires Publishable(orders, ledger)
    ensures OnlyTradedPriced(PricesOf(ledger), FillsOf(ledger))
  {
    forall t: Token
      ensures t in PricesOf(ledger) <==> exists f :: f in FillsOf(ledger) && (t == f.order.sellToken || t == f.order.buyToken)
    {
      PricedTokens(ledger, t);
      if i :| 0 <= i < |ledger| && (t == ledger[i].sellToken || t == ledger[i].buyToken) {
        FillsOfMember(ledger, ledger[i].fills[0]);
      }
      if f :| f in FillsOf(ledger) && (t == f.order.sellToken || t == f.order.buyToken) {
        FillsOfMember(ledger, f);
        var k :| 0 <= k < |ledger| && f in ledger[k].fills;
      }
    }
  }

  /** A solution whose trades, prices and swaps belong together. */
  ghost predicate Coherent(orders: seq<Order>, r: Router.Outcome, parts: seq<seq<Fill>>, blocks: seq<seq<Interaction>>)
    requires r.Solved?
  {
    && r.trades != [] && TradesKnown(orders, r.trades) && DistinctTrades(r.trades)
    && OnlyTradedPriced(r.prices, TradedFills(orders, r.trades))
    && SwapsServe(r.prices, TradedFills(orders, r.trades), r.interactions, parts, blocks)
  }

  lemma {:induction false} LedgerIsCoherent(cfg: Config, orders: seq<Order>, ledger: seq<Entry>)
    requires ValidConfig(cfg) && Publishable(orders, ledger) && Router.OutcomeOf(cfg, ledger).Solved?
    ensures Coherent(orders, Router.OutcomeOf(cfg, ledger), Parts(ledger), Blocks(cfg, ledger))
  {
    FillsAreTraded(orders, FillsOf(ledger));
    LedgerServes(cfg, orders, ledger);
    LedgerPricesTraded(orders, ledger);
    DistinctAsTrades(ledger);
  }
}
