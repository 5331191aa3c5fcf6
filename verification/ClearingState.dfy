/** The mutable state of a clearing loop: the dict, lists and set the router and joint-clearing solvers
    update in place (router.py, joint_clearing.py). */
module ClearingState {
  import opened Models
  import opened Encoder
  import opened Ledger

  /** How an attempt to emit a swap ends: refused by the price guard, emitted, or an encoder raised. */
  datatype Emission = Refused | Emitted | Raised

  /** What the fields of a batch are for a ledger. */
  ghost predicate Mirrors(cfg: Config, ledger: seq<Entry>, prices: Prices, trades: seq<Trade>, filledUids: set<Uid>,
                          interactions: seq<Interaction>)
    requires ValidConfig(cfg)
  {
    && AllEncodable(cfg, ledger)
    && prices == PricesOf(ledger)
    && trades == TradesOf(ledger)
    && filledUids == FilledOf(ledger)
    && interactions == InteractionsOf(cfg, ledger)
  }

  lemma MirrorsNothing(cfg: Config)
    requires ValidConfig(cfg)
    ensures Mirrors(cfg, [], map[], [], {}, [])
  {
  }

  /** One more swap moves all four fields together. */
  lemma MirrorsAppend(cfg: Config, ledger: seq<Entry>, prices: Prices, trades: seq<Trade>, filledUids: set<Uid>,
                      interactions: seq<Interaction>, e: Entry)
    requires ValidConfig(cfg) && Mirrors(cfg, ledger, prices, trades, filledUids, interactions) && Encoding(cfg, e).Success?
    ensures Mirrors(cfg, ledger + [e], prices[e.sellToken := e.bought][e.buyToken := e.sold], trades + TradesOfFills(e.fills),
                    filledUids + UidsOf(e.fills), interactions + Encoding(cfg, e).value)
  {
    LedgerAppend(ledger, e);
    TradesAppend(ledger, e);
    InteractionsAppend(cfg, ledger, e);
  }

  class Clearing {
    var prices: Prices
    var trades: seq<Trade>
    var interactions: seq<Interaction>
    var filledUids: set<Uid>
    ghost var ledger: seq<Entry>

    ghost predicate Valid(cfg: Config)
      requires ValidConfig(cfg)
      reads this
    {
      Mirrors(cfg, ledger, prices, trades, filledUids, interactions)
    }

    constructor ()
      ensures ledger == []
      ensures forall cfg :: ValidConfig(cfg) ==> Valid(cfg)
    {
      prices, trades, interactions, filledUids := map[], [], [], {};
      ledger := [];
      new;
      forall cfg | ValidConfig(cfg) ensures Valid(cfg) {
        MirrorsNothing(cfg);
      }
    }

    /** `_register_prices`: both rates are recorded, or neither and the batch is left alone. */
    method RegisterPrices(sellToken: Token, buyToken: Token, executedBuy: nat, executedSell: nat) returns (ok: bool)
      modifies this`prices
      ensures ok == Agrees(old(prices), sellToken, buyToken, executedBuy, executedSell)
      ensures ok ==> prices == old(prices)[sellToken := executedBuy][buyToken := executedSell]
      ensures !ok ==> prices == old(prices)
    {
      if sellToken in prices && prices[sellToken] != executedBuy {
        return false;
      }
      if buyToken in prices && prices[buyToken] != executedSell {
        return false;
      }
      prices := prices[sellToken := executedBuy];
      prices := prices[buyToken := executedSell];
      return true;
    }

    /** One trade per filled order. */
    method AppendTrades(fills: seq<Fill>)
      modifies this`trades, this`filledUids
      ensures trades == old(trades) + TradesOfFills(fills)
      ensures filledUids == old(filledUids) + UidsOf(fills)
    {
      for i := 0 to |fills|
        invariant trades == old(trades) + TradesOfFills(fills[..i])
        invariant filledUids == old(filledUids) + UidsOf(fills[..i])
      {
        assert fills[..i + 1] == fills[..i] + [fills[i]];
        FillsJoin(fills[..i], [fills[i]]);
        trades := trades + [Trade(Fulfillment, fills[i].order.uid, fills[i].executed)];
        filledUids := filledUids + {fills[i].order.uid};
      }
      assert fills[..|fills|] == fills;
    }

    /** Register first, then append the trades, the interactions and the uids. */
    method Emit(cfg: Config, e: Entry) returns (r: Emission)
      requires ValidConfig(cfg) && Valid(cfg)
      modifies this
      ensures r == if !EntryAgrees(old(prices), e) then Refused
                   else if Encoding(cfg, e).Success? then Emitted else Raised
      ensures r != Raised ==> Valid(cfg)
      ensures r == Refused ==> unchanged(this)
      ensures r == Emitted ==> ledger == old(ledger) + [e]
    {
      var ok := RegisterPrices(e.sellToken, e.buyToken, e.bought, e.sold);
      if !ok {
        return Refused;
      }
      AppendTrades(e.fills);
      var encoded := EncodePathInteraction(cfg, e.route, e.sold, e.bought);
      if encoded.Failure? {
        return Raised;
      }
      interactions := interactions + encoded.value;
      MirrorsAppend(cfg, ledger, old(prices), old(trades), old(filledUids), old(interactions), e);
      ledger := ledger + [e];
      return Emitted;
    }
  }
}
