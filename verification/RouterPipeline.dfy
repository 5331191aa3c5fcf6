/** RouterSolver.solve around the batched pass: the order filter before it, the order cap, and the funding
    gate after it (solver/router.py). Ranking the candidates is left outside. */
module RouterPipeline {
  import opened Wrappers
  import opened Sequences
  import opened Models
  import opened Multicall
  import opened Ledger
  import opened Router
  import opened OrderValidity
  import Encoder
  import RouterQuotes
  import RouterInvariants

  function Capped(orders: seq<Order>, n: nat): seq<Order> {
    if |orders| <= n then orders else orders[..n]
  }

  /** The auction's orders a solution trades. */
  function TradedOrders(auction: seq<Order>, trades: seq<Trade>): seq<Order> {
    if auction == [] then []
    else
      var n := |auction| - 1;
      TradedOrders(auction[..n], trades) + (if exists t :: t in trades && t.orderUid == auction[n].uid then [auction[n]] else [])
  }

  lemma {:induction false} TradedOrdersOf(auction: seq<Order>, trades: seq<Trade>)
    ensures forall o :: o in TradedOrders(auction, trades) <==> o in auction && exists t :: t in trades && t.orderUid == o.uid
  {
    if auction != [] {
      var n := |auction| - 1;
      TradedOrdersOf(auction[..n], trades);
      assert auction == auction[..n] + [auction[n]];
    }
  }

  lemma {:induction false} TradedOrdersUnique(auction: seq<Order>, trades: seq<Trade>)
    requires UniqueUids(auction)
    ensures UniqueUids(TradedOrders(auction, trades))
  {
    if auction != [] {
      var n := |auction| - 1;
      var before := TradedOrders(auction[..n], trades);
      TradedOrdersUnique(auction[..n], trades);
      TradedOrdersOf(auction[..n], trades);
      forall i | 0 <= i < |before| ensures before[i].uid != auction[n].uid {
        assert before[i] in before;
      }
    }
  }

  lemma {:induction false} KeepOf(orders: seq<Order>, decisions: seq<Option<Reason>>)
    requires |decisions| == |orders|
    ensures forall o :: o in Keep(orders, decisions) ==> exists i :: 0 <= i < |orders| && orders[i] == o && decisions[i].None?
    ensures UniqueUids(orders) ==> UniqueUids(Keep(orders, decisions))
  {
    if orders != [] {
      var n := |orders| - 1;
      KeepOf(orders[..n], decisions[..n]);
      var before := Keep(orders[..n], decisions[..n]);
      forall o | o in before ensures exists i :: 0 <= i < |orders| && orders[i] == o && decisions[i].None? {
        var i :| 0 <= i < n && orders[..n][i] == o && decisions[..n][i].None?;
        assert orders[i] == o;
      }
      if UniqueUids(orders) {
        forall i | 0 <= i < |before| ensures before[i].uid != orders[n].uid {
          assert before[i] in before;
        }
      }
    }
  }

  /** Nothing in the chain's answers speaks against the order. */
  ghost predicate Clean(node: Node<ReadCall>, o: Order) {
    forall reason :: !RuledOut(node, o, reason)
  }

  lemma {:induction false} CleanExact(node: Node<ReadCall>, orders: seq<Order>)
    requires Encodable(orders)
    ensures forall i :: 0 <= i < |orders| ==> (Decisions(node, orders)[i].None? <==> Clean(node, orders[i]))
  {
    forall i | 0 <= i < |orders| ensures Decisions(node, orders)[i].None? <==> Clean(node, orders[i]) {
      DecisionExact(node, orders[i]);
      if Decision(node, orders[i]).Some? {
        assert RuledOut(node, orders[i], Decision(node, orders[i]).value);
      }
    }
  }

  ghost predicate AllPass(node: Node<ReadCall>, orders: seq<Order>) {
    forall i :: 0 <= i < |orders| ==> CanAsk(orders[i]) && Clean(node, orders[i])
  }

  /** The filter's reads come back, and what they say of some order is that it cannot settle. */
  ghost predicate FilterDrops(node: Node<ReadCall>, orders: seq<Order>) {
    && Encodable(orders)
    && var results := AggregateResilient(node, AllCalls(orders));
    && results.Success? && |results.value| == |AllChecks(orders)|
    && SomeDropped(ScatteredDecisions(orders, AllChecks(orders), results.value))
  }

  ghost predicate SomeDropped(decisions: seq<Option<Reason>>) {
    exists i :: 0 <= i < |decisions| && decisions[i].Some?
  }

  /** On a readable node that is a dead order, judged alone. */
  lemma FilterDropsExact(node: Node<ReadCall>, orders: seq<Order>)
    requires UniqueUids(orders) && Readable(node, orders)
    ensures FilterDrops(node, orders) <==> !AllPass(node, orders)
  {
    ScatteredIsPerOrder(node, orders);
    NoneMeansPass(node, orders);
  }

  lemma NoneMeansPass(node: Node<ReadCall>, orders: seq<Order>)
    requires Encodable(orders)
    ensures AllPass(node, orders) <==> !SomeDropped(Decisions(node, orders))
  {
    CleanExact(node, orders);
  }

  /** Does the filter find any of these orders dead? When reading fails it finds none. */
  method AnyDropped(node: Node<ReadCall>, orders: seq<Order>) returns (any: bool)
    requires UniqueUids(orders)
    ensures !Encodable(orders) || AggregateResilient(node, AllCalls(orders)).Failure? ==> !any
    ensures any <==> FilterDrops(node, orders)
  {
    var kept, dropped := FilterValidOrders(node, orders);
    any := dropped != map[];
    if Encodable(orders) && AggregateResilient(node, AllCalls(orders)).Success? {
      var results := AggregateResilient(node, AllCalls(orders)).value;
      DroppedNone(orders, ScatteredDecisions(orders, AllChecks(orders), results), kept, dropped);
    }
  }

  /** What the gate lets through. */
  ghost function Gated(node: Node<ReadCall>, auction: seq<Order>, r: Outcome): Outcome {
    if r.Solved? && FilterDrops(node, TradedOrders(auction, r.trades)) then NoSolution else r
  }

  /** `_funding_gate`: a solved batch with a provably dead leg is withdrawn; when reading fails, nothing is. */
  method FundingGate(node: Node<ReadCall>, auction: seq<Order>, r: Outcome) returns (gated: Outcome)
    requires UniqueUids(auction)
    ensures gated == Gated(node, auction, r)
    ensures gated == r || gated == NoSolution
    ensures r.Solved? ==>
              var traded := TradedOrders(auction, r.trades);
              && (!Encodable(traded) || AggregateResilient(node, AllCalls(traded)).Failure? ==> gated == r)
              && (Readable(node, traded) ==> (gated == r <==> AllPass(node, traded)))
  {
    if !r.Solved? {
      return r;
    }
    var traded := TradedOrders(auction, r.trades);
    TradedOrdersUnique(auction, r.trades);
    if Readable(node, traded) {
      FilterDropsExact(node, traded);
    }
    if traded == [] {
      return r;
    }
    var any := AnyDropped(node, traded);
    return if any then NoSolution else r;
  }

  lemma DroppedNone(orders: seq<Order>, decisions: seq<Option<Reason>>, kept: seq<Order>, dropped: map<Uid, Reason>)
    requires |decisions| == |orders| && FilteredBy(orders, decisions, kept, dropped)
    ensures dropped == map[] <==> forall i :: 0 <= i < |orders| ==> decisions[i].None?
  {
    if dropped != map[] {
      var uid :| uid in dropped;
      var i :| 0 <= i < |orders| && orders[i].uid == uid;
      assert decisions[i].Some?;
    } else {
      forall i | 0 <= i < |orders| ensures decisions[i].None? {
        assert orders[i].uid !in dropped;
      }
    }
  }

  /** The orders that reach quoting: the candidates the filter keeps among the top three times the cap. */
  function Selected(node: Node<ReadCall>, filterOn: bool, maxOrders: nat, ranked: seq<Order>): seq<Order> {
    if !filterOn then Capped(ranked, maxOrders)
    else
      var topK := Capped(ranked, 3 * maxOrders);
      if !Encodable(topK) then Capped(topK, maxOrders)
      else
        var results := AggregateResilient(node, AllCalls(topK));
        if results.Failure? || |results.value| != |AllChecks(topK)| then Capped(topK, maxOrders)
        else Capped(Keep(topK, ScatteredDecisions(topK, AllChecks(topK), results.value)), maxOrders)
  }

  method SelectOrders(node: Node<ReadCall>, filterOn: bool, maxOrders: nat, ranked: seq<Order>) returns (orders: seq<Order>)
    requires UniqueUids(ranked)
    ensures orders == Selected(node, filterOn, maxOrders, ranked)
  {
    if !filterOn {
      return Capped(ranked, maxOrders);
    }
    var topK := Capped(ranked, 3 * maxOrders);
    var kept, dropped := FilterValidOrders(node, topK);
    return Capped(kept, maxOrders);
  }

  /** Never more than the cap; and the first ones, when the filter is off or its reads fail. */
  lemma {:induction false} SelectedIsCapped(node: Node<ReadCall>, filterOn: bool, maxOrders: nat, ranked: seq<Order>)
    ensures var orders, topK := Selected(node, filterOn, maxOrders, ranked), Capped(ranked, 3 * maxOrders);
      && |orders| <= maxOrders
      && (!filterOn || !Encodable(topK) || AggregateResilient(node, AllCalls(topK)).Failure? ==>
            orders <= ranked && (|orders| == maxOrders || orders == ranked))
  {
    CapTwice(ranked, maxOrders);
  }

  lemma CapTwice(ranked: seq<Order>, maxOrders: nat)
    ensures Capped(Capped(ranked, 3 * maxOrders), maxOrders) == Capped(ranked, maxOrders)
  {
  }

  lemma SelectedIsKept(node: Node<ReadCall>, maxOrders: nat, ranked: seq<Order>)
    requires UniqueUids(ranked) && Readable(node, Capped(ranked, 3 * maxOrders))
    ensures var topK := Capped(ranked, 3 * maxOrders);
            Selected(node, true, maxOrders, ranked) == Capped(Keep(topK, Decisions(node, topK)), maxOrders)
  {
    ScatteredIsPerOrder(node, Capped(ranked, 3 * maxOrders));
  }

  lemma {:induction false} KeptPass(node: Node<ReadCall>, topK: seq<Order>, o: Order)
    requires Encodable(topK) && o in Keep(topK, Decisions(node, topK))
    ensures o in topK && CanAsk(o) && Clean(node, o)
  {
    CleanExact(node, topK);
    KeepOf(topK, Decisions(node, topK));
    var i :| 0 <= i < |topK| && topK[i] == o && Decisions(node, topK)[i].None?;
  }

  lemma CappedOf(orders: seq<Order>, n: nat)
    ensures |Capped(orders, n)| <= n && forall o :: o in Capped(orders, n) ==> o in orders
    ensures UniqueUids(orders) ==> UniqueUids(Capped(orders, n))
  {
  }

  /** What the filter selects is solvable at the time of its reads. */
  lemma SelectedPass(node: Node<ReadCall>, maxOrders: nat, ranked: seq<Order>)
    requires UniqueUids(ranked) && Readable(node, Capped(ranked, 3 * maxOrders))
    ensures forall o :: o in Selected(node, true, maxOrders, ranked) ==>
              o in ranked && CanAsk(o) && Clean(node, o)
    ensures |Selected(node, true, maxOrders, ranked)| <= maxOrders
    ensures UniqueUids(Selected(node, true, maxOrders, ranked))
  {
    SelectedIsKept(node, maxOrders, ranked);
    CappedOf(ranked, 3 * maxOrders);
    var topK := Capped(ranked, 3 * maxOrders);
    var kept := Keep(topK, Decisions(node, topK));
    KeepOf(topK, Decisions(node, topK));
    CappedOf(kept, maxOrders);
    forall o | o in Capped(kept, maxOrders) ensures o in ranked && CanAsk(o) && Clean(node, o) {
      KeptPass(node, topK, o);
    }
  }

  /** The selection takes the clean orders of the first three times the cap, in their ranking, until the cap is reached. */
  ghost predicate TakesClean(node: Node<ReadCall>, maxOrders: nat, ranked: seq<Order>, selected: seq<Order>, at: seq<nat>) {
    && PickedAt(ranked, selected, at) && |at| <= maxOrders
    && (forall i :: i in at ==> i < 3 * maxOrders && i < |ranked| && Clean(node, ranked[i]))
    && forall i :: 0 <= i < |ranked| && i < 3 * maxOrders && Clean(node, ranked[i]) && i !in at ==>
         |at| == maxOrders && forall k :: 0 <= k < |at| ==> at[k] < i
  }

  lemma {:induction false} CapTakesClean(node: Node<ReadCall>, maxOrders: nat, ranked: seq<Order>, kept: seq<Order>, all: seq<nat>)
    returns (at: seq<nat>)
    requires var topK := Capped(ranked, 3 * maxOrders);
             PickedAt(topK, kept, all) && forall i :: 0 <= i < |topK| ==> (i in all <==> Clean(node, topK[i]))
    ensures TakesClean(node, maxOrders, ranked, Capped(kept, maxOrders), at)
  {
    var topK := Capped(ranked, 3 * maxOrders);
    at := if |all| <= maxOrders then all else all[..maxOrders];
    assert forall k :: 0 <= k < |at| ==> at[k] == all[k] && topK[at[k]] == ranked[at[k]];
    forall i | i in at ensures i < 3 * maxOrders && i < |ranked| && Clean(node, ranked[i]) {
      assert i in all && topK[i] == ranked[i];
    }
    forall i | 0 <= i < |ranked| && i < 3 * maxOrders && Clean(node, ranked[i]) && i !in at
      ensures |at| == maxOrders && forall k :: 0 <= k < |at| ==> at[k] < i
    {
      assert topK[i] == ranked[i] && i in all;
      var k :| 0 <= k < |all| && all[k] == i;
      assert k >= |at|;
    }
  }

  lemma {:induction false} SelectedExact(node: Node<ReadCall>, maxOrders: nat, ranked: seq<Order>) returns (at: seq<nat>)
    requires UniqueUids(ranked) && Readable(node, Capped(ranked, 3 * maxOrders))
    ensures TakesClean(node, maxOrders, ranked, Selected(node, true, maxOrders, ranked), at)
  {
    var topK := Capped(ranked, 3 * maxOrders);
    var decisions := Decisions(node, topK);
    SelectedIsKept(node, maxOrders, ranked);
    CleanExact(node, topK);
    var all := KeepPicks(topK, decisions);
    at := CapTakesClean(node, maxOrders, ranked, Keep(topK, decisions), all);
  }

  /** What `RouterSolver.solve` returns for a ranked list: filter, batched pass, gate. */
  ghost function RouterOutcome(cfg: RouterConfig, venues: Venues, before: Node<ReadCall>, after: Node<ReadCall>, filterOn: bool,
                               maxOrders: nat, ranked: seq<Order>, auction: seq<Order>): Outcome
    requires Encoder.ValidConfig(cfg.encoder)
  {
    var solved := BatchedOutcome(cfg, venues, Selected(before, filterOn, maxOrders, ranked));
    if filterOn then Gated(after, auction, solved) else solved
  }

  /** `RouterSolver.solve` after ranking: the filter reads the chain before quoting, the gate after. What
      leaves the router is the batched outcome, withdrawn exactly when the filter is on, the gate's reads come
      back and a traded order cannot settle by them; failed reads withdraw nothing. */
  method Solve(cfg: RouterConfig, venues: Venues, before: Node<ReadCall>, after: Node<ReadCall>, filterOn: bool, maxOrders: nat,
               ranked: seq<Order>, auction: seq<Order>) returns (r: Outcome)
    requires Encoder.ValidConfig(cfg.encoder)
    requires UniqueUids(ranked) && UniqueUids(auction)
    ensures r == RouterOutcome(cfg, venues, before, after, filterOn, maxOrders, ranked, auction)
    ensures r == NoSolution || r == BatchedOutcome(cfg, venues, Selected(before, filterOn, maxOrders, ranked))
    ensures var solved := BatchedOutcome(cfg, venues, Selected(before, filterOn, maxOrders, ranked));
            solved.Solved? && filterOn ==>
              var traded := TradedOrders(auction, solved.trades);
              && (!Encodable(traded) || AggregateResilient(after, AllCalls(traded)).Failure? ==> r == solved)
              && (Readable(after, traded) ==> (r == solved <==> AllPass(after, traded)))
  {
    var orders := SelectOrders(before, filterOn, maxOrders, ranked);
    r := SolveV3Batched(cfg, venues, orders);
    if filterOn {
      r := FundingGate(after, auction, r);
    }
  }

  /** Filtering and capping only ever remove candidates. */
  lemma SelectedOf(node: Node<ReadCall>, filterOn: bool, maxOrders: nat, ranked: seq<Order>)
    requires UniqueUids(ranked)
    ensures var orders := Selected(node, filterOn, maxOrders, ranked);
            UniqueUids(orders) && forall o :: o in orders ==> o in ranked
  {
    var topK := Capped(ranked, 3 * maxOrders);
    CappedOf(ranked, maxOrders);
    CappedOf(ranked, 3 * maxOrders);
    CappedOf(topK, maxOrders);
    if Encodable(topK) {
      var results := AggregateResilient(node, AllCalls(topK));
      if results.Success? && |results.value| == |AllChecks(topK)| {
        var decisions := ScatteredDecisions(topK, AllChecks(topK), results.value);
        KeepOf(topK, decisions);
        CappedOf(Keep(topK, decisions), maxOrders);
      }
    }
  }

  /** When the chain has not moved between filter and gate, the gate's condition always holds: it can only
      ever withdraw a solution because something changed in between, or because the filter failed open. */
  lemma {:induction false} UnmovedChainPassesGate(cfg: RouterConfig, venues: Venues, node: Node<ReadCall>, maxOrders: nat,
                               ranked: seq<Order>, auction: seq<Order>)
    requires Encoder.ValidConfig(cfg.encoder)
    requires UniqueUids(ranked) && UniqueUids(auction) && AllSigned(ranked) && forall o :: o in ranked ==> o in auction
    requires Readable(node, Capped(ranked, 3 * maxOrders))
    requires var orders := Selected(node, true, maxOrders, ranked);
             && V3Buildable(cfg, venues, orders)
             && RouterQuotes.ZeroForZero(AllQuotes(cfg, venues, orders))
             && BatchedOutcome(cfg, venues, orders).Solved?
    ensures AllPass(node, TradedOrders(auction, BatchedOutcome(cfg, venues, Selected(node, true, maxOrders, ranked)).trades))
  {
    var orders := Selected(node, true, maxOrders, ranked);
    var trades := BatchedOutcome(cfg, venues, orders).trades;
    var quotes := AllQuotes(cfg, venues, orders);
    SelectedPass(node, maxOrders, ranked);
    RouterQuotes.GatheredQuotesAnswer(cfg, venues, orders);
    RouterInvariants.RouterTrades(orders, quotes);
    RouterInvariants.RouterFillsOnce(orders, quotes);
    var fills := FillsOf(RouterInvariants.RouterLedger(orders, quotes));
    TradedPass(node, auction, orders, trades, fills);
  }

  lemma {:induction false} TradedPass(node: Node<ReadCall>, auction: seq<Order>, orders: seq<Order>, trades: seq<Trade>, fills: seq<Fill>)
    requires UniqueUids(auction) && forall p :: p in orders ==> p in auction
    requires |trades| == |fills| && forall k :: 0 <= k < |fills| ==> trades[k].orderUid == fills[k].order.uid
    requires forall f :: f in fills ==> f.order in orders
    requires forall o :: o in orders ==> CanAsk(o) && Clean(node, o)
    ensures AllPass(node, TradedOrders(auction, trades))
  {
    TradedOrdersOf(auction, trades);
    var traded := TradedOrders(auction, trades);
    forall i | 0 <= i < |traded| ensures CanAsk(traded[i]) && Clean(node, traded[i]) {
      assert traded[i] in traded;
      TradedIsFilled(auction, orders, trades, fills, traded[i]);
    }
  }

  /** An auction order with a trade is one of the orders the fills came from. */
  lemma TradedIsFilled(auction: seq<Order>, orders: seq<Order>, trades: seq<Trade>, fills: seq<Fill>, o: Order)
    requires UniqueUids(auction) && forall p :: p in orders ==> p in auction
    requires |trades| == |fills| && forall k :: 0 <= k < |fills| ==> trades[k].orderUid == fills[k].order.uid
    requires forall f :: f in fills ==> f.order in orders
    requires o in auction && exists t :: t in trades && t.orderUid == o.uid
    ensures o in orders
  {
    var t :| t in trades && t.orderUid == o.uid;
    var k :| 0 <= k < |trades| && trades[k] == t;
    assert fills[k] in fills;
    SameOrder(auction, fills[k].order, o);
  }

  lemma SameOrder(auction: seq<Order>, o: Order, p: Order)
    requires UniqueUids(auction) && o in auction && p in auction && o.uid == p.uid
    ensures o == p
  {
    var i :| 0 <= i < |auction| && auction[i] == o;
    var j :| 0 <= j < |auction| && auction[j] == p;
  }
}
