/** What holds of joint-clearing solutions across the group phase and the fallback phase. */
module JointInvariants {
  import opened Wrappers
  import opened IntDivision
  import opened Models
  import opened Encoder
  import opened Selection
  import opened Ledger
  import opened ClearingLoop
  import opened JointClearing
  import opened Scoring

  // ---- groups ---------------------------------------------------------------------------------------

  ghost predicate GoodGroup(g: Group, orders: seq<Order>) {
    && g.orders != [] && DistinctUids(FullSells(g.orders))
    && forall k :: 0 <= k < |g.orders| ==>
         g.orders[k] in orders && Groupable(g.orders[k])
         && g.orders[k].sellToken == g.sellToken && g.orders[k].buyToken == g.buyToken
  }

  predicate SamePair(g: Group, h: Group) {
    g.sellToken == h.sellToken && g.buyToken == h.buyToken
  }

  /** Every group is made of groupable orders of its own pair, and no two groups share a pair. */
  ghost predicate GoodGroups(groups: seq<Group>, orders: seq<Order>) {
    && (forall i :: 0 <= i < |groups| ==> GoodGroup(groups[i], orders))
    && (forall i, j :: 0 <= i < j < |groups| ==> !SamePair(groups[i], groups[j]))
  }

  lemma GroupGrows(g: Group, orders: seq<Order>, o: Order)
    requires GoodGroup(g, orders) && Groupable(o) && o.sellToken == g.sellToken && o.buyToken == g.buyToken
    requires forall p :: p in orders ==> p.uid != o.uid
    ensures GoodGroup(g.(orders := g.orders + [o]), orders + [o])
  {
    var grown := FullSells(g.orders + [o]);
    forall a, b | 0 <= a < b < |grown| ensures grown[a].order.uid != grown[b].order.uid {
      if b < |g.orders| {
        assert FullSells(g.orders)[a].order.uid != FullSells(g.orders)[b].order.uid;
      } else {
        assert g.orders[a] in orders;
      }
    }
  }

  lemma GroupKeeps(g: Group, orders: seq<Order>, o: Order)
    requires GoodGroup(g, orders)
    ensures GoodGroup(g, orders + [o])
  {
  }

  lemma AddKeepsGood(groups: seq<Group>, orders: seq<Order>, o: Order)
    requires GoodGroups(groups, orders) && Groupable(o) && forall p :: p in orders ==> p.uid != o.uid
    ensures GoodGroups(AddToGroups(groups, o), orders + [o])
  {
    var k := PairIndex(groups, o.sellToken, o.buyToken);
    var added := AddToGroups(groups, o);
    assert FullSells([o]) == [Fill(o, o.sellAmount)];
    forall i | 0 <= i < |added| ensures GoodGroup(added[i], orders + [o]) {
      if i < |groups| {
        GroupKeeps(groups[i], orders, o);
        if i == k { GroupGrows(groups[i], orders, o); }
      }
    }
    forall i, j | 0 <= i < j < |added| ensures !SamePair(added[i], added[j]) {
      if j < |groups| {
        assert !SamePair(groups[i], groups[j]);
      }
    }
  }

  lemma {:induction false} GroupsAreGood(orders: seq<Order>)
    requires UniqueUids(orders)
    ensures GoodGroups(GroupsOf(orders), orders)
  {
    if orders != [] {
      var n := |orders| - 1;
      GroupsAreGood(orders[..n]);
      assert orders[..n] + [orders[n]] == orders;
      if Groupable(orders[n]) {
        AddKeepsGood(GroupsOf(orders[..n]), orders[..n], orders[n]);
      } else {
        forall i | 0 <= i < |GroupsOf(orders)| ensures GoodGroup(GroupsOf(orders)[i], orders) {
          GroupKeeps(GroupsOf(orders[..n])[i], orders[..n], orders[n]);
        }
      }
    }
  }

  lemma {:induction false} BigEnoughKeepsGood(groups: seq<Group>, minGroupSize: nat, orders: seq<Order>)
    requires GoodGroups(groups, orders)
    ensures GoodGroups(BigEnough(groups, minGroupSize), orders)
    ensures forall g :: g in BigEnough(groups, minGroupSize) ==> g in groups && |g.orders| >= minGroupSize
  {
    if groups != [] {
      var n := |groups| - 1;
      BigEnoughKeepsGood(groups[..n], minGroupSize, orders);
      var before := BigEnough(groups[..n], minGroupSize);
      forall i | 0 <= i < |before| ensures !SamePair(before[i], groups[n]) {
        assert before[i] in before;
        var k :| 0 <= k < n && groups[k] == before[i];
        assert !SamePair(groups[k], groups[n]);
      }
    }
  }

  // ---- attempts -------------------------------------------------------------------------------------

  /** Signed orders with unique uids, groups made of them, and individual quotes that answer for them. */
  ghost predicate JointQuoted(orders: seq<Order>, groups: seq<Group>, quotes: seq<RouteQuote>) {
    && UniqueUids(orders) && AllSigned(orders)
    && GoodGroups(groups, orders)
    && QuotesMatch(orders, IndividualQuotes(quotes))
  }

  /** A sell filled in full, and paid at least its limit, at an entry's rate. */
  predicate PaidInFull(e: Entry, f: Fill)
    requires e.sold > 0
  {
    && f.order.kind.Sell? && f.executed == f.order.sellAmount
    && CeilDiv(f.executed * e.bought, e.sold) >= f.order.buyAmount
  }

  ghost predicate GoodEntry(e: Entry, orders: seq<Order>) {
    && Balanced(e) && DistinctUids(e.fills)
    && forall k :: 0 <= k < |e.fills| ==> e.fills[k].order in orders && PaidInFull(e, e.fills[k])
  }

  lemma {:induction false} BestJointEligible(quotes: seq<RouteQuote>, sellToken: Token, buyToken: Token)
    ensures var best := BestJoint(quotes, sellToken, buyToken);
      && (best.Some? ==> best.value in quotes && JointEligible(best.value, sellToken, buyToken))
      && forall i :: 0 <= i < |quotes| && JointEligible(quotes[i], sellToken, buyToken) ==>
           best.Some? && quotes[i].amountOut <= best.value.amountOut
  {
    if quotes != [] {
      var n := |quotes| - 1;
      BestJointEligible(quotes[..n], sellToken, buyToken);
      assert forall i :: 0 <= i < n ==> quotes[..n][i] == quotes[i];
    }
  }

  /** No eligible quote is larger, and every one before it is smaller. */
  ghost predicate FirstLargest(quotes: seq<RouteQuote>, sellToken: Token, buyToken: Token, k: nat) {
    && k < |quotes| && JointEligible(quotes[k], sellToken, buyToken)
    && (forall i :: 0 <= i < |quotes| && JointEligible(quotes[i], sellToken, buyToken) ==> quotes[i].amountOut <= quotes[k].amountOut)
    && (forall i :: 0 <= i < k && JointEligible(quotes[i], sellToken, buyToken) ==> quotes[i].amountOut < quotes[k].amountOut)
  }

  /** One quote more: the first largest stays, unless the new one is larger still. */
  lemma FirstLargestNext(quotes: seq<RouteQuote>, sellToken: Token, buyToken: Token, k: nat)
    requires quotes != [] && FirstLargest(quotes[..|quotes| - 1], sellToken, buyToken, k)
    ensures var q := quotes[|quotes| - 1];
            FirstLargest(quotes, sellToken, buyToken,
                         if JointEligible(q, sellToken, buyToken) && q.amountOut > quotes[k].amountOut then |quotes| - 1 else k)
  {
    var before := quotes[..|quotes| - 1];
    forall i | 0 <= i < |before| && JointEligible(quotes[i], sellToken, buyToken)
      ensures quotes[i].amountOut <= quotes[k].amountOut && (i < k ==> quotes[i].amountOut < quotes[k].amountOut)
    {
      assert before[i] == quotes[i] && before[k] == quotes[k];
    }
    assert before[k] == quotes[k];
  }

  lemma {:induction false} NothingEligible(quotes: seq<RouteQuote>, sellToken: Token, buyToken: Token)
    requires BestJoint(quotes, sellToken, buyToken).None?
    ensures forall i :: 0 <= i < |quotes| ==> !JointEligible(quotes[i], sellToken, buyToken)
  {
    BestJointEligible(quotes, sellToken, buyToken);
  }

  lemma FirstLargestAlone(quotes: seq<RouteQuote>, before: seq<RouteQuote>, sellToken: Token, buyToken: Token)
    requires quotes != [] && before == quotes[..|quotes| - 1] && JointEligible(quotes[|quotes| - 1], sellToken, buyToken)
    requires forall i :: 0 <= i < |before| ==> !JointEligible(before[i], sellToken, buyToken)
    ensures FirstLargest(quotes, sellToken, buyToken, |quotes| - 1)
  {
    forall i | 0 <= i < |before| ensures !JointEligible(quotes[i], sellToken, buyToken) {
      assert before[i] == quotes[i];
    }
  }

  /** The best joint quote is the first largest eligible one. */
  lemma {:induction false} BestJointIsFirst(quotes: seq<RouteQuote>, sellToken: Token, buyToken: Token) returns (k: nat)
    requires BestJoint(quotes, sellToken, buyToken).Some?
    ensures FirstLargest(quotes, sellToken, buyToken, k) && quotes[k] == BestJoint(quotes, sellToken, buyToken).value
  {
    var n := |quotes| - 1;
    var before, q := quotes[..n], quotes[n];
    var best := BestJoint(before, sellToken, buyToken);
    if best.None? {
      NothingEligible(before, sellToken, buyToken);
      FirstLargestAlone(quotes, before, sellToken, buyToken);
      return n;
    }
    k := BestJointIsFirst(before, sellToken, buyToken);
    FirstLargestNext(quotes, sellToken, buyToken, k);
    assert before[k] == quotes[k];
    if JointEligible(q, sellToken, buyToken) && q.amountOut > quotes[k].amountOut {
      k := n;
    }
  }

  lemma GroupAttemptGood(g: Group, orders: seq<Order>, quotes: seq<RouteQuote>, e: Entry)
    requires GoodGroup(g, orders) && AllSigned(orders) && e in GroupAttempts(g, quotes)
    ensures GoodEntry(e, orders) && e.sellToken == g.sellToken && e.buyToken == g.buyToken
    ensures e.fills == FullSells(g.orders)
  {
    BestJointEligible(quotes, g.sellToken, g.buyToken);
    var best := BestJoint(quotes, g.sellToken, g.buyToken).value;
    assert e == GroupEntry(g, best);
    assert g.orders[0] in orders;
    forall k | 0 <= k < |e.fills| ensures e.fills[k].order in orders && PaidInFull(e, e.fills[k]) {
      assert Received(g.orders[k], CombinedSell(g), best.amountOut) >= g.orders[k].buyAmount;
    }
  }

  lemma FallbackAttemptGood(orders: seq<Order>, quotes: seq<RouteQuote>, i: nat, e: Entry)
    requires i < |orders| && AllSigned(orders) && QuotesMatch(orders, quotes) && e in FallbackAttempts(orders[i], quotes)
    ensures GoodEntry(e, orders) && e.fills == [Fill(orders[i], orders[i].sellAmount)]
  {
    var o := orders[i];
    assert o in orders;
    BestOfOrder(orders, quotes, i, None);
    assert e.fills[..0] == [];
    assert SumExecuted(e.fills) == o.sellAmount;
    assert o.sellAmount * e.bought == e.bought * o.sellAmount;
    CeilDivExact(e.bought, o.sellAmount);
  }

  lemma GroupItemsGood(orders: seq<Order>, groups: seq<Group>, quotes: seq<RouteQuote>)
    requires JointQuoted(orders, groups, quotes)
    ensures var items := GroupItems(groups, quotes);
      && AllTwoTokens(items) && ItemsApart(items)
      && forall i, e :: 0 <= i < |items| && e in items[i] ==> GoodEntry(e, orders)
  {
    var items: seq<seq<Entry>> := GroupItems(groups, quotes);
    forall i: nat, e: Entry | i < |items| && e in items[i]
      ensures GoodEntry(e, orders) && e.sellToken == groups[i].sellToken && e.buyToken == groups[i].buyToken
    {
      GroupAttemptGood(groups[i], orders, quotes, e);
    }
    forall i: nat, j: nat, e: Entry, e': Entry | i < j < |items| && e in items[i] && e' in items[j]
      ensures ApartFrom(e.fills, e'.fills)
    {
      EntriesApart(orders, e, e');
    }
    GoodItemsApart(orders, items);
  }

  lemma GoodItemsApart(orders: seq<Order>, items: seq<seq<Entry>>)
    requires forall i, e: Entry :: 0 <= i < |items| && e in items[i] ==> GoodEntry(e, orders)
    requires forall i, j, e, e' :: 0 <= i < j < |items| && e in items[i] && e' in items[j] ==> ApartFrom(e.fills, e'.fills)
    ensures AllTwoTokens(items) && ItemsApart(items)
  {
    forall i, k | 0 <= i < |items| && 0 <= k < |items[i]|
      ensures items[i][k].sellToken != items[i][k].buyToken && DistinctUids(items[i][k].fills)
    {
      assert items[i][k] in items[i] && GoodEntry(items[i][k], orders);
    }
  }

  /** Entries of different pairs fill different orders. */
  lemma EntriesApart(orders: seq<Order>, e: Entry, e': Entry)
    requires UniqueUids(orders) && GoodEntry(e, orders) && GoodEntry(e', orders)
    requires e.sellToken != e'.sellToken || e.buyToken != e'.buyToken
    ensures ApartFrom(e.fills, e'.fills)
  {
    forall f, g | f in e.fills && g in e'.fills ensures f.order.uid != g.order.uid {
      var a :| 0 <= a < |e.fills| && e.fills[a] == f;
      var b :| 0 <= b < |e'.fills| && e'.fills[b] == g;
      var i :| 0 <= i < |orders| && orders[i] == f.order;
      var j :| 0 <= j < |orders| && orders[j] == g.order;
      assert i != j;
    }
  }

  lemma {:induction false} UnfilledOf(orders: seq<Order>, filled: set<Uid>)
    ensures forall o :: o in Unfilled(orders, filled) <==> o in orders && o.uid !in filled
    ensures UniqueUids(orders) ==> UniqueUids(Unfilled(orders, filled))
  {
    if orders != [] {
      var n := |orders| - 1;
      UnfilledOf(orders[..n], filled);
      assert orders == orders[..n] + [orders[n]];
      if UniqueUids(orders) {
        var before := Unfilled(orders[..n], filled);
        forall i | 0 <= i < |before| ensures before[i].uid != orders[n].uid {
          assert before[i] in before;
        }
      }
    }
  }

  lemma SomeMatch(orders: seq<Order>, some: seq<Order>, quotes: seq<RouteQuote>)
    requires QuotesMatch(orders, quotes) && forall o :: o in some ==> o in orders
    ensures QuotesMatch(some, quotes)
  {
    forall i, j | 0 <= i < |some| && 0 <= j < |quotes| && quotes[j].path.OrderUid() == some[i].uid
      ensures QuoteMatches(some[i], quotes[j])
    {
      assert some[i] in some;
      var k :| 0 <= k < |orders| && orders[k] == some[i];
    }
  }

  lemma SingleFillsApart(orders: seq<Order>, i: nat, j: nat, e: Entry, e': Entry)
    requires UniqueUids(orders) && i < j < |orders|
    requires e.fills == [Fill(orders[i], orders[i].sellAmount)] && e'.fills == [Fill(orders[j], orders[j].sellAmount)]
    ensures ApartFrom(e.fills, e'.fills)
  {
  }

  lemma FallbackItemsGood(orders: seq<Order>, groups: seq<Group>, quotes: seq<RouteQuote>)
    requires JointQuoted(orders, groups, quotes)
    ensures var items := FallbackPhase(orders, groups, quotes);
      && AllTwoTokens(items) && ItemsApart(items)
      && forall i, e :: 0 <= i < |items| && e in items[i] ==>
           GoodEntry(e, orders) && |e.fills| == 1 && e.fills[0].order.uid !in FilledOf(GroupLedger(groups, quotes))
  {
    var filled := FilledOf(GroupLedger(groups, quotes));
    var unfilled := Unfilled(orders, filled);
    var individual := IndividualQuotes(quotes);
    var items: seq<seq<Entry>> := FallbackPhase(orders, groups, quotes);
    UnfilledOf(orders, filled);
    SomeMatch(orders, unfilled, individual);
    forall i: nat, e: Entry | i < |items| && e in items[i]
      ensures GoodEntry(e, orders) && e.fills == [Fill(unfilled[i], unfilled[i].sellAmount)] && unfilled[i].uid !in filled
    {
      FallbackAttemptGood(unfilled, individual, i, e);
      assert unfilled[i] in unfilled;
    }
    forall i: nat, j: nat, e: Entry, e': Entry | i < j < |items| && e in items[i] && e' in items[j]
      ensures ApartFrom(e.fills, e'.fills)
    {
      SingleFillsApart(unfilled, i, j, e, e');
    }
    GoodItemsApart(orders, items);
  }

  // ---- both phases ----------------------------------------------------------------------------------

  /** Across both phases no registered price ever changes: the group phase's prices survive the fallback,
      and at the end every swap is still priced at its own realised rate. Every swap is balanced and pays
      each of its orders in full at least its limit. */
  lemma JointUniformPrices(orders: seq<Order>, groups: seq<Group>, quotes: seq<RouteQuote>)
    requires JointQuoted(orders, groups, quotes)
    ensures var before := GroupLedger(groups, quotes);
            var ledger := JointLedger(orders, groups, quotes);
      && before <= ledger && Extends(PricesOf(before), PricesOf(ledger))
      && Uniform(ledger)
      && forall k :: 0 <= k < |ledger| ==> GoodEntry(ledger[k], orders)
  {
    var groupItems := GroupItems(groups, quotes);
    var fallback := FallbackPhase(orders, groups, quotes);
    var before := GroupLedger(groups, quotes);
    var ledger := JointLedger(orders, groups, quotes);
    GroupItemsGood(orders, groups, quotes);
    FallbackItemsGood(orders, groups, quotes);
    RunKeepsUniform([], groupItems);
    RunKeepsUniform(before, fallback);
    forall k | 0 <= k < |ledger| ensures GoodEntry(ledger[k], orders) {
      if k < |before| {
        RunMembers([], groupItems, k);
        var i :| 0 <= i < |groupItems| && before[k] in groupItems[i];
        assert ledger[k] == before[k];
      } else {
        RunMembers(before, fallback, k);
        var i :| 0 <= i < |fallback| && ledger[k] in fallback[i];
      }
    }
  }

  /** Both phases read off the final prices: each group, and each order left over, gets its swap exactly
      when the final prices accept it. */
  lemma JointIsDeclarative(orders: seq<Order>, groups: seq<Group>, quotes: seq<RouteQuote>)
    requires JointQuoted(orders, groups, quotes)
    ensures var final := PricesOf(JointLedger(orders, groups, quotes));
      && GroupLedger(groups, quotes) == Collect(final, GroupItems(groups, quotes))
      && JointLedger(orders, groups, quotes)
         == Collect(final, GroupItems(groups, quotes)) + Collect(final, FallbackPhase(orders, groups, quotes))
  {
    var before := GroupLedger(groups, quotes);
    var final := PricesOf(JointLedger(orders, groups, quotes));
    GroupItemsGood(orders, groups, quotes);
    FallbackItemsGood(orders, groups, quotes);
    JointUniformPrices(orders, groups, quotes);
    RunKeepsUniform([], GroupItems(groups, quotes));
    RunCollects([], GroupItems(groups, quotes), final);
    assert [] + Collect(final, GroupItems(groups, quotes)) == Collect(final, GroupItems(groups, quotes));
    RunIsDeclarative(before, FallbackPhase(orders, groups, quotes));
  }

  lemma {:induction false} FillsConcat(a: seq<Entry>, b: seq<Entry>)
    ensures FillsOf(a + b) == FillsOf(a) + FillsOf(b)
    decreases |b|
  {
    if b == [] {
      assert a + b == a;
    } else {
      var n := |b| - 1;
      assert (a + b)[..|a + b| - 1] == a + b[..n];
      FillsConcat(a, b[..n]);
    }
  }

  /** No uid is traded twice across the two phases, and only given orders are traded. */
  lemma JointFillsOnce(orders: seq<Order>, groups: seq<Group>, quotes: seq<RouteQuote>)
    requires JointQuoted(orders, groups, quotes)
    ensures DistinctUids(FillsOf(JointLedger(orders, groups, quotes)))
    ensures forall f :: f in FillsOf(JointLedger(orders, groups, quotes)) ==> f.order in orders
  {
    var final := PricesOf(JointLedger(orders, groups, quotes));
    var first := Collect(final, GroupItems(groups, quotes));
    var fallback := FallbackPhase(orders, groups, quotes);
    var second := Collect(final, fallback);
    GroupItemsGood(orders, groups, quotes);
    FallbackItemsGood(orders, groups, quotes);
    JointIsDeclarative(orders, groups, quotes);
    CollectDistinct(final, GroupItems(groups, quotes));
    CollectDistinct(final, fallback);
    FillsConcat(first, second);
    forall f, g | f in FillsOf(first) && g in FillsOf(second) ensures f.order.uid != g.order.uid {
      SecondPhaseApart(orders, groups, quotes, final, g);
      assert f.order.uid in FilledOf(first);
    }
    AppendDistinct(FillsOf(first), FillsOf(second));
    forall f | f in FillsOf(JointLedger(orders, groups, quotes)) ensures f.order in orders {
      FillIsGood(orders, groups, quotes, f);
    }
  }

  lemma {:induction false} SecondPhaseApart(orders: seq<Order>, groups: seq<Group>, quotes: seq<RouteQuote>, final: Prices, g: Fill)
    requires JointQuoted(orders, groups, quotes)
    requires g in FillsOf(Collect(final, FallbackPhase(orders, groups, quotes)))
    ensures g.order.uid !in FilledOf(GroupLedger(groups, quotes))
  {
    var fallback := FallbackPhase(orders, groups, quotes);
    FallbackItemsGood(orders, groups, quotes);
    CollectedFill(final, fallback, g);
    var i: nat, e: Entry :| i < |fallback| && e in fallback[i] && g in e.fills;
    LoneFill(e, g);
  }

  /** A traded fill belongs to a good entry, priced at the end as it was registered. */
  lemma FillIsGood(orders: seq<Order>, groups: seq<Group>, quotes: seq<RouteQuote>, f: Fill)
    requires JointQuoted(orders, groups, quotes) && f in FillsOf(JointLedger(orders, groups, quotes))
    ensures exists e :: GoodEntry(e, orders) && f in e.fills && PricedAs(PricesOf(JointLedger(orders, groups, quotes)), e)
    ensures f.order in orders
  {
    var ledger := JointLedger(orders, groups, quotes);
    JointUniformPrices(orders, groups, quotes);
    FillsOfMember(ledger, f);
    var k :| 0 <= k < |ledger| && f in ledger[k].fills;
    assert GoodEntry(ledger[k], orders) && PricedAs(PricesOf(ledger), ledger[k]);
  }

  /** The scorer never zeroes a joint-clearing solution: no trade of either phase trips its limit check,
      for any quotes. */
  lemma {:induction false} JointNeverZeroed(auction: seq<Order>, orders: seq<Order>, groups: seq<Group>, quotes: seq<RouteQuote>)
    requires UniqueUids(auction) && forall o :: o in orders ==> o in auction
    requires JointQuoted(orders, groups, quotes)
    ensures var ledger := JointLedger(orders, groups, quotes);
            ValidTrades(TradesOf(ledger), ByUid(auction), PricesOf(ledger))
  {
    var ledger := JointLedger(orders, groups, quotes);
    var fills := FillsOf(ledger);
    forall k | 0 <= k < |TradesOf(ledger)|
      ensures !Violates(TradesOf(ledger)[k], ByUid(auction), PricesOf(ledger))
    {
      var f := fills[k];
      FillIsGood(orders, groups, quotes, f);
      var e :| GoodEntry(e, orders) && f in e.fills && PricedAs(PricesOf(ledger), e);
      ByUidFinds(auction, f.order);
      PaidFillPasses(orders, f, e);
    }
  }

  lemma PaidFillPasses(orders: seq<Order>, f: Fill, e: Entry)
    requires AllSigned(orders) && GoodEntry(e, orders) && f in e.fills
    ensures f.order.sellToken == e.sellToken && f.order.buyToken == e.buyToken && Signed(f.order)
    ensures !BreaksLimit(f.order, f.executed, e.bought, e.sold)
  {
    var k :| 0 <= k < |e.fills| && e.fills[k] == f;
    assert PaidInFull(e, f);
    assert f.executed * f.order.buyAmount == f.order.buyAmount * f.order.sellAmount;
    CeilDivExact(f.order.buyAmount, f.order.sellAmount);
  }

  /** Token conservation of a joint-clearing solution, up to the dust of rounding payouts up: the users are
      paid at most one unit per extra order of a group more than the swaps bring. */
  lemma {:induction false} JointConserves(cfg: Config, orders: seq<Order>, groups: seq<Group>, quotes: seq<RouteQuote>, token: Token)
    requires ValidConfig(cfg) && JointQuoted(orders, groups, quotes) && AllEncodable(cfg, JointLedger(orders, groups, quotes))
    ensures var ledger := JointLedger(orders, groups, quotes);
            var prices := PricesOf(ledger);
      && AllPayable(prices, FillsOf(ledger)) && AllBalanced(ledger)
      && PaidIn(prices, FillsOf(ledger), token) + OutputsOf(InteractionsOf(cfg, ledger), token) + DustAt(ledger, token)
         == PaidOut(prices, FillsOf(ledger), token) + InputsOf(InteractionsOf(cfg, ledger), token)
      && DustAt(ledger, token) <= |TradesOf(ledger)| - |ledger|
  {
    var ledger := JointLedger(orders, groups, quotes);
    JointUniformPrices(orders, groups, quotes);
    forall k | 0 <= k < |ledger| ensures Balanced(ledger[k]) {
      assert GoodEntry(ledger[k], orders);
    }
    Conservation(cfg, PricesOf(ledger), ledger, token);
  }

  /** A group's dust is zero exactly when every payout divides evenly. */
  lemma GroupDustExact(e: Entry)
    requires Balanced(e) && e.fills[0].order.kind.Sell?
    ensures Dust(e) == 0 <==> forall i :: 0 <= i < |e.fills| ==> Divides(e.fills[i], e.bought, e.sold)
  {
    DustFree(e.fills, e.bought, e.sold);
    DustBound(e.fills, e.bought, e.sold);
    var total := SumCeil(e.fills, e.bought, e.sold);
    SameProduct(e.bought, total, e.sold);
  }

  lemma SameProduct(bought: nat, total: nat, sold: nat)
    requires sold > 0 && bought <= total
    ensures total == bought <==> total * sold == sold * bought
  {
    assert sold * bought == bought * sold;
    if total > bought {
      MulLt(bought, total, sold);
    }
  }

  /** Dust is real, on any pair: two orders selling one unit each into a combined swap of 2 for 3 are paid 4. */
  lemma GroupDustExample(sellToken: Token, buyToken: Token, route: Route)
    requires sellToken != buyToken && route.TokenIn() == sellToken && route.TokenOut() == buyToken
    ensures var o := Order("u", sellToken, buyToken, 1, 1, Sell, false, "w", false, true, false);
            var p := o.(uid := "v");
            var e := Entry([Fill(o, 1), Fill(p, 1)], sellToken, buyToken, route, 2, 3);
      && Balanced(e) && LimitsSatisfied([o, p], 2, 3) && Dust(e) == 1
  {
    var o := Order("u", sellToken, buyToken, 1, 1, Sell, false, "w", false, true, false);
    var p := o.(uid := "v");
    PairOfUnits(Fill(o, 1), Fill(p, 1));
    CeilDivUnique(3, 2, 2);
  }

  /** Two units share a swap of 2 for 3 as 2 and 2. */
  lemma PairOfUnits(f: Fill, g: Fill)
    requires f.executed == 1 && g.executed == 1
    ensures SumExecuted([f, g]) == 2 && SumCeil([f, g], 3, 2) == 4
  {
    CeilDivUnique(3, 2, 2);
    assert [f, g][..1] == [f] && [f][..0] == [];
    assert SumExecuted([f]) == 1 && SumCeil([f], 3, 2) == 2;
  }

  /** What `JointQuoted` needs of the groups is met by the solver's own grouping. */
  lemma {:induction false} SolverGroupsAreGood(orders: seq<Order>, minGroupSize: nat)
    requires UniqueUids(orders)
    ensures GoodGroups(BigEnough(GroupsOf(orders), minGroupSize), orders)
  {
    GroupsAreGood(orders);
    BigEnoughKeepsGood(GroupsOf(orders), minGroupSize, orders);
  }
}
