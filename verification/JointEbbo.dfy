/** Joint clearing under the EBBO check: the fallback never lags, a group can, and exactly when. */
module JointEbbo {
  import opened Wrappers
  import opened IntDivision
  import opened Models
  import opened Encoder
  import opened Candidates
  import opened Selection
  import opened Ledger
  import opened ClearingLoop
  import opened JointClearing
  import opened JointInvariants
  import opened JointSolution
  import opened RouterQuotes
  import opened RouterInvariants
  import opened RouterMarket
  import opened RouterPassesEbbo
  import opened Scoring
  import opened Ebbo
  import opened Multicall
  import BatchedQuoter
  import V3Batched
  import V3Path

  function Groups(orders: seq<Order>, minGroupSize: nat): seq<Group> {
    BigEnough(GroupsOf(orders), minGroupSize)
  }

  /** What the theorems ask of the chain: quoting all paths of the batch meets no error but the gas cap, and
      nothing is quoted for nothing. */
  ghost predicate JointAnswered(chain: V3Batched.Chain, orders: seq<Order>, groups: seq<Group>, mids: seq<Token>) {
    Answered(chain, AllPaths(orders, groups, mids)) && ZeroForZero(JointQuotes(chain, orders, groups, mids))
  }

  function TradeOf(f: Fill): Trade {
    Trade(Fulfillment, f.order.uid, f.executed)
  }

  // ---- the fallback ---------------------------------------------------------------------------------

  /** Every path of the orders is in the pool at its own quote. */
  ghost predicate Pooled(chain: V3Batched.Chain, orders: seq<Order>, mids: seq<Token>, quotes: seq<RouteQuote>) {
    forall p :: p in V3Paths(orders, mids) ==> RouteQuote(V3(p), V3Batched.PathQuote(chain, p)) in quotes
  }

  lemma JointPooled(chain: V3Batched.Chain, orders: seq<Order>, groups: seq<Group>, mids: seq<Token>)
    requires Answered(chain, AllPaths(orders, groups, mids))
    ensures Pooled(chain, orders, mids, JointQuotes(chain, orders, groups, mids))
  {
    var paths := AllPaths(orders, groups, mids);
    var quotes := JointQuotes(chain, orders, groups, mids);
    AnsweredQuotes(chain, paths);
    forall p | p in V3Paths(orders, mids) ensures RouteQuote(V3(p), V3Batched.PathQuote(chain, p)) in quotes {
      var k :| 0 <= k < |V3Paths(orders, mids)| && V3Paths(orders, mids)[k] == p;
      assert paths[k] == p;
      assert quotes[k] == RouteQuote(V3(p), V3Batched.PathQuote(chain, p));
    }
  }

  lemma {:induction false} IndividualKeeps(quotes: seq<RouteQuote>, q: RouteQuote)
    requires q in quotes && !IsGroupUid(q.path.OrderUid())
    ensures q in IndividualQuotes(quotes)
  {
    var n := |quotes| - 1;
    if quotes[n] != q {
      assert quotes == quotes[..n] + [quotes[n]];
      IndividualKeeps(quotes[..n], q);
    }
  }

  /** A full-amount candidate of an order with an individual quote is among its individual quotes. */
  lemma {:induction false} CandidateIsIndividual(chain: V3Batched.Chain, orders: seq<Order>, mids: seq<Token>, quotes: seq<RouteQuote>, o: Order,
                              p: V3Batched.Path)
    requires Pooled(chain, orders, mids, quotes) && o in orders && !IsGroupUid(o.uid) && p.orderUid == o.uid && o.kind.Sell?
    requires p in PairPaths(o.uid, o.sellToken, o.buyToken, o.sellAmount, false, mids)
    ensures RouteQuote(V3(p), V3Batched.PathQuote(chain, p)) in IndividualQuotes(quotes)
  {
    var i :| 0 <= i < |orders| && orders[i] == o;
    PairPathsAt(o, QuotedAmounts(o), mids, o.sellAmount);
    PairPathsListed(orders, mids, i, p);
    IndividualKeeps(quotes, RouteQuote(V3(p), V3Batched.PathQuote(chain, p)));
  }

  /** No individual quote of an order beats its fallback fill. */
  lemma FallbackIsBest(orders: seq<Order>, individual: seq<RouteQuote>, i: nat, e: Entry, q: RouteQuote)
    requires QuotesMatch(orders, individual) && i < |orders| && e in FallbackAttempts(orders[i], individual)
    requires q in individual && q.path.OrderUid() == orders[i].uid
    ensures q.amountOut <= e.bought
  {
    BestOfOrder(orders, individual, i, None);
    var k :| 0 <= k < |individual| && individual[k] == q;
    if q.amountOut > 0 {
      assert Eligible(individual[k], orders[i].uid, None);
    }
  }

  /** An order the fallback fills has a quote of its own, so its uid is no group mark. */
  lemma {:induction false} FallbackUid(quotes: seq<RouteQuote>, o: Order, e: Entry)
    requires e in FallbackAttempts(o, IndividualQuotes(quotes)) && QuotesMatch([o], IndividualQuotes(quotes))
    ensures !IsGroupUid(o.uid)
  {
    BestOfOrder([o], IndividualQuotes(quotes), 0, None);
    IndividualOf(quotes);
  }

  lemma {:induction false} FallbackBeatsPath(chain: V3Batched.Chain, orders: seq<Order>, mids: seq<Token>, quotes: seq<RouteQuote>, i: nat, e: Entry,
                          p: V3Batched.Path)
    requires Pooled(chain, orders, mids, quotes) && QuotesMatch(orders, IndividualQuotes(quotes))
    requires i < |orders| && e in FallbackAttempts(orders[i], IndividualQuotes(quotes)) && p.orderUid == orders[i].uid
    requires p in PairPaths(orders[i].uid, orders[i].sellToken, orders[i].buyToken, orders[i].sellAmount, false, mids)
    ensures V3Batched.PathQuote(chain, p) <= e.bought
  {
    FallbackUid(quotes, orders[i], e);
    CandidateIsIndividual(chain, orders, mids, quotes, orders[i], p);
    FallbackIsBest(orders, IndividualQuotes(quotes), i, e, RouteQuote(V3(p), V3Batched.PathQuote(chain, p)));
  }

  /** The external quote for a fallback order's full amount never beats its fallback fill. */
  lemma {:induction false} FallbackNotBeaten(chain: V3Batched.Chain, orders: seq<Order>, mids: seq<Token>, quotes: seq<RouteQuote>, i: nat, e: Entry)
    requires FitsOneByOne(chain.node) && Pooled(chain, orders, mids, quotes) && QuotesMatch(orders, IndividualQuotes(quotes))
    requires i < |orders| && e in FallbackAttempts(orders[i], IndividualQuotes(quotes))
    ensures var o := orders[i];
            var external := ExternalQuote(chain, o.sellToken, o.buyToken, o.sellAmount, false, mids);
            external.Amount? ==> external.amount <= e.bought
  {
    var o := orders[i];
    var external := ExternalQuote(chain, o.sellToken, o.buyToken, o.sellAmount, false, mids);
    ExternalIsCandidate(chain, o, o.sellAmount, mids);
    if external.Amount? {
      var p :| && p in PairPaths(o.uid, o.sellToken, o.buyToken, o.sellAmount, o.kind.Buy?, mids)
               && PathOf(p, o.uid, o.sellToken, o.buyToken, o.sellAmount, o.kind.Buy?)
               && V3Batched.PathQuote(chain, p) == external.amount;
      FallbackBeatsPath(chain, orders, mids, quotes, i, e, p);
    }
  }

  /** No trade of the fallback phase lags, at any tolerance. */
  lemma {:induction false} FallbackNeverLags(chain: V3Batched.Chain, auction: seq<Order>, orders: seq<Order>, groups: seq<Group>, mids: seq<Token>,
                          quotes: seq<RouteQuote>, toleranceBps: nat, k: nat)
    requires UniqueUids(auction) && forall o :: o in orders ==> o in auction
    requires FitsOneByOne(chain.node) && Pooled(chain, orders, mids, quotes) && JointQuoted(orders, groups, quotes)
    requires |GroupLedger(groups, quotes)| <= k < |JointLedger(orders, groups, quotes)|
    ensures var ledger := JointLedger(orders, groups, quotes);
      && |ledger[k].fills| == 1
      && !JudgeTrade(TradeOf(ledger[k].fills[0]), ByUid(auction), PricesOf(ledger), chain, mids, toleranceBps).Lags?
  {
    var ledger := JointLedger(orders, groups, quotes);
    JointUniformPrices(orders, groups, quotes);
    var i := FallbackSource(orders, groups, quotes, k);
    FallbackNotBeaten(chain, orders, mids, quotes, i, ledger[k]);
    FallbackIsAttempt(orders, IndividualQuotes(quotes), i, ledger[k]);
    assert orders[i] in orders;
    ByUidFinds(auction, orders[i]);
    NeverLags(orders[i], ledger[k], TradeOf(ledger[k].fills[0]), ByUid(auction), PricesOf(ledger), chain, mids, toleranceBps);
  }

  /** The order behind a swap of the second phase. */
  lemma FallbackSource(orders: seq<Order>, groups: seq<Group>, quotes: seq<RouteQuote>, k: nat) returns (i: nat)
    requires |GroupLedger(groups, quotes)| <= k < |JointLedger(orders, groups, quotes)|
    ensures i < |orders| && JointLedger(orders, groups, quotes)[k] in FallbackAttempts(orders[i], IndividualQuotes(quotes))
  {
    var filled := FilledOf(GroupLedger(groups, quotes));
    var fallback := FallbackPhase(orders, groups, quotes);
    RunMembers(GroupLedger(groups, quotes), fallback, k);
    var j :| 0 <= j < |fallback| && JointLedger(orders, groups, quotes)[k] in fallback[j];
    UnfilledOf(orders, filled);
    assert Unfilled(orders, filled)[j] in orders;
    i :| 0 <= i < |orders| && orders[i] == Unfilled(orders, filled)[j];
  }

  lemma FallbackIsAttempt(orders: seq<Order>, quotes: seq<RouteQuote>, i: nat, e: Entry)
    requires AllSigned(orders) && QuotesMatch(orders, quotes) && i < |orders| && e in FallbackAttempts(orders[i], quotes)
    ensures AttemptFor(orders[i], e)
  {
    FallbackAttemptGood(orders, quotes, i, e);
    BestOfOrder(orders, quotes, i, None);
  }

  // ---- groups ---------------------------------------------------------------------------------------

  /** The chain would have paid a group's member, on its own, more than its share by more than the tolerance. */
  ghost predicate Outbid(chain: V3Batched.Chain, mids: seq<Token>, toleranceBps: nat, e: Entry, f: Fill)
    requires e.sold > 0
  {
    var external := ExternalQuote(chain, f.order.sellToken, f.order.buyToken, f.order.sellAmount, false, mids);
    external.Amount?
    && (CeilDiv(f.order.sellAmount * e.bought, e.sold) + 1) * Ebbo.BPS <= external.amount * (Ebbo.BPS - toleranceBps)
  }

  /** A trade of a joint batch lags exactly when its order is outbid. */
  lemma {:induction false} JointLagsExact(chain: V3Batched.Chain, auction: seq<Order>, orders: seq<Order>, mids: seq<Token>, toleranceBps: nat,
                       prices: Prices, e: Entry, f: Fill)
    requires UniqueUids(auction) && forall o :: o in orders ==> o in auction
    requires GoodEntry(e, orders) && PricedAs(prices, e) && f in e.fills
    ensures JudgeTrade(TradeOf(f), ByUid(auction), prices, chain, mids, toleranceBps).Lags?
       <==> Outbid(chain, mids, toleranceBps, e, f)
  {
    var k :| 0 <= k < |e.fills| && e.fills[k] == f;
    assert PaidInFull(e, f) && f.order in auction;
    ByUidFinds(auction, f.order);
    assert Payable(prices, Fill(f.order, f.executed));
    LagsExact(TradeOf(f), ByUid(auction), prices, chain, mids, toleranceBps);
  }

  ghost predicate NoneOutbid(chain: V3Batched.Chain, mids: seq<Token>, toleranceBps: nat, ledger: seq<Entry>) {
    forall e, f :: e in ledger && f in e.fills && e.sold > 0 ==> !Outbid(chain, mids, toleranceBps, e, f)
  }

  /** A ledger of good entries, all priced at their own rates, whose second part never lags. */
  ghost predicate QuietAfter(chain: V3Batched.Chain, auction: seq<Order>, orders: seq<Order>, mids: seq<Token>, toleranceBps: nat,
                             first: seq<Entry>, ledger: seq<Entry>) {
    && first <= ledger && Uniform(ledger)
    && (forall k :: 0 <= k < |ledger| ==> GoodEntry(ledger[k], orders))
    && forall k, f :: |first| <= k < |ledger| && f in ledger[k].fills ==>
         !JudgeTrade(TradeOf(f), ByUid(auction), PricesOf(ledger), chain, mids, toleranceBps).Lags?
  }

  /** With no member of the first part outbid no trade lags. */
  lemma {:induction false} QuietTrade(chain: V3Batched.Chain, auction: seq<Order>, orders: seq<Order>, mids: seq<Token>, toleranceBps: nat,
                   first: seq<Entry>, ledger: seq<Entry>, m: nat)
    requires UniqueUids(auction) && forall o :: o in orders ==> o in auction
    requires QuietAfter(chain, auction, orders, mids, toleranceBps, first, ledger)
    requires NoneOutbid(chain, mids, toleranceBps, first) && m < |TradesOf(ledger)|
    ensures !JudgeTrade(TradesOf(ledger)[m], ByUid(auction), PricesOf(ledger), chain, mids, toleranceBps).Lags?
  {
    var f := FillsOf(ledger)[m];
    FillsOfMember(ledger, f);
    var k: nat :| k < |ledger| && f in ledger[k].fills;
    QuietFill(chain, auction, orders, mids, toleranceBps, first, ledger, k, f);
    assert TradesOf(ledger)[m] == TradeOf(f);
  }

  lemma {:induction false} QuietFill(chain: V3Batched.Chain, auction: seq<Order>, orders: seq<Order>, mids: seq<Token>, toleranceBps: nat,
                  first: seq<Entry>, ledger: seq<Entry>, k: nat, f: Fill)
    requires UniqueUids(auction) && forall o :: o in orders ==> o in auction
    requires QuietAfter(chain, auction, orders, mids, toleranceBps, first, ledger)
    requires NoneOutbid(chain, mids, toleranceBps, first) && k < |ledger| && f in ledger[k].fills
    ensures !JudgeTrade(TradeOf(f), ByUid(auction), PricesOf(ledger), chain, mids, toleranceBps).Lags?
  {
    if k < |first| {
      var e := ledger[k];
      assert first[k] == e && e in first && GoodEntry(e, orders) && PricedAs(PricesOf(ledger), e);
      JointLagsExact(chain, auction, orders, mids, toleranceBps, PricesOf(ledger), e, f);
    }
  }

  /** An outbid member of the first part is a lagging trade. */
  lemma {:induction false} OutbidLags(chain: V3Batched.Chain, auction: seq<Order>, orders: seq<Order>, mids: seq<Token>, toleranceBps: nat,
                   first: seq<Entry>, ledger: seq<Entry>, e: Entry, f: Fill)
    requires UniqueUids(auction) && forall o :: o in orders ==> o in auction
    requires QuietAfter(chain, auction, orders, mids, toleranceBps, first, ledger)
    requires e in first && f in e.fills && e.sold > 0 && Outbid(chain, mids, toleranceBps, e, f)
    ensures exists m :: 0 <= m < |TradesOf(ledger)|
              && JudgeTrade(TradesOf(ledger)[m], ByUid(auction), PricesOf(ledger), chain, mids, toleranceBps).Lags?
  {
    var k :| 0 <= k < |first| && first[k] == e;
    assert ledger[k] == e && GoodEntry(ledger[k], orders) && PricedAs(PricesOf(ledger), ledger[k]);
    JointLagsExact(chain, auction, orders, mids, toleranceBps, PricesOf(ledger), e, f);
    FillsOfMember(ledger, f);
    var m :| 0 <= m < |FillsOf(ledger)| && FillsOf(ledger)[m] == f;
    assert TradesOf(ledger)[m] == TradeOf(f);
  }

  /** So a trade lags exactly when it is an outbid member of the first part. */
  lemma {:induction false} LedgerLagsExact(chain: V3Batched.Chain, auction: seq<Order>, orders: seq<Order>, mids: seq<Token>, toleranceBps: nat,
                        first: seq<Entry>, ledger: seq<Entry>)
    requires UniqueUids(auction) && forall o :: o in orders ==> o in auction
    requires QuietAfter(chain, auction, orders, mids, toleranceBps, first, ledger)
    ensures (forall m :: 0 <= m < |TradesOf(ledger)| ==>
               !JudgeTrade(TradesOf(ledger)[m], ByUid(auction), PricesOf(ledger), chain, mids, toleranceBps).Lags?)
       <==> NoneOutbid(chain, mids, toleranceBps, first)
  {
    if NoneOutbid(chain, mids, toleranceBps, first) {
      forall m | 0 <= m < |TradesOf(ledger)|
        ensures !JudgeTrade(TradesOf(ledger)[m], ByUid(auction), PricesOf(ledger), chain, mids, toleranceBps).Lags?
      {
        QuietTrade(chain, auction, orders, mids, toleranceBps, first, ledger, m);
      }
    } else {
      var e: Entry, f: Fill :| e in first && f in e.fills && e.sold > 0 && Outbid(chain, mids, toleranceBps, e, f);
      OutbidLags(chain, auction, orders, mids, toleranceBps, first, ledger, e, f);
    }
  }

  /** The EBBO verdict on a joint-clearing batch, exactly: it passes when it holds at most 20 trades and no
      member of a settled group is outbid. The fallback never matters. */
  lemma JointEbboExact(chain: V3Batched.Chain, auction: seq<Order>, orders: seq<Order>, minGroupSize: nat, mids: seq<Token>,
                       toleranceBps: nat)
    requires UniqueUids(auction) && UniqueUids(orders) && AllSigned(orders) && forall o :: o in orders ==> o in auction
    requires JointAnswered(chain, orders, Groups(orders, minGroupSize), mids)
    ensures var groups := Groups(orders, minGroupSize);
            var quotes := JointQuotes(chain, orders, groups, mids);
            var ledger := JointLedger(orders, groups, quotes);
            EbboCheck(TradesOf(ledger), PricesOf(ledger), auction, chain, mids, toleranceBps).passes
            <==> |TradesOf(ledger)| <= MAX_TRADES_PER_CHECK && NoneOutbid(chain, mids, toleranceBps, GroupLedger(groups, quotes))
  {
    var groups := Groups(orders, minGroupSize);
    var quotes := JointQuotes(chain, orders, groups, mids);
    JointQuotesAnswer(chain, mids, minGroupSize, orders);
    JointPooled(chain, orders, groups, mids);
    PooledVerdict(chain, auction, orders, groups, mids, quotes, toleranceBps);
  }

  lemma PooledVerdict(chain: V3Batched.Chain, auction: seq<Order>, orders: seq<Order>, groups: seq<Group>, mids: seq<Token>,
                      quotes: seq<RouteQuote>, toleranceBps: nat)
    requires UniqueUids(auction) && forall o :: o in orders ==> o in auction
    requires FitsOneByOne(chain.node) && Pooled(chain, orders, mids, quotes) && JointQuoted(orders, groups, quotes)
    ensures var ledger := JointLedger(orders, groups, quotes);
            EbboCheck(TradesOf(ledger), PricesOf(ledger), auction, chain, mids, toleranceBps).passes
            <==> |TradesOf(ledger)| <= MAX_TRADES_PER_CHECK && NoneOutbid(chain, mids, toleranceBps, GroupLedger(groups, quotes))
  {
    var ledger := JointLedger(orders, groups, quotes);
    JointUniformPrices(orders, groups, quotes);
    forall k, f | |GroupLedger(groups, quotes)| <= k < |ledger| && f in ledger[k].fills
      ensures !JudgeTrade(TradeOf(f), ByUid(auction), PricesOf(ledger), chain, mids, toleranceBps).Lags?
    {
      FallbackNeverLags(chain, auction, orders, groups, mids, quotes, toleranceBps, k);
    }
    LedgerLagsExact(chain, auction, orders, mids, toleranceBps, GroupLedger(groups, quotes), ledger);
    CheckPassesExact(TradesOf(ledger), PricesOf(ledger), auction, chain, mids, toleranceBps);
  }

  // ---- an instance ----------------------------------------------------------------------------------

  function TokenA(): Token {
    "0x" + V3Path.Zeros(40)
  }

  function TokenB(): Token {
    "0x1" + V3Path.Zeros(39)
  }

  lemma DigitsAreAddress(digits: string)
    requires |digits| == 40 && forall i :: 0 <= i < 40 ==> '0' <= digits[i] <= '9'
    ensures V3Path.HexAddress("0x" + digits)
  {
    var t := "0x" + digits;
    assert t[..2] == "0x" && t[2..] == digits;
    assert forall i :: 0 <= i < 40 ==> V3Path.HexDigit(digits[i]).Some?;
  }

  lemma TokensAreAddresses()
    ensures V3Path.HexAddress(TokenA()) && V3Path.HexAddress(TokenB()) && TokenA() != TokenB()
  {
    V3Path.ZerosAreDigits(40);
    V3Path.ZerosAreDigits(39);
    var one := "1" + V3Path.Zeros(39);
    assert forall i :: 1 <= i < 40 ==> one[i] == V3Path.Zeros(39)[i - 1];
    DigitsAreAddress(V3Path.Zeros(40));
    DigitsAreAddress(one);
    assert TokenB() == "0x" + one;
    assert TokenA()[2] == '0' && TokenB()[2] == '1';
  }

  function ConcaveResult(c: V3Batched.QuoterCall): CallResult {
    if c.QuoteSingle? && !c.exactOutput && c.fee == 100
    then CallResult(true, [if c.amount == 1 then 3 else if c.amount == 2 then 4 else 0])
    else DROPPED
  }

  /** A chain with one pool, which pays 3 for one unit and 4 for two. */
  const CONCAVE: V3Batched.Chain :=
    V3Batched.Chain(Node(ConcaveResult, _ => false, _ => false), data => if |data| == 1 then data[0] else 0, _ => 0)

  const FIRST: Order := Order("u", TokenA(), TokenB(), 1, 2, Sell, false, "w", false, true, false)
  const SECOND: Order := FIRST.(uid := "v")

  /** A path over one pool of the pair. */
  predicate DirectlyFor(p: V3Batched.Path, amount: nat) {
    && p.tokenIn == TokenA() && p.tokenOut == TokenB() && p.intermediate.None? && p.feeTierIn < 0x1_000_000
    && p.amountIn == amount && !p.exactOutput
  }

  lemma ConcaveQuote(p: V3Batched.Path, amount: nat)
    requires DirectlyFor(p, amount)
    ensures V3Batched.BuildCall(p).Some?
    ensures V3Batched.PathQuote(CONCAVE, p)
         == if p.feeTierIn != 100 then 0 else if amount == 1 then 3 else if amount == 2 then 4 else 0
  {
    TokensAreAddresses();
  }

  lemma {:induction false} DirectOnly(uid: Uid, amount: nat, n: nat)
    requires n <= |FEE_TIERS|
    ensures forall p :: p in TierPaths(uid, TokenA(), TokenB(), amount, false, None, n) ==> DirectlyFor(p, amount)
    ensures n > 0 ==> DirectPath(uid, TokenA(), TokenB(), amount, false, 100) in TierPaths(uid, TokenA(), TokenB(), amount, false, None, n)
  {
    if n > 0 {
      DirectOnly(uid, amount, n - 1);
    }
  }

  lemma {:induction false} ConcaveTiers(paths: seq<V3Batched.Path>)
    requires paths == TierPaths("", TokenA(), TokenB(), 1, false, None, |FEE_TIERS|)
    ensures forall p :: p in paths ==> ConcavePath(p) && V3Batched.PathQuote(CONCAVE, p) <= 3
    ensures exists p :: p in paths && V3Batched.PathQuote(CONCAVE, p) == 3
  {
    DirectOnly("", 1, |FEE_TIERS|);
    forall p | p in paths ensures ConcavePath(p) && V3Batched.PathQuote(CONCAVE, p) <= 3 {
      ConcaveQuote(p, 1);
    }
    ConcaveQuote(DirectPath("", TokenA(), TokenB(), 1, false, 100), 1);
  }

  /** Alone, one unit is worth 3. */
  lemma {:induction false} ConcaveExternal(mids: seq<Token>)
    requires mids == []
    ensures ExternalQuote(CONCAVE, TokenA(), TokenB(), 1, false, mids) == Amount(3)
  {
    var paths := PairPaths("", TokenA(), TokenB(), 1, false, mids);
    assert paths == TierPaths("", TokenA(), TokenB(), 1, false, None, |FEE_TIERS|);
    ConcaveTiers(paths);
    ConcaveFound(paths);
    BestAmountIsBest(BatchedQuoter.QuotesBySize(V3Batched.QuoterOf(CONCAVE), paths, V3Batched.MAX_CALLS_PER_BATCH), false);
  }

  lemma {:induction false} ConcaveFound(paths: seq<V3Batched.Path>)
    requires forall p :: p in paths ==> ConcavePath(p) && V3Batched.PathQuote(CONCAVE, p) <= 3
    requires exists p :: p in paths && V3Batched.PathQuote(CONCAVE, p) == 3
    ensures BatchedQuoter.Buildable(V3Batched.QuoterOf(CONCAVE), paths)
    ensures var found := BatchedQuoter.QuotesBySize(V3Batched.QuoterOf(CONCAVE), paths, V3Batched.MAX_CALLS_PER_BATCH);
      && (forall k :: 0 <= k < |found| ==> found[k].amountOut <= 3)
      && exists k :: 0 <= k < |found| && found[k].amountOut == 3
  {
    ConcaveMarket(paths);
    var found := BatchedQuoter.QuotesBySize(V3Batched.QuoterOf(CONCAVE), paths, V3Batched.MAX_CALLS_PER_BATCH);
    forall k | 0 <= k < |paths| ensures found[k].amountOut <= 3 {
      assert paths[k] in paths;
    }
    var p :| p in paths && V3Batched.PathQuote(CONCAVE, p) == 3;
    var k :| 0 <= k < |paths| && paths[k] == p;
    assert found[k].amountOut == 3;
  }

  function BothInGroup(): Group {
    Group(TokenA(), TokenB(), [FIRST, SECOND])
  }

  lemma BothAreGrouped()
    ensures Groups([FIRST, SECOND], 2) == [BothInGroup()]
  {
    var orders := [FIRST, SECOND];
    var before := [Group(TokenA(), TokenB(), [FIRST])];
    assert orders[..1] == [FIRST] && [FIRST][..0] == [];
    assert AddToGroups([], FIRST) == before;
    assert GroupsOf([FIRST]) == before;
    assert PairIndex(before, TokenA(), TokenB()) == 0 && [FIRST] + [SECOND] == orders;
    assert AddToGroups(before, SECOND) == [BothInGroup()];
    assert [BothInGroup()][..0] == [];
  }

  lemma CombinedTwo()
    ensures CombinedSell(BothInGroup()) == 2
  {
    var fills := FullSells([FIRST, SECOND]);
    assert fills[..1] == [Fill(FIRST, 1)] && [Fill(FIRST, 1)][..0] == [];
    assert SumExecuted([Fill(FIRST, 1)]) == 1 && SumExecuted(fills) == 2;
  }

  /** The group settles both orders for 4 together, which meets both limits, and either would have been paid
      3 alone. */
  lemma GroupIsOutbid(route: Route)
    ensures var e := GroupEntry(BothInGroup(), RouteQuote(route, 4));
      && LimitsSatisfied([FIRST, SECOND], 2, 4) && e.sold == 2
      && Outbid(CONCAVE, [], 0, e, Fill(FIRST, 1)) && Fill(FIRST, 1) in e.fills
  {
    CombinedTwo();
    CeilDivUnique(4, 2, 2);
    ConcaveExternal([]);
    assert FullSells([FIRST, SECOND])[0] == Fill(FIRST, 1);
  }

  /** The group's direct path of the cheapest tier, and nothing the group is offered beats its 4. */
  lemma ConcaveGroupPaths(p: V3Batched.Path)
    requires p in GroupTierPaths(BothInGroup(), 2, [], |FEE_TIERS|)
    ensures V3Batched.BuildCall(p).Some? && V3Batched.PathQuote(CONCAVE, p) <= 4 && p.amountIn == 2
  {
    GroupTierShape(2, |FEE_TIERS|);
    ConcaveQuote(p, 2);
  }

  lemma {:induction false} GroupTierShape(amount: nat, n: nat)
    requires n <= |FEE_TIERS|
    ensures var paths := GroupTierPaths(BothInGroup(), amount, [], n);
      && (forall p :: p in paths ==> DirectlyFor(p, amount))
      && (n > 0 ==> DirectPath(GroupUid(BothInGroup()), TokenA(), TokenB(), amount, false, 100) in paths)
  {
    if n > 0 {
      GroupTierShape(amount, n - 1);
    }
  }

  predicate ConcavePath(p: V3Batched.Path) {
    V3Batched.BuildCall(p).Some? && V3Batched.PathQuote(CONCAVE, p) <= 4 && p.amountIn > 0
  }

  lemma {:induction false} OneGroupPaths(groups: seq<Group>, mids: seq<Token>)
    requires groups == [BothInGroup()] && mids == []
    ensures GroupPaths(groups, mids) == GroupTierPaths(BothInGroup(), 2, mids, |FEE_TIERS|)
  {
    CombinedTwo();
    assert groups[..0] == [];
  }

  lemma {:induction false} ConcaveOwnPaths(groups: seq<Group>, mids: seq<Token>)
    requires groups == [BothInGroup()] && mids == []
    ensures forall p :: p in GroupPaths(groups, mids) ==> ConcavePath(p)
    ensures DirectPath(GroupUid(BothInGroup()), TokenA(), TokenB(), 2, false, 100) in GroupPaths(groups, mids)
  {
    OneGroupPaths(groups, mids);
    GroupTierShape(2, |FEE_TIERS|);
    forall p | p in GroupPaths(groups, mids) ensures ConcavePath(p) {
      ConcaveGroupPaths(p);
    }
  }

  lemma ConcavePaths(orders: seq<Order>, groups: seq<Group>, mids: seq<Token>)
    requires forall i :: 0 <= i < |orders| ==> orders[i] == FIRST || orders[i] == SECOND
    requires groups == [BothInGroup()] && mids == []
    ensures forall p :: p in AllPaths(orders, groups, mids) ==> ConcavePath(p)
    ensures DirectPath(GroupUid(BothInGroup()), TokenA(), TokenB(), 2, false, 100) in AllPaths(orders, groups, mids)
  {
    ConcaveOwnPaths(groups, mids);
    forall p | p in V3Paths(orders, mids) ensures ConcavePath(p) {
      ConcaveOrderPaths(orders, mids, p);
    }
  }

  /** Every path of a pair without intermediates is one of its direct tiers, and the concave pool pays at most 4. */
  lemma {:induction false} ConcaveOrderPaths(orders: seq<Order>, mids: seq<Token>, p: V3Batched.Path)
    requires forall i :: 0 <= i < |orders| ==> orders[i] == FIRST || orders[i] == SECOND
    requires mids == [] && p in V3Paths(orders, mids)
    ensures V3Batched.BuildCall(p).Some? && V3Batched.PathQuote(CONCAVE, p) <= 4 && p.amountIn == 1
  {
    var n := |orders| - 1;
    if p in V3Paths(orders[..n], mids) {
      ConcaveOrderPaths(orders[..n], mids, p);
    } else {
      OneAmountPaths(orders[n], mids);
      DirectOnly(orders[n].uid, 1, |FEE_TIERS|);
      ConcaveQuote(p, 1);
    }
  }

  lemma {:induction false} OneAmountPaths(o: Order, mids: seq<Token>)
    requires mids == [] && o.kind.Sell? && !o.partiallyFillable
    ensures V3PathsAt(o, QuotedAmounts(o), mids) == TierPaths(o.uid, o.sellToken, o.buyToken, o.sellAmount, false, None, |FEE_TIERS|)
  {
    var amounts := QuotedAmounts(o);
    assert amounts == [o.sellAmount] && amounts[..0] == [];
    assert V3PathsAt(o, amounts, mids) == [] + PairPaths(o.uid, o.sellToken, o.buyToken, o.sellAmount, false, mids);
  }

  /** Whatever the rest of the pool holds, the group's best quote is the 4. */
  lemma {:induction false} GroupGetsFour(quotes: seq<RouteQuote>)
    requires forall q :: q in quotes ==> q.amountOut <= 4
    requires RouteQuote(V3(DirectPath(GroupUid(BothInGroup()), TokenA(), TokenB(), 2, false, 100)), 4) in quotes
    ensures BestJoint(quotes, TokenA(), TokenB()).Some? && BestJoint(quotes, TokenA(), TokenB()).value.amountOut == 4
  {
    BestJointEligible(quotes, TokenA(), TokenB());
    var q := RouteQuote(V3(DirectPath(GroupUid(BothInGroup()), TokenA(), TokenB(), 2, false, 100)), 4);
    var k :| 0 <= k < |quotes| && quotes[k] == q;
    assert JointEligible(quotes[k], TokenA(), TokenB());
  }

  lemma {:induction false} GroupSettles(quotes: seq<RouteQuote>) returns (route: Route)
    requires BestJoint(quotes, TokenA(), TokenB()).Some? && BestJoint(quotes, TokenA(), TokenB()).value.amountOut == 4
    ensures GroupLedger([BothInGroup()], quotes) == [GroupEntry(BothInGroup(), RouteQuote(route, 4))]
  {
    var best := BestJoint(quotes, TokenA(), TokenB()).value;
    CombinedTwo();
    route := best.path;
    GroupIsOutbid(best.path);
    var items := GroupItems([BothInGroup()], quotes);
    assert best == RouteQuote(best.path, 4);
    assert items[0] == [GroupEntry(BothInGroup(), best)];
    assert items[..0] == [] && Run([], []) == [];
    AgreesWithNothing(items[0][0]);
    assert GroupLedger([BothInGroup()], quotes) == [] + [GroupEntry(BothInGroup(), best)];
  }

  /** One outbid group member is enough for a rejection. */
  lemma RejectedWhenOutbid(chain: V3Batched.Chain, orders: seq<Order>, minGroupSize: nat, mids: seq<Token>, toleranceBps: nat,
                           e: Entry, f: Fill)
    requires UniqueUids(orders) && AllSigned(orders) && JointAnswered(chain, orders, Groups(orders, minGroupSize), mids)
    requires var groups := Groups(orders, minGroupSize);
             e in GroupLedger(groups, JointQuotes(chain, orders, groups, mids))
    requires f in e.fills && e.sold > 0 && Outbid(chain, mids, toleranceBps, e, f)
    ensures var groups := Groups(orders, minGroupSize);
            var ledger := JointLedger(orders, groups, JointQuotes(chain, orders, groups, mids));
            !EbboCheck(TradesOf(ledger), PricesOf(ledger), orders, chain, mids, toleranceBps).passes
  {
    JointEbboExact(chain, orders, orders, minGroupSize, mids, toleranceBps);
  }

  lemma ConcaveMarket(paths: seq<V3Batched.Path>)
    requires forall p :: p in paths ==> ConcavePath(p)
    ensures Answered(CONCAVE, paths)
    ensures var quoted := BatchedQuoter.QuotesBySize(V3Batched.QuoterOf(CONCAVE), paths, V3Batched.MAX_CALLS_PER_BATCH);
            forall k :: 0 <= k < |paths| ==>
              quoted[k] == BatchedQuoter.Quoted(paths[k], V3Batched.PathQuote(CONCAVE, paths[k])) && quoted[k].amountOut <= 4
  {
    forall k | 0 <= k < |paths| ensures V3Batched.BuildCall(paths[k]).Some? && V3Batched.PathQuote(CONCAVE, paths[k]) <= 4 {
      assert paths[k] in paths;
    }
    assert Answered(CONCAVE, paths);
    AnsweredQuotes(CONCAVE, paths);
  }

  lemma ConcaveJointMarket(orders: seq<Order>, groups: seq<Group>, mids: seq<Token>)
    requires orders == [FIRST, SECOND] && groups == [BothInGroup()] && mids == []
    ensures JointAnswered(CONCAVE, orders, groups, mids)
    ensures forall q :: q in JointQuotes(CONCAVE, orders, groups, mids) ==> q.amountOut <= 4
    ensures RouteQuote(V3(DirectPath(GroupUid(BothInGroup()), TokenA(), TokenB(), 2, false, 100)), 4)
            in JointQuotes(CONCAVE, orders, groups, mids)
  {
    var paths := AllPaths(orders, groups, mids);
    ConcavePaths(orders, groups, mids);
    ConcaveMarket(paths);
    var quotes := JointQuotes(CONCAVE, orders, groups, mids);
    forall k | 0 <= k < |quotes| ensures quotes[k].path.AmountIn() > 0 && quotes[k].amountOut <= 4 {
      assert paths[k] in paths;
    }
    var p := DirectPath(GroupUid(BothInGroup()), TokenA(), TokenB(), 2, false, 100);
    var k :| 0 <= k < |paths| && paths[k] == p;
    ConcaveQuote(p, 2);
    assert quotes[k] == RouteQuote(V3(p), 4);
  }

  /** Joint clearing can cost its orders their batch. On the concave chain the solver settles the two orders as
      a group that meets both limits, and the EBBO check on the same chain rejects the batch at tolerance 0. */
  lemma ClearedGroupRejected(orders: seq<Order>, mids: seq<Token>)
    requires orders == [FIRST, SECOND] && mids == []
    ensures Groups(orders, 2) == [BothInGroup()] && JointAnswered(CONCAVE, orders, Groups(orders, 2), mids)
    ensures var quotes := JointQuotes(CONCAVE, orders, Groups(orders, 2), mids);
            var ledger := JointLedger(orders, Groups(orders, 2), quotes);
      && |GroupLedger(Groups(orders, 2), quotes)| == 1 && LimitsSatisfied(orders, 2, 4)
      && !EbboCheck(TradesOf(ledger), PricesOf(ledger), orders, CONCAVE, mids, 0).passes
  {
    BothAreGrouped();
    var groups := Groups(orders, 2);
    ConcaveJointMarket(orders, groups, mids);
    var quotes := JointQuotes(CONCAVE, orders, groups, mids);
    GroupGetsFour(quotes);
    var route := GroupSettles(quotes);
    GroupIsOutbid(route);
    var e := GroupEntry(BothInGroup(), RouteQuote(route, 4));
    assert GroupLedger(groups, quotes)[0] == e;
    BothSigned(orders);
    RejectedWhenOutbid(CONCAVE, orders, 2, mids, 0, e, Fill(FIRST, 1));
  }

  lemma BothSigned(orders: seq<Order>)
    requires orders == [FIRST, SECOND]
    ensures UniqueUids(orders) && AllSigned(orders)
  {
    TokensAreAddresses();
  }
}
