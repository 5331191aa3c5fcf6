/** The common shape of the clearing loops: go through a list of items once, each offering a list of
    swaps, and emit for each item the first swap the current price map accepts. What such a loop
    guarantees does not depend on where the swaps came from. */
module ClearingLoop {
  import opened Wrappers
  import opened Models
  import opened Ledger
  import opened Sequences

  /** The first attempt a price map accepts. */
  function Choose(prices: Prices, attempts: seq<Entry>): Option<Entry> {
    if attempts == [] then None
    else if EntryAgrees(prices, attempts[0]) then Some(attempts[0])
    else Choose(prices, attempts[1..])
  }

  function AsLedger(e: Option<Entry>): seq<Entry> {
    if e.None? then [] else [e.value]
  }

  /** The ledger after the items have been gone through, starting from `start`. */
  function Run(start: seq<Entry>, items: seq<seq<Entry>>): seq<Entry> {
    if items == [] then start
    else
      var n := |items| - 1;
      var before := Run(start, items[..n]);
      before + AsLedger(Choose(PricesOf(before), items[n]))
  }

  /** What is picked when every item is judged against one fixed price map. */
  function Collect(prices: Prices, items: seq<seq<Entry>>): seq<Entry> {
    if items == [] then []
    else
      var n := |items| - 1;
      Collect(prices, items[..n]) + AsLedger(Choose(prices, items[n]))
  }

  /** Every attempt trades two distinct tokens. */
  predicate TwoTokens(attempts: seq<Entry>) {
    forall k :: 0 <= k < |attempts| ==> attempts[k].sellToken != attempts[k].buyToken
  }

  predicate AllTwoTokens(items: seq<seq<Entry>>) {
    forall i :: 0 <= i < |items| ==> TwoTokens(items[i])
  }

  lemma {:induction false} RunStep(start: seq<Entry>, items: seq<seq<Entry>>, item: seq<Entry>)
    ensures Run(start, items + [item])
         == Run(start, items) + AsLedger(Choose(PricesOf(Run(start, items)), item))
    ensures forall prices :: Collect(prices, items + [item]) == Collect(prices, items) + AsLedger(Choose(prices, item))
  {
    assert (items + [item])[..|items|] == items;
  }

  lemma {:induction false} RunPrefix(start: seq<Entry>, items: seq<seq<Entry>>, i: nat)
    requires i <= |items|
    ensures start <= Run(start, items[..i]) <= Run(start, items)
    decreases |items|
  {
    if items == [] {
      assert items[..i] == items;
    } else {
      var n := |items| - 1;
      if i == |items| {
        assert items[..i] == items;
        RunPrefix(start, items[..n], n);
        assert items[..n][..n] == items[..n];
      } else {
        RunPrefix(start, items[..n], i);
        assert items[..n][..i] == items[..i];
      }
    }
  }

  /** One turn of the loop, and where its choice ends up. */
  lemma {:induction false} RunNext(start: seq<Entry>, items: seq<seq<Entry>>, i: nat)
    requires i < |items|
    ensures var now := Run(start, items[..i]);
            var choice := Choose(PricesOf(now), items[i]);
      && Run(start, items[..i + 1]) == now + AsLedger(choice)
      && (choice.Some? ==> |now| < |Run(start, items)| && Run(start, items)[|now|] == choice.value)
  {
    TakeNext(items, i);
    RunStep(start, items[..i], items[i]);
    RunPrefix(start, items, i + 1);
    var now := Run(start, items[..i]);
    var choice := Choose(PricesOf(now), items[i]);
    if choice.Some? {
      assert (now + [choice.value])[|now|] == choice.value;
    }
  }

  lemma {:induction false} ChooseIn(prices: Prices, attempts: seq<Entry>)
    ensures var c := Choose(prices, attempts);
      && (c.Some? ==> c.value in attempts && EntryAgrees(prices, c.value))
      && (c.None? <==> forall k :: 0 <= k < |attempts| ==> !EntryAgrees(prices, attempts[k]))
    decreases |attempts|
  {
    if attempts != [] && !EntryAgrees(prices, attempts[0]) {
      ChooseIn(prices, attempts[1..]);
      assert forall k :: 1 <= k < |attempts| ==> attempts[k] == attempts[1..][k - 1];
    }
  }

  /** When the attempts come largest first, the chosen one is the largest the prices accept. */
  lemma {:induction false} ChosenIsLargest(prices: Prices, attempts: seq<Entry>)
    requires forall k :: 0 <= k < |attempts| ==> |attempts[k].fills| == 1
    requires forall a, b :: 0 <= a < b < |attempts| ==> attempts[a].fills[0].executed >= attempts[b].fills[0].executed
    requires Choose(prices, attempts).Some?
    ensures |Choose(prices, attempts).value.fills| == 1
    ensures forall k :: 0 <= k < |attempts| && EntryAgrees(prices, attempts[k]) ==>
              attempts[k].fills[0].executed <= Choose(prices, attempts).value.fills[0].executed
    decreases |attempts|
  {
    if !EntryAgrees(prices, attempts[0]) {
      ChosenIsLargest(prices, attempts[1..]);
      assert forall k :: 1 <= k < |attempts| ==> attempts[k] == attempts[1..][k - 1];
    }
  }

  /** One step keeps one price per token and every price registered before. */
  lemma {:induction false} StepKeepsUniform(before: seq<Entry>, attempts: seq<Entry>)
    requires Uniform(before) && TwoTokens(attempts)
    ensures var after := before + AsLedger(Choose(PricesOf(before), attempts));
            Uniform(after) && Extends(PricesOf(before), PricesOf(after))
  {
    var choice := Choose(PricesOf(before), attempts);
    ChooseIn(PricesOf(before), attempts);
    if choice.Some? {
      RegisterKeepsUniform(before, choice.value);
    } else {
      assert before + AsLedger(choice) == before;
    }
  }

  lemma ExtendsTransitive(a: Prices, b: Prices, c: Prices)
    requires Extends(a, b) && Extends(b, c)
    ensures Extends(a, c)
  {
  }

  /** From any uniform start and for any items, the loop keeps one price per token, keeps every price ever
      registered, and only appends. */
  lemma {:induction false} RunKeepsUniform(start: seq<Entry>, items: seq<seq<Entry>>)
    requires Uniform(start) && AllTwoTokens(items)
    ensures Uniform(Run(start, items)) && start <= Run(start, items)
    ensures Extends(PricesOf(start), PricesOf(Run(start, items)))
  {
    if items != [] {
      var n := |items| - 1;
      RunKeepsUniform(start, items[..n]);
      var before := Run(start, items[..n]);
      StepKeepsUniform(before, items[n]);
      ExtendsTransitive(PricesOf(start), PricesOf(before), PricesOf(Run(start, items)));
    }
  }

  /** What the loop appends are attempts of the items. */
  lemma {:induction false} RunMembers(start: seq<Entry>, items: seq<seq<Entry>>, k: nat)
    requires |start| <= k < |Run(start, items)|
    ensures exists i :: 0 <= i < |items| && Run(start, items)[k] in items[i]
  {
    var n := |items| - 1;
    var before := Run(start, items[..n]);
    RunPrefix(start, items, n);
    if k < |before| {
      RunMembers(start, items[..n], k);
      var i :| 0 <= i < n && before[k] in items[..n][i];
      assert Run(start, items)[k] in items[i];
    } else {
      ChooseIn(PricesOf(before), items[n]);
    }
  }

  lemma {:induction false} ChooseStable(early: Prices, late: Prices, attempts: seq<Entry>)
    requires Extends(early, late)
    requires Choose(early, attempts).Some? ==> EntryAgrees(late, Choose(early, attempts).value)
    ensures Choose(late, attempts) == Choose(early, attempts)
    decreases |attempts|
  {
    if attempts != [] && !EntryAgrees(early, attempts[0]) {
      ChooseStable(early, late, attempts[1..]);
    }
  }

  /** One step, seen from any later price map that extends the step's own. */
  lemma {:induction false} StepStable(before: seq<Entry>, attempts: seq<Entry>, final: Prices)
    requires Uniform(before) && TwoTokens(attempts)
    requires Extends(PricesOf(before + AsLedger(Choose(PricesOf(before), attempts))), final)
    ensures Extends(PricesOf(before), final)
    ensures Choose(final, attempts) == Choose(PricesOf(before), attempts)
  {
    var choice := Choose(PricesOf(before), attempts);
    StepKeepsUniform(before, attempts);
    ExtendsTransitive(PricesOf(before), PricesOf(before + AsLedger(choice)), final);
    if choice.Some? {
      assert (before + [choice.value])[|before|] == choice.value;
      assert PricedAs(PricesOf(before + [choice.value]), choice.value);
    }
    ChooseStable(PricesOf(before), final, attempts);
  }

  lemma {:induction false} RunCollects(start: seq<Entry>, items: seq<seq<Entry>>, final: Prices)
    requires Uniform(start) && AllTwoTokens(items)
    requires Extends(PricesOf(Run(start, items)), final)
    ensures Run(start, items) == start + Collect(final, items)
  {
    if items == [] {
      assert start + [] == start;
    } else {
      var n := |items| - 1;
      RunKeepsUniform(start, items[..n]);
      StepStable(Run(start, items[..n]), items[n], final);
      RunCollects(start, items[..n], final);
      AppendAssoc(start, Collect(final, items[..n]), AsLedger(Choose(final, items[n])));
    }
  }

  /** The loop has a declarative reading that mentions no order of steps: it emits for each item the first
      attempt the FINAL price map accepts, and nothing when there is none. */
  lemma {:induction false} RunIsDeclarative(start: seq<Entry>, items: seq<seq<Entry>>)
    requires Uniform(start) && AllTwoTokens(items)
    ensures Run(start, items) == start + Collect(PricesOf(Run(start, items)), items)
  {
    RunCollects(start, items, PricesOf(Run(start, items)));
  }

  lemma {:induction false} RunFromNothing(items: seq<seq<Entry>>)
    requires AllTwoTokens(items)
    ensures Run([], items) == Collect(PricesOf(Run([], items)), items)
  {
    var ledger := Run([], items);
    RunIsDeclarative([], items);
    assert [] + Collect(PricesOf(ledger), items) == Collect(PricesOf(ledger), items);
  }

  /** A second pass over the same items, at the prices the first one ended with, settles on the same swaps
      and the same prices: there is nothing left to gain by trying again. */
  lemma {:induction false} SecondPassAgrees(start: seq<Entry>, items: seq<seq<Entry>>)
    requires Uniform(start) && AllTwoTokens(items)
    ensures var ledger := Run(start, items);
      && Run(ledger, items) == ledger + Collect(PricesOf(ledger), items)
      && PricesOf(Run(ledger, items)) == PricesOf(ledger)
  {
    var ledger := Run(start, items);
    RunKeepsUniform(start, items);
    RunIsDeclarative(start, items);
    var picked := Collect(PricesOf(ledger), items);
    forall k | 0 <= k < |picked| ensures PricedAs(PricesOf(ledger), picked[k]) {
      assert picked[k] == ledger[|start| + k];
    }
    Replay(ledger, items, PricesOf(ledger));
  }

  /** Registering a rate that is already on record changes no price. */
  lemma {:induction false} RegisterAgain(ledger: seq<Entry>, e: Entry)
    requires PricedAs(PricesOf(ledger), e)
    ensures PricesOf(ledger + [e]) == PricesOf(ledger)
  {
    LedgerAppend(ledger, e);
  }

  /** The replayed loop has emitted `done` so far and is about to judge one more item. */
  lemma {:induction false} ReplayStep(ledger: seq<Entry>, done: seq<Entry>, attempts: seq<Entry>, prices: Prices)
    requires PricesOf(ledger + done) == prices
    requires Choose(prices, attempts).Some? ==> PricedAs(prices, Choose(prices, attempts).value)
    ensures var choice := AsLedger(Choose(prices, attempts));
      && ledger + done + choice == ledger + (done + choice)
      && PricesOf(ledger + (done + choice)) == prices
  {
    var choice := Choose(prices, attempts);
    assert ledger + done + AsLedger(choice) == ledger + (done + AsLedger(choice));
    if choice.Some? {
      RegisterAgain(ledger + done, choice.value);
    } else {
      assert ledger + (done + []) == ledger + done;
    }
  }

  lemma {:induction false} Replay(ledger: seq<Entry>, items: seq<seq<Entry>>, prices: Prices)
    requires PricesOf(ledger) == prices
    requires forall k :: 0 <= k < |Collect(prices, items)| ==> PricedAs(prices, Collect(prices, items)[k])
    ensures Run(ledger, items) == ledger + Collect(prices, items)
    ensures PricesOf(Run(ledger, items)) == prices
  {
    if items == [] {
      assert ledger + [] == ledger;
    } else {
      var n := |items| - 1;
      var done := Collect(prices, items[..n]);
      assert forall k :: 0 <= k < |done| ==> done[k] == Collect(prices, items)[k];
      Replay(ledger, items[..n], prices);
      if Choose(prices, items[n]).Some? {
        assert Collect(prices, items)[|done|] == Choose(prices, items[n]).value;
      }
      ReplayStep(ledger, done, items[n], prices);
    }
  }

  lemma {:induction false} CollectContains(prices: Prices, items: seq<seq<Entry>>, i: nat)
    requires i < |items| && Choose(prices, items[i]).Some?
    ensures Choose(prices, items[i]).value in Collect(prices, items)
  {
    var n := |items| - 1;
    if i < n {
      CollectContains(prices, items[..n], i);
    }
  }

  lemma {:induction false} RunsEmpty(items: seq<seq<Entry>>)
    requires forall j :: 0 <= j < |items| ==> items[j] == []
    ensures Run([], items) == []
  {
    if items != [] {
      RunsEmpty(items[..|items| - 1]);
    }
  }

  lemma AgreesWithNothing(e: Entry)
    ensures EntryAgrees(PricesOf([]), e)
  {
  }

  /** The first item that offers anything gets its first offer, and sets the prices for good. */
  lemma {:induction false} FirstOfferEmitted(items: seq<seq<Entry>>, m: nat)
    requires AllTwoTokens(items) && m < |items| && items[m] != []
    requires forall j :: 0 <= j < m ==> items[j] == []
    ensures items[m][0] in Run([], items) && PricedAs(PricesOf(Run([], items)), items[m][0])
  {
    RunsEmpty(items[..m]);
    AgreesWithNothing(items[m][0]);
    RunNext([], items, m);
    RunKeepsUniform([], items);
    assert Run([], items)[0] == items[m][0];
  }

  /** There is a first one, when any offers something. */
  lemma FirstOfferWins(items: seq<seq<Entry>>, i: nat) returns (m: nat)
    requires AllTwoTokens(items) && i < |items| && items[i] != []
    ensures m <= i && items[m] != [] && forall j :: 0 <= j < m ==> items[j] == []
    ensures items[m][0] in Run([], items) && PricedAs(PricesOf(Run([], items)), items[m][0])
  {
    m := FirstOffer(items, i);
    FirstOfferEmitted(items, m);
  }

  lemma FirstOffer(items: seq<seq<Entry>>, i: nat) returns (m: nat)
    requires i < |items| && items[i] != []
    ensures m <= i && items[m] != [] && forall j :: 0 <= j < m ==> items[j] == []
  {
    m := 0;
    while items[m] == []
      invariant m <= i && forall j :: 0 <= j < m ==> items[j] == []
      decreases i - m
    {
      m := m + 1;
    }
  }

  /** Everything collected comes from some item's attempts, and agrees with the prices. */
  lemma {:induction false} CollectedFrom(prices: Prices, items: seq<seq<Entry>>, e: Entry)
    requires e in Collect(prices, items)
    ensures exists i :: 0 <= i < |items| && Choose(prices, items[i]) == Some(e)
  {
    var n := |items| - 1;
    if Choose(prices, items[n]) != Some(e) {
      CollectedFrom(prices, items[..n], e);
      var i :| 0 <= i < n && Choose(prices, items[..n][i]) == Some(e);
      assert items[i] == items[..n][i];
    }
  }

  lemma {:induction false} FillsOfMember(ledger: seq<Entry>, f: Fill)
    ensures f in FillsOf(ledger) <==> exists k :: 0 <= k < |ledger| && f in ledger[k].fills
  {
    if ledger != [] {
      var n := |ledger| - 1;
      FillsOfMember(ledger[..n], f);
      assert forall k :: 0 <= k < n ==> ledger[..n][k] == ledger[k];
    }
  }

  /** A collected fill was offered by some item. */
  lemma {:induction false} CollectedFill(prices: Prices, items: seq<seq<Entry>>, f: Fill)
    requires f in FillsOf(Collect(prices, items))
    ensures exists i: nat, e :: i < |items| && e in items[i] && f in e.fills
  {
    var ledger := Collect(prices, items);
    FillsOfMember(ledger, f);
    var k :| 0 <= k < |ledger| && f in ledger[k].fills;
    CollectedFrom(prices, items, ledger[k]);
    var i :| 0 <= i < |items| && Choose(prices, items[i]) == Some(ledger[k]);
    ChooseIn(prices, items[i]);
  }

  /** No two fills of the list are for the same order uid. */
  ghost predicate DistinctUids(fills: seq<Fill>) {
    forall a, b :: 0 <= a < b < |fills| ==> fills[a].order.uid != fills[b].order.uid
  }

  ghost predicate ApartFrom(fills: seq<Fill>, others: seq<Fill>) {
    forall f, g :: f in fills && g in others ==> f.order.uid != g.order.uid
  }

  /** Different items never offer to fill the same uid, and no attempt fills one twice. */
  ghost predicate ItemsApart(items: seq<seq<Entry>>) {
    && (forall i, k :: 0 <= i < |items| && 0 <= k < |items[i]| ==> DistinctUids(items[i][k].fills))
    && (forall i, j, e, e' :: 0 <= i < j < |items| && e in items[i] && e' in items[j] ==> ApartFrom(e.fills, e'.fills))
  }

  /** A fill collected from the earlier items is for another uid than a fill offered by the last one. */
  lemma CollectApart(prices: Prices, items: seq<seq<Entry>>, e: Entry, f: Fill, g: Fill)
    requires items != [] && ItemsApart(items) && e in items[|items| - 1]
    requires f in FillsOf(Collect(prices, items[..|items| - 1])) && g in e.fills
    ensures f.order.uid != g.order.uid
  {
    var n := |items| - 1;
    var before := Collect(prices, items[..n]);
    FillsOfMember(before, f);
    var k :| 0 <= k < |before| && f in before[k].fills;
    CollectedFrom(prices, items[..n], before[k]);
    var i :| 0 <= i < n && Choose(prices, items[..n][i]) == Some(before[k]);
    ChooseIn(prices, items[i]);
    assert before[k] in items[i];
    assert ApartFrom(before[k].fills, e.fills);
  }

  lemma AppendDistinct(a: seq<Fill>, b: seq<Fill>)
    requires DistinctUids(a) && DistinctUids(b) && ApartFrom(a, b)
    ensures DistinctUids(a + b)
  {
  }

  /** No uid is filled twice. */
  lemma {:induction false} CollectDistinct(prices: Prices, items: seq<seq<Entry>>)
    requires ItemsApart(items)
    ensures DistinctUids(FillsOf(Collect(prices, items)))
  {
    if items != [] {
      var n := |items| - 1;
      assert ItemsApart(items[..n]);
      CollectDistinct(prices, items[..n]);
      var before := Collect(prices, items[..n]);
      var choice := Choose(prices, items[n]);
      ChooseIn(prices, items[n]);
      if choice.Some? {
        LedgerAppend(before, choice.value);
        forall f, g | f in FillsOf(before) && g in choice.value.fills
          ensures f.order.uid != g.order.uid
        {
          CollectApart(prices, items, choice.value, f, g);
        }
        AppendDistinct(FillsOf(before), choice.value.fills);
      } else {
        assert Collect(prices, items) == before;
      }
    }
  }

  ghost predicate Fills(e: Entry, uid: Uid) {
    exists f :: f in e.fills && f.order.uid == uid
  }

  lemma FilledMember(ledger: seq<Entry>, uid: Uid)
    ensures uid in FilledOf(ledger) <==> exists k :: 0 <= k < |ledger| && Fills(ledger[k], uid)
  {
    if uid in FilledOf(ledger) {
      var f :| f in FillsOf(ledger) && f.order.uid == uid;
      FillsOfMember(ledger, f);
    }
    if exists k :: 0 <= k < |ledger| && Fills(ledger[k], uid) {
      var k :| 0 <= k < |ledger| && Fills(ledger[k], uid);
      var f :| f in ledger[k].fills && f.order.uid == uid;
      FillsOfMember(ledger, f);
      assert f in FillsOf(ledger);
    }
  }

  /** A uid that exactly the attempts of item `i` fill is filled exactly when item `i` got a swap. */
  lemma {:induction false} FilledWhenChosen(prices: Prices, items: seq<seq<Entry>>, i: nat, uid: Uid)
    requires i < |items|
    requires forall j, k :: 0 <= j < |items| && 0 <= k < |items[j]| ==> (Fills(items[j][k], uid) <==> j == i)
    ensures uid in FilledOf(Collect(prices, items)) <==> Choose(prices, items[i]).Some?
  {
    var ledger := Collect(prices, items);
    FilledMember(ledger, uid);
    ChooseIn(prices, items[i]);
    if Choose(prices, items[i]).Some? {
      CollectContains(prices, items, i);
    }
    if uid in FilledOf(ledger) {
      var k :| 0 <= k < |ledger| && Fills(ledger[k], uid);
      CollectedFrom(prices, items, ledger[k]);
      var j :| 0 <= j < |items| && Choose(prices, items[j]) == Some(ledger[k]);
      ChooseIn(prices, items[j]);
    }
  }
}
