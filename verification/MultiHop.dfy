/** One- and two-hop search over every venue (routing/multihop.py). The search keeps only the best first
    hop per intermediate; the lemmas say when that loses nothing. */
module MultiHop {
  import opened Wrappers
  import opened Sequences
  import opened Models
  import opened AmmV2
  import V2Source

  datatype Factory = Sushi | Camelot

  datatype Venue = V2(factory: Factory) | V3(feeTier: nat)

  const V2_VENUES: seq<Venue> := [V2(Sushi), V2(Camelot)]
  const V3_VENUES: seq<Venue> := [V3(FEE_TIERS[0]), V3(FEE_TIERS[1]), V3(FEE_TIERS[2]), V3(FEE_TIERS[3])]

  /** Chain state: the V2 reserves found per factory and directed pair, and the V3 quoter, where 0 stands
      for a missing pool or a reverted quote. */
  datatype Market = Market(
    pools: map<(Factory, Token, Token), V2Source.PoolReserves>,
    v3: (Token, Token, nat, nat) -> nat
  )

  datatype HopQuote = HopQuote(venue: Venue, tokenIn: Token, tokenOut: Token, amountIn: nat, amountOut: nat)

  predicate IsVenue(v: Venue) {
    v in V2_VENUES || v in V3_VENUES
  }

  /** What one venue pays, 0 when it cannot quote. */
  function VenueOut(m: Market, v: Venue, tokenIn: Token, tokenOut: Token, amount: nat): nat {
    match v
    case V2(factory) =>
      if (factory, tokenIn, tokenOut) !in m.pools then 0
      else
        var (reserveIn, reserveOut) := V2Source.OrientReserves(m.pools[(factory, tokenIn, tokenOut)], tokenIn);
        QuoteV2Swap(amount, reserveIn, reserveOut, DEFAULT_FEE_BPS)
    case V3(feeTier) => m.v3(tokenIn, tokenOut, feeTier, amount)
  }

  /** A V2 venue pays the most its pool can give, with the sold token's own reserve on the input side, and nothing
      where the factory has no pool. */
  lemma V2VenueExact(m: Market, factory: Factory, tokenIn: Token, tokenOut: Token, amount: nat)
    ensures var out := VenueOut(m, V2(factory), tokenIn, tokenOut, amount);
            if (factory, tokenIn, tokenOut) in m.pools
            then V2Source.SellsOver(m.pools[(factory, tokenIn, tokenOut)], DEFAULT_FEE_BPS, tokenIn, amount, out > 0, out)
            else out == 0
  {
    if (factory, tokenIn, tokenOut) in m.pools {
      var (reserveIn, reserveOut) := V2Source.OrientReserves(m.pools[(factory, tokenIn, tokenOut)], tokenIn);
      QuoteIsMost(amount, reserveIn, reserveOut, DEFAULT_FEE_BPS);
    }
  }

  /** An honest quote of one hop at a known venue. */
  predicate HonestHop(m: Market, q: HopQuote) {
    IsVenue(q.venue) && q.amountOut > 0 && q.amountOut == VenueOut(m, q.venue, q.tokenIn, q.tokenOut, q.amountIn)
  }

  predicate Asked(q: HopQuote, tokenIn: Token, tokenOut: Token, amount: nat) {
    q.tokenIn == tokenIn && q.tokenOut == tokenOut && q.amountIn == amount
  }

  predicate UsableMid(mid: Token, tokenIn: Token, tokenOut: Token) {
    mid != tokenIn && mid != tokenOut
  }

  /** Every route the search space holds: one hop, or two through a usable intermediate, any venue at
      each hop. */
  predicate IsRoute(m: Market, tokenIn: Token, tokenOut: Token, amount: nat, mids: seq<Token>,
                    route: seq<HopQuote>) {
    match |route|
    case 1 => HonestHop(m, route[0]) && Asked(route[0], tokenIn, tokenOut, amount)
    case 2 =>
      var mid := route[0].tokenOut;
      && mid in mids && mid != tokenIn && mid != tokenOut
      && HonestHop(m, route[0]) && Asked(route[0], tokenIn, mid, amount)
      && HonestHop(m, route[1]) && Asked(route[1], mid, tokenOut, route[0].amountOut)
    case _ => false
  }

  function FinalOut(route: seq<HopQuote>): nat {
    if route == [] then 0 else route[|route| - 1].amountOut
  }

  function Best(keys: seq<nat>): nat {
    if keys == [] then 0
    else
      var rest := Best(keys[..|keys| - 1]);
      if keys[|keys| - 1] > rest then keys[|keys| - 1] else rest
  }

  /** Index of the first largest key, as Python's `max` picks it. */
  function FirstMax(keys: seq<nat>): (k: nat)
    requires |keys| > 0
    ensures k < |keys| && keys[k] == Best(keys)
    ensures forall i :: 0 <= i < |keys| ==> keys[i] <= keys[k]
    ensures forall i :: 0 <= i < k ==> keys[i] < keys[k]
  {
    var last := |keys| - 1;
    if last == 0 then 0
    else
      var k := FirstMax(keys[..last]);
      if keys[last] > keys[k] then last else k
  }

  function HopOuts(quotes: seq<HopQuote>): (keys: seq<nat>)
    ensures |keys| == |quotes|
  {
    seq(|quotes|, i requires 0 <= i < |quotes| => quotes[i].amountOut)
  }

  function RouteOuts(routes: seq<seq<HopQuote>>): (keys: seq<nat>)
    ensures |keys| == |routes|
  {
    seq(|routes|, i requires 0 <= i < |routes| => FinalOut(routes[i]))
  }

  lemma {:induction false} BestAppend(keys: seq<nat>, key: nat)
    ensures Best(keys + [key]) == if key > Best(keys) then key else Best(keys)
  {
    assert (keys + [key])[..|keys|] == keys;
  }

  /** The best output over a list of venues, by definition. */
  function BestOver(m: Market, vs: seq<Venue>, tokenIn: Token, tokenOut: Token, amount: nat): nat {
    if vs == [] then 0
    else
      var rest := BestOver(m, vs[..|vs| - 1], tokenIn, tokenOut, amount);
      var out := VenueOut(m, vs[|vs| - 1], tokenIn, tokenOut, amount);
      if out > rest then out else rest
  }

  function BestOut(m: Market, tokenIn: Token, tokenOut: Token, amount: nat): nat {
    var v2 := BestOver(m, V2_VENUES, tokenIn, tokenOut, amount);
    var v3 := BestOver(m, V3_VENUES, tokenIn, tokenOut, amount);
    if v3 > v2 then v3 else v2
  }

  predicate AllHonest(m: Market, tokenIn: Token, tokenOut: Token, amount: nat, quotes: seq<HopQuote>) {
    forall j :: 0 <= j < |quotes| ==> HonestHop(m, quotes[j]) && Asked(quotes[j], tokenIn, tokenOut, amount)
  }

  /** Appending an honest quote raises the best of the list to at least its output. */
  lemma AppendQuote(m: Market, tokenIn: Token, tokenOut: Token, amount: nat, quotes: seq<HopQuote>, q: HopQuote)
    requires AllHonest(m, tokenIn, tokenOut, amount, quotes)
    requires HonestHop(m, q) && Asked(q, tokenIn, tokenOut, amount)
    ensures AllHonest(m, tokenIn, tokenOut, amount, quotes + [q])
    ensures Best(HopOuts(quotes + [q])) == if q.amountOut > Best(HopOuts(quotes)) then q.amountOut else Best(HopOuts(quotes))
  {
    BestAppend(HopOuts(quotes), q.amountOut);
    assert HopOuts(quotes + [q]) == HopOuts(quotes) + [q.amountOut];
  }

  /** `best_v3_quote`: the best of the fee tiers that quote at all. */
  method BestV3Quote(m: Market, tokenIn: Token, tokenOut: Token, amount: nat) returns (r: Option<HopQuote>)
    ensures r.None? <==> BestOver(m, V3_VENUES, tokenIn, tokenOut, amount) == 0
    ensures r.Some? ==> HonestHop(m, r.value) && Asked(r.value, tokenIn, tokenOut, amount)
    ensures r.Some? ==> r.value.amountOut == BestOver(m, V3_VENUES, tokenIn, tokenOut, amount)
  {
    var quotes: seq<HopQuote> := [];
    for i := 0 to |V3_VENUES|
      invariant AllHonest(m, tokenIn, tokenOut, amount, quotes)
      invariant Best(HopOuts(quotes)) == BestOver(m, V3_VENUES[..i], tokenIn, tokenOut, amount)
    {
      assert V3_VENUES[..i + 1][..i] == V3_VENUES[..i];
      var out := VenueOut(m, V3_VENUES[i], tokenIn, tokenOut, amount);
      if out == 0 {
        continue;
      }
      var q := HopQuote(V3_VENUES[i], tokenIn, tokenOut, amount, out);
      AppendQuote(m, tokenIn, tokenOut, amount, quotes, q);
      quotes := quotes + [q];
    }
    assert V3_VENUES[..|V3_VENUES|] == V3_VENUES;
    if quotes == [] {
      return None;
    }
    var k := FirstMax(HopOuts(quotes));
    assert HonestHop(m, quotes[k]);
    r := Some(quotes[k]);
  }

  /** The quotes of the venues that pay anything, in order. */
  function Paying(m: Market, vs: seq<Venue>, tokenIn: Token, tokenOut: Token, amount: nat): seq<HopQuote> {
    if vs == [] then []
    else
      var v := vs[|vs| - 1];
      var out := VenueOut(m, v, tokenIn, tokenOut, amount);
      Paying(m, vs[..|vs| - 1], tokenIn, tokenOut, amount) + (if out > 0 then [HopQuote(v, tokenIn, tokenOut, amount, out)] else [])
  }

  /** One quote per paying venue, and none besides. */
  ghost predicate OneEach(m: Market, vs: seq<Venue>, tokenIn: Token, tokenOut: Token, amount: nat, quotes: seq<HopQuote>) {
    && (forall v :: v in vs && VenueOut(m, v, tokenIn, tokenOut, amount) > 0 ==>
          HopQuote(v, tokenIn, tokenOut, amount, VenueOut(m, v, tokenIn, tokenOut, amount)) in quotes)
    && (forall q :: q in quotes ==> q.venue in vs && VenueOut(m, q.venue, tokenIn, tokenOut, amount) > 0)
    && (forall i, j :: 0 <= i < j < |quotes| ==> quotes[i].venue != quotes[j].venue)
  }

  lemma {:induction false} PayingIsOneEach(m: Market, vs: seq<Venue>, tokenIn: Token, tokenOut: Token, amount: nat)
    requires forall i, j :: 0 <= i < j < |vs| ==> vs[i] != vs[j]
    ensures OneEach(m, vs, tokenIn, tokenOut, amount, Paying(m, vs, tokenIn, tokenOut, amount))
  {
    if vs != [] {
      var n := |vs| - 1;
      PayingIsOneEach(m, vs[..n], tokenIn, tokenOut, amount);
      assert vs == vs[..n] + [vs[n]];
      var before := Paying(m, vs[..n], tokenIn, tokenOut, amount);
      forall i | 0 <= i < |before| ensures before[i].venue != vs[n] {
        assert before[i] in before;
      }
    }
  }

  /** The V2 candidates: exactly one for each factory that has the pair and pays anything. */
  method V2Candidates(m: Market, tokenIn: Token, tokenOut: Token, amount: nat) returns (candidates: seq<HopQuote>)
    ensures AllHonest(m, tokenIn, tokenOut, amount, candidates)
    ensures OneEach(m, V2_VENUES, tokenIn, tokenOut, amount, candidates)
    ensures Best(HopOuts(candidates)) == BestOver(m, V2_VENUES, tokenIn, tokenOut, amount)
  {
    candidates := [];
    for i := 0 to |V2_VENUES|
      invariant AllHonest(m, tokenIn, tokenOut, amount, candidates)
      invariant candidates == Paying(m, V2_VENUES[..i], tokenIn, tokenOut, amount)
      invariant Best(HopOuts(candidates)) == BestOver(m, V2_VENUES[..i], tokenIn, tokenOut, amount)
    {
      TakeNext(V2_VENUES, i);
      var out := VenueOut(m, V2_VENUES[i], tokenIn, tokenOut, amount);
      if out > 0 {
        var q := HopQuote(V2_VENUES[i], tokenIn, tokenOut, amount, out);
        AppendQuote(m, tokenIn, tokenOut, amount, candidates, q);
        candidates := candidates + [q];
      }
    }
    TakeAll(V2_VENUES);
    PayingIsOneEach(m, V2_VENUES, tokenIn, tokenOut, amount);
  }

  /** `_quote_best_single_hop`: an honest quote that no venue beats, or none when no venue quotes. */
  method QuoteBestSingleHop(m: Market, tokenIn: Token, tokenOut: Token, amount: nat) returns (r: Option<HopQuote>)
    ensures r.None? <==> BestOut(m, tokenIn, tokenOut, amount) == 0
    ensures r.Some? ==> HonestHop(m, r.value) && Asked(r.value, tokenIn, tokenOut, amount)
    ensures r.Some? ==> r.value.amountOut == BestOut(m, tokenIn, tokenOut, amount)
  {
    var candidates := V2Candidates(m, tokenIn, tokenOut, amount);
    var v3 := BestV3Quote(m, tokenIn, tokenOut, amount);
    if v3.Some? {
      AppendQuote(m, tokenIn, tokenOut, amount, candidates, v3.value);
      candidates := candidates + [v3.value];
    }
    if candidates == [] {
      return None;
    }
    var k := FirstMax(HopOuts(candidates));
    assert HonestHop(m, candidates[k]);
    r := Some(candidates[k]);
  }

  /** The output the search ends with: the best direct hop, or the best hop after the best first hop
      through some usable intermediate. */
  function GreedyOut(m: Market, tokenIn: Token, tokenOut: Token, amount: nat, mids: seq<Token>): nat {
    if mids == [] then BestOut(m, tokenIn, tokenOut, amount)
    else
      var n := |mids| - 1;
      var rest := GreedyOut(m, tokenIn, tokenOut, amount, mids[..n]);
      var via := ViaOut(m, tokenIn, mids[n], tokenOut, amount);
      if via > rest then via else rest
  }

  function ViaOut(m: Market, tokenIn: Token, mid: Token, tokenOut: Token, amount: nat): nat {
    if !UsableMid(mid, tokenIn, tokenOut) then 0
    else
      var first := BestOut(m, tokenIn, mid, amount);
      if first == 0 then 0 else BestOut(m, mid, tokenOut, first)
  }

  lemma AppendRoute(routes: seq<seq<HopQuote>>, route: seq<HopQuote>)
    ensures Best(RouteOuts(routes + [route]))
         == if FinalOut(route) > Best(RouteOuts(routes)) then FinalOut(route) else Best(RouteOuts(routes))
  {
    BestAppend(RouteOuts(routes), FinalOut(route));
    assert RouteOuts(routes + [route]) == RouteOuts(routes) + [FinalOut(route)];
  }

  predicate AllRoutes(m: Market, tokenIn: Token, tokenOut: Token, amount: nat, mids: seq<Token>,
                      routes: seq<seq<HopQuote>>) {
    forall j :: 0 <= j < |routes| ==> IsRoute(m, tokenIn, tokenOut, amount, mids, routes[j])
  }

  /** `quote_best_path`: a real route realising exactly the greedy output. */
  method QuoteBestPath(m: Market, tokenIn: Token, tokenOut: Token, amount: nat, mids: seq<Token>)
    returns (r: Option<seq<HopQuote>>)
    ensures r.None? <==> GreedyOut(m, tokenIn, tokenOut, amount, mids) == 0
    ensures r.Some? ==> IsRoute(m, tokenIn, tokenOut, amount, mids, r.value)
    ensures r.Some? ==> FinalOut(r.value) == GreedyOut(m, tokenIn, tokenOut, amount, mids)
  {
    var candidates: seq<seq<HopQuote>> := [];
    var direct := QuoteBestSingleHop(m, tokenIn, tokenOut, amount);
    if direct.Some? {
      AppendRoute([], [direct.value]);
      candidates := [[direct.value]];
      assert [] + candidates == candidates;
    }
    for i := 0 to |mids|
      invariant AllRoutes(m, tokenIn, tokenOut, amount, mids, candidates)
      invariant Best(RouteOuts(candidates)) == GreedyOut(m, tokenIn, tokenOut, amount, mids[..i])
    {
      assert mids[..i + 1][..i] == mids[..i];
      var mid := mids[i];
      if mid == tokenIn || mid == tokenOut {
        continue;
      }
      var h1 := QuoteBestSingleHop(m, tokenIn, mid, amount);
      if h1.None? {
        continue;
      }
      var h2 := QuoteBestSingleHop(m, mid, tokenOut, h1.value.amountOut);
      if h2.None? {
        continue;
      }
      var route := [h1.value, h2.value];
      assert IsRoute(m, tokenIn, tokenOut, amount, mids, route);
      AppendRoute(candidates, route);
      candidates := candidates + [route];
    }
    assert mids[..|mids|] == mids;
    if candidates == [] {
      return None;
    }
    var k := FirstMax(RouteOuts(candidates));
    assert IsRoute(m, tokenIn, tokenOut, amount, mids, candidates[k]);
    r := Some(candidates[k]);
  }

  lemma {:induction false} BestOverBounds(m: Market, vs: seq<Venue>, tokenIn: Token, tokenOut: Token, amount: nat)
    ensures forall v :: v in vs ==> VenueOut(m, v, tokenIn, tokenOut, amount) <= BestOver(m, vs, tokenIn, tokenOut, amount)
    ensures BestOver(m, vs, tokenIn, tokenOut, amount) > 0 ==>
              exists v :: v in vs && VenueOut(m, v, tokenIn, tokenOut, amount) == BestOver(m, vs, tokenIn, tokenOut, amount)
  {
    if vs != [] {
      assert vs == vs[..|vs| - 1] + [vs[|vs| - 1]];
      BestOverBounds(m, vs[..|vs| - 1], tokenIn, tokenOut, amount);
    }
  }

  /** `BestOut` is the maximum over all venues. */
  lemma BestOutIsMax(m: Market, tokenIn: Token, tokenOut: Token, amount: nat)
    ensures forall v :: IsVenue(v) ==> VenueOut(m, v, tokenIn, tokenOut, amount) <= BestOut(m, tokenIn, tokenOut, amount)
    ensures BestOut(m, tokenIn, tokenOut, amount) > 0 ==>
              exists v :: IsVenue(v) && VenueOut(m, v, tokenIn, tokenOut, amount) == BestOut(m, tokenIn, tokenOut, amount)
  {
    BestOverBounds(m, V2_VENUES, tokenIn, tokenOut, amount);
    BestOverBounds(m, V3_VENUES, tokenIn, tokenOut, amount);
  }

  /** The V3 quoter pays no less for more input. (For V2 this is proved: AmmV2.QuoteMonotone.) */
  ghost predicate MonotoneV3(m: Market) {
    forall tokenIn, tokenOut, fee, x, x' :: x <= x' ==> m.v3(tokenIn, tokenOut, fee, x) <= m.v3(tokenIn, tokenOut, fee, x')
  }

  lemma BestOutMonotone(m: Market, tokenIn: Token, tokenOut: Token, x: nat, x': nat)
    requires MonotoneV3(m) && x <= x'
    ensures BestOut(m, tokenIn, tokenOut, x) <= BestOut(m, tokenIn, tokenOut, x')
  {
    BestOutIsMax(m, tokenIn, tokenOut, x);
    BestOutIsMax(m, tokenIn, tokenOut, x');
    if BestOut(m, tokenIn, tokenOut, x) > 0 {
      var v :| IsVenue(v) && VenueOut(m, v, tokenIn, tokenOut, x) == BestOut(m, tokenIn, tokenOut, x);
      if v.V2? && (v.factory, tokenIn, tokenOut) in m.pools {
        var (reserveIn, reserveOut) := V2Source.OrientReserves(m.pools[(v.factory, tokenIn, tokenOut)], tokenIn);
        QuoteMonotone(x, x', reserveIn, reserveOut, DEFAULT_FEE_BPS);
      }
      assert VenueOut(m, v, tokenIn, tokenOut, x) <= VenueOut(m, v, tokenIn, tokenOut, x');
    }
  }

  lemma {:induction false} GreedyCovers(m: Market, tokenIn: Token, tokenOut: Token, amount: nat, mids: seq<Token>)
    ensures BestOut(m, tokenIn, tokenOut, amount) <= GreedyOut(m, tokenIn, tokenOut, amount, mids)
    ensures forall mid :: mid in mids ==> ViaOut(m, tokenIn, mid, tokenOut, amount) <= GreedyOut(m, tokenIn, tokenOut, amount, mids)
  {
    if mids != [] {
      var n := |mids| - 1;
      assert mids == mids[..n] + [mids[n]];
      GreedyCovers(m, tokenIn, tokenOut, amount, mids[..n]);
    }
  }

  /** Keeping only the best first hop loses nothing when outputs are monotone: no route over any venues
      and intermediates ends higher than the greedy search. */
  lemma {:induction false} GreedyIsExhaustive(m: Market, tokenIn: Token, tokenOut: Token, amount: nat, mids: seq<Token>,
                           route: seq<HopQuote>)
    requires MonotoneV3(m)
    requires IsRoute(m, tokenIn, tokenOut, amount, mids, route)
    ensures FinalOut(route) <= GreedyOut(m, tokenIn, tokenOut, amount, mids)
  {
    GreedyCovers(m, tokenIn, tokenOut, amount, mids);
    if |route| == 1 {
      BestOutIsMax(m, tokenIn, tokenOut, amount);
    } else {
      var mid, first := route[0].tokenOut, route[0].amountOut;
      BestOutIsMax(m, tokenIn, mid, amount);
      BestOutIsMax(m, mid, tokenOut, first);
      BestOutMonotone(m, mid, tokenOut, first, BestOut(m, tokenIn, mid, amount));
      assert ViaOut(m, tokenIn, mid, tokenOut, amount) <= GreedyOut(m, tokenIn, tokenOut, amount, mids);
    }
  }

  /** A pool pair that pays 5 for 1 unit and 1 for 2: the second hop is not monotone. */
  function FallingQuoter(tokenIn: Token, tokenOut: Token, fee: nat, amount: nat): nat {
    if tokenIn == "a" && tokenOut == "b" then (if fee == 100 then 1 else if fee == 500 then 2 else 0)
    else if tokenIn == "b" && tokenOut == "c" && fee == 100 then (if amount == 1 then 5 else 1)
    else 0
  }

  /** Monotonicity is needed: against `FallingQuoter` the greedy search ends at 1 while a route pays 5. */
  lemma GreedyNeedsMonotone()
    ensures var m := Market(map[], FallingQuoter);
            var route := [HopQuote(V3(100), "a", "b", 1, 1), HopQuote(V3(100), "b", "c", 1, 5)];
            && IsRoute(m, "a", "c", 1, ["b"], route)
            && FinalOut(route) == 5 && GreedyOut(m, "a", "c", 1, ["b"]) == 1
  {
    var m := Market(map[], FallingQuoter);
    FallingBest("a", "c", 1, V3(100));
    FallingBest("a", "b", 1, V3(500));
    FallingBest("b", "c", 2, V3(100));
    assert ["b"][..0] == [];
    assert GreedyOut(m, "a", "c", 1, []) == 0;
    assert ViaOut(m, "a", "b", "c", 1) == 1;
  }

  lemma FallingBest(tokenIn: Token, tokenOut: Token, amount: nat, v: Venue)
    requires var m := Market(map[], FallingQuoter);
             && IsVenue(v)
             && forall fee :: V3(fee) in V3_VENUES ==>
                  FallingQuoter(tokenIn, tokenOut, fee, amount) <= VenueOut(m, v, tokenIn, tokenOut, amount)
    ensures var m := Market(map[], FallingQuoter);
            BestOut(m, tokenIn, tokenOut, amount) == VenueOut(m, v, tokenIn, tokenOut, amount)
  {
    var m := Market(map[], FallingQuoter);
    BestOutIsMax(m, tokenIn, tokenOut, amount);
    if BestOut(m, tokenIn, tokenOut, amount) > 0 {
      var w :| IsVenue(w) && VenueOut(m, w, tokenIn, tokenOut, amount) == BestOut(m, tokenIn, tokenOut, amount);
    }
  }
}
