/** Path quoting over one V2 factory (liquidity/v2.py): the forward walk of a sell, the backward walk of
    a buy, and the choice among candidate paths. */
module V2Source {
  import opened Wrappers
  import opened Models
  import opened AmmV2

  datatype PoolReserves = PoolReserves(reserve0: nat, reserve1: nat, token0: Token)

  /** Reserves by directed token pair; a pair without a discovered pool is absent. */
  type Pools = map<(Token, Token), PoolReserves>

  function OrientReserves(reserves: PoolReserves, tokenIn: Token): (nat, nat) {
    if reserves.token0 == tokenIn then (reserves.reserve0, reserves.reserve1)
    else (reserves.reserve1, reserves.reserve0)
  }

  /** One hop forward; a missing pool and a zero output both mean "not viable". */
  function HopOut(pools: Pools, feeBps: nat, tokenIn: Token, tokenOut: Token, amount: nat): Option<nat>
    requires feeBps < BPS
  {
    if (tokenIn, tokenOut) !in pools then None
    else
      var (reserveIn, reserveOut) := OrientReserves(pools[(tokenIn, tokenOut)], tokenIn);
      var out := QuoteV2Swap(amount, reserveIn, reserveOut, feeBps);
      if out == 0 then None else Some(out)
  }

  /** One hop backward. */
  function HopIn(pools: Pools, feeBps: nat, tokenIn: Token, tokenOut: Token, amount: nat): Option<nat>
    requires feeBps < BPS
  {
    if (tokenIn, tokenOut) !in pools then None
    else
      var (reserveIn, reserveOut) := OrientReserves(pools[(tokenIn, tokenOut)], tokenIn);
      var input := GetAmountIn(amount, reserveIn, reserveOut, feeBps);
      if input == 0 then None else Some(input)
  }

  /** What selling `amount` along `path` yields. */
  function SellWalk(pools: Pools, feeBps: nat, path: seq<Token>, amount: nat): Option<nat>
    requires feeBps < BPS
  {
    if |path| < 2 then Some(amount)
    else
      var hop := HopOut(pools, feeBps, path[0], path[1], amount);
      if hop.None? then None else SellWalk(pools, feeBps, path[1..], hop.value)
  }

  /** What buying `amount` along `path` costs. */
  function BuyWalk(pools: Pools, feeBps: nat, path: seq<Token>, amount: nat): Option<nat>
    requires feeBps < BPS
  {
    var n := |path|;
    if n < 2 then Some(amount)
    else
      var hop := HopIn(pools, feeBps, path[n - 2], path[n - 1], amount);
      if hop.None? then None else BuyWalk(pools, feeBps, path[..n - 1], hop.value)
  }

  function Walk(pools: Pools, feeBps: nat, path: seq<Token>, kind: Kind, amount: nat): Option<nat>
    requires feeBps < BPS
  {
    if kind.Sell? then SellWalk(pools, feeBps, path, amount) else BuyWalk(pools, feeBps, path, amount)
  }

  /** What one pool answers to a sale of `amount` of a token: the most it can give, with the token's own reserve on the
      input side, or that it gives nothing. */
  ghost predicate SellsOver(pool: PoolReserves, feeBps: nat, tokenIn: Token, amount: nat, viable: bool, got: nat)
    requires feeBps < BPS
  {
    var (own, other) := if tokenIn == pool.token0 then (pool.reserve0, pool.reserve1) else (pool.reserve1, pool.reserve0);
    && (viable <==> got > 0) && (viable ==> Gives(amount, own, other, feeBps, got))
    && forall z: nat :: z > got ==> !Gives(amount, own, other, feeBps, z)
  }

  /** What it answers to a purchase of `amount`: an input that suffices and no less than one unit above the least, or
      that no input would do. */
  ghost predicate BuysOver(pool: PoolReserves, feeBps: nat, tokenIn: Token, amount: nat, viable: bool, cost: nat)
    requires feeBps < BPS
  {
    var (own, other) := if tokenIn == pool.token0 then (pool.reserve0, pool.reserve1) else (pool.reserve1, pool.reserve0);
    && (viable <==> cost > 0) && (viable ==> Gives(cost, own, other, feeBps, amount))
    && (viable ==> forall z: nat :: z + 2 <= cost ==> !Gives(z, own, other, feeBps, amount))
    && (!viable && amount > 0 ==> forall z: nat :: !Gives(z, own, other, feeBps, amount))
  }

  lemma OneHop(pools: Pools, feeBps: nat, path: seq<Token>, kind: Kind, amount: nat, viable: bool, found: nat)
    requires feeBps < BPS && |path| == 2
    requires viable ==> Walk(pools, feeBps, path, kind, amount) == Some(found)
    requires !viable ==> Walk(pools, feeBps, path, kind, amount) == None && found == 0
    ensures (path[0], path[1]) !in pools ==> !viable
    ensures (path[0], path[1]) in pools ==>
              if kind.Sell? then SellsOver(pools[(path[0], path[1])], feeBps, path[0], amount, viable, found)
              else BuysOver(pools[(path[0], path[1])], feeBps, path[0], amount, viable, found)
  {
    if kind.Sell? {
      assert SellWalk(pools, feeBps, path, amount) == HopOut(pools, feeBps, path[0], path[1], amount) by {
        assert |path[1..]| == 1;
      }
    } else {
      assert BuyWalk(pools, feeBps, path, amount) == HopIn(pools, feeBps, path[0], path[1], amount) by {
        assert |path[..1]| == 1;
      }
    }
    if (path[0], path[1]) in pools {
      var (reserveIn, reserveOut) := OrientReserves(pools[(path[0], path[1])], path[0]);
      QuoteIsMost(amount, reserveIn, reserveOut, feeBps);
      InputIsLeast(amount, reserveIn, reserveOut, feeBps);
    }
  }

  /** `_compute_path`: the two accumulating loops. Over a single pool the answer is the most it gives, or the least it
      takes, with the reserves on their own sides. */
  method ComputePath(pools: Pools, feeBps: nat, path: seq<Token>, kind: Kind, fixedAmount: nat)
    returns (viable: bool, amount: nat)
    requires feeBps < BPS
    ensures viable ==> Walk(pools, feeBps, path, kind, fixedAmount) == Some(amount)
    ensures !viable ==> Walk(pools, feeBps, path, kind, fixedAmount) == None && amount == 0
    ensures |path| == 2 && (path[0], path[1]) !in pools ==> !viable
    ensures |path| == 2 && (path[0], path[1]) in pools ==>
              var pool := pools[(path[0], path[1])];
              if kind.Sell? then SellsOver(pool, feeBps, path[0], fixedAmount, viable, amount)
              else BuysOver(pool, feeBps, path[0], fixedAmount, viable, amount)
  {
    if kind == Sell {
      viable, amount := SellAlong(pools, feeBps, path, fixedAmount);
    } else {
      viable, amount := BuyAlong(pools, feeBps, path, fixedAmount);
    }
    if |path| == 2 {
      OneHop(pools, feeBps, path, kind, fixedAmount, viable, amount);
    }
  }

  /** The forward loop of a sale. */
  method SellAlong(pools: Pools, feeBps: nat, path: seq<Token>, fixedAmount: nat) returns (viable: bool, amount: nat)
    requires feeBps < BPS
    ensures SellWalk(pools, feeBps, path, fixedAmount) == if viable then Some(amount) else None
    ensures !viable ==> amount == 0
  {
    amount := fixedAmount;
    var i := 0;
    while i + 1 < |path|
      invariant 0 <= i <= |path|
      invariant SellWalk(pools, feeBps, path, fixedAmount) == SellWalk(pools, feeBps, path[i..], amount)
    {
      var key := (path[i], path[i + 1]);
      if key !in pools {
        return false, 0;
      }
      var (reserveIn, reserveOut) := OrientReserves(pools[key], path[i]);
      amount := QuoteV2Swap(amount, reserveIn, reserveOut, feeBps);
      if amount == 0 {
        return false, 0;
      }
      assert path[i..][1..] == path[i + 1..];
      i := i + 1;
    }
    return true, amount;
  }

  /** The backward loop of a purchase. */
  method BuyAlong(pools: Pools, feeBps: nat, path: seq<Token>, fixedAmount: nat) returns (viable: bool, amount: nat)
    requires feeBps < BPS
    ensures BuyWalk(pools, feeBps, path, fixedAmount) == if viable then Some(amount) else None
    ensures !viable ==> amount == 0
  {
    amount := fixedAmount;
    var i := |path| - 1;
    assert path[..i + 1] == path;
    while i > 0
      invariant -1 <= i < |path|
      invariant BuyWalk(pools, feeBps, path, fixedAmount) == BuyWalk(pools, feeBps, path[..i + 1], amount)
    {
      var key := (path[i - 1], path[i]);
      if key !in pools {
        return false, 0;
      }
      var (reserveIn, reserveOut) := OrientReserves(pools[key], path[i - 1]);
      amount := GetAmountIn(amount, reserveIn, reserveOut, feeBps);
      if amount == 0 {
        return false, 0;
      }
      assert path[..i + 1][..i] == path[..i];
      i := i - 1;
    }
    return true, amount;
  }

  lemma HopOutMonotone(pools: Pools, feeBps: nat, tokenIn: Token, tokenOut: Token, x: nat, x': nat)
    requires feeBps < BPS && x <= x'
    requires HopOut(pools, feeBps, tokenIn, tokenOut, x).Some?
    ensures HopOut(pools, feeBps, tokenIn, tokenOut, x').Some?
    ensures HopOut(pools, feeBps, tokenIn, tokenOut, x).value <= HopOut(pools, feeBps, tokenIn, tokenOut, x').value
  {
    var (reserveIn, reserveOut) := OrientReserves(pools[(tokenIn, tokenOut)], tokenIn);
    QuoteMonotone(x, x', reserveIn, reserveOut, feeBps);
  }

  /** Selling more along a path of any length never yields less, and never becomes unviable. */
  lemma {:induction false} SellWalkMonotone(pools: Pools, feeBps: nat, path: seq<Token>, x: nat, x': nat)
    requires feeBps < BPS && x <= x'
    requires SellWalk(pools, feeBps, path, x).Some?
    ensures SellWalk(pools, feeBps, path, x').Some?
    ensures SellWalk(pools, feeBps, path, x).value <= SellWalk(pools, feeBps, path, x').value
    decreases |path|
  {
    if |path| >= 2 {
      HopOutMonotone(pools, feeBps, path[0], path[1], x, x');
      SellWalkMonotone(pools, feeBps, path[1..],
                       HopOut(pools, feeBps, path[0], path[1], x).value,
                       HopOut(pools, feeBps, path[0], path[1], x').value);
    }
  }

  /** A forward walk is its all-but-last hops followed by the last one. */
  lemma {:induction false} SellWalkLastHop(pools: Pools, feeBps: nat, path: seq<Token>, x: nat)
    requires feeBps < BPS && |path| >= 2
    ensures var n := |path|;
            var before := SellWalk(pools, feeBps, path[..n - 1], x);
            SellWalk(pools, feeBps, path, x)
              == if before.None? then None else HopOut(pools, feeBps, path[n - 2], path[n - 1], before.value)
    decreases |path|
  {
    var n := |path|;
    if n == 2 {
      assert path[1..] == [path[1]];
    } else {
      var hop := HopOut(pools, feeBps, path[0], path[1], x);
      if hop.Some? {
        SellWalkLastHop(pools, feeBps, path[1..], hop.value);
        assert path[1..][..n - 2] == path[..n - 1][1..];
      }
    }
  }

  /** The round trip, at any path length: paying what the backward walk asks always buys at least the
      wanted amount on the forward walk. */
  lemma {:induction false} BuyWalkSuffices(pools: Pools, feeBps: nat, path: seq<Token>, want: nat)
    requires feeBps < BPS
    requires BuyWalk(pools, feeBps, path, want).Some?
    ensures var cost := BuyWalk(pools, feeBps, path, want).value;
            && SellWalk(pools, feeBps, path, cost).Some?
            && SellWalk(pools, feeBps, path, cost).value >= want
    decreases |path|
  {
    var n := |path|;
    if n >= 2 {
      var key := (path[n - 2], path[n - 1]);
      var (reserveIn, reserveOut) := OrientReserves(pools[key], path[n - 2]);
      var needed := GetAmountIn(want, reserveIn, reserveOut, feeBps);
      BuyWalkSuffices(pools, feeBps, path[..n - 1], needed);
      var cost := BuyWalk(pools, feeBps, path, want).value;
      var got := SellWalk(pools, feeBps, path[..n - 1], cost).value;
      GetAmountInBounds(want, reserveIn, reserveOut, feeBps);
      QuoteMonotone(needed, got, reserveIn, reserveOut, feeBps);
      SellWalkLastHop(pools, feeBps, path, cost);
    }
  }

  /** Candidate paths: the pair itself, then one two-hop path per usable intermediate. */
  function CandidatePaths(sellToken: Token, buyToken: Token, mids: seq<Token>): seq<seq<Token>> {
    [[sellToken, buyToken]] + TwoHopPaths(sellToken, buyToken, mids)
  }

  function TwoHopPaths(sellToken: Token, buyToken: Token, mids: seq<Token>): seq<seq<Token>> {
    if mids == [] then []
    else
      var rest := TwoHopPaths(sellToken, buyToken, mids[..|mids| - 1]);
      var mid := mids[|mids| - 1];
      if mid == sellToken || mid == buyToken then rest else rest + [[sellToken, mid, buyToken]]
  }

  /** The candidates are the pair itself and each way round through a third token of the list. */
  lemma {:induction false} CandidatesExact(sellToken: Token, buyToken: Token, mids: seq<Token>, path: seq<Token>)
    ensures path in CandidatePaths(sellToken, buyToken, mids)
       <==> || path == [sellToken, buyToken]
            || (|path| == 3 && path[0] == sellToken && path[2] == buyToken
                && path[1] in mids && path[1] != sellToken && path[1] != buyToken)
  {
    TwoHopsExact(sellToken, buyToken, mids, path);
  }

  lemma {:induction false} TwoHopsExact(sellToken: Token, buyToken: Token, mids: seq<Token>, path: seq<Token>)
    ensures path in TwoHopPaths(sellToken, buyToken, mids)
       <==> |path| == 3 && path[0] == sellToken && path[2] == buyToken
            && path[1] in mids && path[1] != sellToken && path[1] != buyToken
  {
    if mids != [] {
      var n := |mids| - 1;
      TwoHopsExact(sellToken, buyToken, mids[..n], path);
      assert mids == mids[..n] + [mids[n]];
      assert |path| == 3 ==> path == [path[0], path[1], path[2]];
    }
  }

  predicate IsBetter(amount: nat, currentBest: nat, kind: Kind) {
    if kind.Sell? then amount > currentBest else amount < currentBest
  }

  datatype Quote = Quote(path: seq<Token>, sellAmount: nat, buyAmount: nat)

  /** The winning path among the first `n` candidates: viable, at least as good as every other viable
      one, and strictly better than every viable one tried before it. */
  ghost predicate Wins(pools: Pools, feeBps: nat, paths: seq<seq<Token>>, kind: Kind, fixedAmount: nat,
                       n: nat, k: nat, amount: nat)
    requires feeBps < BPS && n <= |paths|
  {
    && k < n
    && Walk(pools, feeBps, paths[k], kind, fixedAmount) == Some(amount)
    && (forall i :: 0 <= i < n && Walk(pools, feeBps, paths[i], kind, fixedAmount).Some? ==>
          var other := Walk(pools, feeBps, paths[i], kind, fixedAmount).value;
          if kind.Sell? then other <= amount else amount <= other)
    && (forall i :: 0 <= i < k && Walk(pools, feeBps, paths[i], kind, fixedAmount).Some? ==>
          var other := Walk(pools, feeBps, paths[i], kind, fixedAmount).value;
          if kind.Sell? then other < amount else amount < other)
  }

  /** `_quote_impl` after pool discovery. */
  method QuoteImpl(pools: Pools, feeBps: nat, sellToken: Token, buyToken: Token, mids: seq<Token>,
                   kind: Kind, fixedAmount: nat) returns (r: Option<Quote>)
    requires feeBps < BPS
    ensures var paths := CandidatePaths(sellToken, buyToken, mids);
      r.None? <==> forall i :: 0 <= i < |paths| ==> Walk(pools, feeBps, paths[i], kind, fixedAmount).None?
    ensures var paths := CandidatePaths(sellToken, buyToken, mids);
      r.Some? ==> (exists k: nat :: k < |paths| && paths[k] == r.value.path
                     && Wins(pools, feeBps, paths, kind, fixedAmount, |paths|, k,
                             if kind.Sell? then r.value.buyAmount else r.value.sellAmount))
    ensures r.Some? ==> fixedAmount == if kind.Sell? then r.value.sellAmount else r.value.buyAmount
  {
    var paths := [[sellToken, buyToken]];
    for m := 0 to |mids|
      invariant paths == CandidatePaths(sellToken, buyToken, mids[..m])
    {
      assert mids[..m + 1][..m] == mids[..m];
      if mids[m] == sellToken || mids[m] == buyToken {
        continue;
      }
      paths := paths + [[sellToken, mids[m], buyToken]];
    }
    assert mids[..|mids|] == mids;
    var best: Option<(nat, nat)> := None;
    for i := 0 to |paths|
      invariant best.None? ==> forall j :: 0 <= j < i ==> Walk(pools, feeBps, paths[j], kind, fixedAmount).None?
      invariant best.Some? ==> Wins(pools, feeBps, paths, kind, fixedAmount, i, best.value.0, best.value.1)
    {
      var ok, amount := ComputePath(pools, feeBps, paths[i], kind, fixedAmount);
      if !ok {
        continue;
      }
      if best.None? || IsBetter(amount, best.value.1, kind) {
        best := Some((i, amount));
      }
    }
    if best.None? {
      return None;
    }
    var (k, amountVariable) := best.value;
    if kind == Sell {
      return Some(Quote(paths[k], fixedAmount, amountVariable));
    } else {
      return Some(Quote(paths[k], amountVariable, fixedAmount));
    }
  }

  /** A buy quote is honest: spending its sell amount on its own path delivers its buy amount. */
  lemma BuyQuoteDelivers(pools: Pools, feeBps: nat, q: Quote)
    requires feeBps < BPS
    requires Walk(pools, feeBps, q.path, Buy, q.buyAmount) == Some(q.sellAmount)
    ensures exists got: nat :: got >= q.buyAmount
              && Walk(pools, feeBps, q.path, Sell, q.sellAmount) == Some(got)
  {
    BuyWalkSuffices(pools, feeBps, q.path, q.buyAmount);
  }
}
