/** A V2 path of any length, hop by hop, over the pools' own fields. */
module V2Walks {
  import opened Wrappers
  import opened Models
  import opened AmmV2
  import opened V2Source
  import opened CandidatesExact

  /** One hop of a sale: what its pool gives, if there is a pool. */
  ghost predicate SellHop(pools: Pools, feeBps: nat, tokenIn: Token, tokenOut: Token, amount: nat, viable: bool, got: nat)
    requires feeBps < BPS
  {
    if (tokenIn, tokenOut) in pools then SellsOver(pools[(tokenIn, tokenOut)], feeBps, tokenIn, amount, viable, got) else !viable
  }

  /** One hop of a purchase: what its pool takes. */
  ghost predicate BuyHop(pools: Pools, feeBps: nat, tokenIn: Token, tokenOut: Token, amount: nat, viable: bool, cost: nat)
    requires feeBps < BPS
  {
    if (tokenIn, tokenOut) in pools then BuysOver(pools[(tokenIn, tokenOut)], feeBps, tokenIn, amount, viable, cost) else !viable
  }

  lemma HopsExact(pools: Pools, feeBps: nat, tokenIn: Token, tokenOut: Token, amount: nat)
    requires feeBps < BPS
    ensures var out := HopOut(pools, feeBps, tokenIn, tokenOut, amount);
            SellHop(pools, feeBps, tokenIn, tokenOut, amount, out.Some?, if out.Some? then out.value else 0)
    ensures var cost := HopIn(pools, feeBps, tokenIn, tokenOut, amount);
            BuyHop(pools, feeBps, tokenIn, tokenOut, amount, cost.Some?, if cost.Some? then cost.value else 0)
  {
    if (tokenIn, tokenOut) in pools {
      var (reserveIn, reserveOut) := OrientReserves(pools[(tokenIn, tokenOut)], tokenIn);
      QuoteIsMost(amount, reserveIn, reserveOut, feeBps);
      InputIsLeast(amount, reserveIn, reserveOut, feeBps);
    }
  }

  /** The amounts of a sale, token by token, each hop selling what the one before gave. */
  ghost predicate SellChain(pools: Pools, feeBps: nat, path: seq<Token>, amounts: seq<nat>)
    requires feeBps < BPS
  {
    && 0 < |amounts| <= |path|
    && (forall i :: 0 <= i < |amounts| - 1 ==> SellHop(pools, feeBps, path[i], path[i + 1], amounts[i], true, amounts[i + 1]))
    && (|amounts| < |path| ==> SellHop(pools, feeBps, path[|amounts| - 1], path[|amounts|], amounts[|amounts| - 1], false, 0))
  }

  /** A sale goes through all hops and ends with what the last one gives, or stops at the first that gives nothing. */
  lemma {:induction false} SellWalkExact(pools: Pools, feeBps: nat, path: seq<Token>, amount: nat) returns (amounts: seq<nat>)
    requires feeBps < BPS && path != []
    ensures SellChain(pools, feeBps, path, amounts) && amounts[0] == amount
    ensures SellWalk(pools, feeBps, path, amount) == if |amounts| == |path| then Some(amounts[|path| - 1]) else None
    decreases |path|
  {
    amounts := [amount];
    if |path| > 1 {
      HopsExact(pools, feeBps, path[0], path[1], amount);
      var hop := HopOut(pools, feeBps, path[0], path[1], amount);
      if hop.Some? {
        var rest := SellWalkExact(pools, feeBps, path[1..], hop.value);
        amounts := [amount] + rest;
        forall i | 0 <= i < |amounts| - 1 ensures SellHop(pools, feeBps, path[i], path[i + 1], amounts[i], true, amounts[i + 1]) {
          if i > 0 {
            assert path[1..][i - 1] == path[i] && path[1..][i] == path[i + 1];
          }
        }
      }
    }
  }

  /** The amounts of a purchase, from the last token back, each hop buying what the one after takes. */
  ghost predicate BuyChain(pools: Pools, feeBps: nat, path: seq<Token>, amounts: seq<nat>)
    requires feeBps < BPS
  {
    && 0 < |amounts| <= |path|
    && var n := |path| - 1;
    && (forall i :: 0 <= i < |amounts| - 1 ==> BuyHop(pools, feeBps, path[n - 1 - i], path[n - i], amounts[i], true, amounts[i + 1]))
    && (|amounts| < |path| ==> BuyHop(pools, feeBps, path[n - |amounts|], path[n + 1 - |amounts|], amounts[|amounts| - 1], false, 0))
  }

  /** A purchase goes back through all hops and ends with what the first one takes, or stops at the last that cannot
      deliver. */
  lemma {:induction false} BuyWalkExact(pools: Pools, feeBps: nat, path: seq<Token>, amount: nat) returns (amounts: seq<nat>)
    requires feeBps < BPS && path != []
    ensures BuyChain(pools, feeBps, path, amounts) && amounts[0] == amount
    ensures BuyWalk(pools, feeBps, path, amount) == if |amounts| == |path| then Some(amounts[|path| - 1]) else None
    decreases |path|
  {
    amounts := [amount];
    var n := |path| - 1;
    if n > 0 {
      HopsExact(pools, feeBps, path[n - 1], path[n], amount);
      var hop := HopIn(pools, feeBps, path[n - 1], path[n], amount);
      if hop.Some? {
        var rest := BuyWalkExact(pools, feeBps, path[..n], hop.value);
        amounts := [amount] + rest;
        forall i | 0 <= i < |amounts| - 1
          ensures BuyHop(pools, feeBps, path[n - 1 - i], path[n - i], amounts[i], true, amounts[i + 1])
        {
          if i > 0 {
            assert amounts[i] == rest[i - 1] && amounts[i + 1] == rest[i];
            assert path[..n][n - 1 - i] == path[n - 1 - i] && path[..n][n - i] == path[n - i];
          }
        }
      }
    }
  }

  /** The candidate paths in the order they are tried: the pair itself, then through each usable token in turn. */
  ghost predicate InOrder(paths: seq<seq<Token>>, sellToken: Token, buyToken: Token, usable: seq<Token>) {
    && |paths| == 1 + |usable| && paths[0] == [sellToken, buyToken]
    && forall k :: 0 <= k < |usable| ==> paths[k + 1] == [sellToken, usable[k], buyToken]
  }

  lemma {:induction false} CandidatesInOrder(sellToken: Token, buyToken: Token, mids: seq<Token>)
    returns (usable: seq<Token>, at: seq<nat>)
    ensures UsableAt(mids, sellToken, buyToken, usable, at)
    ensures InOrder(CandidatePaths(sellToken, buyToken, mids), sellToken, buyToken, usable)
  {
    if mids == [] {
      return [], [];
    }
    var mid := mids[|mids| - 1];
    usable, at := CandidatesInOrder(sellToken, buyToken, mids[..|mids| - 1]);
    at := UsableNext(mids, sellToken, buyToken, usable, at);
    if mid != sellToken && mid != buyToken {
      usable := usable + [mid];
    }
  }
}
