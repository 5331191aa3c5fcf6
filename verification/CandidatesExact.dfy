/** Which paths are candidates, read off the path alone. */
module CandidatesExact {
  import opened Wrappers
  import opened Sequences
  import opened Models
  import opened Encoder
  import opened Candidates
  import V3Batched

  predicate IsTier(fee: nat) {
    fee == 100 || fee == 500 || fee == 3000 || fee == 10000
  }

  /** A V3 path of the pair: a pool of the pair, or two pools of one fee through an intermediate that is neither token. */
  predicate PairCandidate(p: V3Batched.Path, uid: Uid, tokenIn: Token, tokenOut: Token, amount: nat, exactOutput: bool, mids: seq<Token>) {
    && p.orderUid == uid && p.tokenIn == tokenIn && p.tokenOut == tokenOut && p.amountIn == amount && p.exactOutput == exactOutput
    && IsTier(p.feeTierIn)
    && if p.intermediate.None? then p.feeTierOut == None
       else p.feeTierOut == Some(p.feeTierIn) && p.intermediate.value in mids && p.intermediate.value != tokenIn && p.intermediate.value != tokenOut
  }

  /** The amounts an order is quoted at: all of it; of a sell that may be filled in part also three quarters and a half. */
  predicate QuotedAt(o: Order, amount: nat) {
    if o.kind.Buy? then amount == o.buyAmount
    else amount == o.sellAmount || (o.partiallyFillable && (amount == 3 * o.sellAmount / 4 || amount == o.sellAmount / 2))
  }

  predicate FirstAt(coins: seq<Token>, i: nat, t: Token) {
    i < |coins| && coins[i] == t && forall j :: 0 <= j < i ==> coins[j] != t
  }

  // ---- one pair -------------------------------------------------------------------------------------

  /** The path at tier `t`: direct, or through `mid`. */
  function PathAt(uid: Uid, tokenIn: Token, tokenOut: Token, amount: nat, exactOutput: bool, mid: Option<Token>, t: nat): V3Batched.Path
    requires t < 4
  {
    var fee := if t == 0 then 100 else if t == 1 then 500 else if t == 2 then 3000 else 10000;
    V3Batched.Path(uid, tokenIn, tokenOut, amount, fee, mid, if mid.None? then None else Some(fee), exactOutput)
  }

  lemma {:induction false} TierPathsAre(uid: Uid, tokenIn: Token, tokenOut: Token, amount: nat, exactOutput: bool, mid: Option<Token>)
    ensures var paths := TierPaths(uid, tokenIn, tokenOut, amount, exactOutput, mid, |FEE_TIERS|);
      |paths| == 4 && forall t :: 0 <= t < 4 ==> paths[t] == PathAt(uid, tokenIn, tokenOut, amount, exactOutput, mid, t)
  {
    assert |FEE_TIERS| == 4;
    TierPathsNext(uid, tokenIn, tokenOut, amount, exactOutput, mid, 0);
    TierPathsNext(uid, tokenIn, tokenOut, amount, exactOutput, mid, 1);
    TierPathsNext(uid, tokenIn, tokenOut, amount, exactOutput, mid, 2);
    TierPathsNext(uid, tokenIn, tokenOut, amount, exactOutput, mid, 3);
  }

  lemma TierPathsNext(uid: Uid, tokenIn: Token, tokenOut: Token, amount: nat, exactOutput: bool, mid: Option<Token>, t: nat)
    requires t < 4 == |FEE_TIERS|
    requires |TierPaths(uid, tokenIn, tokenOut, amount, exactOutput, mid, t)| == t
    ensures TierPaths(uid, tokenIn, tokenOut, amount, exactOutput, mid, t + 1)
         == TierPaths(uid, tokenIn, tokenOut, amount, exactOutput, mid, t) + [PathAt(uid, tokenIn, tokenOut, amount, exactOutput, mid, t)]
  {
  }

  /** The intermediates that are neither token, in order. */
  ghost predicate UsableAt(mids: seq<Token>, tokenIn: Token, tokenOut: Token, usable: seq<Token>, at: seq<nat>) {
    PickedAt(mids, usable, at) && forall i :: 0 <= i < |mids| ==> (i in at <==> mids[i] != tokenIn && mids[i] != tokenOut)
  }

  lemma UsableNext(mids: seq<Token>, tokenIn: Token, tokenOut: Token, usable: seq<Token>, at: seq<nat>) returns (at': seq<nat>)
    requires mids != [] && UsableAt(mids[..|mids| - 1], tokenIn, tokenOut, usable, at)
    ensures var mid := mids[|mids| - 1];
            UsableAt(mids, tokenIn, tokenOut, if mid == tokenIn || mid == tokenOut then usable else usable + [mid], at')
  {
    var n := |mids| - 1;
    if mids[n] == tokenIn || mids[n] == tokenOut {
      PickSkips(mids, usable, at);
      at' := at;
    } else {
      PickTakes(mids, usable, at);
      at' := at + [n];
    }
    forall i | 0 <= i < n ensures i in at' <==> mids[i] != tokenIn && mids[i] != tokenOut {
      assert mids[i] == mids[..n][i];
    }
  }

  /** Four tiers through each usable intermediate, one intermediate after the other. */
  ghost predicate MidsLaidOut(paths: seq<V3Batched.Path>, uid: Uid, tokenIn: Token, tokenOut: Token, amount: nat, exactOutput: bool,
                              usable: seq<Token>) {
    && |paths| == 4 * |usable|
    && forall k :: 0 <= k < |paths| ==> paths[k] == PathAt(uid, tokenIn, tokenOut, amount, exactOutput, Some(usable[k / 4]), k % 4)
  }

  lemma {:induction false} MidsNext(paths: seq<V3Batched.Path>, tiers: seq<V3Batched.Path>, uid: Uid, tokenIn: Token, tokenOut: Token, amount: nat,
                 exactOutput: bool, usable: seq<Token>, mid: Token)
    requires MidsLaidOut(paths, uid, tokenIn, tokenOut, amount, exactOutput, usable)
    requires |tiers| == 4 && forall t :: 0 <= t < 4 ==> tiers[t] == PathAt(uid, tokenIn, tokenOut, amount, exactOutput, Some(mid), t)
    ensures MidsLaidOut(paths + tiers, uid, tokenIn, tokenOut, amount, exactOutput, usable + [mid])
  {
    var next, through := paths + tiers, usable + [mid];
    forall k | 0 <= k < |next|
      ensures next[k] == PathAt(uid, tokenIn, tokenOut, amount, exactOutput, Some(through[k / 4]), k % 4)
    {
      if k >= |paths| {
        var t := k - |paths|;
        assert k == 4 * |usable| + t && k / 4 == |usable| && k % 4 == t;
        assert next[k] == tiers[t];
      } else {
        assert k / 4 < |usable|;
      }
    }
  }

  lemma {:induction false} MidPathsAre(uid: Uid, tokenIn: Token, tokenOut: Token, amount: nat, exactOutput: bool, mids: seq<Token>)
    returns (usable: seq<Token>, at: seq<nat>)
    ensures UsableAt(mids, tokenIn, tokenOut, usable, at)
    ensures MidsLaidOut(MidPaths(uid, tokenIn, tokenOut, amount, exactOutput, mids), uid, tokenIn, tokenOut, amount, exactOutput, usable)
  {
    if mids == [] {
      return [], [];
    }
    var n := |mids| - 1;
    var before := MidPaths(uid, tokenIn, tokenOut, amount, exactOutput, mids[..n]);
    usable, at := MidPathsAre(uid, tokenIn, tokenOut, amount, exactOutput, mids[..n]);
    at := UsableNext(mids, tokenIn, tokenOut, usable, at);
    if mids[n] != tokenIn && mids[n] != tokenOut {
      TierPathsAre(uid, tokenIn, tokenOut, amount, exactOutput, Some(mids[n]));
      MidsNext(before, TierPaths(uid, tokenIn, tokenOut, amount, exactOutput, Some(mids[n]), |FEE_TIERS|), uid, tokenIn, tokenOut, amount,
               exactOutput, usable, mids[n]);
      usable := usable + [mids[n]];
    } else {
      assert before + [] == before;
    }
  }

  /** The candidates of a pair, one by one: the four pools of the pair, then for each usable intermediate in turn the four
      tiers through it. */
  ghost predicate LaidOut(paths: seq<V3Batched.Path>, uid: Uid, tokenIn: Token, tokenOut: Token, amount: nat, exactOutput: bool,
                          usable: seq<Token>) {
    && |paths| == 4 + 4 * |usable|
    && (forall t :: 0 <= t < 4 ==> paths[t] == PathAt(uid, tokenIn, tokenOut, amount, exactOutput, None, t))
    && MidsLaidOut(paths[4..], uid, tokenIn, tokenOut, amount, exactOutput, usable)
  }

  lemma {:induction false} PairPathsInOrder(uid: Uid, tokenIn: Token, tokenOut: Token, amount: nat, exactOutput: bool, mids: seq<Token>)
    returns (usable: seq<Token>, at: seq<nat>)
    ensures UsableAt(mids, tokenIn, tokenOut, usable, at)
    ensures LaidOut(PairPaths(uid, tokenIn, tokenOut, amount, exactOutput, mids), uid, tokenIn, tokenOut, amount, exactOutput, usable)
  {
    TierPathsAre(uid, tokenIn, tokenOut, amount, exactOutput, None);
    usable, at := MidPathsAre(uid, tokenIn, tokenOut, amount, exactOutput, mids);
    var direct := TierPaths(uid, tokenIn, tokenOut, amount, exactOutput, None, |FEE_TIERS|);
    var twoHops := MidPaths(uid, tokenIn, tokenOut, amount, exactOutput, mids);
    assert (direct + twoHops)[4..] == twoHops;
  }

  /** Which tier a fee is. */
  function TierOf(fee: nat): (t: nat)
    ensures t < 4
  {
    if fee == 100 then 0 else if fee == 500 then 1 else if fee == 3000 then 2 else 3
  }

  /** A path is a candidate of a pair exactly when it looks like one. */
  lemma {:induction false} PairPathsExact(uid: Uid, tokenIn: Token, tokenOut: Token, amount: nat, exactOutput: bool, mids: seq<Token>,
                                          p: V3Batched.Path)
    ensures p in PairPaths(uid, tokenIn, tokenOut, amount, exactOutput, mids)
       <==> PairCandidate(p, uid, tokenIn, tokenOut, amount, exactOutput, mids)
  {
    var paths := PairPaths(uid, tokenIn, tokenOut, amount, exactOutput, mids);
    var usable, at := PairPathsInOrder(uid, tokenIn, tokenOut, amount, exactOutput, mids);
    if p in paths {
      var k :| 0 <= k < |paths| && paths[k] == p;
      if k >= 4 {
        var m := (k - 4) / 4;
        assert p == paths[4..][k - 4];
        assert mids[at[m]] == usable[m] && at[m] in at;
      }
    }
    if PairCandidate(p, uid, tokenIn, tokenOut, amount, exactOutput, mids) {
      var t := TierOf(p.feeTierIn);
      if p.intermediate.None? {
        assert p == paths[t];
      } else {
        var i :| 0 <= i < |mids| && mids[i] == p.intermediate.value;
        var m :| 0 <= m < |at| && at[m] == i;
        var k := 4 * m + t;
        assert k / 4 == m && k % 4 == t;
        assert p == paths[4..][k];
        assert p == paths[k + 4];
      }
    }
  }

  // ---- the venues -----------------------------------------------------------------------------------

  lemma QuotedAmountsExact(o: Order, amount: nat)
    ensures amount in QuotedAmounts(o) <==> QuotedAt(o, amount)
  {
  }

  lemma {:induction false} V3PathsAtExact(o: Order, amounts: seq<nat>, mids: seq<Token>, p: V3Batched.Path)
    ensures p in V3PathsAt(o, amounts, mids)
       <==> p.amountIn in amounts && PairCandidate(p, o.uid, o.sellToken, o.buyToken, p.amountIn, o.kind.Buy?, mids)
  {
    if amounts != [] {
      var n := |amounts| - 1;
      V3PathsAtExact(o, amounts[..n], mids, p);
      PairPathsExact(o.uid, o.sellToken, o.buyToken, amounts[n], o.kind.Buy?, mids, p);
      assert amounts == amounts[..n] + [amounts[n]];
    }
  }

  /** The V3 candidates: the paths of each order's pair, in its direction, at each amount it is quoted at. */
  lemma {:induction false} V3PathsExact(orders: seq<Order>, mids: seq<Token>, p: V3Batched.Path)
    ensures p in V3Paths(orders, mids)
       <==> exists o :: o in orders && QuotedAt(o, p.amountIn)
                        && PairCandidate(p, o.uid, o.sellToken, o.buyToken, p.amountIn, o.kind.Buy?, mids)
  {
    if orders != [] {
      var n := |orders| - 1;
      V3PathsExact(orders[..n], mids, p);
      V3PathsAtExact(orders[n], QuotedAmounts(orders[n]), mids, p);
      QuotedAmountsExact(orders[n], p.amountIn);
      assert orders == orders[..n] + [orders[n]];
    }
  }

  predicate V4Candidate(p: V4Path, o: Order) {
    && o.kind.Sell? && p.orderUid == o.uid && p.tokenIn == o.sellToken && p.tokenOut == o.buyToken
    && p.amountIn < UINT128_LIMIT && IsTier(p.fee)
    && p.tickSpacing == if p.fee == 100 then 1 else if p.fee == 500 then 10 else if p.fee == 3000 then 60 else 200
  }

  lemma {:induction false} V4TierPathsExact(o: Order, amount: nat, p: V4Path)
    requires o.kind.Sell? && amount < UINT128_LIMIT
    ensures p in V4TierPaths(o, amount) <==> p.amountIn == amount && V4Candidate(p, o)
  {
    var paths := V4TierPaths(o, amount);
    assert |STANDARD_V4_TIERS| == 4;
    assert paths[0] == V4Path(o.uid, o.sellToken, o.buyToken, 100, 1, amount);
    assert paths[1] == V4Path(o.uid, o.sellToken, o.buyToken, 500, 10, amount);
    assert paths[2] == V4Path(o.uid, o.sellToken, o.buyToken, 3000, 60, amount);
    assert paths[3] == V4Path(o.uid, o.sellToken, o.buyToken, 10000, 200, amount);
    if p.amountIn == amount && V4Candidate(p, o) {
      assert p == paths[TierOf(p.fee)];
    }
  }

  lemma {:induction false} V4PathsAtExact(o: Order, amounts: seq<nat>, p: V4Path)
    requires o.kind.Sell?
    ensures p in V4PathsAt(o, amounts) <==> p.amountIn in amounts && V4Candidate(p, o)
  {
    if amounts != [] {
      var n := |amounts| - 1;
      V4PathsAtExact(o, amounts[..n], p);
      if amounts[n] < UINT128_LIMIT {
        V4TierPathsExact(o, amounts[n], p);
      }
      assert amounts == amounts[..n] + [amounts[n]];
    }
  }

  /** The V4 candidates: the standard pools of each sell's pair, at each quoted amount that fits 128 bits. */
  lemma {:induction false} V4PathsExact(orders: seq<Order>, p: V4Path)
    ensures p in V4Paths(orders) <==> exists o :: o in orders && QuotedAt(o, p.amountIn) && V4Candidate(p, o)
  {
    if orders != [] {
      var n := |orders| - 1;
      V4PathsExact(orders[..n], p);
      if orders[n].kind.Sell? {
        V4PathsAtExact(orders[n], QuotedAmounts(orders[n]), p);
      }
      QuotedAmountsExact(orders[n], p.amountIn);
      assert orders == orders[..n] + [orders[n]];
    }
  }

  predicate CurveCandidate(p: CurvePath, o: Order, pool: CurvePool) {
    && o.kind.Sell? && p.orderUid == o.uid && p.tokenIn == o.sellToken && p.tokenOut == o.buyToken && p.pool == pool.address
    && FirstAt(pool.coins, p.i, o.sellToken) && FirstAt(pool.coins, p.j, o.buyToken)
  }

  lemma {:induction false} IndexOfExact(coins: seq<Token>, t: Token, i: nat)
    requires t in coins
    ensures FirstAt(coins, i, t) <==> i == IndexOf(coins, t)
  {
    if coins[0] != t && i > 0 {
      IndexOfExact(coins[1..], t, i - 1);
      assert forall j :: 0 < j <= i && j < |coins| ==> coins[j] == coins[1..][j - 1];
    }
  }

  lemma {:induction false} CurvePathExact(pool: CurvePool, o: Order, p: CurvePath)
    requires o.kind.Sell?
    ensures CurveCandidate(p, o, pool)
       <==> && o.sellToken in pool.coins && o.buyToken in pool.coins
            && p == CurvePath(o.uid, o.sellToken, o.buyToken, p.amountIn, pool.address,
                              IndexOf(pool.coins, o.sellToken), IndexOf(pool.coins, o.buyToken))
  {
    if o.sellToken in pool.coins && o.buyToken in pool.coins {
      IndexOfExact(pool.coins, o.sellToken, p.i);
      IndexOfExact(pool.coins, o.buyToken, p.j);
    }
  }

  lemma {:induction false} CurvePathsOfExact(pools: seq<CurvePool>, o: Order, amount: nat, p: CurvePath)
    requires o.kind.Sell?
    ensures p in CurvePathsOf(pools, o, amount) <==> p.amountIn == amount && exists pool :: pool in pools && CurveCandidate(p, o, pool)
  {
    if pools != [] {
      var n := |pools| - 1;
      CurvePathsOfExact(pools[..n], o, amount, p);
      assert pools == pools[..n] + [pools[n]];
      CurvePathExact(pools[n], o, p);
    }
  }

  lemma {:induction false} CurvePathsAtExact(pools: seq<CurvePool>, o: Order, amounts: seq<nat>, p: CurvePath)
    requires o.kind.Sell?
    ensures p in CurvePathsAt(pools, o, amounts) <==> p.amountIn in amounts && exists pool :: pool in pools && CurveCandidate(p, o, pool)
  {
    if amounts != [] {
      var n := |amounts| - 1;
      CurvePathsAtExact(pools, o, amounts[..n], p);
      CurvePathsOfExact(pools, o, amounts[n], p);
      assert amounts == amounts[..n] + [amounts[n]];
    }
  }

  /** The Curve candidates: for each sell and quoted amount every pool that lists both coins, at their first positions. */
  lemma {:induction false} CurvePathsExact(pools: seq<CurvePool>, orders: seq<Order>, p: CurvePath)
    ensures p in CurvePaths(pools, orders)
       <==> exists o, pool :: o in orders && pool in pools && QuotedAt(o, p.amountIn) && CurveCandidate(p, o, pool)
  {
    if orders != [] {
      var n := |orders| - 1;
      CurvePathsExact(pools, orders[..n], p);
      if orders[n].kind.Sell? {
        CurvePathsAtExact(pools, orders[n], QuotedAmounts(orders[n]), p);
      }
      QuotedAmountsExact(orders[n], p.amountIn);
      assert orders == orders[..n] + [orders[n]];
    }
  }
}
