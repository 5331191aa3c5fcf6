/** Constant-product arithmetic of the V2 pools (routing/amm_v2.py) and its closed-form inverse
    (liquidity/v2.py). Fees are in basis points, below 10 000. */
module AmmV2 {
  import opened IntDivision

  const BPS: nat := 10_000
  const DEFAULT_FEE_BPS: nat := 30

  /** `quote_v2_swap`: the output of a swap against the fee-adjusted product curve. */
  function QuoteV2Swap(amountIn: int, reserveIn: int, reserveOut: int, feeBps: nat): nat
    requires feeBps < BPS
  {
    if amountIn <= 0 || reserveIn <= 0 || reserveOut <= 0 then 0
    else
      var amountInWithFee: nat := amountIn * (BPS - feeBps);
      var numerator: nat := amountInWithFee * reserveOut;
      var denominator: nat := reserveIn * BPS + amountInWithFee;
      numerator / denominator
  }

  /** `_get_amount_in`: the input quoted for a wanted output, 0 when the pool cannot deliver it. */
  function GetAmountIn(amountOut: int, reserveIn: int, reserveOut: int, feeBps: nat): nat
    requires feeBps < BPS
  {
    if amountOut <= 0 || reserveIn <= 0 || reserveOut <= 0 then 0
    else if amountOut >= reserveOut then 0
    else
      var numerator := reserveIn * amountOut * BPS;
      var denominator := (reserveOut - amountOut) * (BPS - feeBps);
      assert denominator > 0;
      numerator / denominator + 1
  }

  /** The curve without its division: an output of `y` is reached exactly when the input, less fee,
      pays for moving the pool from `reserveOut` to `reserveOut - y`. */
  lemma QuoteReaches(x: nat, reserveIn: nat, reserveOut: nat, feeBps: nat, y: nat)
    requires feeBps < BPS && x > 0 && reserveIn > 0 && reserveOut > 0
    ensures QuoteV2Swap(x, reserveIn, reserveOut, feeBps) >= y
       <==> x * (BPS - feeBps) * (reserveOut - y) >= reserveIn * y * BPS
  {
    var paid := x * (BPS - feeBps);
    var denominator := reserveIn * BPS + paid;
    DivAtLeast(paid * reserveOut, denominator, y);
    assert y * denominator == reserveIn * y * BPS + paid * y;
    assert paid * (reserveOut - y) == paid * reserveOut - paid * y;
  }

  /** The pool, holding `reserveIn` and `reserveOut`, can give `y` for `x`: what it is left with, times the input less
      fee, covers the curve. */
  predicate Gives(x: nat, reserveIn: nat, reserveOut: nat, feeBps: nat, y: nat)
    requires feeBps < BPS
  {
    x > 0 && reserveIn > 0 && y < reserveOut && x * (10_000 - feeBps) * (reserveOut - y) >= reserveIn * y * 10_000
  }

  /** The quote is the most the pool can give, 0 where it can give nothing. */
  lemma QuoteIsMost(x: nat, reserveIn: nat, reserveOut: nat, feeBps: nat)
    requires feeBps < BPS
    ensures var y := QuoteV2Swap(x, reserveIn, reserveOut, feeBps);
      && (y > 0 ==> Gives(x, reserveIn, reserveOut, feeBps, y))
      && forall z: nat :: z > y ==> !Gives(x, reserveIn, reserveOut, feeBps, z)
  {
    var y := QuoteV2Swap(x, reserveIn, reserveOut, feeBps);
    if x > 0 && reserveIn > 0 && reserveOut > 0 {
      QuoteReaches(x, reserveIn, reserveOut, feeBps, y);
      QuoteBelowReserve(x, reserveIn, reserveOut, feeBps);
      forall z: nat | z > y ensures !Gives(x, reserveIn, reserveOut, feeBps, z) {
        QuoteReaches(x, reserveIn, reserveOut, feeBps, z);
      }
    }
  }

  /** The quoted input for `y` suffices, nothing two or more units below it does, and it is 0 where nothing would. */
  lemma InputIsLeast(y: nat, reserveIn: nat, reserveOut: nat, feeBps: nat)
    requires feeBps < BPS
    ensures var x := GetAmountIn(y, reserveIn, reserveOut, feeBps);
      && (x > 0 ==> Gives(x, reserveIn, reserveOut, feeBps, y))
      && (x > 0 ==> forall z: nat :: z + 2 <= x ==> !Gives(z, reserveIn, reserveOut, feeBps, y))
      && (x == 0 && y > 0 ==> forall z: nat :: !Gives(z, reserveIn, reserveOut, feeBps, y))
  {
    var x := GetAmountIn(y, reserveIn, reserveOut, feeBps);
    if x > 0 {
      GetAmountInBounds(y, reserveIn, reserveOut, feeBps);
      QuoteReaches(x, reserveIn, reserveOut, feeBps, y);
      forall z: nat | z + 2 <= x ensures !Gives(z, reserveIn, reserveOut, feeBps, y) {
        if z > 0 {
          QuoteReaches(z, reserveIn, reserveOut, feeBps, y);
        }
      }
    }
  }

  /** A swap can never empty the pool. */
  lemma QuoteBelowReserve(x: nat, reserveIn: nat, reserveOut: nat, feeBps: nat)
    requires feeBps < BPS && reserveOut > 0
    ensures QuoteV2Swap(x, reserveIn, reserveOut, feeBps) < reserveOut
  {
    if x > 0 && reserveIn > 0 {
      QuoteReaches(x, reserveIn, reserveOut, feeBps, reserveOut);
      assert x * (BPS - feeBps) * (reserveOut - reserveOut) == 0;
      MulLt(0, reserveIn, reserveOut);
    }
  }

  lemma QuoteMonotone(x: nat, x': nat, reserveIn: nat, reserveOut: nat, feeBps: nat)
    requires feeBps < BPS && x <= x'
    ensures QuoteV2Swap(x, reserveIn, reserveOut, feeBps) <= QuoteV2Swap(x', reserveIn, reserveOut, feeBps)
  {
    if x > 0 && reserveIn > 0 && reserveOut > 0 {
      var y := QuoteV2Swap(x, reserveIn, reserveOut, feeBps);
      QuoteReaches(x, reserveIn, reserveOut, feeBps, y);
      QuoteReaches(x', reserveIn, reserveOut, feeBps, y);
      QuoteBelowReserve(x, reserveIn, reserveOut, feeBps);
      MulLe(x, x', BPS - feeBps);
      MulLe(x * (BPS - feeBps), x' * (BPS - feeBps), reserveOut - y);
    }
  }

  /** The pool's product never falls: what the trader takes is paid for at the curve, fee on top. */
  lemma ProductNeverDecreases(x: nat, reserveIn: nat, reserveOut: nat, feeBps: nat)
    requires feeBps < BPS && reserveOut > 0
    ensures var y := QuoteV2Swap(x, reserveIn, reserveOut, feeBps);
            (reserveIn + x) * (reserveOut - y) >= reserveIn * reserveOut
  {
    var y := QuoteV2Swap(x, reserveIn, reserveOut, feeBps);
    if x > 0 && reserveIn > 0 {
      QuoteReaches(x, reserveIn, reserveOut, feeBps, y);
      QuoteBelowReserve(x, reserveIn, reserveOut, feeBps);
      assert x * (BPS - feeBps) * (reserveOut - y) <= x * (reserveOut - y) * BPS by {
        MulLe(BPS - feeBps, BPS, x * (reserveOut - y));
        assert (BPS - feeBps) * (x * (reserveOut - y)) == x * (BPS - feeBps) * (reserveOut - y);
      }
      MulCancelLe(reserveIn * y, x * (reserveOut - y), BPS);
      assert (reserveIn + x) * (reserveOut - y)
          == reserveIn * reserveOut - reserveIn * y + x * (reserveOut - y);
    } else {
      MulLe(reserveIn, reserveIn + x, reserveOut);
    }
  }

  /** Swapping there and back through the moved pool never returns more than was put in. */
  lemma SwapBackNeverProfits(x: nat, reserveIn: nat, reserveOut: nat, feeBps: nat)
    requires feeBps < BPS && reserveIn > 0 && reserveOut > 0
    ensures var y := QuoteV2Swap(x, reserveIn, reserveOut, feeBps);
            QuoteV2Swap(y, reserveOut - y, reserveIn + x, feeBps) <= x
  {
    var y := QuoteV2Swap(x, reserveIn, reserveOut, feeBps);
    QuoteBelowReserve(x, reserveIn, reserveOut, feeBps);
    var z := QuoteV2Swap(y, reserveOut - y, reserveIn + x, feeBps);
    ProductNeverDecreases(x, reserveIn, reserveOut, feeBps);
    ProductNeverDecreases(y, reserveOut - y, reserveIn + x, feeBps);
    GivesBackNoMore(reserveIn, reserveOut, x, y, z);
  }

  lemma GivesBackNoMore(reserveIn: nat, reserveOut: nat, x: nat, y: nat, z: nat)
    requires reserveOut > 0
    requires (reserveIn + x) * (reserveOut - y) >= reserveIn * reserveOut
    requires (reserveOut - y + y) * (reserveIn + x - z) >= (reserveOut - y) * (reserveIn + x)
    ensures z <= x
  {
    assert (reserveOut - y + y) * (reserveIn + x - z) == (reserveIn + x - z) * reserveOut;
    assert (reserveOut - y) * (reserveIn + x) == (reserveIn + x) * (reserveOut - y);
    MulCancelLe(reserveIn, reserveIn + x - z, reserveOut);
  }

  /** `_get_amount_in` is viable exactly when the pool holds more than what is asked of it. */
  lemma GetAmountInViable(y: nat, reserveIn: nat, reserveOut: nat, feeBps: nat)
    requires feeBps < BPS
    ensures GetAmountIn(y, reserveIn, reserveOut, feeBps) > 0 <==> 0 < y < reserveOut && reserveIn > 0
  {
  }

  /** The least input that buys `y`. */
  function LeastInput(y: nat, reserveIn: nat, reserveOut: nat, feeBps: nat): int
    requires feeBps < BPS && 0 < y < reserveOut && reserveIn > 0
  {
    var denominator := (reserveOut - y) * (BPS - feeBps);
    assert denominator > 0;
    GetAmountIn(y, reserveIn, reserveOut, feeBps)
      - if (reserveIn * y * BPS) % denominator == 0 then 1 else 0
  }

  /** Which inputs buy `y`: exactly those from `LeastInput` up. So the quoted input always suffices,
      it is the least one unless the division is exact, and then it is one unit too many. */
  lemma GetAmountInExact(y: nat, reserveIn: nat, reserveOut: nat, feeBps: nat, x: nat)
    requires feeBps < BPS && 0 < y < reserveOut && reserveIn > 0
    ensures QuoteV2Swap(x, reserveIn, reserveOut, feeBps) >= y
       <==> x >= LeastInput(y, reserveIn, reserveOut, feeBps)
  {
    var numerator := reserveIn * y * BPS;
    var denominator := (reserveOut - y) * (BPS - feeBps);
    MulLt(0, reserveOut - y, BPS - feeBps);
    MulLt(0, reserveIn, y);
    DivBounds(numerator, denominator);
    var q := numerator / denominator;
    assert numerator == denominator * q + numerator % denominator;
    assert x * (BPS - feeBps) * (reserveOut - y) == x * denominator;
    if x == 0 {
      assert q > 0 || numerator % denominator != 0;
    } else {
      QuoteReaches(x, reserveIn, reserveOut, feeBps, y);
      var least := LeastInput(y, reserveIn, reserveOut, feeBps);
      if x >= least {
        MulLe(least, x, denominator);
        assert least * denominator >= numerator by {
          assert (q + 1) * denominator == q * denominator + denominator;
        }
      } else {
        MulLe(x, least - 1, denominator);
        assert (least - 1) * denominator < numerator by {
          assert (q - 1) * denominator == q * denominator - denominator;
        }
      }
    }
  }

  /** The quoted input suffices, and nothing two or more units below it does. */
  lemma GetAmountInBounds(y: nat, reserveIn: nat, reserveOut: nat, feeBps: nat)
    requires feeBps < BPS && 0 < y < reserveOut && reserveIn > 0
    ensures var x := GetAmountIn(y, reserveIn, reserveOut, feeBps);
      && QuoteV2Swap(x, reserveIn, reserveOut, feeBps) >= y
      && forall x': nat :: x' + 2 <= x ==> QuoteV2Swap(x', reserveIn, reserveOut, feeBps) < y
  {
    var x := GetAmountIn(y, reserveIn, reserveOut, feeBps);
    GetAmountInExact(y, reserveIn, reserveOut, feeBps, x);
    forall x': nat | x' + 2 <= x
      ensures QuoteV2Swap(x', reserveIn, reserveOut, feeBps) < y
    {
      GetAmountInExact(y, reserveIn, reserveOut, feeBps, x');
    }
  }
}
