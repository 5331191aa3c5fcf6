/** Floor and ceiling division on naturals, the only rounding the solver does.
    Every divisor in the source is positive, where Python's `//` and Dafny's `/` agree. */
module IntDivision {

  /** `(a + b - 1) // b`: the least multiple count of `b` that covers `a`. */
  function CeilDiv(a: nat, b: nat): (q: nat)
    requires b > 0
    ensures a <= q * b < a + b
  {
    var q := (a + b - 1) / b;
    DivBounds(a + b - 1, b);
    q
  }

  /** `a * b // c`. */
  function MulDiv(a: nat, b: nat, c: nat): nat
    requires c > 0
  {
    a * b / c
  }

  lemma DivBounds(a: nat, b: nat)
    requires b > 0
    ensures (a / b) * b <= a < (a / b + 1) * b
  {
    assert a == b * (a / b) + a % b;
  }

  lemma MulLe(x: int, y: int, k: nat)
    requires x <= y
    ensures x * k <= y * k
  {
    assert (y - x) * k >= 0;
    assert (y - x) * k == y * k - x * k;
  }

  lemma MulLt(x: int, y: int, k: nat)
    requires x < y && k > 0
    ensures x * k < y * k
  {
    assert (y - x) * k >= k by { MulLe(1, y - x, k); }
    assert (y - x) * k == y * k - x * k;
  }

  lemma MulCancelLt(x: int, y: int, k: nat)
    requires x * k < y * k
    ensures x < y
  {
    if x >= y { MulLe(y, x, k); }
  }

  lemma MulCancelLe(x: int, y: int, k: nat)
    requires k > 0 && x * k <= y * k
    ensures x <= y
  {
    if x > y { MulLt(y, x, k); }
  }

  lemma DivUnique(a: nat, b: nat, q: nat)
    requires b > 0 && q * b <= a < (q + 1) * b
    ensures a / b == q
  {
    DivBounds(a, b);
    MulCancelLt(q, a / b + 1, b);
    MulCancelLt(a / b, q + 1, b);
  }

  lemma CeilDivUnique(a: nat, b: nat, q: nat)
    requires b > 0 && a <= q * b < a + b
    ensures CeilDiv(a, b) == q
  {
    var c := CeilDiv(a, b);
    assert (c - 1) * b == c * b - b;
    assert (q - 1) * b == q * b - b;
    MulCancelLt(c - 1, q, b);
    MulCancelLt(q - 1, c, b);
  }

  /** Floor division reaches `y` exactly when `a` covers `y` whole multiples. */
  lemma DivAtLeast(a: nat, b: nat, y: nat)
    requires b > 0
    ensures a / b >= y <==> a >= y * b
  {
    DivBounds(a, b);
    if a / b >= y {
      MulLe(y, a / b, b);
    } else {
      MulLe(a / b + 1, y, b);
    }
  }

  /** Ceiling division reaches `y` exactly when `a` exceeds `y - 1` whole multiples. */
  lemma CeilDivAtLeast(a: nat, b: nat, y: int)
    requires b > 0
    ensures CeilDiv(a, b) >= y <==> a > (y - 1) * b
  {
    var c := CeilDiv(a, b);
    assert (c - 1) * b == c * b - b;
    if c >= y {
      MulLe(y - 1, c - 1, b);
    } else {
      MulLe(c, y - 1, b);
    }
  }

  lemma CeilDivExact(x: nat, b: nat)
    requires b > 0
    ensures CeilDiv(x * b, b) == x
  {
    CeilDivUnique(x * b, b, x);
  }

  lemma DivExact(x: nat, b: nat)
    requires b > 0
    ensures (x * b) / b == x
  {
    assert (x + 1) * b == x * b + b;
    DivUnique(x * b, b, x);
  }

  lemma CeilDivScale(a: nat, b: nat, k: nat)
    requires b > 0 && k > 0
    ensures b * k > 0
    ensures CeilDiv(a * k, b * k) == CeilDiv(a, b)
  {
    MulLt(0, b, k);
    var q := CeilDiv(a, b);
    assert q * (b * k) == (q * b) * k;
    MulLe(a, q * b, k);
    MulLt(q * b, a + b, k);
    assert (a + b) * k == a * k + b * k;
    CeilDivUnique(a * k, b * k, q);
  }

  lemma DivScale(a: nat, b: nat, k: nat)
    requires b > 0 && k > 0
    ensures b * k > 0
    ensures (a * k) / (b * k) == a / b
  {
    MulLt(0, b, k);
    var q := a / b;
    DivBounds(a, b);
    assert q * (b * k) == (q * b) * k;
    assert (q + 1) * (b * k) == ((q + 1) * b) * k;
    MulLe(q * b, a, k);
    MulLt(a, (q + 1) * b, k);
    DivUnique(a * k, b * k, q);
  }
}
