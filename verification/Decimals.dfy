/** Exact decimal arithmetic: rounding half away from zero to a fixed number of places, and truncation. */
module Decimals {
  function Abs(x: real): (r: real)
    ensures r >= 0.0 && (r == x || r == -x)
  {
    if x >= 0.0 then x else -x
  }

  /** A product, named so that equal factors are seen to give equal products. */
  function Mul(a: real, b: real): real {
    a * b
  }

  /** `ROUND_HALF_UP`: to the nearest integer, ties away from zero. */
  function Round(x: real): (n: int)
    ensures Abs(n as real - x) <= 0.5
    ensures x >= 0.0 ==> n >= 0
    ensures x <= 0.0 ==> n <= 0
  {
    if x >= 0.0 then (x + 0.5).Floor else -((0.5 - x).Floor)
  }

  /** `Math.trunc`. */
  function Trunc(x: real): (n: int)
    ensures x >= 0.0 ==> n as real <= x < n as real + 1.0
    ensures x <= 0.0 ==> n as real - 1.0 < x <= n as real
  {
    if x >= 0.0 then x.Floor else -((-x).Floor)
  }

  lemma {:induction false} RoundMonotone(x: real, y: real)
    requires x <= y
    ensures Round(x) <= Round(y)
  {
  }

  lemma {:induction false} RoundNearest(x: real, n: int)
    requires Abs(x - n as real) < 0.5
    ensures Round(x) == n
  {
  }

  function Pow10(n: nat): (p: real)
    ensures p >= 1.0
    ensures n > 0 ==> p >= 10.0
  {
    if n == 0 then 1.0 else 10.0 * Pow10(n - 1)
  }

  lemma {:induction false} TenTimes(a: real, b: real)
    ensures 10.0 * (a * b) == (10.0 * a) * b
  {
  }

  lemma {:induction false} Pow10Adds(m: nat, n: nat)
    ensures Pow10(m + n) == Pow10(m) * Pow10(n)
  {
    if m > 0 {
      Pow10Adds(m - 1, n);
      TenTimes(Pow10(m - 1), Pow10(n));
    }
  }

  /** 10 to the n, as an integer. */
  function IntPow10(n: nat): (p: int)
    ensures p >= 1 && p as real == Pow10(n)
  {
    if n == 0 then 1 else 10 * IntPow10(n - 1)
  }

  lemma {:induction false} Cancel(a: real, b: real)
    requires b > 0.0
    ensures a / b * b == a && a * b / b == a
  {
  }

  /** `dp(places)`, with the scale 10^places given. */
  function RoundTo(x: real, scale: real): (r: real)
    requires scale > 0.0
    ensures r * scale == Round(x * scale) as real
  {
    var n := Round(x * scale) as real;
    Cancel(n, scale);
    n / scale
  }

  lemma {:induction false} QuotientBound(e: real, bound: real, scale: real)
    requires scale > 0.0 && Abs(e * scale) <= bound
    ensures Abs(e) <= bound / scale
  {
    Cancel(e, scale);
    DivideMonotone(e * scale, bound, scale);
    DivideMonotone(-bound, e * scale, scale);
    assert -bound / scale == -(bound / scale);
  }

  lemma {:induction false} RoundToError(x: real, scale: real)
    requires scale > 0.0
    ensures Abs(RoundTo(x, scale) - x) <= 0.5 / scale
  {
    var r := RoundTo(x, scale);
    assert (r - x) * scale == r * scale - x * scale;
    QuotientBound(r - x, 0.5, scale);
  }

  lemma {:induction false} DivideMonotone(a: real, b: real, scale: real)
    requires scale > 0.0 && a <= b
    ensures a / scale <= b / scale
  {
    assert b / scale - a / scale == (b - a) / scale;
    assert (b - a) / scale >= 0.0;
  }

  lemma {:induction false} MultiplyMonotone(a: real, b: real, c: real)
    requires c >= 0.0 && a <= b
    ensures a * c <= b * c
  {
    assert b * c - a * c == (b - a) * c;
  }

  lemma {:induction false} RoundToMonotone(x: real, y: real, scale: real)
    requires scale > 0.0 && x <= y
    ensures RoundTo(x, scale) <= RoundTo(y, scale)
  {
    MultiplyMonotone(x, y, scale);
    RoundMonotone(x * scale, y * scale);
    DivideMonotone(Round(x * scale) as real, Round(y * scale) as real, scale);
  }

  /** A value within half a grid step of a grid point goes to that point. */
  lemma {:induction false} RoundToNearest(x: real, g: real, scale: real, n: int)
    requires scale > 0.0 && g * scale == n as real && Abs((x - g) * scale) < 0.5
    ensures RoundTo(x, scale) == g
  {
    assert (x - g) * scale == x * scale - g * scale;
    RoundNearest(x * scale, n);
    Cancel(g, scale);
    Cancel(RoundTo(x, scale), scale);
  }

  /** A value already on the grid stays. */
  lemma {:induction false} RoundToOnGrid(x: real, scale: real, n: int)
    requires scale > 0.0 && x * scale == n as real
    ensures RoundTo(x, scale) == x
  {
    RoundToNearest(x, x, scale, n);
  }

  lemma {:induction false} AbsProduct(a: real, b: real)
    ensures Abs(a * b) == Abs(a) * Abs(b)
  {
    if a >= 0.0 && b >= 0.0 { assert a * b >= 0.0; }
    else if a < 0.0 && b < 0.0 { assert a * b == (-a) * (-b); assert (-a) * (-b) >= 0.0; }
    else if a < 0.0 { assert a * b == -((-a) * b); assert (-a) * b >= 0.0; }
    else { assert a * b == -(a * (-b)); assert a * (-b) >= 0.0; }
  }

  /** Rounding is to the nearest integer, and of two equally near to the one further from zero. */
  lemma {:induction false} RoundExactly(x: real, n: int)
    ensures Round(x) == n <==> if x >= 0.0 then n as real - 0.5 <= x < n as real + 0.5
                               else n as real - 0.5 < x <= n as real + 0.5
  {
  }
}
