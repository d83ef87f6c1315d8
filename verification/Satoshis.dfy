/** Converting between coin amounts and integer base units. */
module Satoshis {
  import opened Decimals
  import opened Prices

  function ToSatoshis(decimal: real, decimals: nat): int {
    Trunc(decimal * Pow10(decimals))
  }

  /** n is y with its fraction dropped. */
  predicate IsTruncated(n: int, y: real) {
    && (y >= 0.0 ==> n as real <= y < n as real + 1.0)
    && (y <= 0.0 ==> n as real - 1.0 < y <= n as real)
  }

  /** `toSatoshis` drops the fraction of a base unit, towards zero. */
  lemma {:induction false} ToSatoshisTruncates(x: real, d: nat)
    ensures IsTruncated(ToSatoshis(x, d), Mul(x, Pow10(d)))
  {
    hide Pow10;
    assert Mul(x, Pow10(d)) == x * Pow10(d);
  }

  /** The quotient is rounded to the 20 places BigNumber keeps. */
  function FromSatoshis(integer: int, decimals: nat): real {
    Dp20(integer as real / Pow10(decimals))
  }

  lemma {:induction false} PowersOfTen()
    ensures Pow10(8) == TEN8 && Pow10(20) == TEN20
  {
    assert Pow10(4) == 10000.0;
    Pow10Adds(4, 4);
    Pow10Adds(8, 8);
    Pow10Adds(16, 4);
  }

  lemma {:induction false} Regroup(x: real, a: real, b: real)
    ensures x * (a * b) == (x * a) * b
  {
  }

  lemma {:induction false} IntTimes(m: int, n: int)
    ensures m as real * n as real == (m * n) as real
  {
  }

  /** A whole number of units, in units b times smaller. */
  lemma {:induction false} FinerUnits(x: real, n: int, a: real, b: real, k: int)
    requires x * a == n as real && b == k as real
    ensures x * (a * b) == (n * k) as real
  {
    Regroup(x, a, b);
    IntTimes(n, k);
  }

  lemma {:induction false} Dp20OnGrid(x: real, k: int)
    requires x * TEN20 == k as real
    ensures Dp20(x) == x
  {
    RoundToOnGrid(x, TEN20, k);
  }

  lemma {:induction false} FromSatoshisExact(n: int, d: nat)
    requires d <= 20
    ensures FromSatoshis(n, d) * Pow10(d) == n as real
  {
    hide Pow10, IntPow10, Dp20;
    var x := n as real / Pow10(d);
    Cancel(n as real, Pow10(d));
    PowersOfTen();
    Pow10Adds(d, 20 - d);
    FinerUnits(x, n, Pow10(d), Pow10(20 - d), IntPow10(20 - d));
    Dp20OnGrid(x, n * IntPow10(20 - d));
  }

  lemma {:induction false} TruncGalois(y: real, n: int)
    requires y >= 0.0
    ensures n <= Trunc(y) <==> n as real <= y
  {
  }

  lemma {:induction false} ScaleOrder(a: real, b: real, c: real)
    requires c > 0.0
    ensures a <= b <==> a * c <= b * c
  {
    if a <= b { MultiplyMonotone(a, b, c); } else { MultiplyMonotone(b, a, c); assert (a - b) * c > 0.0; }
  }

  lemma {:induction false} NonNegativeProduct(a: real, b: real)
    requires a >= 0.0 && b >= 0.0
    ensures a * b >= 0.0
  {
  }

  /** `toSatoshis` and `fromSatoshis` form a Galois connection: n base units are charged for x exactly when
      they are worth no more than x. */
  lemma {:induction false} SatoshiGalois(x: real, n: nat, d: nat)
    requires x >= 0.0 && d <= 20
    ensures n <= ToSatoshis(x, d) <==> FromSatoshis(n, d) <= x
  {
    hide Pow10, FromSatoshis, Trunc;
    FromSatoshisExact(n, d);
    NonNegativeProduct(x, Pow10(d));
    TruncGalois(x * Pow10(d), n);
    ScaleOrder(FromSatoshis(n, d), x, Pow10(d));
  }

  lemma {:induction false} ReturnsUpToTwenty(n: int, d: nat)
    requires d <= 20
    ensures ToSatoshis(FromSatoshis(n, d), d) == n
  {
    hide Pow10, FromSatoshis, Trunc;
    FromSatoshisExact(n, d);
    TruncWhole(FromSatoshis(n, d) * Pow10(d), n);
  }

  /** Past 20 decimals one base unit rounds away to nothing. */
  lemma {:induction false} OneUnitVanishes(d: nat)
    requires d > 20
    ensures FromSatoshis(1, d) == 0.0 && ToSatoshis(FromSatoshis(1, d), d) == 0
  {
    hide Pow10, RoundTo, Round;
    PowersOfTen();
    Pow10Adds(20, d - 20);
    var s := Pow10(d - 20);
    var x := 1.0 / Pow10(d);
    Cancel(1.0, Pow10(d));
    Regroup(x, TEN20, s);
    SmallFactor(x * TEN20, s);
    RoundToNearest(x, 0.0, TEN20, 0);
  }

  lemma {:induction false} SmallFactor(a: real, s: real)
    requires a * s == 1.0 && s >= 10.0
    ensures Abs(a) <= 0.1
  {
    AbsProduct(a, s);
    MultiplyMonotone(10.0, s, Abs(a));
  }

  ghost predicate AllReturn(d: nat) {
    forall n: nat :: ToSatoshis(FromSatoshis(n, d), d) == n
  }

  /** Base units survive the round trip exactly for coins of at most 20 decimals. */
  lemma {:induction false} SatoshiRoundTripExactly(d: nat)
    ensures AllReturn(d) <==> d <= 20
  {
    if d <= 20 {
      forall n: nat { ReturnsUpToTwenty(n, d); }
    } else {
      OneUnitVanishes(d);
      assert ToSatoshis(FromSatoshis(1, d), d) != 1;
    }
  }

  lemma {:induction false} QuoteInUnits(x: real, m: nat, d: nat)
    requires x * TEN8 == m as real && d >= 8
    ensures x * Pow10(d) == (m * IntPow10(d - 8)) as real
  {
    hide Pow10, IntPow10;
    PowersOfTen();
    Pow10Adds(8, d - 8);
    FinerUnits(x, m, TEN8, Pow10(d - 8), IntPow10(d - 8));
  }

  lemma {:induction false} TruncWhole(y: real, k: int)
    requires y == k as real
    ensures Trunc(y) == k
  {
  }

  lemma {:induction false} QuoteIsNonNegative(x: real, m: nat)
    requires x * TEN8 == m as real
    ensures x >= 0.0
  {
  }

  /** An eight-place quote x = m / 10^8 is charged exactly when the coin has eight decimals or more; with
      fewer it is never overcharged, and undercharged by less than one base unit. */
  lemma {:induction false} QuoteCharge(x: real, m: nat, d: nat)
    requires x * TEN8 == m as real
    ensures d >= 8 ==> ToSatoshis(x, d) == m * IntPow10(d - 8) && ToSatoshis(x, d) as real == x * Pow10(d)
    ensures ToSatoshis(x, d) as real <= x * Pow10(d) < ToSatoshis(x, d) as real + 1.0
  {
    hide Pow10, IntPow10, Trunc;
    QuoteIsNonNegative(x, m);
    NonNegativeProduct(x, Pow10(d));
    if d >= 8 {
      QuoteInUnits(x, m, d);
      TruncWhole(x * Pow10(d), m * IntPow10(d - 8));
    }
  }

  /** Examples: a satoshi is the eighth decimal of a coin, and a fraction of one is dropped on either side of zero. */
  lemma {:induction false} SatoshiExamples()
    ensures ToSatoshis(1.5, 8) == 150000000 && ToSatoshis(0.000000019, 8) == 1 && ToSatoshis(-0.000000019, 8) == -1
    ensures ToSatoshis(2.0, 0) == 2 && FromSatoshis(150000000, 8) == 1.5 && FromSatoshis(1, 2) == 0.01
  {
    PowersOfTen();
    assert Pow10(2) == 100.0 && Pow10(0) == 1.0;
    FromSatoshisExact(150000000, 8);
    FromSatoshisExact(1, 2);
  }
}
