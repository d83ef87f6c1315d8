/** Converting an amount to dollars and back. */
module RoundTrips {
  import opened Wrappers
  import opened Decimals
  import opened Prices
  import opened PriceTable

  /** A millionth of a millionth: the ratio of the twentieth place to the eighth. */
  const TRILLIONTH := 0.000000000001

  /** The first conversion's rounding, seen after dividing by the price. */
  lemma {:induction false} FirstRounding(v: real, p: real, r: real, u: real)
    requires r > 0.0 && r * p == 1.0 && Abs(u - v * p) <= HALF8
    ensures Abs(r * u - v) <= r * HALF8
  {
    ScaleError(u, v * p, r, HALF8);
    ProductWithReciprocal(v, p, r);
    Commute(u, r);
  }

  lemma {:induction false} WithinHalf(x: real, y: real, v: real, a: real, b: real)
    requires Abs(x - y) <= a && Abs(y - v) <= b && a + b < HALF8
    ensures Abs(x - v) < HALF8
  {
  }

  /** Dividing by p with a rate q within eps of 1/p. */
  lemma {:induction false} RoundTripBound(v: real, p: real, r: real, u: real, q: real, eps: real)
    requires r > 0.0 && r * p == 1.0
    requires Abs(u - v * p) <= HALF8 && Abs(q - r) <= eps
    requires Mul(Abs(u), eps) + r * HALF8 < HALF8
    ensures Abs(Mul(q, u) - v) < HALF8
  {
    hide Abs;
    ScaleError(q, r, u, eps);
    FirstRounding(v, p, r, u);
    WithinHalf(q * u, r * u, v, Mul(Abs(u), eps), r * HALF8);
  }

  lemma {:induction false} Commute(a: real, b: real)
    ensures a * b == b * a
  {
  }

  lemma {:induction false} MarginInUnits(u: real, r: real)
    requires r + u * TRILLIONTH < 1.0
    ensures Mul(u, HALF20) + r * HALF8 < HALF8
  {
  }

  lemma {:induction false} ProductWithReciprocal(v: real, p: real, r: real)
    requires r * p == 1.0
    ensures v * p * r == v
  {
    assert v * p * r == v * (r * p);
  }

  lemma {:induction false} Dp8Nearest(x: real, v: real, n: int)
    requires v * TEN8 == n as real && Abs(x - v) < HALF8
    ensures Dp8(x) == v
  {
    RoundToNearest(x, v, TEN8, n);
  }

  /** Converting a coin amount to USD and back returns it exactly, for an amount on the eight-place grid and a
      coin worth more than one dollar by a margin that grows with the amount. */
  lemma {:induction false} PriceRoundTrip(prices: seq<Price>, coin: string, v: real, n: int, p: real)
    requires coin != "USD" && v * TEN8 == n as real && p > 0.0
    requires FindPrice(prices, coin, "USD").Some? && prices[FindPrice(prices, coin, "USD").value].value == p
    requires FindPrice(prices, "USD", coin).None?
    requires 1.0 / p + Abs(Times(v, p)) * TRILLIONTH < 1.0
    ensures Convert(prices, Amount(coin, v), "USD") == Converted(Amount("USD", Times(v, p)))
    ensures Convert(prices, Amount("USD", Times(v, p)), coin) == Converted(Amount(coin, v))
  {
    OverTimes(v, n, p, Times(v, p));
  }

  lemma {:induction false} OverTimes(v: real, n: int, p: real, u: real)
    requires v * TEN8 == n as real && p > 0.0 && u == Times(v, p) && 1.0 / p + Abs(u) * TRILLIONTH < 1.0
    ensures Over(u, p) == v
  {
    hide Dp8, Dp20, Times, Inverse, Abs, Mul;
    PositiveReciprocal(p);
    InverseIsClose(p);
    MarginInUnits(Abs(u), 1.0 / p);
    RoundTripBound(v, p, 1.0 / p, u, Inverse(p), HALF20);
    Dp8Nearest(Mul(Inverse(p), u), v, n);
  }

  lemma {:induction false} InverseIsClose(p: real)
    requires p != 0.0
    ensures Abs(Inverse(p) - 1.0 / p) <= HALF20
  {
  }

  lemma {:induction false} OtherPriceReturns(v: real, n: int, p: real, u: real, q: real)
    requires v * TEN8 == n as real && p > 0.0 && u == Times(v, p)
    requires Mul(Abs(u), Abs(q - 1.0 / p)) + 1.0 / p * HALF8 < HALF8
    ensures Times(u, q) == v
  {
    hide Dp8, Abs, Mul;
    PositiveReciprocal(p);
    RoundTripBound(v, p, 1.0 / p, u, q, Abs(q - 1.0 / p));
    ProductCommutes(q, u);
    Dp8Nearest(Mul(u, q), v, n);
  }

  lemma {:induction false} ProductCommutes(a: real, b: real)
    ensures Mul(a, b) == Mul(b, a)
  {
  }

  /** When a price for the dollar in the coin is stored as well, the way back uses that one: the amount still comes
      back if the two prices are near enough to being inverses. */
  lemma {:induction false} RoundTripWithBothPrices(prices: seq<Price>, coin: string, v: real, n: int, p: real, q: real)
    requires coin != "USD" && v * TEN8 == n as real && p > 0.0
    requires FindPrice(prices, coin, "USD").Some? && prices[FindPrice(prices, coin, "USD").value].value == p
    requires FindPrice(prices, "USD", coin).Some? && prices[FindPrice(prices, "USD", coin).value].value == q
    requires Mul(Abs(Times(v, p)), Abs(q - 1.0 / p)) + 1.0 / p * HALF8 < HALF8
    ensures Convert(prices, Amount(coin, v), "USD") == Converted(Amount("USD", Times(v, p)))
    ensures Convert(prices, Amount("USD", Times(v, p)), coin) == Converted(Amount(coin, v))
  {
    OtherPriceReturns(v, n, p, Times(v, p), q);
  }

  // ---------------------------------------------------------------- exactly which coins come back

  predicate EightPlaces(x: real) {
    (x * TEN8).Floor as real == x * TEN8
  }

  /** Every price `setPrice` ever stores has eight places. */
  lemma {:induction false} StoredPricesHaveEightPlaces(calls: seq<Price>)
    ensures forall p :: p in TableAfter(calls) ==> EightPlaces(p.value)
    decreases |calls|
  {
    if calls != [] {
      var init, last := calls[..|calls| - 1], calls[|calls| - 1];
      StoredPricesHaveEightPlaces(init);
      Dp8HasEightPlaces(last.value);
      hide Dp8, EightPlaces;
    }
  }

  lemma {:induction false} Dp8HasEightPlaces(x: real)
    ensures EightPlaces(Dp8(x))
  {
    assert Dp8(x) * TEN8 == Round(x * TEN8) as real;
  }

  /** Only the coin's price in dollars is stored, and it is p. */
  predicate PricedAt(prices: seq<Price>, coin: string, p: real) {
    && FindPrice(prices, coin, "USD").Some? && prices[FindPrice(prices, coin, "USD").value].value == p
    && FindPrice(prices, "USD", coin).None?
  }

  ghost predicate ComesBack(prices: seq<Price>, coin: string, v: real) {
    var there := Convert(prices, Amount(coin, v), "USD");
    there.Converted? && Convert(prices, there.amount, coin) == Converted(Amount(coin, v))
  }

  /** Every eight-place amount of the coin worth at most this many dollars, either way, comes back. */
  ghost predicate EveryAmountComesBack(prices: seq<Price>, coin: string, dollars: real) {
    forall v: real :: EightPlaces(v) && WorthAtMost(prices, coin, v, dollars) ==> ComesBack(prices, coin, v)
  }

  ghost predicate WorthAtMost(prices: seq<Price>, coin: string, v: real, dollars: real) {
    var there := Convert(prices, Amount(coin, v), "USD");
    there.Converted? && Abs(there.amount.value) <= dollars
  }

  const DOLLARS := 9999.0

  lemma {:induction false} ThereAndBack(prices: seq<Price>, coin: string, p: real, v: real)
    requires coin != "USD" && PricedAt(prices, coin, p) && p > 0.0
    ensures Convert(prices, Amount(coin, v), "USD") == Converted(Amount("USD", Times(v, p)))
    ensures ComesBack(prices, coin, v) <==> Over(Times(v, p), p) == v
  {
    hide Times, Over;
  }

  /** At a price of exactly one dollar nothing is rounded. */
  lemma {:induction false} AtOneDollar(v: real)
    requires EightPlaces(v)
    ensures Over(Times(v, 1.0), 1.0) == v
  {
    Dp8OnGrid(v);
    OneOverOne();
    TimesOne(v);
    hide Dp8, Dp20, Inverse, Mul;
    assert Times(v, 1.0) == v;
  }

  lemma {:induction false} Dp8OnGrid(v: real)
    requires EightPlaces(v)
    ensures Dp8(v) == v
  {
    RoundToOnGrid(v, TEN8, (v * TEN8).Floor);
  }

  lemma {:induction false} OneOverOne()
    ensures Inverse(1.0) == 1.0
  {
    RoundToOnGrid(1.0, TEN20, 100000000000000000000);
  }

  lemma {:induction false} TimesOne(v: real)
    ensures Mul(v, 1.0) == v && Mul(1.0, v) == v
  {
  }

  /** Above one dollar, the smallest step of the price is margin enough. */
  lemma {:induction false} MarginAboveOne(p: real, r: real, u: real)
    requires EightPlaces(p) && p > 1.0 && r > 0.0 && r * p == 1.0 && 0.0 <= u <= DOLLARS
    ensures r + u * TRILLIONTH < 1.0
  {
    NextPrice(p);
    assert r * (p - 1.0) == 1.0 - r;
    MultiplyMonotone(0.00000001, p - 1.0, r);
    assert (p - 1.0) * r == r * (p - 1.0);
  }

  lemma {:induction false} NextPrice(p: real)
    requires EightPlaces(p)
    ensures p > 1.0 ==> p - 1.0 >= 0.00000001
    ensures p < 1.0 ==> 1.0 - p >= 0.00000001
  {
    var m := (p * TEN8).Floor;
    assert m as real == p * TEN8;
  }

  // ---------------------------------------------------------------- cheap coins

  /** The USD value, in units of the eighth place, of n units of the eighth place of the coin. */
  function Units(n: nat, p: real): int {
    Round(Mul(n as real, p))
  }

  /** If the values grew by at least one at every step, n steps would reach n. */
  lemma {:induction false} GrowingReaches(p: real, n: nat)
    requires forall j: nat :: j < n ==> Units(j, p) < Units(j + 1, p)
    ensures Units(n, p) >= n
  {
    if n == 0 {
      assert Mul(0.0, p) == 0.0;
    } else {
      GrowingReaches(p, n - 1);
    }
  }

  lemma {:induction false} FallsShort(p: real, n: nat)
    requires 1.0 - p >= 0.00000001 && n == 100000000
    ensures Units(n, p) < n
  {
  }

  /** Two neighbouring amounts of a cheap coin are worth the same. */
  lemma {:induction false} NeighboursMeet(p: real) returns (n: nat)
    requires EightPlaces(p) && 0.0 < p < 1.0
    ensures n < 100000000 && Units(n, p) == Units(n + 1, p)
  {
    hide Units, EightPlaces;
    NextPrice(p);
    FallsShort(p, 100000000);
    if forall j: nat :: j < 100000000 ==> Units(j, p) < Units(j + 1, p) {
      GrowingReaches(p, 100000000);
      assert false;
    }
    n :| n < 100000000 && Units(n, p) >= Units(n + 1, p);
    UnitsMonotone(n, p);
  }

  lemma {:induction false} UnitsMonotone(n: nat, p: real)
    requires p > 0.0
    ensures Units(n, p) <= Units(n + 1, p)
  {
    hide Mul, Round;
    MulMonotone(n as real, (n + 1) as real, p);
    RoundMonotone(Mul(n as real, p), Mul((n + 1) as real, p));
  }

  lemma {:induction false} MulMonotone(a: real, b: real, c: real)
    requires c >= 0.0 && a <= b
    ensures Mul(a, c) <= Mul(b, c)
  {
    MultiplyMonotone(a, b, c);
  }

  lemma {:induction false} TimesInUnits(v: real, n: nat, p: real)
    requires v * TEN8 == n as real
    ensures Times(v, p) * TEN8 == Units(n, p) as real
  {
    Rescale(v, n, p);
    hide Mul, Round;
  }

  lemma {:induction false} Rescale(v: real, n: nat, p: real)
    requires v * TEN8 == n as real
    ensures Mul(v, p) * TEN8 == Mul(n as real, p)
  {
    assert v * p * TEN8 == v * TEN8 * p;
  }

  lemma {:induction false} SmallWorth(v: real, p: real)
    requires 0.0 <= v <= 2.0 && 0.0 < p < 1.0
    ensures Abs(Times(v, p)) <= DOLLARS
  {
    SmallProduct(v, p);
    hide Times, Abs;
    NearSmall(Times(v, p), v * p);
  }

  lemma {:induction false} SmallProduct(v: real, p: real)
    requires 0.0 <= v <= 2.0 && 0.0 < p < 1.0
    ensures 0.0 <= v * p <= 2.0
  {
    MultiplyMonotone(0.0, v, p);
    MultiplyMonotone(v, 2.0, p);
  }

  lemma {:induction false} NearSmall(u: real, x: real)
    requires Abs(u - x) <= HALF8 && 0.0 <= x <= 2.0
    ensures Abs(u) <= DOLLARS
  {
  }

  /** Some amount of a cheap coin, worth little, does not come back. */
  lemma {:induction false} CheapCoinLoses(p: real) returns (v: real)
    requires EightPlaces(p) && 0.0 < p < 1.0
    ensures EightPlaces(v) && Abs(Times(v, p)) <= DOLLARS && Over(Times(v, p), p) != v
  {
    var n := NeighboursMeet(p);
    var low, high := n as real / TEN8, (n + 1) as real / TEN8;
    TimesInUnits(low, n, p);
    TimesInUnits(high, n + 1, p);
    SameUnits(Times(low, p), Times(high, p));
    SmallWorth(low, p);
    SmallWorth(high, p);
    v := if Over(Times(low, p), p) != low then low else high;
  }

  lemma {:induction false} SameUnits(a: real, b: real)
    requires a * TEN8 == b * TEN8
    ensures a == b
  {
  }

  /** A coin whose eight-place price is stored in dollars: every eight-place amount of it worth up to 9,999 dollars
      survives conversion to dollars and back exactly when the coin is worth at least one dollar. */
  lemma {:induction false} RoundTripExactly(prices: seq<Price>, coin: string, p: real)
    requires coin != "USD" && PricedAt(prices, coin, p) && EightPlaces(p) && p > 0.0
    ensures EveryAmountComesBack(prices, coin, DOLLARS) <==> p >= 1.0
  {
    if p < 1.0 {
      var v := CheapCoinLoses(p);
      ThereAndBack(prices, coin, p, v);
      assert WorthAtMost(prices, coin, v, DOLLARS) && !ComesBack(prices, coin, v);
    } else {
      forall v: real | EightPlaces(v) && WorthAtMost(prices, coin, v, DOLLARS)
        ensures ComesBack(prices, coin, v)
      {
        ThereAndBack(prices, coin, p, v);
        if p == 1.0 {
          AtOneDollar(v);
        } else {
          PositiveReciprocal(p);
          MarginAboveOne(p, 1.0 / p, Abs(Times(v, p)));
          OverTimes(v, (v * TEN8).Floor, p, Times(v, p));
        }
      }
    }
  }

  /** For example, the smallest amount of a coin worth half a dollar comes back doubled. */
  lemma {:induction false} CheapCoinDoesNotReturn(coin: string)
    requires coin != "USD"
    ensures var prices := [Price(coin, "USD", 0.5, "")];
            && Convert(prices, Amount(coin, 0.00000001), "USD") == Converted(Amount("USD", 0.00000001))
            && Convert(prices, Amount("USD", 0.00000001), coin) == Converted(Amount(coin, 0.00000002))
  {
    var prices := [Price(coin, "USD", 0.5, "")];
    assert FindPrice(prices, coin, "USD") == Some(0);
    assert FindPrice(prices, "USD", coin).None?;
    RoundToOnGrid(2.0, TEN20, 200000000000000000000);
    RoundToOnGrid(0.00000002, TEN8, 2);
  }
}
