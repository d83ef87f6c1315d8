/** The current-price table, its history, and currency conversion. */
module Prices {
  import opened Wrappers
  import opened Decimals

  /** `MAX_DECIMALS` = 8, and the 20 places to which BigNumber divides. */
  const TEN8 := 100000000.0
  const TEN20 := 100000000000000000000.0

  /** Half a unit of the eighth and of the twentieth place. */
  const HALF8 := 0.000000005
  const HALF20 := 0.000000000000000000005

  /** `dp(MAX_DECIMALS)`. */
  function Dp8(x: real): (r: real)
    ensures Abs(r - x) <= HALF8
  {
    RoundToError(x, TEN8);
    RoundTo(x, TEN8)
  }

  /** The result of a BigNumber division whose exact value is x. */
  function Dp20(x: real): (r: real)
    ensures Abs(r - x) <= HALF20
  {
    RoundToError(x, TEN20);
    RoundTo(x, TEN20)
  }

  /** A row of `prices` or of `priceRecords`: one unit of `currency` is worth `value` units of `base`. */
  datatype Price = Price(currency: string, base: string, value: real, source: string)

  datatype Amount = Amount(currency: string, value: real)

  datatype Conversion =
    | Converted(amount: Amount)
    | NotFinite(currency: string)
    | NoPrice(from: string, to: string)

  function FindPrice(prices: seq<Price>, currency: string, base: string, start: nat := 0): (r: Option<nat>)
    requires start <= |prices|
    ensures r.Some? ==> start <= r.value < |prices|
    ensures r.Some? ==> prices[r.value].currency == currency && prices[r.value].base == base
    ensures forall j :: start <= j < (if r.Some? then r.value else |prices|) ==>
                          prices[j].currency != currency || prices[j].base != base
    decreases |prices| - start
  {
    if start == |prices| then None
    else if prices[start].currency == currency && prices[start].base == base then Some(start)
    else FindPrice(prices, currency, base, start + 1)
  }

  // ---------------------------------------------------------------- conversion

  function Inverse(p: real): real
    requires p != 0.0
  {
    Dp20(1.0 / p)
  }

  lemma {:induction false} AddErrors(out: real, mid: real, exact: real, b1: real, b2: real)
    requires Abs(out - mid) <= b1 && Abs(mid - exact) <= b2
    ensures Abs(out - exact) <= b1 + b2
  {
  }

  lemma {:induction false} ScaleError(a: real, b: real, r: real, bound: real)
    requires Abs(a - b) <= bound
    ensures Abs(a * r - b * r) <= Abs(r) * bound
  {
    assert a * r - b * r == (a - b) * r;
    AbsProduct(a - b, r);
    MultiplyMonotone(Abs(a - b), bound, Abs(r));
  }

  /** An amount v times a rounded rate q for the exact rate r, rounded again. */
  lemma {:induction false} RoundedRateError(q: real, r: real, v: real, out: real)
    requires Abs(q - r) <= HALF20 && Abs(out - q * v) <= HALF8
    ensures Abs(out - v * r) <= HALF8 + Abs(v) * HALF20
  {
    ScaleError(q, r, v, HALF20);
    assert r * v == v * r;
    AddErrors(out, q * v, v * r, HALF8, Abs(v) * HALF20);
  }

  /** v at price p. */
  function Times(v: real, p: real): (r: real)
    ensures Abs(r - v * p) <= HALF8
  {
    Dp8(Mul(v, p))
  }

  /** v at the inverse of price p, itself rounded. */
  function Over(v: real, p: real): real
    requires p != 0.0
  {
    Dp8(Mul(Inverse(p), v))
  }

  lemma {:induction false} OverError(v: real, p: real)
    requires p != 0.0
    ensures Abs(Over(v, p) - v * (1.0 / p)) <= HALF8 + Abs(v) * HALF20
  {
    hide Dp8, Dp20;
    RoundedRateError(Inverse(p), 1.0 / p, v, Over(v, p));
  }

  /** One lookup: the price of the input in the output currency, or failing that the inverse of the other. */
  function Hop(prices: seq<Price>, from: Amount, to: string): Conversion {
    var direct := FindPrice(prices, from.currency, to);
    if direct.Some? then
      Converted(Amount(to, Times(from.value, prices[direct.value].value)))
    else
      var inverse := FindPrice(prices, to, from.currency);
      if inverse.None? then NoPrice(from.currency, to)
      else
        var p := prices[inverse.value].value;
        if p == 0.0 then NotFinite(to)
        else Converted(Amount(to, Over(from.value, p)))
  }

  predicate HasRate(prices: seq<Price>, from: string, to: string) {
    FindPrice(prices, from, to).Some? || FindPrice(prices, to, from).Some?
  }

  /** `convert`: through USD unless one side is USD already. An infinite or undefined amount stays so. */
  function Convert(prices: seq<Price>, from: Amount, to: string): Conversion
    decreases if from.currency != "USD" && to != "USD" then 1 else 0
  {
    if from.currency != "USD" && to != "USD" then
      match Convert(prices, from, "USD")
      case Converted(usd) => Hop(prices, usd, to)
      case NotFinite(_) => if HasRate(prices, "USD", to) then NotFinite(to) else NoPrice("USD", to)
      case NoPrice(a, b) => NoPrice(a, b)
    else Hop(prices, from, to)
  }

  /** The exact rate a hop approximates. */
  function Rate(prices: seq<Price>, from: string, to: string): Option<real> {
    var direct, inverse := FindPrice(prices, from, to), FindPrice(prices, to, from);
    if direct.Some? then Some(prices[direct.value].value)
    else if inverse.Some? && prices[inverse.value].value != 0.0 then Some(1.0 / prices[inverse.value].value)
    else None
  }

  /** The error bound of a hop: half a unit of the eighth place, and on the inverse path half a unit of the
      twentieth for each unit converted. */
  function HopBound(prices: seq<Price>, from: Amount, to: string): real {
    HALF8 + if FindPrice(prices, from.currency, to).Some? then 0.0 else Abs(from.value) * HALF20
  }

  /** `out` is v at this rate, give or take `bound`. */
  ghost predicate Near(out: real, v: real, rate: real, bound: real) {
    Abs(out - Mul(v, rate)) <= bound
  }

  lemma {:induction false} HopError(prices: seq<Price>, from: Amount, to: string, rate: real)
    requires Rate(prices, from.currency, to) == Some(rate)
    ensures var out := Hop(prices, from, to);
            && out.Converted? && out.amount.currency == to
            && Near(out.amount.value, from.value, rate, HopBound(prices, from, to))
  {
    hide Times, Over;
    if FindPrice(prices, from.currency, to).None? {
      OverError(from.value, prices[FindPrice(prices, to, from.currency).value].value);
    }
  }

  lemma {:induction false} MulScaleError(a: real, b: real, r: real, bound: real)
    requires Abs(a - b) <= bound
    ensures Abs(Mul(a, r) - Mul(b, r)) <= Mul(Abs(r), bound)
  {
    ScaleError(a, b, r, bound);
  }

  lemma {:induction false} MulAssociates(a: real, b: real, c: real)
    ensures Mul(Mul(a, b), c) == Mul(a, Mul(b, c))
  {
  }

  lemma {:induction false} ChainErrors(v: real, r1: real, u: real, r2: real, out: real, e1: real, e2: real)
    requires Near(u, v, r1, e1) && Near(out, u, r2, e2)
    ensures Near(out, v, Mul(r1, r2), e2 + Mul(Abs(r2), e1))
  {
    MulScaleError(u, Mul(v, r1), r2, e1);
    MulAssociates(v, r1, r2);
    hide Mul;
  }

  /** The recursion is one level deep. */
  lemma {:induction false} ConvertRecursesOnce(prices: seq<Price>, from: Amount, to: string)
    ensures from.currency == "USD" || to == "USD" ==> Convert(prices, from, to) == Hop(prices, from, to)
    ensures from.currency != "USD" && to != "USD" && Hop(prices, from, "USD").Converted?
            ==> Convert(prices, from, to) == Hop(prices, Hop(prices, from, "USD").amount, to)
    ensures Convert(prices, from, to).Converted? ==> Convert(prices, from, to).amount.currency == to
  {
  }

  /** Through USD, the first hop's error is scaled by the second rate and the second hop's is added. */
  lemma {:induction false} TwoHopError(prices: seq<Price>, from: Amount, to: string, r1: real, r2: real)
    requires from.currency != "USD" && to != "USD"
    requires Rate(prices, from.currency, "USD") == Some(r1) && Rate(prices, "USD", to) == Some(r2)
    ensures var usd, out := Hop(prices, from, "USD"), Convert(prices, from, to);
            && usd.Converted? && out.Converted?
            && Near(out.amount.value, from.value, Mul(r1, r2),
                    HopBound(prices, usd.amount, to) + Mul(Abs(r2), HopBound(prices, from, "USD")))
  {
    hide *;
    ConvertRecursesOnce(prices, from, to);
    HopError(prices, from, "USD", r1);
    var usd := Hop(prices, from, "USD").amount;
    HopError(prices, usd, to, r2);
    ChainErrors(from.value, r1, usd.value, r2, Hop(prices, usd, to).amount.value,
                HopBound(prices, from, "USD"), HopBound(prices, usd, to));
  }

  ghost predicate AllPositive(prices: seq<Price>) {
    forall i :: 0 <= i < |prices| ==> prices[i].value > 0.0
  }

  lemma {:induction false} PositiveReciprocal(p: real)
    requires p > 0.0
    ensures 1.0 / p > 0.0 && 1.0 / p * p == 1.0
  {
    Cancel(1.0, p);
  }

  lemma {:induction false} Dp8Monotone(x: real, y: real)
    requires x <= y
    ensures Dp8(x) <= Dp8(y)
  {
    RoundToMonotone(x, y, TEN8);
  }

  lemma {:induction false} InverseIsNonNegative(p: real)
    requires p > 0.0
    ensures Inverse(p) >= 0.0
  {
    PositiveReciprocal(p);
    RoundToMonotone(0.0, 1.0 / p, TEN20);
    RoundToOnGrid(0.0, TEN20, 0);
  }

  lemma {:induction false} ScaledOrder(q: real, v: real, w: real)
    requires q >= 0.0 && v <= w
    ensures q * v <= q * w && v * q <= w * q
  {
    MultiplyMonotone(v, w, q);
  }

  lemma {:induction false} TimesMonotone(p: real, v: real, w: real)
    requires p > 0.0 && v <= w
    ensures Times(v, p) <= Times(w, p)
  {
    ScaledOrder(p, v, w);
    Dp8Monotone(Mul(v, p), Mul(w, p));
  }

  lemma {:induction false} OverMonotone(p: real, v: real, w: real)
    requires p > 0.0 && v <= w
    ensures Over(v, p) <= Over(w, p)
  {
    InverseIsNonNegative(p);
    ScaledOrder(Inverse(p), v, w);
    Dp8Monotone(Mul(Inverse(p), v), Mul(Inverse(p), w));
  }

  lemma {:induction false} HopMonotone(prices: seq<Price>, currency: string, v: real, w: real, to: string)
    requires AllPositive(prices) && v <= w && Hop(prices, Amount(currency, v), to).Converted?
    ensures Hop(prices, Amount(currency, w), to).Converted?
    ensures Hop(prices, Amount(currency, v), to).amount.value <= Hop(prices, Amount(currency, w), to).amount.value
  {
    var direct := FindPrice(prices, currency, to);
    if direct.Some? {
      TimesMonotone(prices[direct.value].value, v, w);
    } else {
      OverMonotone(prices[FindPrice(prices, to, currency).value].value, v, w);
    }
  }

  /** With positive prices a larger amount never converts to less. */
  lemma {:induction false} ConvertMonotone(prices: seq<Price>, currency: string, v: real, w: real, to: string)
    requires AllPositive(prices) && v <= w && Convert(prices, Amount(currency, v), to).Converted?
    ensures Convert(prices, Amount(currency, w), to).Converted?
    ensures Convert(prices, Amount(currency, v), to).amount.value
            <= Convert(prices, Amount(currency, w), to).amount.value
  {
    if currency != "USD" && to != "USD" {
      HopMonotone(prices, currency, v, w, "USD");
      HopMonotone(prices, "USD", Hop(prices, Amount(currency, v), "USD").amount.value,
                  Hop(prices, Amount(currency, w), "USD").amount.value, to);
    } else {
      HopMonotone(prices, currency, v, w, to);
    }
  }

  /** `convert` fails only for a missing price, and then for exactly the hop that has none. */
  lemma {:induction false} ConvertFailsExactly(prices: seq<Price>, from: Amount, to: string)
    ensures Convert(prices, from, to).NoPrice? <==>
            if from.currency != "USD" && to != "USD"
            then !HasRate(prices, from.currency, "USD") || !HasRate(prices, "USD", to)
            else !HasRate(prices, from.currency, to)
  {
  }

  // ---------------------------------------------------------------- in digits

  /** r is x rounded to the grid of this many steps to the unit, ties away from zero. */
  predicate IsRounded(r: real, x: real, steps: real) {
    && (r * steps).Floor as real == r * steps
    && if x >= 0.0 then -0.5 < r * steps - x * steps <= 0.5 else -0.5 <= r * steps - x * steps < 0.5
  }

  lemma {:induction false} RoundToIsRounded(x: real, scale: real)
    requires scale > 0.0
    ensures IsRounded(RoundTo(x, scale), x, scale)
  {
    var n := Round(x * scale);
    assert x >= 0.0 ==> x * scale >= 0.0;
    assert x < 0.0 ==> x * scale < 0.0;
    RoundExactly(x * scale, n);
    hide Round;
    assert RoundTo(x, scale) * scale == n as real;
  }

  /** The inverse of a price is kept to twenty places. */
  lemma {:induction false} InverseColumns(p: real)
    requires p != 0.0
    ensures IsRounded(Inverse(p), 1.0 / p, 100000000000000000000.0)
  {
    RoundToIsRounded(1.0 / p, TEN20);
  }

  /** Row i is the first with this currency and base. */
  predicate FirstPrice(prices: seq<Price>, currency: string, base: string, i: nat) {
    && i < |prices| && prices[i].currency == currency && prices[i].base == base
    && forall j :: 0 <= j < i ==> prices[j].currency != currency || prices[j].base != base
  }

  lemma {:induction false} FoundIsFirstPrice(prices: seq<Price>, currency: string, base: string)
    ensures forall i: nat :: FirstPrice(prices, currency, base, i) <==> FindPrice(prices, currency, base) == Some(i)
  {
    var found := FindPrice(prices, currency, base);
    if found.Some? { assert prices[found.value].currency == currency; }
    hide FindPrice;
  }

  /** One hop: the price of the input in the output if there is one, rounded to eight places; only failing that the
      inverse of the price of the output in the input. */
  lemma {:induction false} HopColumns(prices: seq<Price>, from: Amount, to: string, i: nat)
    ensures FirstPrice(prices, from.currency, to, i) ==>
              var out := Hop(prices, from, to);
              && out.Converted? && out.amount.currency == to
              && IsRounded(out.amount.value, Mul(from.value, prices[i].value), 100000000.0)
    ensures FirstPrice(prices, to, from.currency, i) && (forall j: nat :: !FirstPrice(prices, from.currency, to, j)) ==>
              var p, out := prices[i].value, Hop(prices, from, to);
              if p == 0.0 then out == NotFinite(to)
              else
                && out.Converted? && out.amount.currency == to
                && IsRounded(out.amount.value, Mul(Inverse(p), from.value), 100000000.0)
    ensures (forall j: nat ::
               !FirstPrice(prices, from.currency, to, j) && !FirstPrice(prices, to, from.currency, j)) ==>
              Hop(prices, from, to) == NoPrice(from.currency, to)
  {
    FoundIsFirstPrice(prices, from.currency, to);
    FoundIsFirstPrice(prices, to, from.currency);
    hide FirstPrice, IsRounded, FindPrice, Inverse, Mul, Dp8;
    forall x { Dp8IsRounded(x); }
  }

  lemma {:induction false} Dp8IsRounded(x: real)
    ensures IsRounded(Dp8(x), x, 100000000.0)
  {
    RoundToIsRounded(x, TEN8);
  }

  /** Examples: a tie in the ninth place goes up, and an inverse is rounded at the eighth. */
  lemma {:induction false} HopExamples(coin: string)
    requires coin != "USD"
    ensures Hop([Price(coin, "USD", 0.5, "")], Amount(coin, 0.00000003), "USD") == Converted(Amount("USD", 0.00000002))
    ensures Hop([Price(coin, "USD", 3.0, "")], Amount("USD", 1.0), coin) == Converted(Amount(coin, 0.33333333))
    ensures Hop([Price(coin, "USD", 0.0, "")], Amount("USD", 1.0), coin) == NotFinite(coin)
  {
    RoundToNearest(1.0 / 3.0, 0.33333333333333333333, TEN20, 33333333333333333333);
  }

  /** Example: two coins at 30,000 and 300 dollars; two of the one are worth two hundred of the other. */
  lemma {:induction false} TwoHopExample()
    ensures var prices := [Price("BTC", "USD", 30000.0, ""), Price("BCH", "USD", 300.0, "")];
            Convert(prices, Amount("BTC", 2.0), "BCH") == Converted(Amount("BCH", 200.0))
  {
    var prices := [Price("BTC", "USD", 30000.0, ""), Price("BCH", "USD", 300.0, "")];
    ConvertRecursesOnce(prices, Amount("BTC", 2.0), "BCH");
    assert FindPrice(prices, "BTC", "USD") == Some(0);
    assert FindPrice(prices, "USD", "BCH") == None;
    assert FindPrice(prices, "BCH", "USD") == Some(1);
    RoundToOnGrid(60000.0, TEN8, 6000000000000);
    assert Hop(prices, Amount("BTC", 2.0), "USD") == Converted(Amount("USD", 60000.0));
    RoundToNearest(1.0 / 300.0, 0.00333333333333333333, TEN20, 333333333333333333);
    RoundToNearest(199.9999999999999998, 200.0, TEN8, 20000000000);
  }
}
