/** Charging several outputs separately against charging their total. */
module Quotes {
  import opened Decimals
  import opened Prices
  import opened Satoshis

  /** What is charged, in base units of an eight-decimal coin, for one output. */
  function Charge(prices: seq<Price>, currency: string, value: real, coin: string): int {
    match Convert(prices, Amount(currency, value), coin)
    case Converted(amount) => ToSatoshis(amount.value, 8)
    case _ => 0
  }

  function Total(values: seq<real>): real {
    if values == [] then 0.0 else Total(values[..|values| - 1]) + values[|values| - 1]
  }

  function TotalCharge(prices: seq<Price>, currency: string, values: seq<real>, coin: string): int {
    if values == [] then 0
    else TotalCharge(prices, currency, values[..|values| - 1], coin)
         + Charge(prices, currency, values[|values| - 1], coin)
  }

  /** What is charged is the converted amount in base units, with its fraction dropped. */
  lemma {:induction false} ChargeColumns(prices: seq<Price>, currency: string, value: real, coin: string)
    ensures var out := Convert(prices, Amount(currency, value), coin);
            out.Converted? ==>
              IsTruncated(Charge(prices, currency, value, coin), Mul(out.amount.value, 100000000.0))
  {
    var out := Convert(prices, Amount(currency, value), coin);
    if out.Converted? { ToSatoshisTruncates(out.amount.value, 8); }
    PowersOfTen();
    hide Convert, IsTruncated;
  }

  /** Both totals take every output once. */
  lemma {:induction false} TotalsAdd(prices: seq<Price>, currency: string, values: seq<real>, v: real, coin: string)
    ensures Total([]) == 0.0 && TotalCharge(prices, currency, [], coin) == 0
    ensures Total(values + [v]) == Total(values) + v
    ensures TotalCharge(prices, currency, values + [v], coin) ==
            TotalCharge(prices, currency, values, coin) + Charge(prices, currency, v, coin)
  {
    assert (values + [v])[..|values|] == values;
  }

  /** Base units per unit of the input, when one hop is enough. */
  ghost function UnitRate(prices: seq<Price>, currency: string, coin: string): real {
    var direct, inverse := FindPrice(prices, currency, coin), FindPrice(prices, coin, currency);
    if direct.Some? then Mul(prices[direct.value].value, TEN8)
    else if inverse.Some? && prices[inverse.value].value != 0.0 then Mul(Inverse(prices[inverse.value].value), TEN8)
    else 0.0
  }

  /** An eight-place quote is already a whole number of base units, so truncation takes nothing away. */
  lemma {:induction false} ChargeOfRounded(x: real)
    ensures ToSatoshis(Dp8(x), 8) == Round(x * TEN8)
  {
    hide Round, Trunc;
    PowersOfTen();
    TruncWhole(Dp8(x) * TEN8, Round(x * TEN8));
  }

  lemma {:induction false} NearestUnit(x: real, v: real, p: real)
    requires x == v * p
    ensures Abs(Round(x * TEN8) as real - Mul(v, Mul(p, TEN8))) <= 0.5
  {
    assert x * TEN8 == v * (p * TEN8);
  }

  lemma {:induction false} TimesCharge(v: real, p: real)
    ensures Abs(ToSatoshis(Times(v, p), 8) as real - Mul(v, Mul(p, TEN8))) <= 0.5
  {
    hide ToSatoshis, Dp8, Round;
    ChargeOfRounded(Mul(v, p));
    NearestUnit(Mul(v, p), v, p);
  }

  lemma {:induction false} OverCharge(v: real, p: real)
    requires p != 0.0
    ensures Abs(ToSatoshis(Over(v, p), 8) as real - Mul(v, Mul(Inverse(p), TEN8))) <= 0.5
  {
    hide ToSatoshis, Dp8, Round, Inverse;
    ChargeOfRounded(Mul(Inverse(p), v));
    NearestUnit(Mul(Inverse(p), v), v, Inverse(p));
  }

  /** One output is charged to the nearest base unit. */
  lemma {:induction false} ChargeError(prices: seq<Price>, currency: string, v: real, coin: string)
    requires (currency == "USD" || coin == "USD") && Rate(prices, currency, coin).Some?
    ensures Abs(Charge(prices, currency, v, coin) as real - Mul(v, UnitRate(prices, currency, coin))) <= 0.5
  {
    hide ToSatoshis, Times, Over, Inverse, Mul, Abs;
    var direct, inverse := FindPrice(prices, currency, coin), FindPrice(prices, coin, currency);
    if direct.Some? {
      TimesCharge(v, prices[direct.value].value);
    } else {
      OverCharge(v, prices[inverse.value].value);
    }
  }

  lemma {:induction false} AddTerm(sum: real, total: real, v: real, rate: real, last: real, bound: real)
    requires Abs(sum - Mul(total, rate)) <= bound && Abs(last - Mul(v, rate)) <= 0.5
    ensures Abs(sum + last - Mul(total + v, rate)) <= bound + 0.5
  {
    assert Mul(total + v, rate) == Mul(total, rate) + Mul(v, rate);
  }

  lemma {:induction false} SumError(prices: seq<Price>, currency: string, values: seq<real>, coin: string)
    requires (currency == "USD" || coin == "USD") && Rate(prices, currency, coin).Some?
    ensures Abs(TotalCharge(prices, currency, values, coin) as real
                - Mul(Total(values), UnitRate(prices, currency, coin)))
            <= |values| as real * 0.5
  {
    hide Charge, UnitRate, Rate, Mul;
    if values == [] {
      ZeroTimes(UnitRate(prices, currency, coin));
    } else {
      var init, v := values[..|values| - 1], values[|values| - 1];
      SumError(prices, currency, init, coin);
      ChargeError(prices, currency, v, coin);
      AddTerm(TotalCharge(prices, currency, init, coin) as real, Total(init), v, UnitRate(prices, currency, coin),
              Charge(prices, currency, v, coin) as real, |init| as real * 0.5);
    }
  }

  lemma {:induction false} ZeroTimes(r: real)
    ensures Mul(0.0, r) == 0.0
  {
  }

  /** Converting n outputs one by one and adding up the base units differs from converting the total by at
      most (n + 1) / 2 base units. */
  lemma {:induction false} SplitBound(prices: seq<Price>, currency: string, values: seq<real>, coin: string)
    requires (currency == "USD" || coin == "USD") && Rate(prices, currency, coin).Some?
    ensures var apart := TotalCharge(prices, currency, values, coin);
            var together := Charge(prices, currency, Total(values), coin);
            -(|values| + 1) <= 2 * (apart - together) <= |values| + 1
  {
    hide Charge, UnitRate, Rate, Mul, TotalCharge, Total;
    SumError(prices, currency, values, coin);
    ChargeError(prices, currency, Total(values), coin);
  }
}
