/** `setPrice`: the current-price table kept beside an append-only history. */
module PriceTable {
  import opened Wrappers
  import opened Decimals
  import opened Prices

  class PriceStore {
    var prices: seq<Price>
    var records: seq<Price>

    constructor ()
      ensures prices == [] && records == []
    {
      prices, records := [], [];
    }
  }

  function Rounded(p: Price): Price {
    p.(value := Dp8(p.value))
  }

  /** The table after one call. */
  function Put(prices: seq<Price>, p: Price): seq<Price> {
    var found := FindPrice(prices, p.currency, p.base);
    if found.None? then prices + [p]
    else prices[found.value := prices[found.value].(value := p.value, source := p.source)]
  }

  /** The row it returns is the one read or created first: for a known pair, the row before the update. */
  method SetPrice(store: PriceStore, price: Price) returns (record: Price)
    modifies store
    ensures store.prices == Put(old(store.prices), Rounded(price))
    ensures store.records == old(store.records) + [Rounded(price)]
    ensures var found := FindPrice(old(store.prices), price.currency, price.base);
            record == if found.Some? then old(store.prices)[found.value] else Rounded(price)
  {
    var rounded := price.(value := Dp8(price.value));
    var isNew := false;
    var found := FindPrice(store.prices, price.currency, price.base);
    if found.None? {
      isNew := true;
      record := rounded;
      store.prices := store.prices + [rounded];
    } else {
      record := store.prices[found.value];
    }
    store.records := store.records + [rounded];
    if !isNew {
      store.prices := store.prices[found.value :=
        store.prices[found.value].(value := rounded.value, source := rounded.source)];
    }
  }

  /** The table and the history after a sequence of calls on an empty store. */
  function TableAfter(calls: seq<Price>): seq<Price> {
    if calls == [] then [] else Put(TableAfter(calls[..|calls| - 1]), Rounded(calls[|calls| - 1]))
  }

  function HistoryAfter(calls: seq<Price>): seq<Price> {
    if calls == [] then [] else HistoryAfter(calls[..|calls| - 1]) + [Rounded(calls[|calls| - 1])]
  }

  /** The last record of a pair. */
  function LastRecord(records: seq<Price>, currency: string, base: string): (r: Option<Price>)
    ensures r.Some? ==> r.value in records && r.value.currency == currency && r.value.base == base
    ensures r.None? ==> forall p :: p in records ==> p.currency != currency || p.base != base
  {
    if records == [] then None
    else
      var last := records[|records| - 1];
      if last.currency == currency && last.base == base then Some(last)
      else LastRecord(records[..|records| - 1], currency, base)
  }

  ghost predicate OneRowPerPair(prices: seq<Price>) {
    forall i, j :: 0 <= i < j < |prices| ==>
        prices[i].currency != prices[j].currency || prices[i].base != prices[j].base
  }

  /** The row a lookup finds is the last record of the pair; a pair never set has neither. */
  ghost predicate Mirrors(prices: seq<Price>, records: seq<Price>) {
    forall currency, base ::
      LookUp(prices, currency, base) == LastRecord(records, currency, base)
  }

  function LookUp(prices: seq<Price>, currency: string, base: string): Option<Price> {
    var found := FindPrice(prices, currency, base);
    if found.Some? then Some(prices[found.value]) else None
  }

  lemma {:induction false} PutLookUp(prices: seq<Price>, p: Price, currency: string, base: string)
    ensures LookUp(Put(prices, p), currency, base) ==
            if p.currency == currency && p.base == base then Some(p) else LookUp(prices, currency, base)
  {
    var after := Put(prices, p);
    assert forall j :: 0 <= j < |prices| ==> after[j].currency == prices[j].currency && after[j].base == prices[j].base;
    var before, now := FindPrice(prices, currency, base), FindPrice(after, currency, base);
    if before.Some? {
      assert now == before;
    } else if p.currency == currency && p.base == base {
      assert after[|prices|] == p && now == Some(|prices|);
    } else {
      assert now.None?;
    }
  }

  lemma {:induction false} LastRecordSnoc(records: seq<Price>, p: Price, currency: string, base: string)
    ensures LastRecord(records + [p], currency, base) ==
            if p.currency == currency && p.base == base then Some(p) else LastRecord(records, currency, base)
  {
  }

  /** The price table is the replay of its history. */
  lemma {:induction false} TableIsReplay(calls: seq<Price>)
    ensures OneRowPerPair(TableAfter(calls))
    ensures Mirrors(TableAfter(calls), HistoryAfter(calls))
    decreases |calls|
  {
    if calls != [] {
      var init, p := calls[..|calls| - 1], Rounded(calls[|calls| - 1]);
      TableIsReplay(init);
      forall currency, base
        ensures LookUp(TableAfter(calls), currency, base) == LastRecord(HistoryAfter(calls), currency, base)
      {
        PutLookUp(TableAfter(init), p, currency, base);
        LastRecordSnoc(HistoryAfter(init), p, currency, base);
      }
    }
  }

  /** History is the list of calls, each value rounded to eight places: it only grows. */
  lemma {:induction false} HistoryIsTheCalls(calls: seq<Price>)
    ensures |HistoryAfter(calls)| == |calls|
    ensures forall i :: 0 <= i < |calls| ==>
              var call, record := calls[i], HistoryAfter(calls)[i];
              && record.currency == call.currency && record.base == call.base && record.source == call.source
              && IsRounded(record.value, call.value, 100000000.0)
    decreases |calls|
  {
    hide IsRounded;
    if calls != [] {
      Dp8IsRounded(calls[|calls| - 1].value);
      HistoryIsTheCalls(calls[..|calls| - 1]);
    }
  }

  /** Conversion looks at the table only through the two lookups of each hop. */
  lemma {:induction false} HopByLookUp(first: seq<Price>, second: seq<Price>, from: Amount, to: string)
    requires LookUp(first, from.currency, to) == LookUp(second, from.currency, to)
    requires LookUp(first, to, from.currency) == LookUp(second, to, from.currency)
    ensures Hop(first, from, to) == Hop(second, from, to)
  {
  }

  lemma {:induction false} ConvertByLookUp(first: seq<Price>, second: seq<Price>, from: Amount, to: string)
    requires forall currency, base :: LookUp(first, currency, base) == LookUp(second, currency, base)
    ensures Convert(first, from, to) == Convert(second, from, to)
  {
    hide Hop;
    HopByLookUp(first, second, from, to);
    HopByLookUp(first, second, from, "USD");
    var usd := Hop(first, from, "USD");
    if usd.Converted? { HopByLookUp(first, second, usd.amount, to); }
    RateByLookUp(first, second, "USD", to);
  }

  lemma {:induction false} RateByLookUp(first: seq<Price>, second: seq<Price>, from: string, to: string)
    requires LookUp(first, from, to) == LookUp(second, from, to) && LookUp(first, to, from) == LookUp(second, to, from)
    ensures HasRate(first, from, to) == HasRate(second, from, to)
  {
  }

  /** So every conversion depends only on the last record of each pair, whatever the calls in between. */
  lemma {:induction false} ConvertDependsOnLastRecords(first: seq<Price>, second: seq<Price>, from: Amount, to: string)
    requires forall currency, base ::
               LastRecord(HistoryAfter(first), currency, base) == LastRecord(HistoryAfter(second), currency, base)
    ensures Convert(TableAfter(first), from, to) == Convert(TableAfter(second), from, to)
  {
    TableIsReplay(first);
    TableIsReplay(second);
    forall currency, base
      ensures LookUp(TableAfter(first), currency, base) == LookUp(TableAfter(second), currency, base)
    {
      assert LookUp(TableAfter(first), currency, base) == LastRecord(HistoryAfter(first), currency, base);
    }
    ConvertByLookUp(TableAfter(first), TableAfter(second), from, to);
  }
}
