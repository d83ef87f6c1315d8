/** Payment options made from a payment request's template, and recomputed when the invoice is refreshed. */
module PaymentOptions {
  import opened Wrappers
  import opened Decimals
  import opened Prices
  import opened Satoshis

  datatype To = To(address: string, currency: string, amount: real)

  datatype Template = Template(currency: string, chain: Option<string>, to: seq<To>)
  {
    /** A missing or empty chain counts as not given. */
    predicate HasChain() {
      chain.Some? && chain.value != ""
    }

    function ChainOrCurrency(): string {
      if HasChain() then chain.value else currency
    }
  }

  datatype Output = Output(address: string, amount: int)

  datatype PaymentOption = PaymentOption(invoiceUid: string, currency: string, chain: string, outputs: seq<Output>)

  /** Base units charged for an entry in a currency on a chain; None when conversion or the plugin lookup throws. */
  type Quote = (To, string, string) -> Option<int>

  /** The quote the server makes: `convert` at current prices, then `toSatoshis` of the coin's plugin. */
  function CurrentQuote(prices: seq<Price>, decimals: map<(string, string), nat>): Quote {
    (to: To, currency: string, chain: string) =>
      var converted := Convert(prices, Amount(to.currency, to.amount), currency);
      if converted.Converted? && (currency, chain) in decimals
      then Some(ToSatoshis(converted.amount.value, decimals[(currency, chain)]))
      else None
  }

  /** Every entry can be quoted. */
  predicate Quoted(to: seq<To>, currency: string, chain: string, quote: Quote) {
    forall j :: 0 <= j < |to| ==> quote(to[j], currency, chain).Some?
  }

  /** Each output names the address of its own entry and the base units quoted for it. */
  predicate Charges(outputs: seq<Output>, to: seq<To>, currency: string, chain: string, quote: Quote) {
    && |outputs| == |to|
    && forall j :: 0 <= j < |to| ==>
         outputs[j].address == to[j].address && quote(to[j], currency, chain) == Some(outputs[j].amount)
  }

  /** The option is made from template entry t, on the chain it names or, if it names none, that of its currency. */
  predicate MadeFrom(option: PaymentOption, uid: string, t: Template, quote: Quote) {
    && option.invoiceUid == uid && option.currency == t.currency
    && option.chain == (if t.chain.Some? && t.chain.value != "" then t.chain.value else t.currency)
    && Charges(option.outputs, t.to, option.currency, option.chain, quote)
  }

  function ComputeOutputs(to: seq<To>, currency: string, chain: string, quote: Quote): (r: Option<seq<Output>>)
    ensures r.Some? <==> Quoted(to, currency, chain, quote)
    ensures r.Some? ==> Charges(r.value, to, currency, chain, quote)
  {
    if to == [] then Some([])
    else
      var amount, rest := quote(to[0], currency, chain), ComputeOutputs(to[1..], currency, chain, quote);
      if amount.None? || rest.None? then None else Some([Output(to[0].address, amount.value)] + rest.value)
  }

  /** `paymentRequestToPaymentOptions`: one row per template entry, or nothing at all if any quote throws. */
  function Fresh(uid: string, template: seq<Template>, quote: Quote): (r: Option<seq<PaymentOption>>)
    ensures r.Some? <==> forall i :: 0 <= i < |template| ==>
              var t := template[i];
              Quoted(t.to, t.currency, if t.chain.Some? && t.chain.value != "" then t.chain.value else t.currency,
                     quote)
    ensures r.Some? ==> |r.value| == |template|
    ensures r.Some? ==> forall i :: 0 <= i < |template| ==> MadeFrom(r.value[i], uid, template[i], quote)
    ensures r.Some? ==> forall i :: 0 <= i < |template| ==>
              var t := template[i]; var outputs := ComputeOutputs(t.to, t.currency, t.ChainOrCurrency(), quote);
              outputs.Some? && r.value[i] == PaymentOption(uid, t.currency, t.ChainOrCurrency(), outputs.value)
  {
    if template == [] then Some([])
    else
      var t, rest := template[0], Fresh(uid, template[1..], quote);
      var outputs := ComputeOutputs(t.to, t.currency, t.ChainOrCurrency(), quote);
      if outputs.None? || rest.None? then None
      else Some([PaymentOption(uid, t.currency, t.ChainOrCurrency(), outputs.value)] + rest.value)
  }

  // ---------------------------------------------------------------- refreshing

  predicate Matches(t: Template, currency: string, chain: string) {
    t.currency == currency && (!t.HasChain() || t.chain.value == chain)
  }

  function FindTemplate(template: seq<Template>, currency: string, chain: string, from: nat := 0): (r: Option<nat>)
    requires from <= |template|
    ensures r.Some? ==> from <= r.value < |template| && Matches(template[r.value], currency, chain)
    ensures forall j :: from <= j < (if r.Some? then r.value else |template|) ==> !Matches(template[j], currency, chain)
    decreases |template| - from
  {
    if from == |template| then None
    else if Matches(template[from], currency, chain) then Some(from)
    else FindTemplate(template, currency, chain, from + 1)
  }

  predicate SameKey(a: PaymentOption, b: PaymentOption) {
    a.invoiceUid == b.invoiceUid && a.currency == b.currency && a.chain == b.chain
  }

  function FindOption(options: seq<PaymentOption>, key: PaymentOption, from: nat := 0): (r: Option<nat>)
    requires from <= |options|
    ensures r.Some? ==> from <= r.value < |options| && SameKey(options[r.value], key)
    ensures forall j :: from <= j < (if r.Some? then r.value else |options|) ==> !SameKey(options[j], key)
    decreases |options| - from
  {
    if from == |options| then None
    else if SameKey(options[from], key) then Some(from)
    else FindOption(options, key, from + 1)
  }

  function RowsOf(options: seq<PaymentOption>, uid: string): seq<PaymentOption> {
    if options == [] then []
    else (if options[0].invoiceUid == uid then [options[0]] else []) + RowsOf(options[1..], uid)
  }

  /** The table after one pass of the loop; None when it throws. */
  function RefreshOne(options: seq<PaymentOption>, row: PaymentOption, template: seq<Template>,
          quote: Quote): Option<seq<PaymentOption>> {
    var found := FindTemplate(template, row.currency, row.chain);
    if found.None? then Some(options)
    else
      var outputs := ComputeOutputs(template[found.value].to, row.currency, row.chain, quote);
      var record := FindOption(options, row);
      if outputs.None? || record.None? then None
      else Some(options[record.value := options[record.value].(outputs := outputs.value)])
  }

  datatype Refreshed = Refreshed(options: seq<PaymentOption>, completed: bool)

  /** The whole loop: a throw leaves the earlier updates in place and the invoice's expiry where it was. */
  function Refresh(options: seq<PaymentOption>, rows: seq<PaymentOption>, template: seq<Template>,
          quote: Quote): Refreshed {
    if rows == [] then Refreshed(options, true)
    else
      var before := Refresh(options, rows[..|rows| - 1], template, quote);
      if !before.completed then before
      else
        match RefreshOne(before.options, rows[|rows| - 1], template, quote)
        case None => Refreshed(before.options, false)
        case Some(after) => Refreshed(after, true)
  }

  class OptionStore {
    var options: seq<PaymentOption>
    var expiry: map<string, int>

    constructor ()
      ensures options == [] && expiry == map[]
    {
      options, expiry := [], map[];
    }
  }

  /** `refreshInvoice`; false when it throws. It throws at once if the invoice, or its payment request, is missing; a
      request without a template is one with an empty template. */
  method RefreshInvoice(store: OptionStore, uid: string, invoiceExists: bool, request: Option<seq<Template>>,
          quote: Quote, now: int)
    returns (ok: bool)
    modifies store
    ensures if !invoiceExists || request.None? then store.options == old(store.options) && !ok
            else
              var r := Refresh(old(store.options), RowsOf(old(store.options), uid), request.value, quote);
              store.options == r.options && ok == r.completed
    ensures store.expiry == if ok then old(store.expiry)[uid := now + 15 * 60] else old(store.expiry)
  {
    if !invoiceExists {
      return false;
    }
    var paymentOptions := RowsOf(store.options, uid);
    if request.None? {
      return false;
    }
    var template := request.value;
    ghost var start := store.options;
    var n := 0;
    while n < |paymentOptions|
      invariant 0 <= n <= |paymentOptions|
      invariant Refresh(start, paymentOptions[..n], template, quote) == Refreshed(store.options, true)
      invariant store.expiry == old(store.expiry)
    {
      var option := paymentOptions[n];
      RefreshSnoc(start, paymentOptions, n, template, quote);
      n := n + 1;
      var found := FindTemplate(template, option.currency, option.chain);
      if found.None? {
        continue;
      }
      var outputs := ComputeOutputs(template[found.value].to, option.currency, option.chain, quote);
      var record := FindOption(store.options, option);
      if outputs.None? || record.None? {
        RefreshStops(start, paymentOptions, n, template, quote);
        return false;
      }
      store.options := store.options[record.value := store.options[record.value].(outputs := outputs.value)];
    }
    assert paymentOptions[..n] == paymentOptions;
    store.expiry := store.expiry[uid := now + 15 * 60];
    return true;
  }

  lemma {:induction false} RefreshSnoc(options: seq<PaymentOption>, rows: seq<PaymentOption>, n: nat,
          template: seq<Template>, quote: Quote)
    requires n < |rows|
    ensures var before := Refresh(options, rows[..n], template, quote);
            Refresh(options, rows[..n + 1], template, quote) ==
            if !before.completed then before
            else
              match RefreshOne(before.options, rows[n], template, quote)
              case None => Refreshed(before.options, false)
              case Some(after) => Refreshed(after, true)
  {
    assert rows[..n + 1][..n] == rows[..n];
  }

  lemma {:induction false} RefreshStops(options: seq<PaymentOption>, rows: seq<PaymentOption>, n: nat,
          template: seq<Template>, quote: Quote)
    requires n <= |rows| && !Refresh(options, rows[..n], template, quote).completed
    ensures Refresh(options, rows, template, quote) == Refresh(options, rows[..n], template, quote)
    decreases |rows| - n
  {
    if n == |rows| {
      assert rows[..n] == rows;
    } else {
      RefreshSnoc(options, rows, n, template, quote);
      RefreshStops(options, rows, n + 1, template, quote);
    }
  }

  // ---------------------------------------------------------------- refreshing, row by row

  /** What a refresh makes of one row on its own; None when it throws for it. */
  function Own(row: PaymentOption, template: seq<Template>, quote: Quote): Option<PaymentOption> {
    var found := FindTemplate(template, row.currency, row.chain);
    if found.None? then Some(row)
    else
      var outputs := ComputeOutputs(template[found.value].to, row.currency, row.chain, quote);
      if outputs.None? then None else Some(row.(outputs := outputs.value))
  }

  /** No two rows of the invoice have the same currency and chain. */
  ghost predicate KeyedApart(table: seq<PaymentOption>, uid: string) {
    forall s, t :: 0 <= s < t < |table| && table[s].invoiceUid == uid ==> !SameKey(table[s], table[t])
  }

  /** The rows in `done` as a refresh makes them, the others as they were. */
  ghost predicate Partly(table: seq<PaymentOption>, now: seq<PaymentOption>, done: seq<PaymentOption>,
          template: seq<Template>, quote: Quote) {
    && |now| == |table|
    && (forall p :: p in done ==> Own(p, template, quote).Some?)
    && forall t :: 0 <= t < |table| ==>
         now[t] == if table[t] in done then Own(table[t], template, quote).value else table[t]
  }

  lemma {:induction false} RowsOfMembers(table: seq<PaymentOption>, uid: string)
    ensures forall p :: p in RowsOf(table, uid) <==> p in table && p.invoiceUid == uid
    decreases |table|
  {
    if table != [] {
      RowsOfMembers(table[1..], uid);
      assert forall p :: p in table <==> p == table[0] || p in table[1..];
    }
  }

  /** The record a pass updates is the row it was started for. */
  lemma {:induction false} FindsItsRecord(table: seq<PaymentOption>, now: seq<PaymentOption>, k: nat)
    requires k < |table| == |now| && KeyedApart(table, table[k].invoiceUid)
    requires forall t :: 0 <= t < |table| ==> SameKey(now[t], table[t])
    ensures FindOption(now, table[k]) == Some(k)
  {
    forall t | 0 <= t < k
      ensures !SameKey(now[t], table[k])
    {
      assert SameKey(now[t], table[t]);
      if table[t].invoiceUid == table[k].invoiceUid { assert !SameKey(table[t], table[k]); }
    }
    assert SameKey(now[k], table[k]);
  }

  lemma {:induction false} OwnKeepsKey(row: PaymentOption, template: seq<Template>, quote: Quote)
    ensures Own(row, template, quote).Some? ==> SameKey(Own(row, template, quote).value, row)
  {
  }

  /** One pass of the loop refreshes its own row and no other. */
  lemma {:induction false} RefreshPass(table: seq<PaymentOption>, now: seq<PaymentOption>, done: seq<PaymentOption>,
          k: nat, template: seq<Template>, quote: Quote)
    requires k < |table| && KeyedApart(table, table[k].invoiceUid) && Partly(table, now, done, template, quote)
    requires Own(table[k], template, quote).Some?
    ensures var next := RefreshOne(now, table[k], template, quote);
            next.Some? && Partly(table, next.value, done + [table[k]], template, quote)
  {
    var row := table[k];
    forall t | 0 <= t < |table|
      ensures SameKey(now[t], table[t])
    {
      OwnKeepsKey(table[t], template, quote);
    }
    FindsItsRecord(table, now, k);
    forall t | 0 <= t < |table| && t != k
      ensures table[t] != row
    {
      if t < k { assert table[t].invoiceUid == row.invoiceUid ==> !SameKey(table[t], row); }
      else { assert !SameKey(row, table[t]); }
    }
    hide FindTemplate, FindOption, KeyedApart;
  }

  lemma {:induction false} RefreshNext(table: seq<PaymentOption>, rows: seq<PaymentOption>, n: nat, k: nat,
          template: seq<Template>, quote: Quote)
    requires n < |rows| && k < |table| && table[k] == rows[n] && KeyedApart(table, table[k].invoiceUid)
    requires Own(rows[n], template, quote).Some?
    requires var r := Refresh(table, rows[..n], template, quote);
             r.completed && Partly(table, r.options, rows[..n], template, quote)
    ensures var r := Refresh(table, rows[..n + 1], template, quote);
            r.completed && Partly(table, r.options, rows[..n + 1], template, quote)
  {
    hide Partly, RefreshOne, Own, KeyedApart, Refresh;
    RefreshSnoc(table, rows, n, template, quote);
    RefreshPass(table, Refresh(table, rows[..n], template, quote).options, rows[..n], k, template, quote);
    assert rows[..n] + [rows[n]] == rows[..n + 1];
  }

  lemma {:induction false} RefreshPrefix(table: seq<PaymentOption>, rows: seq<PaymentOption>, uid: string,
          template: seq<Template>, quote: Quote, n: nat)
    requires KeyedApart(table, uid) && n <= |rows|
    requires forall p :: p in rows ==> p in table && p.invoiceUid == uid && Own(p, template, quote).Some?
    ensures var r := Refresh(table, rows[..n], template, quote);
            r.completed && Partly(table, r.options, rows[..n], template, quote)
    decreases n
  {
    if n > 0 {
      hide KeyedApart, Refresh, Partly, Own;
      RefreshPrefix(table, rows, uid, template, quote, n - 1);
      assert rows[n - 1] in rows;
      var k: nat :| k < |table| && table[k] == rows[n - 1];
      RefreshNext(table, rows, n - 1, k, template, quote);
    }
  }

  /** A refresh that throws for no row, of an invoice whose rows differ in currency or chain, gives each of its rows
      its own outputs, wherever in the table they stand, and touches no other row. */
  lemma {:induction false} RefreshIsOwn(table: seq<PaymentOption>, uid: string, template: seq<Template>,
          quote: Quote)
    requires KeyedApart(table, uid)
    requires forall t :: 0 <= t < |table| && table[t].invoiceUid == uid ==> Own(table[t], template, quote).Some?
    ensures var r := Refresh(table, RowsOf(table, uid), template, quote);
            && r.completed && |r.options| == |table|
            && forall t :: 0 <= t < |table| ==>
                 r.options[t] == if table[t].invoiceUid == uid then Own(table[t], template, quote).value else table[t]
  {
    var rows := RowsOf(table, uid);
    RowsOfMembers(table, uid);
    hide RowsOf, Refresh, Own, KeyedApart;
    RefreshPrefix(table, rows, uid, template, quote, |rows|);
    assert rows[..|rows|] == rows;
    assert forall t :: 0 <= t < |table| ==> (table[t] in rows <==> table[t].invoiceUid == uid);
  }

  /** Entry j is the first of this currency that names this chain or none. */
  predicate FirstMatch(template: seq<Template>, j: nat, currency: string, chain: string) {
    && j < |template| && Names(template[j], currency, chain)
    && forall i :: 0 <= i < j ==> !Names(template[i], currency, chain)
  }

  predicate Names(t: Template, currency: string, chain: string) {
    t.currency == currency && (t.chain == None || t.chain == Some("") || t.chain == Some(chain))
  }

  /** The row is charged as its first matching entry says at these quotes; with no match it stays as it is. */
  ghost predicate RefreshedRow(before: PaymentOption, after: PaymentOption, template: seq<Template>, quote: Quote) {
    && after.invoiceUid == before.invoiceUid && after.currency == before.currency && after.chain == before.chain
    && ((forall j: nat :: !FirstMatch(template, j, before.currency, before.chain)) ==> after == before)
    && forall j: nat :: FirstMatch(template, j, before.currency, before.chain) ==>
         Charges(after.outputs, template[j].to, before.currency, before.chain, quote)
  }

  ghost predicate RowQuoted(row: PaymentOption, template: seq<Template>, quote: Quote) {
    forall j: nat :: FirstMatch(template, j, row.currency, row.chain) ==>
      Quoted(template[j].to, row.currency, row.chain, quote)
  }

  lemma {:induction false} FoundIsFirstMatch(template: seq<Template>, currency: string, chain: string)
    ensures forall j: nat :: FirstMatch(template, j, currency, chain) <==>
              FindTemplate(template, currency, chain) == Some(j)
  {
    var found := FindTemplate(template, currency, chain);
    assert forall t: Template :: Names(t, currency, chain) <==> Matches(t, currency, chain);
    hide FindTemplate, Names, Matches;
    if found.Some? { assert Matches(template[found.value], currency, chain); }
  }

  lemma {:induction false} OwnColumns(row: PaymentOption, template: seq<Template>, quote: Quote)
    ensures Own(row, template, quote).Some? <==> RowQuoted(row, template, quote)
    ensures Own(row, template, quote).Some? ==> RefreshedRow(row, Own(row, template, quote).value, template, quote)
  {
    FoundIsFirstMatch(template, row.currency, row.chain);
    var found := FindTemplate(template, row.currency, row.chain);
    hide FindTemplate, ComputeOutputs, Quoted, Charges, FirstMatch;
    if found.Some? {
      assert FirstMatch(template, found.value, row.currency, row.chain);
    }
  }

  /** A refresh that completes threw for none of its rows. */
  lemma {:induction false} CompletedQuotes(table: seq<PaymentOption>, rows: seq<PaymentOption>, template: seq<Template>,
          quote: Quote, n: nat)
    requires n <= |rows| && Refresh(table, rows[..n], template, quote).completed
    ensures forall i :: 0 <= i < n ==> Own(rows[i], template, quote).Some?
    decreases n
  {
    if n > 0 {
      RefreshSnoc(table, rows, n - 1, template, quote);
      CompletedQuotes(table, rows, template, quote, n - 1);
      hide Refresh, FindTemplate, FindOption, ComputeOutputs;
    }
  }

  /** A refresh of an invoice whose rows differ in currency or chain completes exactly when every output of the first
      matching entry of each of its rows can be quoted. Then each row, wherever in the table it stands, is charged as
      that entry says, and no other row changes. */
  lemma {:induction false} RefreshIsPointwise(table: seq<PaymentOption>, uid: string, template: seq<Template>,
          quote: Quote)
    requires KeyedApart(table, uid)
    ensures var r := Refresh(table, RowsOf(table, uid), template, quote);
            && (r.completed <==>
                  forall t :: 0 <= t < |table| && table[t].invoiceUid == uid ==> RowQuoted(table[t], template, quote))
            && (r.completed ==>
                  && |r.options| == |table|
                  && forall t :: 0 <= t < |table| ==>
                       if table[t].invoiceUid == uid then RefreshedRow(table[t], r.options[t], template, quote)
                       else r.options[t] == table[t])
  {
    var rows := RowsOf(table, uid);
    RowsOfMembers(table, uid);
    hide RowsOf, Refresh, Own, KeyedApart, RowQuoted, RefreshedRow;
    forall t | 0 <= t < |table| { OwnColumns(table[t], template, quote); }
    assert rows[..|rows|] == rows;
    if Refresh(table, rows, template, quote).completed {
      CompletedQuotes(table, rows, template, quote, |rows|);
      forall t | 0 <= t < |table| && table[t].invoiceUid == uid
        ensures Own(table[t], template, quote).Some?
      {
        assert table[t] in rows;
      }
    }
    if forall t :: 0 <= t < |table| && table[t].invoiceUid == uid ==> Own(table[t], template, quote).Some? {
      RefreshIsOwn(table, uid, template, quote);
    }
  }

  /** What is charged at current prices: nothing without a conversion or a plugin, and otherwise the converted amount in
      base units, the fraction of a unit dropped. */
  lemma {:induction false} CurrentQuoteColumns(prices: seq<Price>, decimals: map<(string, string), nat>, to: To,
          currency: string, chain: string)
    ensures var q := CurrentQuote(prices, decimals)(to, currency, chain);
            var converted := Convert(prices, Amount(to.currency, to.amount), currency);
            && (q.Some? <==> converted.Converted? && (currency, chain) in decimals)
            && (q.Some? ==>
                  IsTruncated(q.value, Mul(converted.amount.value, Pow10(decimals[(currency, chain)]))))
  {
    var converted := Convert(prices, Amount(to.currency, to.amount), currency);
    if converted.Converted? && (currency, chain) in decimals {
      ToSatoshisTruncates(converted.amount.value, decimals[(currency, chain)]);
    }
    hide Convert, Pow10, ToSatoshis, Mul;
  }

  // ---------------------------------------------------------------- agreement with fresh creation

  /** Each entry is the first that matches the option made from it. */
  ghost predicate SelfMatching(template: seq<Template>) {
    forall j, i :: 0 <= j < i < |template| ==>
        !Matches(template[j], template[i].currency, template[i].ChainOrCurrency())
  }

  lemma {:induction false} EachFindsItself(template: seq<Template>, i: nat)
    requires SelfMatching(template) && i < |template|
    ensures FindTemplate(template, template[i].currency, template[i].ChainOrCurrency()) == Some(i)
  {
  }

  /** Two entries for the same currency and chain cannot both come first. */
  lemma {:induction false} SelfMatchingIsDistinct(template: seq<Template>, j: nat, i: nat)
    requires SelfMatching(template) && j < i < |template|
    ensures template[j].currency != template[i].currency ||
            template[j].ChainOrCurrency() != template[i].ChainOrCurrency()
  {
  }

  /** Entry e of the template has its row at index at[e] of the table, and the invoice has no other rows. The rows may
      stand in any order, among any others, as concurrent inserts leave them. */
  ghost predicate Placed(table: seq<PaymentOption>, template: seq<Template>, uid: string, at: seq<nat>) {
    && |at| == |template|
    && (forall e, f :: 0 <= e < f < |at| ==> at[e] != at[f])
    && (forall e :: 0 <= e < |at| ==>
          && at[e] < |table| && table[at[e]].invoiceUid == uid
          && table[at[e]].currency == template[e].currency && table[at[e]].chain == template[e].ChainOrCurrency())
    && (forall t: nat :: t < |table| && table[t].invoiceUid == uid ==> t in at)
  }

  /** The placed rows are those made afresh, and all the others are as before. */
  ghost predicate Replaced(table: seq<PaymentOption>, after: seq<PaymentOption>, at: seq<nat>,
          made: seq<PaymentOption>) {
    && |after| == |table| && |made| == |at|
    && (forall e :: 0 <= e < |at| && at[e] < |after| ==> after[at[e]] == made[e])
    && (forall t: nat :: t < |table| && t !in at ==> after[t] == table[t])
  }

  lemma {:induction false} PlacedApart(table: seq<PaymentOption>, template: seq<Template>, uid: string, at: seq<nat>)
    requires SelfMatching(template) && Placed(table, template, uid, at)
    ensures KeyedApart(table, uid)
  {
    forall s, t | 0 <= s < t < |table| && table[s].invoiceUid == uid
      ensures !SameKey(table[s], table[t])
    {
      if table[t].invoiceUid == uid {
        assert s in at && t in at;
        var e :| 0 <= e < |at| && at[e] == s;
        var f :| 0 <= f < |at| && at[f] == t;
        if e < f { SelfMatchingIsDistinct(template, e, f); } else { SelfMatchingIsDistinct(template, f, e); }
      }
    }
  }

  lemma {:induction false} OwnIsMade(row: PaymentOption, template: seq<Template>, uid: string, quote: Quote,
          made: seq<PaymentOption>, e: nat)
    requires SelfMatching(template) && Fresh(uid, template, quote) == Some(made) && e < |template|
    requires row.invoiceUid == uid && row.currency == template[e].currency && row.chain == template[e].ChainOrCurrency()
    ensures Own(row, template, quote) == Some(made[e])
  {
    EachFindsItself(template, e);
  }

  /** Refreshing an invoice leaves its options as creating them now would make them, and touches no other row. */
  lemma {:induction false} RefreshAgreesWithFresh(table: seq<PaymentOption>, template: seq<Template>, uid: string,
          quote: Quote, made: seq<PaymentOption>, at: seq<nat>)
    requires SelfMatching(template) && Placed(table, template, uid, at) && Fresh(uid, template, quote) == Some(made)
    ensures var r := Refresh(table, RowsOf(table, uid), template, quote);
            r.completed && Replaced(table, r.options, at, made)
  {
    PlacedApart(table, template, uid, at);
    forall e: nat | e < |at|
      ensures Own(table[at[e]], template, quote) == Some(made[e])
    {
      OwnIsMade(table[at[e]], template, uid, quote, made, e);
    }
    hide Refresh, RowsOf, Own, SelfMatching, Fresh, KeyedApart;
    forall t: nat | t < |table| && table[t].invoiceUid == uid
      ensures Own(table[t], template, quote).Some?
    {
      assert t in at;
      var e: nat :| e < |at| && at[e] == t;
    }
    RefreshIsOwn(table, uid, template, quote);
    forall t: nat | t < |table| && t !in at
      ensures table[t].invoiceUid != uid
    {
    }
  }

  /** With prices unchanged a refresh changes no outputs. */
  lemma {:induction false} RefreshAtSamePrices(table: seq<PaymentOption>, template: seq<Template>, uid: string,
          prices: seq<Price>, decimals: map<(string, string), nat>, made: seq<PaymentOption>, at: seq<nat>)
    requires SelfMatching(template) && Placed(table, template, uid, at)
    requires Fresh(uid, template, CurrentQuote(prices, decimals)) == Some(made)
    requires forall e :: 0 <= e < |at| ==> table[at[e]] == made[e]
    ensures Refresh(table, RowsOf(table, uid), template, CurrentQuote(prices, decimals)) == Refreshed(table, true)
  {
    hide Refresh, RowsOf, SelfMatching, Fresh, CurrentQuote;
    RefreshAgreesWithFresh(table, template, uid, CurrentQuote(prices, decimals), made, at);
    var after := Refresh(table, RowsOf(table, uid), template, CurrentQuote(prices, decimals)).options;
    forall t: nat | t < |table|
      ensures after[t] == table[t]
    {
      if t in at {
        var e: nat :| e < |at| && at[e] == t;
      }
    }
    assert after == table;
  }

  // ---------------------------------------------------------------- exactly when they agree

  datatype Key = Key(currency: string, chain: Option<string>)

  ghost predicate HasKeys(template: seq<Template>, keys: seq<Key>) {
    && |template| == |keys|
    && forall i :: 0 <= i < |keys| ==> Key(template[i].currency, template[i].chain) == keys[i]
  }

  ghost predicate Agrees(template: seq<Template>, table: seq<PaymentOption>, at: seq<nat>, uid: string, quote: Quote) {
    Placed(table, template, uid, at) && Fresh(uid, template, quote).Some? ==>
      var r := Refresh(table, RowsOf(table, uid), template, quote);
      r.completed && Replaced(table, r.options, at, Fresh(uid, template, quote).value)
  }

  /** Whatever is to be paid to whom, at whatever prices, and wherever the rows stand, refreshing equals creating
      afresh. */
  ghost predicate AlwaysAgrees(keys: seq<Key>) {
    forall template, table, at, uid, quote :: HasKeys(template, keys) ==> Agrees(template, table, at, uid, quote)
  }

  /** No entry pays anybody but entry i. */
  ghost predicate PaysOnly(template: seq<Template>, i: nat) {
    forall k :: 0 <= k < |template| ==> (|template[k].to| == 0 <==> k != i)
  }

  function Bare(keys: seq<Key>, i: nat): (r: seq<Template>)
    ensures HasKeys(r, keys)
    ensures PaysOnly(r, i)
  {
    seq(|keys|, k requires 0 <= k < |keys| =>
      Template(keys[k].currency, keys[k].chain, if k == i then [To("", "", 0.0)] else []))
  }

  /** Rows for the template's entries, in order, with whatever outputs they last had. */
  ghost predicate Shaped(rows: seq<PaymentOption>, template: seq<Template>, uid: string) {
    && |rows| == |template|
    && forall i :: 0 <= i < |rows| ==>
         && rows[i].invoiceUid == uid && rows[i].currency == template[i].currency
         && rows[i].chain == template[i].ChainOrCurrency()
  }

  function EmptyRows(template: seq<Template>): (r: seq<PaymentOption>)
    ensures Shaped(r, template, "") && forall k :: 0 <= k < |r| ==> |r[k].outputs| == 0
  {
    seq(|template|, k requires 0 <= k < |template| =>
      PaymentOption("", template[k].currency, template[k].ChainOrCurrency(), []))
  }

  /** Entry i is shadowed by an earlier one and every other entry pays nobody, so no pass gives row i an output. */
  lemma {:induction false} ShadowedPass(table: seq<PaymentOption>, row: PaymentOption, template: seq<Template>,
          uid: string, quote: Quote, i: nat)
    requires Shaped(table, template, uid) && i < |table| && |table[i].outputs| == 0
    requires FindTemplate(template, template[i].currency, template[i].ChainOrCurrency()) != Some(i)
    requires PaysOnly(template, i)
    ensures var after := RefreshOne(table, row, template, quote);
            after.Some? ==> Shaped(after.value, template, uid) && |after.value[i].outputs| == 0
  {
    var found := FindTemplate(template, row.currency, row.chain);
    var record := FindOption(table, row);
    if found.Some? && record.Some? && record.value == i {
      assert row.currency == template[i].currency && row.chain == template[i].ChainOrCurrency();
      assert |template[found.value].to| == 0;
    }
    hide FindTemplate, FindOption;
  }

  lemma {:induction false} ShadowedRowStaysEmpty(rows: seq<PaymentOption>, template: seq<Template>, uid: string,
          quote: Quote, i: nat, n: nat)
    requires Shaped(rows, template, uid) && i < |rows| && n <= |rows| && |rows[i].outputs| == 0
    requires FindTemplate(template, template[i].currency, template[i].ChainOrCurrency()) != Some(i)
    requires PaysOnly(template, i)
    ensures var after := Refresh(rows, rows[..n], template, quote).options;
            Shaped(after, template, uid) && |after[i].outputs| == 0
    decreases n
  {
    if n == 0 {
      assert rows[..0] == [];
    } else {
      ShadowedRowStaysEmpty(rows, template, uid, quote, i, n - 1);
      RefreshSnoc(rows, rows, n - 1, template, quote);
      hide RefreshOne, FindTemplate, Refresh;
      ShadowedPass(Refresh(rows, rows[..n - 1], template, quote).options, rows[n - 1], template, uid, quote, i);
    }
  }

  lemma {:induction false} AllOwnRows(rows: seq<PaymentOption>, uid: string)
    requires forall p :: p in rows ==> p.invoiceUid == uid
    ensures RowsOf(rows, uid) == rows
    decreases |rows|
  {
    if rows != [] {
      assert rows[0] in rows;
      AllOwnRows(rows[1..], uid);
    }
  }

  function InPlace(n: nat): (at: seq<nat>)
    ensures |at| == n && forall e :: 0 <= e < n ==> at[e] == e
  {
    seq(n, e => e)
  }

  lemma {:induction false} ShapedIsPlaced(rows: seq<PaymentOption>, template: seq<Template>, uid: string)
    requires Shaped(rows, template, uid)
    ensures Placed(rows, template, uid, InPlace(|rows|)) && RowsOf(rows, uid) == rows
  {
    AllOwnRows(rows, uid);
    hide RowsOf;
    var at := InPlace(|rows|);
    forall t: nat | t < |rows|
      ensures t in at
    {
      assert at[t] == t;
    }
  }

  lemma {:induction false} MadeHasOutputs(template: seq<Template>, uid: string, quote: Quote, i: nat)
    requires Fresh(uid, template, quote).Some? && i < |template| && |template[i].to| > 0
    ensures |Fresh(uid, template, quote).value[i].outputs| > 0
  {
    hide Fresh;
    var t := template[i];
    var outputs := ComputeOutputs(t.to, t.currency, t.ChainOrCurrency(), quote);
    assert outputs.Some? && Fresh(uid, template, quote).value[i] ==
                            PaymentOption(uid, t.currency, t.ChainOrCurrency(), outputs.value);
    assert |outputs.value| == |t.to|;
  }

  lemma {:induction false} EmptyIsNotReplaced(table: seq<PaymentOption>, after: seq<PaymentOption>,
          made: seq<PaymentOption>, i: nat)
    requires i < |table| == |after| == |made| && |after[i].outputs| == 0 < |made[i].outputs|
    ensures !Replaced(table, after, InPlace(|table|), made)
  {
    assert InPlace(|table|)[i] == i;
  }

  lemma {:induction false} ShadowedEnd(rows: seq<PaymentOption>, template: seq<Template>, uid: string, quote: Quote,
          i: nat)
    requires Shaped(rows, template, uid) && i < |rows| && |rows[i].outputs| == 0 && PaysOnly(template, i)
    requires FindTemplate(template, template[i].currency, template[i].ChainOrCurrency()) != Some(i)
    ensures var after := Refresh(rows, rows, template, quote).options;
            |after| == |rows| && |after[i].outputs| == 0
  {
    ShadowedRowStaysEmpty(rows, template, uid, quote, i, |rows|);
    assert rows[..|rows|] == rows;
    hide Refresh, FindTemplate;
  }

  lemma {:induction false} ShadowedNeverAgrees(rows: seq<PaymentOption>, template: seq<Template>, uid: string,
          quote: Quote, i: nat)
    requires Shaped(rows, template, uid) && i < |rows| && Fresh(uid, template, quote).Some?
    requires FindTemplate(template, template[i].currency, template[i].ChainOrCurrency()) != Some(i)
    requires PaysOnly(template, i) && |rows[i].outputs| == 0
    ensures !Agrees(template, rows, InPlace(|rows|), uid, quote)
  {
    assert |template| == |rows| && |template[i].to| > 0;
    assert |Fresh(uid, template, quote).value| == |template|;
    ShapedIsPlaced(rows, template, uid);
    MadeHasOutputs(template, uid, quote, i);
    ShadowedEnd(rows, template, uid, quote, i);
    hide *;
    EmptyIsNotReplaced(rows, Refresh(rows, rows, template, quote).options, Fresh(uid, template, quote).value, i);
    Disagrees(template, rows, InPlace(|rows|), uid, quote);
  }

  lemma {:induction false} Disagrees(template: seq<Template>, table: seq<PaymentOption>, at: seq<nat>, uid: string,
          quote: Quote)
    requires Placed(table, template, uid, at) && Fresh(uid, template, quote).Some?
    requires !Replaced(table, Refresh(table, RowsOf(table, uid), template, quote).options, at,
                       Fresh(uid, template, quote).value)
    ensures !Agrees(template, table, at, uid, quote)
  {
    hide Refresh, RowsOf, Fresh, Placed, Replaced;
  }

  lemma {:induction false} ShadowedDisagrees(keys: seq<Key>, j: nat, i: nat)
    requires j < i < |keys|
    requires var t := Bare(keys, i); Matches(t[j], t[i].currency, t[i].ChainOrCurrency())
    ensures !AlwaysAgrees(keys)
  {
    hide Bare, EmptyRows, Matches, FindTemplate, Fresh, Agrees;
    var template := Bare(keys, i);
    var rows := EmptyRows(template);
    var quote: Quote := (_, _, _) => Some(0);
    FreeQuoteIsFresh("", template, quote);
    assert FindTemplate(template, template[i].currency, template[i].ChainOrCurrency()) != Some(i);
    ShadowedNeverAgrees(rows, template, "", quote, i);
  }

  lemma {:induction false} FreeOutputs(to: seq<To>, currency: string, chain: string, quote: Quote)
    requires forall t, c, h :: quote(t, c, h) == Some(0)
    ensures ComputeOutputs(to, currency, chain, quote).Some?
    decreases |to|
  {
    if to != [] { FreeOutputs(to[1..], currency, chain, quote); }
  }

  lemma {:induction false} FreeQuoteIsFresh(uid: string, template: seq<Template>, quote: Quote)
    requires forall t, c, h :: quote(t, c, h) == Some(0)
    ensures Fresh(uid, template, quote).Some?
    decreases |template|
  {
    if template != [] {
      FreeOutputs(template[0].to, template[0].currency, template[0].ChainOrCurrency(), quote);
      FreeQuoteIsFresh(uid, template[1..], quote);
    }
  }

  lemma {:induction false} SelfMatchingAgrees(template: seq<Template>, table: seq<PaymentOption>, at: seq<nat>,
          uid: string, quote: Quote)
    requires SelfMatching(template)
    ensures Agrees(template, table, at, uid, quote)
  {
    hide Refresh, SelfMatching, Fresh, Placed, Replaced;
    if Placed(table, template, uid, at) && Fresh(uid, template, quote).Some? {
      RefreshAgreesWithFresh(table, template, uid, quote, Fresh(uid, template, quote).value, at);
    }
  }

  /** Refreshing always agrees with fresh creation exactly when no entry matches the option of a later one:
      pairs distinct after defaulting, and no entry without a chain before another of its currency. */
  lemma {:induction false} RefreshAgreesExactly(keys: seq<Key>)
    ensures AlwaysAgrees(keys) <==> SelfMatching(Bare(keys, |keys|))
  {
    if SelfMatching(Bare(keys, |keys|)) {
      forall template, table, at, uid, quote | HasKeys(template, keys)
        ensures Agrees(template, table, at, uid, quote)
      {
        hide SelfMatching, Agrees, Bare;
        SameKeysSelfMatching(template, Bare(keys, |keys|), keys);
        SelfMatchingAgrees(template, table, at, uid, quote);
      }
    } else {
      var bare := Bare(keys, |keys|);
      var j, i :| 0 <= j < i < |bare| && Matches(bare[j], bare[i].currency, bare[i].ChainOrCurrency());
      var t := Bare(keys, i);
      assert Key(t[j].currency, t[j].chain) == keys[j] == Key(bare[j].currency, bare[j].chain);
      assert Key(t[i].currency, t[i].chain) == keys[i] == Key(bare[i].currency, bare[i].chain);
      ShadowedDisagrees(keys, j, i);
    }
  }

  lemma {:induction false} SameKeysSelfMatching(template: seq<Template>, other: seq<Template>, keys: seq<Key>)
    requires HasKeys(template, keys) && HasKeys(other, keys) && SelfMatching(other)
    ensures SelfMatching(template)
  {
  }
}
