# Verification of the payments server

A Dafny model of the parts of Anypay that hold state or do arithmetic, with machine-checked proofs about them.
`dafny verify dfyconfig.toml` checks everything.

## What is modelled

**Payments and invoices.** The `payments` and `invoices` tables are sequences of rows; a row's id is its index, and
`findFirst` is the least matching index. `Database.dfy` holds the operations that write them, as methods on one
mutable object; each is proved to do exactly what a function in `Lifecycle.dfy` says, errors included, and
`Columns.dfy` proves what each of those functions does to every row and column, in rows written out. The theorems are
about those functions: over whole runs (`Runs.dfy`), over every interleaving of calls cut at their awaits, with
reads as old as one likes (`Schedules.dfy`, with `CancelRaces.dfy` for a cancel among confirms, `Retries.dfy` for
confirms that die half way and `RecordRaces.dfy` for concurrent `recordPayment` calls), over lists of EVM receipts
(`Receipts.dfy`) and their interleavings (`ReceiptRaces.dfy`, `ReceiptOrders.dfy`),
over one pass of the monitor (`Monitor.dfy`) and over the pages of a Bitcoin block (`BlockWalk.dfy`).

Facts of the database that the model relies on: a new payment row is `confirming` because that is the column's default
(`migrations/20230106022419-add-status-to-payments.js:7`); `invoices.hash` has a unique index
(`prisma/schema.prisma:676`), so an update that repeats a hash throws after the payment row was inserted; `payments.txid`
and `invoices.uid` have none, so results that need them unique say so. An empty `confirmation_hash` is falsy in
JavaScript and counts as absent, as in the code.

**Quotes.** `convert`, `setPrice`, `toSatoshis` and `fromSatoshis` over exact reals with the roundings written out:
half away from zero to 8 places, division to 20 places, truncation to base units (`Decimals.dfy`, `Prices.dfy`,
`RoundTrips.dfy`, `PriceTable.dfy`, `Satoshis.dfy`, `Quotes.dfy`). A stored price of zero makes the inverse path infinite; that outcome is a
case of its own.

**Acceptance.** The matcher that decides whether a Bitcoin-style transaction pays an option (`Outputs.dfy`), the ERC-20
`transfer` calldata parser, encoder and acceptance test (`Erc20.dfy`; EIP-20, "Methods", `transfer`; Solidity Contract
ABI Specification, "Function Selector and Argument Encoding"), and refreshing an invoice's options against creating them
afresh (`PaymentOptions.dfy`).

**Two small protocols.** Webhook attempts (`Webhooks.dfy`) and the websocket heartbeat (`Heartbeat.dfy`).

## What the proofs found

Several properties one would expect hold only under a condition. For each the condition is proved to be exact: the
property holds if and only if it does.

- A revert can fail a payment of another invoice when a txid is used twice. It leaves a paid invoice with nothing behind
  it exactly when that invoice has no hash and rests on the payment row the txid finds; a run that gets there is given.
- A confirmation is never rewritten, exactly when the confirmation hash is not the empty string.
- `confirmInvoice` looks at some payment of the invoice, not at the one its hash names. An invoice that was paid,
  confirmed, reverted and paid again is settled by it exactly when its unordered lookup returns the newer payment row.
- Concurrent `recordPayment` calls leave an invoice at most one payment exactly when no two of them have both passed the
  check before either inserts.
- A cancel among confirms ends as whole calls would and overwrites no paid invoice, exactly when no payment falls between
  its unpaid read and its write.
- A `confirmPayment` call stopped part of the way and made again has its full effect exactly when it had not yet written,
  had finished, had an empty confirmation hash, or the invoice was paid before. Otherwise no further call repairs it.
- Every order of a list of receipts, and every interleaving of their steps, leaves the same tables exactly when no invoice
  has its transaction rejected while an unconfirmed payment of it is accepted. In any case an interleaving leaves what
  some order leaves.
- An accepted transaction pays in full exactly when no positive (address, amount) pair is expected twice.
- An accepted ERC-20 transfer encodes what the option asks for exactly when the padding of its address word is zero; the
  parser ignores the padding.
- A payment submitted by transaction id is compared with the token as configured, so a token written with upper-case
  letters would never be matched that way (the EVM tokens configured in src/plugins are in lower case).
- `toSatoshis(fromSatoshis(n))` returns n for every n exactly when the coin has at most 20 decimals.
- Every 8-place amount of a coin worth up to 9,999 dollars survives conversion to USD and back exactly when the coin is
  worth at least one dollar.
- A refresh agrees with fresh creation exactly when no template entry matches the option of a later one.
- `attemptWebhook` latches exactly when no call goes out after one that got through; with calls that read a stale row one
  may. If the status cannot be written after a delivery, the caller is handed an attempt without the error that was
  logged.

## Model

| member | source | states |
|---|---|---|
| Database.CreateInvoice | src/lib/invoices.ts:163-209 | a new invoice row is unpaid with no hash; every other row stays |
| Database.CompletePayment | src/lib/pay/index.ts:405-436 | inserts a confirming payment and points the invoice at it as confirming or paid; an unknown invoice changes nothing; a hash another invoice holds throws and leaves the inserted payment behind |
| Database.HandleUnconfirmedPayment | src/lib/pay/index.ts:336-371 | the same, always leaving the invoice confirming |
| Database.RecordPayment | src/lib/payments.ts:31-62 | refuses a second payment for an invoice and a currency with no option; otherwise only adds a row |
| Database.CancelInvoice | src/lib/invoices.ts:88-101 | decided by the invoice object it was handed, written to the current row |
| Database.ConfirmPayment | src/lib/confirmations.ts:63-104 | decided by the snapshot's hash; writes the whole triple and the status to the current payment row, then paid to the invoice its uid finds; a missing invoice throws after the first write |
| Database.GetConfirmationForTxid | src/lib/confirmations.ts:146-170 | confirms the payment a txid finds exactly when the chain has a confirmation for that payment; what it returns or throws on each path |
| Database.ConfirmPaymentByTxid | src/lib/confirmations.ts:180-188 | confirms the first payment with the txid, or throws |
| Database.RevertPayment | src/lib/confirmations.ts:209-241 | throws without writing if no invoice holds the hash or no payment has the txid; otherwise invoice unpaid with null hash, payment failed, its confirmation triple untouched |
| Database.ConfirmInvoice | src/lib/confirmations.ts:341-411 | for whichever payment row the lookup returns: the effect of every path, caught errors included, and the payment and confirmation it returns |
| Columns.CreateColumns | src/lib/invoices.ts:163-209 | the row a new invoice gets, in every column |
| Columns.SubmitColumns | src/lib/pay/index.ts:405-436 | in columns: the payment row added is confirming and unconfirmed; the first invoice with the uid gets the txid, is complete, and is paid, or confirming if so asked; every other invoice stays; or which error, with which row left behind |
| Columns.CreateAndPay | src/lib/pay/index.ts:411-436 | the tables after creating and paying an invoice from nothing, for both values of the flag |
| Columns.RecordColumns | src/lib/payments.ts:31-62 | in columns: the row added, or which guard throws |
| Columns.CancelColumns | src/lib/invoices.ts:88-101 | in columns: the one invoice row written, or which guard throws |
| Columns.ConfirmColumns | src/lib/confirmations.ts:63-104 | in columns: nothing and no error for a snapshot with a hash; otherwise the payment row with its triple and status, the first invoice of its uid paid, and no other row |
| Columns.ConfirmByTxidColumns | src/lib/confirmations.ts:180-188 | the first payment with the txid is the one confirmed |
| Columns.RevertColumns | src/lib/confirmations.ts:209-241 | in columns: the first invoice with the hash loses it and is unpaid, the first payment with the txid has failed and keeps its triple, no other row changes |
| Columns.ConfirmInvoiceColumns | src/lib/confirmations.ts:351-405 | case by case: what is returned, and when the payment named by the invoice hash is confirmed |
| Columns.ConfirmAllColumns | src/lib/confirmations.ts:63-104 | the closed form for a set of payments, row by row |
| Lifecycle.ConfirmAllStep | src/lib/confirmations.ts:63-104 | confirming one more payment extends the closed-form result for a set of payments by that payment, whatever was confirmed before |
| Rows.FindPayment | src/lib/confirmations.ts:183-185 | the first row with the txid, or none has it |
| Rows.FindInvoiceByHash | src/lib/confirmations.ts:212-216 | the first row with the hash, or none has it |
| Runs.ApplyKeepsSound | src/lib/confirmations.ts:63-241 | each of the eight operations keeps: hash names a payment of that invoice, hash only while confirming or paid, confirming has a hash, confirmed has the whole triple, hashes unique |
| Runs.ApplyKeepsConsistent | src/lib/confirmations.ts:63-241 | with fresh txids and uids each operation also keeps: a paid invoice has a hash or a confirmed payment, and the payment a confirming invoice waits for is unconfirmed |
| Runs.EveryRunIsSound | src/lib/pay/index.ts:344-436 | the invariant in every state reachable from an empty database, whatever txids and uids are used |
| Runs.EveryFreshRunIsSupported | src/lib/confirmations.ts:75-104 | in every run with fresh names a paid invoice without hash has a confirmed payment |
| Runs.RevertKeepsSupportExactly | src/lib/confirmations.ts:212-241 | a revert keeps paid invoices supported if and only if no hashless paid invoice rests on the payment row the txid finds |
| Runs.UnderminedIsReached | src/lib/confirmations.ts:212-241 | a run from the empty database in which a revert leaves another invoice paid with nothing behind it |
| Runs.ConfirmationIsWriteOnce | src/lib/confirmations.ts:68-83 | in every run a non-empty confirmation triple never changes, and a payment failed after confirmation stays failed |
| Runs.WriteOnceExactly | src/lib/confirmations.ts:68-83 | a fresh confirmation is safe from every later run if and only if its hash is not the empty string |
| Runs.RunExtends | src/lib/confirmations.ts:75-104 | no run removes a row, or changes what a payment is of, for which invoice and since when, or an invoice's uid |
| Runs.RecordedRunsKeepOnePayment | src/lib/payments.ts:31-38 | runs of whole calls that insert payments only through `recordPayment` keep at most one payment per invoice |
| RecordRaces.OnePaymentExactly | src/lib/payments.ts:33-58 | for every completed schedule of calls cut at their awaits: each invoice keeps at most one payment if and only if at no moment two calls for one invoice have both passed the check and neither has inserted |
| RecordRaces.ThreeTurnsAreRecord | src/lib/payments.ts:33-58 | the three steps of one call are the whole call |
| RecordRaces.TwoCallsCanBothInsert | src/lib/payments.ts:33-58 | a schedule that gives an invoice two payments |
| Runs.ConfirmInvoiceSettlesExactly | src/lib/confirmations.ts:351-400 | whichever payment of the invoice the lookup returns: a confirming invoice is settled if and only if that payment has no complete confirmation and the chain has one for the invoice's hash under that payment's chain and currency |
| Runs.ReportedConfirmationIsStored | src/lib/confirmations.ts:351-405 | whichever payment the lookup returns: in consistent tables a confirmation it reports is stored with the payment it reports, which is one of the invoice's |
| Runs.PayConfirmRevert | src/lib/confirmations.ts:209-241 | the tables after paying, confirming and reverting a new invoice |
| Runs.ResubmittedPaymentSettlesExactly | src/lib/confirmations.ts:351-400 | a run in which an invoice is paid, confirmed, reverted and paid again: it is settled if and only if the lookup returns the newer row, and otherwise nothing changes |
| Schedules.EveryScheduleIsSafe | src/lib/confirmations.ts:63-104 | in every interleaving of confirms, reverts and cancels with stale reads: a payment that is confirmed or has a hash has its whole triple, a hash never returns to null, and identifying columns stay |
| Schedules.StepKeepsMidway | src/lib/confirmations.ts:75-104 | every row-level step of concurrent confirms keeps the tables equal to the start plus exactly the writes made so far |
| Schedules.ScheduleIndependence | src/lib/confirmations.ts:63-104 | every interleaving of any number of `confirmPayment` calls that completes leaves the same tables, given in closed form |
| Schedules.InTurnIsConfirmAll | src/lib/confirmations.ts:63-104 | calls made one after another give that closed form |
| Schedules.Serialisable | src/lib/confirmations.ts:63-104 | concurrent calls end as if made one after another |
| Schedules.FiveTurnsEachComplete | src/lib/confirmations.ts:63-104 | a schedule that gives every call five turns completes them all |
| Schedules.StaleCancelExactly | src/lib/invoices.ts:88-101 | a stale cancel keeps the row invariant if and only if the invoice has no hash when it writes (whether it overwrites a payment is the subject of CancelRaces) |
| Schedules.CancelInTurnLeavesPaid | src/lib/invoices.ts:90-101 | run whole, in either order, a cancel and a confirm leave the invoice paid |
| Schedules.CancelCanOverwritePaid | src/lib/invoices.ts:90-101 | an interleaving that ends cancelled with a confirmed payment |
| CancelRaces.SafeCancelExactly | src/lib/invoices.ts:88-101 | for every completed schedule of one cancel and any confirms: it ends as whole calls in some order and no paid invoice is overwritten, if and only if no payment falls between an unpaid read and the write, that is, an invoice read unpaid is still unpaid |
| CancelRaces.SerialExactly | src/lib/invoices.ts:88-101 | it ends as whole calls in some order if and only if no payment overtook the cancel, or another followed it |
| CancelRaces.CompletedSchedulesSplit | src/lib/invoices.ts:88-101 | every completed schedule has the form the two theorems speak of |
| CancelRaces.InTurnAroundCancel | src/lib/confirmations.ts:63-104 | the serial outcomes are those of calls made one after another around the cancel |
| Retries.RetryCompletesExactly | src/lib/confirmations.ts:68-104 | a call stopped after m of its five turns and made again equals an uninterrupted one if and only if m <= 1, m >= 5, the confirmation hash is empty, or the invoice was paid before |
| Retries.AbandonedForGood | src/lib/confirmations.ts:68-104 | stopped between its writes, the payment is confirmed and no invoice changed, and no schedule of further calls changes more |
| Retries.AbandonedIsReached | src/lib/confirmations.ts:75-104 | a server run that ends with the payment confirmed and the invoice waiting although the call was made again |
| Receipts.HandleTransactionReceipt | src/lib/plugins/evm.ts:246-294 | confirm or revert by receipt status, nothing if the block cannot be read; when the receipt record is saved, and never twice |
| Receipts.AcceptedReceiptColumns | src/lib/plugins/evm.ts:246-294 | an accepted receipt gives the first payment with its txid the block hash, the block number and the block time in milliseconds |
| Receipts.RecordReachedExactly | src/lib/plugins/evm.ts:246-294 | when the receipt record is reached, in terms of the rows alone |
| Receipts.ProcessIsSettlement | src/lib/plugins/evm.ts:246-262 | without a conflict, processing any list of receipts gives tables that depend only on which verdict each txid got |
| Receipts.ReceiptsConfluent | src/lib/plugins/evm.ts:246-262 | with unique txids, one verdict per txid and no conflict, two lists with the same receipts, in any order and with any repetitions, give the same tables |
| Receipts.OrdersAgreeExactly | src/lib/plugins/evm.ts:246-262 | every order of the receipts gives the same tables if and only if no invoice has its transaction rejected while an unconfirmed payment of it is accepted |
| Receipts.OnePaymentNeverConflicts | src/lib/payments.ts:31-38 | with one payment per invoice there is no conflict |
| Receipts.TwoPaymentsOrderMatters | src/lib/plugins/evm.ts:246-262 | an invoice paid twice whose receipts conflict, as an example |
| ReceiptRaces.EveryRaceResult | src/lib/plugins/evm.ts:246-262 | what any completed interleaving of the receipts' row-level steps leaves, conflict or not |
| ReceiptRaces.ReceiptsRaceSafely | src/lib/plugins/evm.ts:246-262 | without a conflict, every completed interleaving of the row-level steps of all the receipts, un-awaited reverts included, ends as handling them one after another |
| ReceiptOrders.EveryInterleavingIsSomeOrder | src/lib/plugins/evm.ts:246-262 | with or without a conflict, every completed interleaving ends as handling the receipts one after another in some order |
| ReceiptOrders.InTurnIsProcess | src/lib/plugins/evm.ts:246-262 | and every order is had: running the tasks one after another is handling their receipts in that order |
| ReceiptOrders.InterleavingsAgreeExactly | src/lib/plugins/evm.ts:246-262 | all completed interleavings leave the same tables if and only if the receipts do not conflict |
| Monitor.FindUnconfirmed | src/lib/confirmations.ts:284-294 | each payment that is confirming and was created at the cutoff or later, once, newest first, and no other |
| Monitor.Tick | src/lib/confirmations.ts:297-319 | one pass confirms the whole set of due payments, although lookups may fail for some |
| Monitor.TickIsPointwise | src/lib/confirmations.ts:284-319 | row by row: confirmed if and only if confirming, created at the cutoff or later and confirmed by the chain; invoice paid if and only if such a payment is its own; everything else unchanged |
| Monitor.NewerIsConfirmedToo | src/lib/confirmations.ts:284-319 | a payment no older than one a pass confirms, also confirming and also confirmed by the chain, is confirmed in the same pass |
| Monitor.TickIsIdempotent | src/lib/confirmations.ts:284-319 | a second pass at once does nothing |
| BlockWalk.ConfirmTransaction | src/lib/blockcypher.ts:160-212 | throws if and only if the payment has no invoice; otherwise invoice paid and a paid message exactly if it was confirming |
| BlockWalk.ConfirmPage | src/lib/blockcypher.ts:240-250 | one page's payments, in terms of the invoices when the walk began |
| BlockWalk.ConfirmTransactionsFromBlock | src/lib/blockcypher.ts:214-256 | throws if and only if some payment in the block has no invoice; otherwise the payments confirmed are exactly those in the block, an invoice is paid if and only if one of them is its own and unchanged otherwise, with one paid message for each that was confirming, in ceil(n/500)+1 requests |
| BlockWalk.PagesAreTheBlock | src/lib/blockcypher.ts:222-230 | the pages served join to the block, only the last is empty |
| BlockWalk.ReplayPublishesNothing | src/lib/blockcypher.ts:188-206 | walking the block again publishes no paid message and changes no invoice |
| Prices.ConvertFailsExactly | src/lib/prices/index.ts:89-113 | it fails if and only if a hop has neither a price nor an inverse |
| Prices.HopColumns | src/lib/prices/index.ts:84-124 | which price is used, and that the product is rounded to 8 places with ties away from zero; the inverse only when there is no price, and which outcome otherwise |
| Prices.InverseColumns | src/lib/prices/index.ts:115 | an inverse price is rounded at the twentieth place |
| Prices.HopExamples | src/lib/prices/index.ts:91-124 | a tie, an inverse and a zero price, as examples |
| Prices.TwoHopExample | src/lib/prices/index.ts:75-124 | an amount converted between two coins, as an example |
| Prices.ConvertMonotone | src/lib/prices/index.ts:75-117 | with positive prices a larger amount never converts to less |
| Prices.HopError | src/lib/prices/index.ts:91-117 | within half of 10^-8 of exact on the direct path, plus half of 10^-20 per unit on the inverse path |
| Prices.TwoHopError | src/lib/prices/index.ts:75-117 | the first hop's error scaled by the second rate plus the second hop's error |
| RoundTrips.RoundTripExactly | src/lib/prices/index.ts:84-124 | for a coin with a stored 8-place USD price, every 8-place amount worth up to 9,999 dollars survives conversion to USD and back if and only if the price is at least 1 |
| RoundTrips.PriceRoundTrip | src/lib/prices/index.ts:84-124 | for any positive price and amount: it comes back whenever 1/P + abs(u) * 10^-12 < 1 |
| RoundTrips.RoundTripWithBothPrices | src/lib/prices/index.ts:84-98 | when the dollar is also priced in the coin, the amount comes back if the two prices are near enough to inverses |
| RoundTrips.StoredPricesHaveEightPlaces | src/lib/prices/index.ts:128-186 | every price in the table has 8 places |
| RoundTrips.CheapCoinDoesNotReturn | src/lib/prices/index.ts:84-124 | at a price of half a dollar the smallest amount comes back doubled, as an example |
| Decimals.RoundExactly | src/lib/prices/index.ts:93 | rounding is to the nearest unit, with ties away from zero, and to no other |
| PriceTable.SetPrice | src/lib/prices/index.ts:128-186 | the new table, the new history and which row is read |
| PriceTable.TableIsReplay | src/lib/prices/index.ts:128-186 | after any calls there is one row per pair ever set, and it equals the last history record of the pair |
| PriceTable.HistoryIsTheCalls | src/lib/prices/index.ts:158-169 | the history is the calls in order, rounded to 8 places |
| PriceTable.ConvertDependsOnLastRecords | src/lib/prices/index.ts:84-107 | two call sequences with the same last record for each pair convert every amount alike |
| Satoshis.SatoshiGalois | src/lib/plugin.ts:130-140 | n <= toSatoshis(x) if and only if fromSatoshis(n) <= x, for non-negative x and n and up to 20 decimals |
| Satoshis.SatoshiRoundTripExactly | src/lib/plugin.ts:130-140 | toSatoshis(fromSatoshis(n)) = n for every n if and only if the coin has at most 20 decimals |
| Satoshis.ToSatoshisTruncates | src/lib/plugin.ts:130-134 | the fraction of a base unit is dropped, towards zero |
| Satoshis.SatoshiExamples | src/lib/plugin.ts:130-140 | amounts of either sign, as examples |
| Satoshis.QuoteCharge | src/lib/plugin.ts:130-134 | an 8-place quote is charged exactly with 8 or more decimals, and under by less than one base unit otherwise |
| Quotes.ChargeError | src/lib/prices/index.ts:91-122 | one output is charged to the nearest base unit |
| Quotes.ChargeColumns | src/lib/payment_options.ts:57-66 | the charge is the converted amount in base units without its fraction |
| Quotes.TotalsAdd | src/lib/payment_options.ts:49-71 | both totals take every output once |
| Quotes.SplitBound | src/lib/payment_options.ts:49-71 | charging n outputs separately differs from charging the total by at most (n+1)/2 base units |
| PaymentOptions.Fresh | src/lib/payment_options.ts:43-104 | it succeeds if and only if every entry of every template option can be quoted on its chain, or failing that its currency; then option i has the currency and chain of entry i, and output j of it the address of recipient j and the base units quoted for it |
| PaymentOptions.RefreshInvoice | src/lib/invoice.ts:118-201 | the options after the loop; a missing invoice or payment request throws at once, and a later throw keeps earlier updates and leaves the expiry alone |
| PaymentOptions.RefreshIsPointwise | src/lib/invoice.ts:138-191 | if keys are unique the refresh completes if and only if every row of the invoice can be quoted by the first template entry that matches it; then each such row charges that entry's recipients in order, each the amount quoted for it, and every other row and every other column is unchanged |
| PaymentOptions.CurrentQuoteColumns | src/lib/payment_options.ts:57-66 | the quote is the converted amount in base units of the coin, without its fraction; none without a price or a coin |
| PaymentOptions.RefreshAgreesWithFresh | src/lib/invoice.ts:138-191 | with the invoice's rows in any order and among any others, each gets exactly what fresh creation would give its entry, and no other row changes |
| PaymentOptions.RefreshAtSamePrices | src/lib/invoice.ts:138-191 | with unchanged prices a refresh changes no outputs |
| PaymentOptions.RefreshAgreesExactly | src/lib/invoice.ts:140-145 | for the template's (currency, chain) pairs: refreshing agrees with fresh creation for all recipients, quotes, tables and row positions if and only if no entry matches the option of a later one |
| Outputs.VerifyOutput | src/lib/pay/index.ts:297-313 | succeeds if and only if some output has that address and amount |
| Outputs.VerifyPayment | src/lib/plugin.ts:142-205 | over the transaction's own outputs: accepts if and only if for every expected output some output has exactly that amount and, without its prefix, that address |
| Outputs.ReadableMembers | src/lib/plugin.ts:146-167 | what is read from the outputs: those with an address, without its prefix, with their amount as it is |
| Outputs.ReadableConcat | src/lib/plugin.ts:146-167 | reading keeps order and multiplicity |
| Outputs.BareAddress | src/lib/plugin.ts:152-154 | what follows the prefix, or an address without one as it is |
| Outputs.TargetColumns | src/lib/pay/index.ts:134-148 | which address an expected output is matched against, with and without a script and a prefix |
| Outputs.AcceptanceExamples | src/lib/pay/index.ts:100-151 | transactions accepted and refused, as examples |
| Outputs.AcceptanceIgnoresOrder | src/lib/pay/index.ts:130-151 | permuting outputs changes nothing |
| Outputs.LeastAcceptedTotal | src/lib/pay/index.ts:297-313 | the least total an accepted transaction can carry is each distinct pair once, and it is attained |
| Outputs.AcceptedMeansPaidExactly | src/lib/pay/index.ts:130-151 | every accepted transaction carries the expected total if and only if no positive pair is expected twice |
| Outputs.DistinctWitnesses | src/lib/pay/index.ts:130-151 | distinct expected pairs have distinct witness outputs |
| Erc20.ParseOfEncode | src/lib/plugins/erc20.ts:233-255 | parsing the encoding of transfer(address, amount) returns every 160-bit address and 256-bit amount |
| Erc20.TransferColumns | src/lib/plugins/erc20.ts:241-254 | the calldata is 0xa9059cbb, twelve zero bytes, the address and the amount: it parses to them and they encode to it, for every address and amount in digits |
| Erc20.TransferExample | src/lib/plugins/erc20.ts:241-254 | one whole calldata string, as an example |
| Erc20.NotATransfer | src/lib/plugins/erc20.ts:243-248 | another length or another selector is refused |
| Erc20.NoRecipient | src/lib/plugins/erc20.ts:251 | a transaction without a recipient is read as one to the text null |
| Erc20.HexColumns | src/lib/plugins/erc20.ts:250 | hexadecimal is positional, with the digits 0 to 9 and a to f worth their place |
| Erc20.DigitColumns | src/lib/plugins/erc20.ts:250 | the sixteen digits and their values, in either case |
| Erc20.EncodeOfParseExactly | src/lib/plugins/erc20.ts:241-250 | re-encoding parsed calldata reproduces it up to letter case if and only if its padding is zero |
| Erc20.AcceptedExactly | src/lib/plugins/erc20.ts:133-157 | a decoded transfer is accepted if and only if it goes to the option's token and its calldata, with the padding set to zero, encodes the option's output |
| Erc20.AcceptedEncodesExactly | src/lib/plugins/erc20.ts:241-250 | accepted calldata is itself that encoding if and only if its padding is zero |
| Erc20.FetchedAcceptedExactly | src/lib/plugins/erc20.ts:165-231 | submitted by id, the fetched transfer is accepted if and only if it goes to the token, given in lower case, and its calldata, with the padding set to zero, encodes the option's output |
| Erc20.VerifyCases | src/lib/plugins/erc20.ts:133-231 | which transaction decides, and which reading of its amount and which letter case of the token it is judged by; without one nothing is accepted |
| Erc20.MixedCaseTokenNeverFetched | src/lib/plugins/erc20.ts:171-177 | a token with an upper-case letter accepts nothing submitted by id |
| Erc20.BuiltTransferIsAccepted | src/lib/plugins/erc20.ts:266-298 | the transfer built for an option below 2^53 units passes that option's test |
| Webhooks.WebhookStore.AttemptWebhook | src/lib/webhooks.ts:355-430 | the log and status after a call, what it returns, and when it throws |
| Webhooks.SuccessLatches | src/lib/webhooks.ts:355-430 | in every run the status is success if and only if the last attempt succeeded, and no earlier one did |
| Webhooks.RunIsItsLog | src/lib/webhooks.ts:355-430 | the log is exactly the calls up to the first that got through |
| Webhooks.LogColumns | src/lib/webhooks.ts:362-428 | entry k of the log in columns, for each way the k-th call can end |
| Webhooks.OneOfEach | src/lib/webhooks.ts:362-428 | one call of each kind and the log they leave, as an example |
| Webhooks.SuccessIsFinal | src/lib/webhooks.ts:357-360 | once successful, no call changes anything |
| Webhooks.StaleCallsKeepSuccess | src/lib/webhooks.ts:355-430 | with stale rows success is still never lost: success if and only if some attempt succeeded |
| Webhooks.LatchesExactly | src/lib/webhooks.ts:355-430 | with stale rows the latch holds if and only if no call goes out after one that got through |
| Webhooks.OverlappingCallsDeliverTwice | src/lib/webhooks.ts:357-360 | two calls that both read the pending row both deliver, as an example |
| Heartbeat.SocketServer.OnConnection | src/server/ws/plugin.ts:219-221 | the socket joins with its flag up, no other flag changes |
| Heartbeat.SocketServer.OnPong | src/server/ws/plugin.ts:125-127 | the socket's flag goes up |
| Heartbeat.AliveSocket.Each | src/server/ws/plugin.ts:225-230 | a socket whose flag is down is terminated, any other has it put down and is pinged |
| Heartbeat.SocketServer.Ping | src/server/ws/plugin.ts:224-231 | a tick terminates exactly the sockets whose flag was down and pings each other one once |
| Heartbeat.TerminatedExactly | src/server/ws/plugin.ts:224-231 | in every trace a tick terminates a socket if and only if it was there after the previous tick and silent since |
| Heartbeat.ConnectedExactly | src/server/ws/plugin.ts:219-231 | a socket is a client if and only if it has connected and since then neither closed nor been terminated |
| Heartbeat.AnsweringIsNeverDropped | src/server/ws/plugin.ts:125-127 | a socket that pongs between every two ticks is never dropped |
| Heartbeat.SilentIsDroppedBySecondTick | src/server/ws/plugin.ts:224-231 | a socket not heard of is gone after its second tick |
| Heartbeat.FirstTickSpares | src/server/ws/plugin.ts:219-231 | the first tick after connecting never drops the socket |

## Left out

- Row order: PostgreSQL promises none, and `findFirst` is modelled as the least id, except for the payment lookup of `confirmInvoice`, which may return any row of the invoice. With unique txids, hashes, uids and price pairs the other lookups have one row to find; where a txid is used twice, the results speak of the row the lookup finds.
- Columns with no part in the state machine: amount, address, paidAt, completed_at, account, txhex, tx_key, timestamps.
- Database failures other than a missing row and a repeated invoice hash.
- Webhooks and messages sent by `confirmPayment` and `revertPayment`: they follow both writes. A webhook that throws is a parameter of the receipt handler, and is otherwise caught or after the fact.
- The price row's `change_24hr`.
- BlockWalk.ConfirmTransaction: the payment update at src/lib/blockcypher.ts:168-176 is not awaited; it is recorded as handed off, and nothing is claimed about the payments table.
- `EVM.getConfirmation`, which ignores the receipt's status (src/lib/plugins/evm.ts:70): a chain client is a function from a transaction to an error, nothing yet, or a confirmation.
- `broadcastTx`, network clients, signing, key derivation and script decoding: a transaction is its decoded outputs or its calldata.
- src/lib/pay/json_v2: the expected outputs are a given list, and the invoice hash that its protocol writes ahead for some coins is not part of this model.
- The XRP plugin's own `toSatoshis` (src/plugins/xrp/index.ts:19).
- Conversion to a JavaScript number (`toNumber`, `Number`): numbers are exact. In `Erc20.dfy` the reading is a parameter that is exact below 2^53.
- RoundTrips.RoundTripExactly: is about a coin whose price in USD alone is stored; with both directions stored the way back uses the other price, and RoundTrips.RoundTripWithBothPrices gives a sufficient margin only.
- Row-level interleaving of payment submission, and of different kinds of call other than those named above.
- Letter case beyond ASCII in `toLowerCase`.
- The clock: the monitor's seven-day cutoff and the time of a refresh are parameters.
- Templates from `createInvoice`, which carry no chain, are covered only as far as the precondition of the refresh theorems holds.
- Coin names, logos and URIs of payment options, and fee outputs.
- `sendWebhook` resends, which may overwrite success with failed.
- The `ws` library removes a terminated socket when its close event fires; here it leaves the set at the tick. Invoice, price and account subscriptions are left out.
- Routes, schemas, authentication, email and reporting: nothing hard to prove.
