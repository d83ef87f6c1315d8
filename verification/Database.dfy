/** The two tables as mutable state, and the server operations that update them row by row. */
module Database {
  import opened Wrappers
  import opened Rows
  import opened Lifecycle

  class Database {
    var payments: seq<Payment>
    var invoices: seq<Invoice>
    /** Transaction ids with a saved EVM receipt record. */
    var receipts: seq<string>

    function Tables(): Tables
      reads this
    {
      Rows.Tables(payments, invoices)
    }

    constructor ()
      ensures Tables() == Rows.Tables([], []) && receipts == []
    {
      payments, invoices, receipts := [], [], [];
    }
  }

  /** `createInvoice`, its invoice row only. */
  method CreateInvoice(db: Database, uid: string) returns (out: Outcome)
    modifies db`invoices
    ensures Effect(db.Tables(), out) == Lifecycle.CreateInvoice(old(db.Tables()), uid)
  {
    out := Done(|db.invoices|);
    db.invoices := db.invoices + [NewInvoice(uid)];
  }

  method CompletePayment(db: Database, uid: string, ref: TxRef, at: int,
          confirming: bool := false) returns (out: Outcome)
    modifies db`payments, db`invoices
    ensures Effect(db.Tables(), out) == Submit(old(db.Tables()), uid, ref, at, confirming)
  {
    var found := FindInvoice(db.invoices, uid);
    if found.None? {
      return Threw(NotFound);
    }
    var k := found.value;
    out := Done(|db.payments|);
    db.payments := db.payments + [NewPayment(ref, uid, at)];
    if HashTaken(db.invoices, k, ref.txid) {
      return Threw(DuplicateHash);
    }
    var status := if confirming then InvoiceConfirming else InvoicePaid;
    db.invoices := db.invoices[k := db.invoices[k].(hash := Some(ref.txid), status := status, complete := true)];
  }

  method HandleUnconfirmedPayment(db: Database, uid: string, ref: TxRef, at: int) returns (out: Outcome)
    modifies db`payments, db`invoices
    ensures Effect(db.Tables(), out) == Submit(old(db.Tables()), uid, ref, at, true)
  {
    var found := FindInvoice(db.invoices, uid);
    if found.None? {
      return Threw(NotFound);
    }
    var k := found.value;
    out := Done(|db.payments|);
    db.payments := db.payments + [NewPayment(ref, uid, at)];
    if HashTaken(db.invoices, k, ref.txid) {
      return Threw(DuplicateHash);
    }
    db.invoices :=
      db.invoices[k := db.invoices[k].(hash := Some(ref.txid), status := InvoiceConfirming, complete := true)];
  }

  method RecordPayment(db: Database, invoice: Invoice, txid: string, currency: string, optionChain: Option<string>,
          at: int)
    returns (out: Outcome)
    modifies db`payments
    ensures Effect(db.Tables(), out) == Record(old(db.Tables()), invoice.uid, txid, currency, optionChain, at)
  {
    if FindPaymentOf(db.payments, invoice.uid).Some? {
      return Threw(MultiplePayments);
    }
    if optionChain.None? {
      return Threw(NotFound);
    }
    out := Done(|db.payments|);
    db.payments := db.payments + [NewPayment(TxRef(txid, optionChain.value, currency), invoice.uid, at)];
  }

  method CancelInvoice(db: Database, k: nat, invoice: Invoice) returns (out: Outcome)
    modifies db`invoices
    ensures Effect(db.Tables(), out) == Cancel(old(db.Tables()), k, invoice)
  {
    if invoice.status != InvoiceUnpaid {
      return Threw(NotUnpaid);
    }
    if k >= |db.invoices| {
      return Threw(NotFound);
    }
    db.invoices := db.invoices[k := db.invoices[k].(status := InvoiceCancelled, cancelled := true)];
    out := Done(k);
  }

  method ConfirmPayment(db: Database, payment: Snapshot, confirmation: Confirmation) returns (out: Outcome)
    modifies db`payments, db`invoices
    ensures Effect(db.Tables(), out) == Confirm(old(db.Tables()), payment, confirmation)
  {
    var id := payment.id;
    if payment.row.HasHash() {
      return Done(id);
    }
    if id >= |db.payments| {
      return Threw(NotFound);
    }
    db.payments := db.payments[id := db.payments[id].(
        hash := Some(confirmation.hash),
        height := Some(confirmation.height),
        date := Some(confirmation.date),
        status := PaymentConfirmed)];
    var updated := db.payments[id];
    var invoice := FindInvoice(db.invoices, updated.invoiceUid);
    if invoice.None? {
      return Threw(NotFound);
    }
    db.invoices := db.invoices[invoice.value := db.invoices[invoice.value].(status := InvoicePaid)];
    out := Done(id);
  }

  method ConfirmPaymentByTxid(db: Database, txid: string, confirmation: Confirmation) returns (out: Outcome)
    modifies db`payments, db`invoices
    ensures Effect(db.Tables(), out) == ConfirmByTxid(old(db.Tables()), txid, confirmation)
  {
    var found := FindPayment(db.payments, txid);
    if found.None? {
      return Threw(NotFound);
    }
    out := ConfirmPayment(db, Snapshot(found.value, db.payments[found.value]), confirmation);
  }

  /** What `getConfirmationForTxid` returns or throws: undefined, the client's error, or what `confirmPayment` did. */
  datatype Reply = Nothing | LookupFailed | Replied(outcome: Outcome)

  /** `getConfirmationForTxid`: asks the chain about the payment the txid finds, and confirms it if there is one. */
  method GetConfirmationForTxid(db: Database, txid: string, lookup: TxRef -> Lookup) returns (reply: Reply)
    modifies db`payments, db`invoices
    ensures var before := old(db.Tables()); var id := FindPayment(before.payments, txid);
            reply == if id.None? then Nothing
                     else
                       match lookup(before.payments[id.value].ref)
                       case Unavailable => LookupFailed
                       case NotYet => Nothing
                       case Found(c) => Replied(ConfirmByTxid(before, txid, c).outcome)
    ensures var before := old(db.Tables()); var id := FindPayment(before.payments, txid);
            db.Tables() == if id.Some? && lookup(before.payments[id.value].ref).Found?
                           then ConfirmByTxid(before, txid, lookup(before.payments[id.value].ref).confirmation).tables
                           else before
  {
    var found := FindPayment(db.payments, txid);
    if found.None? {
      return Nothing;
    }
    var payment := Snapshot(found.value, db.payments[found.value]);
    var confirmation := lookup(payment.row.ref);
    if confirmation.Unavailable? {
      return LookupFailed;
    }
    if confirmation.NotYet? {
      return Nothing;
    }
    var confirmed := ConfirmPayment(db, payment, confirmation.confirmation);
    return Replied(confirmed);
  }

  method RevertPayment(db: Database, txid: string) returns (out: Outcome)
    modifies db`payments, db`invoices
    ensures Effect(db.Tables(), out) == Revert(old(db.Tables()), txid)
  {
    var invoice := FindInvoiceByHash(db.invoices, txid);
    if invoice.None? {
      return Threw(NotFound);
    }
    var payment := FindPayment(db.payments, txid);
    if payment.None? {
      return Threw(NotFound);
    }
    var k, id := invoice.value, payment.value;
    db.invoices := db.invoices[k := db.invoices[k].(status := InvoiceUnpaid, hash := None)];
    db.payments := db.payments[id := db.payments[id].(status := PaymentFailed)];
    out := Done(id);
  }

  /** `confirmInvoice`, given payment row i of the invoice by its lookup; every error inside it is caught, so it always
      returns. */
  method ConfirmInvoice(db: Database, uid: string, i: Option<nat>, lookup: TxRef -> Lookup) returns (report: Report)
    requires PaymentOf(db.payments, uid, i)
    modifies db`payments, db`invoices
    ensures db.Tables() == InvoiceConfirmation(old(db.Tables()), uid, i, lookup)
    ensures report == InvoiceReport(old(db.Tables()), uid, i, lookup)
  {
    var k := FindInvoice(db.invoices, uid);
    if k.None? || i.None? {
      return NOTHING;
    }
    var invoice, payment := db.invoices[k.value], db.payments[i.value];
    if payment.HasFullTruthyTriple() {
      return Report(i, Some(Confirmation(payment.hash.value, payment.height.value, payment.date.value)));
    }
    if invoice.status != InvoiceConfirming || !invoice.HasHash() {
      return NOTHING;
    }
    var answer := lookup(TxRef(invoice.hash.value, payment.ref.chain, payment.ref.currency));
    if answer.Unavailable? {
      return NOTHING;
    }
    if answer.NotYet? {
      return Report(i, None);
    }
    var confirmed := ConfirmPaymentByTxid(db, invoice.hash.value, answer.confirmation);
    if confirmed.Threw? {
      return NOTHING;
    }
    return Report(Some(confirmed.id), Some(answer.confirmation));
  }
}
