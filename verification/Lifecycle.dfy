/** The effect of each server operation on the two tables, as a function of the tables it starts from.
    The methods of `Database.dfy` are proved against these functions; the theorems are about them. */
module Lifecycle {
  import opened Wrappers
  import opened Rows

  datatype Error = NotFound | DuplicateHash | MultiplePayments | NotUnpaid

  datatype Outcome = Done(id: nat) | Threw(error: Error)

  datatype Effect = Effect(tables: Tables, outcome: Outcome)

  /** A payment row as the server read it, possibly some time ago. */
  datatype Snapshot = Snapshot(id: nat, row: Payment)

  function NewPayment(ref: TxRef, uid: string, at: int): Payment {
    Payment(ref, uid, at, PaymentConfirming, None, None, None)
  }

  function NewInvoice(uid: string): Invoice {
    Invoice(uid, InvoiceUnpaid, None, false, false)
  }

  function MarkConfirmed(p: Payment, c: Confirmation): Payment {
    p.(hash := Some(c.hash), height := Some(c.height), date := Some(c.date), status := PaymentConfirmed)
  }

  function SetStatus(invoices: seq<Invoice>, k: nat, status: InvoiceStatus): (r: seq<Invoice>)
    requires k < |invoices|
    ensures InvoicesExtend(invoices, r) && |r| == |invoices|
  {
    invoices[k := invoices[k].(status := status)]
  }

  function CreateInvoice(db: Tables, uid: string): Effect {
    Effect(db.(invoices := db.invoices + [NewInvoice(uid)]), Done(|db.invoices|))
  }

  /** Whether setting invoice k's hash would break the unique index on `invoices.hash`. */
  predicate HashTaken(invoices: seq<Invoice>, k: nat, txid: string) {
    exists j :: 0 <= j < |invoices| && j != k && invoices[j].hash == Some(txid)
  }

  /** `completePayment` and `handleUnconfirmedPayment`: insert the payment row, then point the invoice at it.
      When another invoice already holds the hash the update throws, and the new payment row stays. */
  function Submit(db: Tables, uid: string, ref: TxRef, at: int, confirming: bool): Effect {
    match FindInvoice(db.invoices, uid)
    case None => Effect(db, Threw(NotFound))
    case Some(k) =>
      var payments := db.payments + [NewPayment(ref, uid, at)];
      if HashTaken(db.invoices, k, ref.txid) then
        Effect(db.(payments := payments), Threw(DuplicateHash))
      else
        var status := if confirming then InvoiceConfirming else InvoicePaid;
        var row := db.invoices[k].(hash := Some(ref.txid), status := status, complete := true);
        Effect(Tables(payments, db.invoices[k := row]), Done(|db.payments|))
  }

  /** `recordPayment`: at most one payment per invoice; `chain` is that of the matching payment option, if any. */
  function Record(db: Tables, uid: string, txid: string, currency: string, chain: Option<string>, at: int): Effect {
    if FindPaymentOf(db.payments, uid).Some? then Effect(db, Threw(MultiplePayments))
    else if chain.None? then Effect(db, Threw(NotFound))
    else
      var p := NewPayment(TxRef(txid, chain.value, currency), uid, at);
      Effect(db.(payments := db.payments + [p]), Done(|db.payments|))
  }

  /** `cancelInvoice` looks only at the invoice object it was handed. */
  function Cancel(db: Tables, k: nat, snapshot: Invoice): Effect {
    if snapshot.status != InvoiceUnpaid then Effect(db, Threw(NotUnpaid))
    else if k >= |db.invoices| then Effect(db, Threw(NotFound))
    else
      var row := db.invoices[k].(status := InvoiceCancelled, cancelled := true);
      Effect(db.(invoices := db.invoices[k := row]), Done(k))
  }

  /** `confirmPayment`: only the snapshot's hash is looked at; both writes go to the current rows. */
  function Confirm(db: Tables, snapshot: Snapshot, c: Confirmation): Effect {
    var id := snapshot.id;
    if snapshot.row.HasHash() then Effect(db, Done(id))
    else if id >= |db.payments| then Effect(db, Threw(NotFound))
    else
      var db1 := db.(payments := db.payments[id := MarkConfirmed(db.payments[id], c)]);
      match FindInvoice(db.invoices, db.payments[id].invoiceUid)
      case None => Effect(db1, Threw(NotFound))
      case Some(k) => Effect(db1.(invoices := SetStatus(db.invoices, k, InvoicePaid)), Done(id))
  }

  function ConfirmById(db: Tables, id: nat, c: Confirmation): Effect {
    if id < |db.payments| then Confirm(db, Snapshot(id, db.payments[id]), c) else Effect(db, Threw(NotFound))
  }

  function ConfirmByTxid(db: Tables, txid: string, c: Confirmation): Effect {
    match FindPayment(db.payments, txid)
    case None => Effect(db, Threw(NotFound))
    case Some(id) => ConfirmById(db, id, c)
  }

  function Revert(db: Tables, txid: string): Effect {
    match FindInvoiceByHash(db.invoices, txid)
    case None => Effect(db, Threw(NotFound))
    case Some(k) =>
      match FindPayment(db.payments, txid)
      case None => Effect(db, Threw(NotFound))
      case Some(id) =>
        var invoices := db.invoices[k := db.invoices[k].(status := InvoiceUnpaid, hash := None)];
        var payments := db.payments[id := db.payments[id].(status := PaymentFailed)];
        Effect(Tables(payments, invoices), Done(id))
  }

  /** What a chain client answers about a transaction: an error, nothing yet, or a confirmation. */
  datatype Lookup = Unavailable | NotYet | Found(confirmation: Confirmation)

  /** The payment rows `confirmInvoice` may be given: the lookup names no order, so any row of the invoice's will do,
      and none only if there is none. */
  predicate PaymentOf(payments: seq<Payment>, uid: string, i: Option<nat>) {
    if i.Some? then i.value < |payments| && payments[i.value].invoiceUid == uid
    else FindPaymentOf(payments, uid).None?
  }

  function InvoiceConfirmation(db: Tables, uid: string, i: Option<nat>, lookup: TxRef -> Lookup): Tables
    requires PaymentOf(db.payments, uid, i)
  {
    var k := FindInvoice(db.invoices, uid);
    if k.None? || i.None? then db
    else
      var inv, p := db.invoices[k.value], db.payments[i.value];
      if p.HasFullTruthyTriple() || inv.status != InvoiceConfirming || !inv.HasHash() then db
      else
        var answer := lookup(TxRef(inv.hash.value, p.ref.chain, p.ref.currency));
        if answer.Found? then ConfirmByTxid(db, inv.hash.value, answer.confirmation).tables else db
  }

  /** What `confirmInvoice` returns: a payment and a confirmation, either of which may be null. */
  datatype Report = Report(payment: Option<nat>, confirmation: Option<Confirmation>)

  const NOTHING := Report(None, None)

  function InvoiceReport(db: Tables, uid: string, i: Option<nat>, lookup: TxRef -> Lookup): Report
    requires PaymentOf(db.payments, uid, i)
  {
    var k := FindInvoice(db.invoices, uid);
    if k.None? || i.None? then NOTHING
    else
      var inv, p := db.invoices[k.value], db.payments[i.value];
      if p.HasFullTruthyTriple() then Report(i, Some(Confirmation(p.hash.value, p.height.value, p.date.value)))
      else if inv.status != InvoiceConfirming || !inv.HasHash() then NOTHING
      else
        match lookup(TxRef(inv.hash.value, p.ref.chain, p.ref.currency))
        case Unavailable => NOTHING
        case NotYet => Report(i, None)
        case Found(c) =>
          var outcome := ConfirmByTxid(db, inv.hash.value, c).outcome;
          if outcome.Done? then Report(Some(outcome.id), Some(c)) else NOTHING
  }

  /** What confirming the payments in `ids` amounts to, row by row: each one still without a hash gets its
      confirmation, and the invoice its uid finds is paid. */
  ghost function ConfirmAll(db: Tables, ids: set<nat>, conf: TxRef -> Confirmation): Tables {
    Tables(
      seq(|db.payments|, i requires 0 <= i < |db.payments| =>
        if i in ids && !db.payments[i].HasHash() then MarkConfirmed(db.payments[i], conf(db.payments[i].ref))
        else db.payments[i]),
      seq(|db.invoices|, k requires 0 <= k < |db.invoices| =>
        if PaidBy(db, ids, k) then db.invoices[k].(status := InvoicePaid) else db.invoices[k]))
  }

  ghost predicate PaidBy(db: Tables, ids: set<nat>, k: nat) {
    exists i :: i in ids && Pays(db, i, k)
  }

  ghost predicate Pays(db: Tables, i: nat, k: nat) {
    && i < |db.payments| && !db.payments[i].HasHash()
    && FindInvoice(db.invoices, db.payments[i].invoiceUid) == Some(k)
  }

  lemma {:induction false} ConfirmNothing(db: Tables, conf: TxRef -> Confirmation)
    ensures ConfirmAll(db, {}, conf) == db
  {
  }

  /** One more sequential `confirmPayment` adds one more id to the set. */
  lemma {:induction false} ConfirmAllStep(db: Tables, ids: set<nat>, conf: TxRef -> Confirmation, id: nat)
    requires id < |db.payments|
    ensures ConfirmById(ConfirmAll(db, ids, conf), id, conf(db.payments[id].ref)).tables ==
            ConfirmAll(db, ids + {id}, conf)
  {
    var one, both := ConfirmAll(db, ids, conf), ConfirmAll(db, ids + {id}, conf);
    var p := db.payments[id];
    var after := ConfirmById(one, id, conf(p.ref)).tables;
    FindInvoiceStable(db.invoices, one.invoices, p.invoiceUid);
    forall k: nat | k < |db.invoices|
      ensures PaidBy(db, ids + {id}, k) <==> PaidBy(db, ids, k) || Pays(db, id, k)
    {
    }
    assert after.payments == both.payments;
    assert after.invoices == both.invoices;
  }
}
