/** Rows of the `payments` and `invoices` tables, and the lookups the server makes in them.
    A row's id is its index, so `findFirst` is the least matching index. */
module Rows {
  import opened Wrappers

  datatype PaymentStatus = PaymentConfirming | PaymentConfirmed | PaymentFailed

  datatype InvoiceStatus = InvoiceUnpaid | InvoiceConfirming | InvoicePaid | InvoiceCancelled

  datatype Confirmation = Confirmation(hash: string, height: int, date: int)

  /** What a chain client is asked about: the lookup key of a payment. */
  datatype TxRef = TxRef(txid: string, chain: string, currency: string)

  datatype Payment = Payment(
    ref: TxRef,
    invoiceUid: string,
    createdAt: int,
    status: PaymentStatus,
    hash: Option<string>,
    height: Option<int>,
    date: Option<int>)
  {
    /** JavaScript truthiness of `confirmation_hash`: null and "" both count as absent. */
    predicate HasHash() {
      hash.Some? && hash.value != ""
    }

    /** The test `confirmInvoice` makes before it reports an old confirmation: a height of 0 counts as absent. */
    predicate HasFullTruthyTriple() {
      HasHash() && height.Some? && height.value != 0 && date.Some?
    }

    predicate FullTriple() {
      hash.Some? && height.Some? && date.Some?
    }

    predicate SameTriple(other: Payment) {
      hash == other.hash && height == other.height && date == other.date
    }

    /** The columns that no update ever writes. */
    predicate SameIdentity(other: Payment) {
      ref == other.ref && invoiceUid == other.invoiceUid && createdAt == other.createdAt
    }
  }

  datatype Invoice = Invoice(
    uid: string,
    status: InvoiceStatus,
    hash: Option<string>,
    complete: bool,
    cancelled: bool)
  {
    predicate HasHash() {
      hash.Some? && hash.value != ""
    }
  }

  datatype Tables = Tables(payments: seq<Payment>, invoices: seq<Invoice>)

  function FindPayment(payments: seq<Payment>, txid: string, from: nat := 0): (r: Option<nat>)
    requires from <= |payments|
    ensures r.Some? ==> from <= r.value < |payments| && payments[r.value].ref.txid == txid
    ensures forall j :: from <= j < (if r.Some? then r.value else |payments|) ==> payments[j].ref.txid != txid
    decreases |payments| - from
  {
    if from == |payments| then None
    else if payments[from].ref.txid == txid then Some(from)
    else FindPayment(payments, txid, from + 1)
  }

  function FindPaymentOf(payments: seq<Payment>, uid: string, from: nat := 0): (r: Option<nat>)
    requires from <= |payments|
    ensures r.Some? ==> from <= r.value < |payments| && payments[r.value].invoiceUid == uid
    ensures forall j :: from <= j < (if r.Some? then r.value else |payments|) ==> payments[j].invoiceUid != uid
    decreases |payments| - from
  {
    if from == |payments| then None
    else if payments[from].invoiceUid == uid then Some(from)
    else FindPaymentOf(payments, uid, from + 1)
  }

  function FindInvoice(invoices: seq<Invoice>, uid: string, from: nat := 0): (r: Option<nat>)
    requires from <= |invoices|
    ensures r.Some? ==> from <= r.value < |invoices| && invoices[r.value].uid == uid
    ensures forall j :: from <= j < (if r.Some? then r.value else |invoices|) ==> invoices[j].uid != uid
    decreases |invoices| - from
  {
    if from == |invoices| then None
    else if invoices[from].uid == uid then Some(from)
    else FindInvoice(invoices, uid, from + 1)
  }

  function FindInvoiceByHash(invoices: seq<Invoice>, txid: string, from: nat := 0): (r: Option<nat>)
    requires from <= |invoices|
    ensures r.Some? ==> from <= r.value < |invoices| && invoices[r.value].hash == Some(txid)
    ensures forall j :: from <= j < (if r.Some? then r.value else |invoices|) ==> invoices[j].hash != Some(txid)
    decreases |invoices| - from
  {
    if from == |invoices| then None
    else if invoices[from].hash == Some(txid) then Some(from)
    else FindInvoiceByHash(invoices, txid, from + 1)
  }

  /** Rows are only ever added, and the identifying columns of a row never change. */
  ghost predicate PaymentsExtend(before: seq<Payment>, after: seq<Payment>) {
    && |before| <= |after|
    && forall i :: 0 <= i < |before| ==> before[i].SameIdentity(after[i])
  }

  ghost predicate InvoicesExtend(before: seq<Invoice>, after: seq<Invoice>) {
    && |before| <= |after|
    && forall k :: 0 <= k < |before| ==> before[k].uid == after[k].uid
  }

  lemma {:induction false} FindInvoiceStable(before: seq<Invoice>, after: seq<Invoice>, uid: string)
    requires InvoicesExtend(before, after)
    ensures FindInvoice(before, uid).Some? ==> FindInvoice(after, uid) == FindInvoice(before, uid)
    ensures |before| == |after| ==> FindInvoice(after, uid) == FindInvoice(before, uid)
  {
  }

  lemma {:induction false} FindPaymentStable(before: seq<Payment>, after: seq<Payment>, txid: string)
    requires PaymentsExtend(before, after)
    ensures FindPayment(before, txid).Some? ==> FindPayment(after, txid) == FindPayment(before, txid)
    ensures |before| == |after| ==> FindPayment(after, txid) == FindPayment(before, txid)
  {
  }
}
