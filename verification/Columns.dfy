/** What each operation does to the two tables, column by column and outcome by outcome, in rows written out. */
module Columns {
  import opened Wrappers
  import opened Rows
  import opened Lifecycle
  import opened Runs

  /** Invoice k is the first with this uid. */
  predicate FirstInvoice(invoices: seq<Invoice>, uid: string, k: nat) {
    k < |invoices| && invoices[k].uid == uid && forall j :: 0 <= j < k ==> invoices[j].uid != uid
  }

  predicate FirstPayment(payments: seq<Payment>, txid: string, i: nat) {
    i < |payments| && payments[i].ref.txid == txid && forall j :: 0 <= j < i ==> payments[j].ref.txid != txid
  }

  /** Row k of the invoices becomes `row`, and no other row changes. */
  predicate OnlyInvoice(before: seq<Invoice>, after: seq<Invoice>, k: nat, row: Invoice) {
    && k < |before| == |after| && after[k] == row
    && forall j :: 0 <= j < |before| && j != k ==> after[j] == before[j]
  }

  predicate OnlyPayment(before: seq<Payment>, after: seq<Payment>, i: nat, row: Payment) {
    && i < |before| == |after| && after[i] == row
    && forall j :: 0 <= j < |before| && j != i ==> after[j] == before[j]
  }

  lemma {:induction false} CreateColumns(db: Tables, uid: string)
    ensures var e := CreateInvoice(db, uid);
            && e.outcome == Done(|db.invoices|) && e.tables.payments == db.payments
            && e.tables.invoices == db.invoices + [Invoice(uid, InvoiceUnpaid, None, false, false)]
  {
  }

  /** Submitting a payment: the new row is confirming and unconfirmed, and the invoice is left confirming or paid. */
  lemma {:induction false} SubmitColumns(db: Tables, uid: string, ref: TxRef, at: int, confirming: bool)
    ensures var e := Submit(db, uid, ref, at, confirming);
            && ((forall k :: 0 <= k < |db.invoices| ==> db.invoices[k].uid != uid) ==>
                  e.tables == db && e.outcome == Threw(NotFound))
            && forall k: nat :: FirstInvoice(db.invoices, uid, k) ==>
                 && e.tables.payments == db.payments + [Payment(ref, uid, at, PaymentConfirming, None, None, None)]
                 && if exists j :: 0 <= j < |db.invoices| && j != k && db.invoices[j].hash == Some(ref.txid)
                    then e.tables.invoices == db.invoices && e.outcome == Threw(DuplicateHash)
                    else
                      && e.outcome == Done(|db.payments|)
                      && var status := if confirming then InvoiceConfirming else InvoicePaid;
                         OnlyInvoice(db.invoices, e.tables.invoices, k,
                                     Invoice(uid, status, Some(ref.txid), true, db.invoices[k].cancelled))
  {
    FoundIsFirst(db.invoices, uid);
    hide FindInvoice;
  }

  lemma {:induction false} FoundIsFirst(invoices: seq<Invoice>, uid: string)
    ensures FindInvoice(invoices, uid).None? <==> forall k :: 0 <= k < |invoices| ==> invoices[k].uid != uid
    ensures forall k: nat :: FirstInvoice(invoices, uid, k) <==> FindInvoice(invoices, uid) == Some(k)
  {
    var found := FindInvoice(invoices, uid);
    if found.Some? { assert invoices[found.value].uid == uid; }
    hide FindInvoice;
  }

  lemma {:induction false} FoundPaymentIsFirst(payments: seq<Payment>, txid: string)
    ensures FindPayment(payments, txid).None? <==> forall i :: 0 <= i < |payments| ==> payments[i].ref.txid != txid
    ensures forall i: nat :: FirstPayment(payments, txid, i) <==> FindPayment(payments, txid) == Some(i)
  {
    var found := FindPayment(payments, txid);
    if found.Some? { assert payments[found.value].ref.txid == txid; }
    hide FindPayment;
  }

  lemma {:induction false} RecordColumns(db: Tables, uid: string, txid: string, currency: string,
        chain: Option<string>, at: int)
    ensures var e := Record(db, uid, txid, currency, chain, at);
            && e.tables.invoices == db.invoices
            && if exists i :: 0 <= i < |db.payments| && db.payments[i].invoiceUid == uid
               then e.tables.payments == db.payments && e.outcome == Threw(MultiplePayments)
               else if chain.None? then e.tables.payments == db.payments && e.outcome == Threw(NotFound)
               else
                 && e.outcome == Done(|db.payments|)
                 && e.tables.payments == db.payments + [Payment(TxRef(txid, chain.value, currency), uid, at,
                                                                PaymentConfirming, None, None, None)]
  {
  }

  lemma {:induction false} CancelColumns(db: Tables, k: nat, snapshot: Invoice)
    ensures var e := Cancel(db, k, snapshot);
            && e.tables.payments == db.payments
            && if snapshot.status != InvoiceUnpaid
               then e.tables.invoices == db.invoices && e.outcome == Threw(NotUnpaid)
               else if k >= |db.invoices| then e.tables.invoices == db.invoices && e.outcome == Threw(NotFound)
               else
                 var inv := db.invoices[k];
                 && e.outcome == Done(k)
                 && OnlyInvoice(db.invoices, e.tables.invoices, k,
                                Invoice(inv.uid, InvoiceCancelled, inv.hash, inv.complete, true))
  {
  }

  /** Confirming: a snapshot with a non-empty hash is returned as it is; otherwise the current payment row gets the
      three confirmation columns and its status, and the first invoice with its uid is paid. */
  lemma {:induction false} ConfirmColumns(db: Tables, id: nat, snapshot: Payment, c: Confirmation)
    ensures var e := Confirm(db, Snapshot(id, snapshot), c);
            if snapshot.hash.Some? && snapshot.hash.value != "" then e.tables == db && e.outcome == Done(id)
            else if id >= |db.payments| then e.tables == db && e.outcome == Threw(NotFound)
            else
              var p := db.payments[id];
              && OnlyPayment(db.payments, e.tables.payments, id,
                             Payment(p.ref, p.invoiceUid, p.createdAt, PaymentConfirmed, Some(c.hash), Some(c.height),
                                     Some(c.date)))
              && ((forall k :: 0 <= k < |db.invoices| ==> db.invoices[k].uid != p.invoiceUid) ==>
                    e.tables.invoices == db.invoices && e.outcome == Threw(NotFound))
              && forall k: nat :: FirstInvoice(db.invoices, p.invoiceUid, k) ==>
                   var inv := db.invoices[k];
                   && e.outcome == Done(id)
                   && OnlyInvoice(db.invoices, e.tables.invoices, k,
                                  Invoice(inv.uid, InvoicePaid, inv.hash, inv.complete, inv.cancelled))
  {
    if id < |db.payments| { FoundIsFirst(db.invoices, db.payments[id].invoiceUid); }
    hide FindInvoice;
  }

  lemma {:induction false} ConfirmByTxidColumns(db: Tables, txid: string, c: Confirmation)
    ensures (forall i :: 0 <= i < |db.payments| ==> db.payments[i].ref.txid != txid) ==>
              ConfirmByTxid(db, txid, c) == Effect(db, Threw(NotFound))
    ensures forall i: nat :: FirstPayment(db.payments, txid, i) ==>
              ConfirmByTxid(db, txid, c) == Confirm(db, Snapshot(i, db.payments[i]), c)
  {
    FoundPaymentIsFirst(db.payments, txid);
    hide FindPayment, Confirm;
  }

  /** Reverting: the first invoice with the hash loses it and is unpaid, the first payment with the txid has failed, and
      its confirmation stays. */
  lemma {:induction false} RevertColumns(db: Tables, txid: string)
    ensures var e := Revert(db, txid);
            if (forall k :: 0 <= k < |db.invoices| ==> db.invoices[k].hash != Some(txid)) ||
               (forall i :: 0 <= i < |db.payments| ==> db.payments[i].ref.txid != txid)
            then e.tables == db && e.outcome == Threw(NotFound)
            else
              && (forall k: nat :: k < |db.invoices| && db.invoices[k].hash == Some(txid)
                                   && (forall j :: 0 <= j < k ==> db.invoices[j].hash != Some(txid)) ==>
                    var inv := db.invoices[k];
                    OnlyInvoice(db.invoices, e.tables.invoices, k,
                                Invoice(inv.uid, InvoiceUnpaid, None, inv.complete, inv.cancelled)))
              && (forall i: nat :: FirstPayment(db.payments, txid, i) ==>
                    var p := db.payments[i];
                    && e.outcome == Done(i)
                    && OnlyPayment(db.payments, e.tables.payments, i,
                                   Payment(p.ref, p.invoiceUid, p.createdAt, PaymentFailed, p.hash, p.height, p.date)))
  {
    FoundPaymentIsFirst(db.payments, txid);
    var found := FindInvoiceByHash(db.invoices, txid);
    if found.Some? { assert db.invoices[found.value].hash == Some(txid); }
    hide FindPayment, FindInvoiceByHash;
  }

  /** What `confirmInvoice` returns and does, given payment row i of the invoice. */
  lemma {:induction false} ConfirmInvoiceColumns(db: Tables, uid: string, i: nat, k: nat, lookup: TxRef -> Lookup)
    requires FirstInvoice(db.invoices, uid, k) && i < |db.payments| && db.payments[i].invoiceUid == uid
    ensures var p, inv := db.payments[i], db.invoices[k];
            var report, after := InvoiceReport(db, uid, Some(i), lookup), InvoiceConfirmation(db, uid, Some(i), lookup);
            if p.hash.Some? && p.hash.value != "" && p.height.Some? && p.height.value != 0 && p.date.Some? then
              && after == db
              && report == Report(Some(i), Some(Confirmation(p.hash.value, p.height.value, p.date.value)))
            else if inv.status != InvoiceConfirming || inv.hash.None? || inv.hash.value == "" then
              after == db && report == Report(None, None)
            else
              match lookup(TxRef(inv.hash.value, p.ref.chain, p.ref.currency))
              case Unavailable => after == db && report == Report(None, None)
              case NotYet => after == db && report == Report(Some(i), None)
              case Found(c) =>
                && after == ConfirmByTxid(db, inv.hash.value, c).tables
                && report == match ConfirmByTxid(db, inv.hash.value, c).outcome
                             case Done(id) => Report(Some(id), Some(c))
                             case Threw(_) => Report(None, None)
  {
    FoundIsFirst(db.invoices, uid);
    hide FindInvoice, ConfirmByTxid;
  }

  /** A missing invoice, or one without payments, is left alone. */
  lemma {:induction false} ConfirmInvoiceMissing(db: Tables, uid: string, i: Option<nat>, lookup: TxRef -> Lookup)
    requires PaymentOf(db.payments, uid, i)
    requires i.None? || forall k :: 0 <= k < |db.invoices| ==> db.invoices[k].uid != uid
    ensures InvoiceConfirmation(db, uid, i, lookup) == db && InvoiceReport(db, uid, i, lookup) == Report(None, None)
    ensures i.None? ==> forall j :: 0 <= j < |db.payments| ==> db.payments[j].invoiceUid != uid
  {
  }

  /** A set of payments confirmed, row by row. */
  lemma {:induction false} ConfirmAllColumns(db: Tables, ids: set<nat>, conf: TxRef -> Confirmation)
    ensures var after := ConfirmAll(db, ids, conf);
            && |after.payments| == |db.payments| && |after.invoices| == |db.invoices|
            && (forall i: nat :: i < |db.payments| ==>
                  var p := db.payments[i]; var c := conf(p.ref);
                  after.payments[i] ==
                  if i in ids && (p.hash.None? || p.hash.value == "")
                  then Payment(p.ref, p.invoiceUid, p.createdAt, PaymentConfirmed, Some(c.hash), Some(c.height),
                               Some(c.date))
                  else p)
            && (forall k: nat :: k < |db.invoices| ==>
                  var inv := db.invoices[k];
                  after.invoices[k] ==
                  if exists i: nat :: i in ids && i < |db.payments| && Unconfirmed(db.payments[i])
                                      && FirstInvoice(db.invoices, db.payments[i].invoiceUid, k)
                  then Invoice(inv.uid, InvoicePaid, inv.hash, inv.complete, inv.cancelled) else inv)
  {
    forall i: nat, k: nat
      ensures Pays(db, i, k) <==> i < |db.payments| && Unconfirmed(db.payments[i])
                                  && FirstInvoice(db.invoices, db.payments[i].invoiceUid, k)
    {
      if i < |db.payments| { FoundIsFirst(db.invoices, db.payments[i].invoiceUid); }
    }
    hide Pays, FirstInvoice;
  }

  predicate Unconfirmed(p: Payment) {
    p.hash.None? || p.hash.value == ""
  }

  /** A new invoice, and a payment submitted for it without or with waiting for confirmation. */
  lemma {:induction false} CreateAndPay(uid: string, ref: TxRef, at: int, confirming: bool)
    ensures Run(EMPTY, [Creates(uid)] + [Submits(uid, ref, at, confirming)]) ==
            Tables([Payment(ref, uid, at, PaymentConfirming, None, None, None)],
                   [Invoice(uid, if confirming then InvoiceConfirming else InvoicePaid, Some(ref.txid), true, false)])
  {
    var s1 := Tables([], [Invoice(uid, InvoiceUnpaid, None, false, false)]);
    assert Apply(EMPTY, Creates(uid)) == s1;
    assert FindInvoice(s1.invoices, uid) == Some(0);
    RunTwo(EMPTY, Creates(uid), Submits(uid, ref, at, confirming));
    var s2 := Apply(s1, Submits(uid, ref, at, confirming));
    assert s2.payments == [Payment(ref, uid, at, PaymentConfirming, None, None, None)];
  }
}
