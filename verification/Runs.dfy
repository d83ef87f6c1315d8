/** Safety over every run of atomic operations, starting from any tables that satisfy the invariant
    (the empty ones do). */
module Runs {
  import opened Wrappers
  import opened Rows
  import opened Lifecycle

  datatype Event =
    | Creates(uid: string)
    | Submits(uid: string, ref: TxRef, at: int, confirming: bool)
    | Records(k: nat, txid: string, currency: string, chain: Option<string>, at: int)
    | Cancels(k: nat)
    | ConfirmsRow(id: nat, c: Confirmation)
    | ConfirmsTxid(txid: string, c: Confirmation)
    | ConfirmsInvoice(uid: string, pick: nat, answer: Lookup)
    | Reverts(txid: string)

  /** The payment row an unordered lookup returns: row `pick` if that is one of the invoice's, otherwise the first. */
  function Picked(payments: seq<Payment>, uid: string, pick: nat): (i: Option<nat>)
    ensures PaymentOf(payments, uid, i)
  {
    if pick < |payments| && payments[pick].invoiceUid == uid then Some(pick) else FindPaymentOf(payments, uid)
  }

  function Apply(db: Tables, e: Event): Tables {
    match e
    case Creates(uid) => CreateInvoice(db, uid).tables
    case Submits(uid, ref, at, confirming) => Submit(db, uid, ref, at, confirming).tables
    case Records(k, txid, currency, chain, at) =>
      if k < |db.invoices| then Record(db, db.invoices[k].uid, txid, currency, chain, at).tables else db
    case Cancels(k) => if k < |db.invoices| then Cancel(db, k, db.invoices[k]).tables else db
    case ConfirmsRow(id, c) => ConfirmById(db, id, c).tables
    case ConfirmsTxid(txid, c) => ConfirmByTxid(db, txid, c).tables
    case ConfirmsInvoice(uid, pick, answer) => InvoiceConfirmation(db, uid, Picked(db.payments, uid, pick), _ => answer)
    case Reverts(txid) => Revert(db, txid).tables
  }

  function Run(db: Tables, events: seq<Event>): Tables
    decreases |events|
  {
    if events == [] then db else Run(Apply(db, events[0]), events[1..])
  }

  // ---------------------------------------------------------------- the invariant

  /** Some payment row of this invoice carries this txid. */
  ghost predicate HasPayment(payments: seq<Payment>, txid: string, uid: string) {
    exists i :: 0 <= i < |payments| && payments[i].ref.txid == txid && payments[i].invoiceUid == uid
  }

  ghost predicate InvoiceRowOk(payments: seq<Payment>, inv: Invoice) {
    && (inv.hash.Some? ==> HasPayment(payments, inv.hash.value, inv.uid))
    && (inv.hash.Some? ==> inv.status.InvoiceConfirming? || inv.status.InvoicePaid?)
    && (inv.status.InvoiceConfirming? ==> inv.hash.Some?)
  }

  ghost predicate PaymentRowOk(p: Payment) {
    && (p.status.PaymentConfirmed? ==> p.FullTriple())
    && (p.status.PaymentConfirming? ==> p.hash.None?)
  }

  ghost predicate UniqueHashes(invoices: seq<Invoice>) {
    forall j, k :: 0 <= j < k < |invoices| ==> invoices[j].hash.Some? ==> invoices[j].hash != invoices[k].hash
  }

  /** Holds in every run, whatever txids and uids are used. */
  ghost predicate Sound(db: Tables) {
    && (forall k :: 0 <= k < |db.invoices| ==> InvoiceRowOk(db.payments, db.invoices[k]))
    && (forall i :: 0 <= i < |db.payments| ==> PaymentRowOk(db.payments[i]))
    && (forall i :: 0 <= i < |db.payments| ==> FindInvoice(db.invoices, db.payments[i].invoiceUid).Some?)
    && UniqueHashes(db.invoices)
  }

  ghost predicate UniqueTxids(payments: seq<Payment>) {
    forall i, j :: 0 <= i < j < |payments| ==> payments[i].ref.txid != payments[j].ref.txid
  }

  ghost predicate UniqueUids(invoices: seq<Invoice>) {
    forall j, k :: 0 <= j < k < |invoices| ==> invoices[j].uid != invoices[k].uid
  }

  ghost predicate ConfirmedFor(payments: seq<Payment>, uid: string, i: nat) {
    i < |payments| && payments[i].invoiceUid == uid && payments[i].status.PaymentConfirmed?
  }

  /** A paid invoice has either its hash or some confirmed payment. */
  ghost predicate Supported(payments: seq<Payment>, inv: Invoice) {
    inv.status.InvoicePaid? ==> inv.hash.Some? || exists i: nat :: ConfirmedFor(payments, inv.uid, i)
  }

  ghost predicate AllSupported(db: Tables) {
    forall k :: 0 <= k < |db.invoices| ==> Supported(db.payments, db.invoices[k])
  }

  /** While an invoice is confirming, the payment its hash names has no confirmation yet. */
  ghost predicate Awaiting(payments: seq<Payment>, inv: Invoice) {
    inv.status.InvoiceConfirming? && inv.hash.Some? ==>
      forall i :: 0 <= i < |payments| && payments[i].ref.txid == inv.hash.value ==> !payments[i].HasHash()
  }

  ghost predicate AllAwaiting(db: Tables) {
    forall k :: 0 <= k < |db.invoices| ==> Awaiting(db.payments, db.invoices[k])
  }

  /** Holds in every run whose txids and invoice uids are fresh when they are first used. */
  ghost predicate Consistent(db: Tables) {
    Sound(db) && UniqueTxids(db.payments) && UniqueUids(db.invoices) && AllSupported(db) && AllAwaiting(db)
  }

  ghost predicate Fresh(db: Tables, e: Event) {
    match e
    case Creates(uid) => FindInvoice(db.invoices, uid).None?
    case Submits(_, ref, _, _) => FindPayment(db.payments, ref.txid).None?
    case Records(_, txid, _, _, _) => FindPayment(db.payments, txid).None?
    case _ => true
  }

  ghost predicate AllFresh(db: Tables, events: seq<Event>)
    decreases |events|
  {
    events == [] || (Fresh(db, events[0]) && AllFresh(Apply(db, events[0]), events[1..]))
  }

  // ---------------------------------------------------------------- one step

  lemma {:induction false} ConfirmExtends(db: Tables, id: nat, c: Confirmation)
    ensures PaymentsExtend(db.payments, ConfirmById(db, id, c).tables.payments)
    ensures InvoicesExtend(db.invoices, ConfirmById(db, id, c).tables.invoices)
  {
  }

  lemma {:induction false} SubmitExtends(db: Tables, uid: string, ref: TxRef, at: int, confirming: bool)
    ensures PaymentsExtend(db.payments, Submit(db, uid, ref, at, confirming).tables.payments)
    ensures InvoicesExtend(db.invoices, Submit(db, uid, ref, at, confirming).tables.invoices)
  {
  }

  /** No event removes a row or rewrites an identifying column. */
  lemma {:induction false} ApplyExtends(db: Tables, e: Event)
    ensures PaymentsExtend(db.payments, Apply(db, e).payments)
    ensures InvoicesExtend(db.invoices, Apply(db, e).invoices)
  {
    hide ConfirmById, Submit;
    forall id: nat, c { ConfirmExtends(db, id, c); }
    if e.Submits? { SubmitExtends(db, e.uid, e.ref, e.at, e.confirming); }
  }

  lemma {:induction false} ConfirmKeepsSound(db: Tables, id: nat, c: Confirmation)
    requires Sound(db)
    ensures Sound(ConfirmById(db, id, c).tables)
  {
    var db' := ConfirmById(db, id, c).tables;
    if id < |db.payments| && !db.payments[id].HasHash() {
      RowsStaySound(db, db');
    }
  }

  /** Rows that stay put keep what the invariant says of them. */
  lemma {:induction false} RowsStaySound(db: Tables, db': Tables)
    requires Sound(db)
    requires PaymentsExtend(db.payments, db'.payments) && InvoicesExtend(db.invoices, db'.invoices)
    ensures forall i :: 0 <= i < |db.payments| ==> FindInvoice(db'.invoices, db'.payments[i].invoiceUid).Some?
    ensures forall k :: 0 <= k < |db.invoices| && db.invoices[k].hash.Some? ==>
                          HasPayment(db'.payments, db.invoices[k].hash.value, db.invoices[k].uid)
  {
    forall i | 0 <= i < |db.payments|
      ensures FindInvoice(db'.invoices, db'.payments[i].invoiceUid).Some?
    {
      assert db.payments[i].SameIdentity(db'.payments[i]);
      FindInvoiceStable(db.invoices, db'.invoices, db.payments[i].invoiceUid);
    }
    forall k | 0 <= k < |db.invoices| && db.invoices[k].hash.Some?
      ensures HasPayment(db'.payments, db.invoices[k].hash.value, db.invoices[k].uid)
    {
      assert InvoiceRowOk(db.payments, db.invoices[k]);
      var i :| 0 <= i < |db.payments| && db.payments[i].ref.txid == db.invoices[k].hash.value
               && db.payments[i].invoiceUid == db.invoices[k].uid;
      assert db.payments[i].SameIdentity(db'.payments[i]);
    }
  }

  lemma {:induction false} AppendKeepsSound(db: Tables, p: Payment)
    requires Sound(db) && PaymentRowOk(p) && FindInvoice(db.invoices, p.invoiceUid).Some?
    ensures Sound(db.(payments := db.payments + [p]))
  {
    RowsStaySound(db, db.(payments := db.payments + [p]));
  }

  /** Pointing an invoice at a payment of its own whose txid no other invoice holds. */
  lemma {:induction false} PointKeepsSound(db: Tables, k: nat, inv: Invoice)
    requires Sound(db) && k < |db.invoices| && inv.uid == db.invoices[k].uid
    requires InvoiceRowOk(db.payments, inv) && inv.hash.Some? && !HashTaken(db.invoices, k, inv.hash.value)
    ensures Sound(db.(invoices := db.invoices[k := inv]))
  {
    RowsStaySound(db, db.(invoices := db.invoices[k := inv]));
  }

  lemma {:induction false} SubmitKeepsSound(db: Tables, uid: string, ref: TxRef, at: int, confirming: bool)
    requires Sound(db)
    ensures Sound(Submit(db, uid, ref, at, confirming).tables)
  {
    var db' := Submit(db, uid, ref, at, confirming).tables;
    var found := FindInvoice(db.invoices, uid);
    if found.Some? {
      var k, p := found.value, NewPayment(ref, uid, at);
      var db1 := db.(payments := db.payments + [p]);
      AppendKeepsSound(db, p);
      if !HashTaken(db.invoices, k, ref.txid) {
        assert db1.payments[|db.payments|] == p;
        assert HasPayment(db1.payments, ref.txid, uid);
        PointKeepsSound(db1, k, db'.invoices[k]);
      }
    }
  }

  lemma {:induction false} CreateKeepsSound(db: Tables, uid: string)
    requires Sound(db)
    ensures Sound(CreateInvoice(db, uid).tables)
  {
    RowsStaySound(db, CreateInvoice(db, uid).tables);
  }

  lemma {:induction false} RecordKeepsSound(db: Tables, k: nat, txid: string, currency: string, chain: Option<string>,
          at: int)
    requires Sound(db) && k < |db.invoices|
    ensures Sound(Record(db, db.invoices[k].uid, txid, currency, chain, at).tables)
  {
    var uid := db.invoices[k].uid;
    if chain.Some? {
      AppendKeepsSound(db, NewPayment(TxRef(txid, chain.value, currency), uid, at));
    }
  }

  lemma {:induction false} CancelKeepsSound(db: Tables, k: nat)
    requires Sound(db) && k < |db.invoices|
    ensures Sound(Cancel(db, k, db.invoices[k]).tables)
  {
    var db' := Cancel(db, k, db.invoices[k]).tables;
    RowsStaySound(db, db');
    assert InvoiceRowOk(db.payments, db.invoices[k]);
  }

  lemma {:induction false} ClearKeepsSound(db: Tables, k: nat)
    requires Sound(db) && k < |db.invoices|
    ensures Sound(db.(invoices := db.invoices[k := db.invoices[k].(status := InvoiceUnpaid, hash := None)]))
  {
    RowsStaySound(db, db.(invoices := db.invoices[k := db.invoices[k].(status := InvoiceUnpaid, hash := None)]));
  }

  lemma {:induction false} FailKeepsSound(db: Tables, id: nat)
    requires Sound(db) && id < |db.payments|
    ensures Sound(db.(payments := db.payments[id := db.payments[id].(status := PaymentFailed)]))
  {
    RowsStaySound(db, db.(payments := db.payments[id := db.payments[id].(status := PaymentFailed)]));
  }

  lemma {:induction false} RevertKeepsSound(db: Tables, txid: string)
    requires Sound(db)
    ensures Sound(Revert(db, txid).tables)
  {
    hide Sound;
    var k, id := FindInvoiceByHash(db.invoices, txid), FindPayment(db.payments, txid);
    if k.Some? && id.Some? {
      ClearKeepsSound(db, k.value);
      var row := db.invoices[k.value].(status := InvoiceUnpaid, hash := None);
      var cleared := db.(invoices := db.invoices[k.value := row]);
      FailKeepsSound(cleared, id.value);
    }
  }

  lemma {:induction false} ApplyKeepsSound(db: Tables, e: Event)
    requires Sound(db)
    ensures Sound(Apply(db, e))
  {
    hide Sound, CreateInvoice, Submit, Record, Cancel, ConfirmById, Revert;
    match e
    case Creates(uid) => CreateKeepsSound(db, uid);
    case Submits(uid, ref, at, confirming) => SubmitKeepsSound(db, uid, ref, at, confirming);
    case Records(k, txid, currency, chain, at) =>
      if k < |db.invoices| { RecordKeepsSound(db, k, txid, currency, chain, at); }
    case Cancels(k) =>
      if k < |db.invoices| { CancelKeepsSound(db, k); }
    case ConfirmsRow(id, c) => ConfirmKeepsSound(db, id, c);
    case ConfirmsTxid(txid, c) =>
      var id := FindPayment(db.payments, txid);
      if id.Some? { ConfirmKeepsSound(db, id.value, c); }
    case ConfirmsInvoice(uid, pick, answer) =>
      var k := FindInvoice(db.invoices, uid);
      if k.Some? && db.invoices[k.value].hash.Some? && answer.Found? {
        var id := FindPayment(db.payments, db.invoices[k.value].hash.value);
        if id.Some? { ConfirmKeepsSound(db, id.value, answer.confirmation); }
      }
    case Reverts(txid) => RevertKeepsSound(db, txid);
  }

  // ---------------------------------------------------------------- one step with fresh names

  /** Confirming payment `id`, as it concerns invoice j. */
  lemma {:induction false} ConfirmKeepsInvoice(db: Tables, id: nat, c: Confirmation, j: nat)
    requires Sound(db) && j < |db.invoices| && id < |db.payments| && !db.payments[id].HasHash()
    requires Supported(db.payments, db.invoices[j]) && Awaiting(db.payments, db.invoices[j]) && UniqueTxids(db.payments)
    requires UniqueUids(db.invoices)
    ensures var db' := ConfirmById(db, id, c).tables;
            && |db'.invoices| == |db.invoices|
            && Supported(db'.payments, db'.invoices[j]) && Awaiting(db'.payments, db'.invoices[j])
  {
    var db' := ConfirmById(db, id, c).tables;
    var k := FindInvoice(db.invoices, db.payments[id].invoiceUid).value;
    assert ConfirmedFor(db'.payments, db.invoices[k].uid, id);
    assert InvoiceRowOk(db.payments, db.invoices[j]);
    hide Sound;
    if j != k && db.invoices[j].status.InvoicePaid? && db.invoices[j].hash.None? {
      var i: nat :| ConfirmedFor(db.payments, db.invoices[j].uid, i);
      assert ConfirmedFor(db'.payments, db.invoices[j].uid, i);
    }
  }

  lemma {:induction false} ConfirmKeepsConsistent(db: Tables, id: nat, c: Confirmation)
    requires Consistent(db)
    ensures Consistent(ConfirmById(db, id, c).tables)
  {
    var db' := ConfirmById(db, id, c).tables;
    ConfirmKeepsSound(db, id, c);
    ConfirmExtends(db, id, c);
    if id < |db.payments| && !db.payments[id].HasHash() {
      hide Sound, Supported, Awaiting;
      forall j: nat | j < |db.invoices|
        ensures Supported(db'.payments, db'.invoices[j]) && Awaiting(db'.payments, db'.invoices[j])
      {
        ConfirmKeepsInvoice(db, id, c, j);
      }
    }
  }

  /** A payment row with no confirmation takes nothing away from an invoice when it is added. */
  lemma {:induction false} AppendKeepsInvoice(payments: seq<Payment>, p: Payment, inv: Invoice)
    requires Supported(payments, inv) && Awaiting(payments, inv) && !p.HasHash()
    ensures Supported(payments + [p], inv) && Awaiting(payments + [p], inv)
  {
    if inv.status.InvoicePaid? && inv.hash.None? {
      var i: nat :| ConfirmedFor(payments, inv.uid, i);
      assert ConfirmedFor(payments + [p], inv.uid, i);
    }
  }

  lemma {:induction false} SubmitKeepsConsistent(db: Tables, uid: string, ref: TxRef, at: int, confirming: bool)
    requires Consistent(db) && FindPayment(db.payments, ref.txid).None?
    ensures Consistent(Submit(db, uid, ref, at, confirming).tables)
  {
    var db' := Submit(db, uid, ref, at, confirming).tables;
    SubmitKeepsSound(db, uid, ref, at, confirming);
    if FindInvoice(db.invoices, uid).Some? {
      var p := NewPayment(ref, uid, at);
      assert db'.payments == db.payments + [p];
      forall j | 0 <= j < |db.invoices|
        ensures Supported(db'.payments, db'.invoices[j]) && Awaiting(db'.payments, db'.invoices[j])
      {
        if db'.invoices[j] == db.invoices[j] {
          AppendKeepsInvoice(db.payments, p, db.invoices[j]);
        }
      }
    }
  }

  lemma {:induction false} RecordKeepsConsistent(db: Tables, k: nat, txid: string, currency: string,
          chain: Option<string>, at: int)
    requires Consistent(db) && k < |db.invoices| && FindPayment(db.payments, txid).None?
    ensures Consistent(Record(db, db.invoices[k].uid, txid, currency, chain, at).tables)
  {
    var uid := db.invoices[k].uid;
    var db' := Record(db, uid, txid, currency, chain, at).tables;
    RecordKeepsSound(db, k, txid, currency, chain, at);
    if db' != db {
      var p := NewPayment(TxRef(txid, chain.value, currency), uid, at);
      forall j | 0 <= j < |db.invoices|
        ensures Supported(db'.payments, db'.invoices[j]) && Awaiting(db'.payments, db'.invoices[j])
      {
        AppendKeepsInvoice(db.payments, p, db.invoices[j]);
      }
    }
  }

  /** Under unique txids the payment a revert fails is one of the reverted invoice's own. */
  lemma {:induction false} RevertedPaymentIsTheInvoices(db: Tables, txid: string)
    requires Sound(db) && UniqueTxids(db.payments)
    ensures FindInvoiceByHash(db.invoices, txid).Some? ==>
              && FindPayment(db.payments, txid).Some?
              && db.payments[FindPayment(db.payments, txid).value].invoiceUid
                 == db.invoices[FindInvoiceByHash(db.invoices, txid).value].uid
  {
  }

  lemma {:induction false} RevertKeepsConsistent(db: Tables, txid: string)
    requires Consistent(db)
    ensures Consistent(Revert(db, txid).tables)
  {
    var db' := Revert(db, txid).tables;
    RevertKeepsSound(db, txid);
    RevertedPaymentIsTheInvoices(db, txid);
    forall j | 0 <= j < |db.invoices|
      ensures Supported(db'.payments, db'.invoices[j]) && Awaiting(db'.payments, db'.invoices[j])
    {
      assert Supported(db.payments, db.invoices[j]) && Awaiting(db.payments, db.invoices[j]);
      RevertKeepsInvoice(db, txid, j);
    }
  }

  lemma {:induction false} RevertKeepsInvoice(db: Tables, txid: string, j: nat)
    requires j < |db.invoices| && Supported(db.payments, db.invoices[j]) && Awaiting(db.payments, db.invoices[j])
    requires UniqueUids(db.invoices)
    requires FindInvoiceByHash(db.invoices, txid).Some? ==>
               && FindPayment(db.payments, txid).Some?
               && db.payments[FindPayment(db.payments, txid).value].invoiceUid
                  == db.invoices[FindInvoiceByHash(db.invoices, txid).value].uid
    ensures var db' := Revert(db, txid).tables;
            |db'.invoices| == |db.invoices| && Supported(db'.payments, db'.invoices[j]) &&
                Awaiting(db'.payments, db'.invoices[j])
  {
    var db' := Revert(db, txid).tables;
    if db'.invoices[j].status.InvoicePaid? && db'.invoices[j].hash.None? {
      var i: nat :| ConfirmedFor(db.payments, db.invoices[j].uid, i);
      assert ConfirmedFor(db'.payments, db.invoices[j].uid, i);
    }
  }

  lemma {:induction false} CreateKeepsConsistent(db: Tables, uid: string)
    requires Consistent(db) && FindInvoice(db.invoices, uid).None?
    ensures Consistent(CreateInvoice(db, uid).tables)
  {
    CreateKeepsSound(db, uid);
  }

  lemma {:induction false} CancelKeepsConsistent(db: Tables, k: nat)
    requires Consistent(db) && k < |db.invoices|
    ensures Consistent(Cancel(db, k, db.invoices[k]).tables)
  {
    CancelKeepsSound(db, k);
  }

  lemma {:induction false} ApplyKeepsConsistent(db: Tables, e: Event)
    requires Consistent(db) && Fresh(db, e)
    ensures Consistent(Apply(db, e))
  {
    hide Consistent, CreateInvoice, Submit, Record, Cancel, ConfirmById, Revert;
    match e
    case Creates(uid) => CreateKeepsConsistent(db, uid);
    case Submits(uid, ref, at, confirming) => SubmitKeepsConsistent(db, uid, ref, at, confirming);
    case Records(k, txid, currency, chain, at) =>
      if k < |db.invoices| { RecordKeepsConsistent(db, k, txid, currency, chain, at); }
    case Cancels(k) =>
      if k < |db.invoices| { CancelKeepsConsistent(db, k); }
    case ConfirmsRow(id, c) => ConfirmKeepsConsistent(db, id, c);
    case ConfirmsTxid(txid, c) =>
      var id := FindPayment(db.payments, txid);
      if id.Some? { ConfirmKeepsConsistent(db, id.value, c); }
    case ConfirmsInvoice(uid, pick, answer) =>
      var k := FindInvoice(db.invoices, uid);
      if k.Some? && db.invoices[k.value].hash.Some? && answer.Found? {
        var id := FindPayment(db.payments, db.invoices[k.value].hash.value);
        if id.Some? { ConfirmKeepsConsistent(db, id.value, answer.confirmation); }
      }
    case Reverts(txid) => RevertKeepsConsistent(db, txid);
  }

  // ---------------------------------------------------------------- whole runs

  const EMPTY := Tables([], [])

  lemma {:induction false} RunKeepsSound(db: Tables, events: seq<Event>)
    requires Sound(db)
    ensures Sound(Run(db, events))
    decreases |events|
  {
    if events != [] {
      ApplyKeepsSound(db, events[0]);
      RunKeepsSound(Apply(db, events[0]), events[1..]);
    }
  }

  lemma {:induction false} RunKeepsConsistent(db: Tables, events: seq<Event>)
    requires Consistent(db) && AllFresh(db, events)
    ensures Consistent(Run(db, events))
    decreases |events|
  {
    if events != [] {
      ApplyKeepsConsistent(db, events[0]);
      RunKeepsConsistent(Apply(db, events[0]), events[1..]);
    }
  }

  /** The invariant spelled out for the server's own start: an empty database. */
  lemma {:induction false} EveryRunIsSound(events: seq<Event>)
    ensures var db := Run(EMPTY, events);
            && (forall k :: 0 <= k < |db.invoices| ==>
                  var inv := db.invoices[k];
                  && (inv.hash.Some? ==>
                        && (inv.status.InvoiceConfirming? || inv.status.InvoicePaid?)
                        && exists i :: 0 <= i < |db.payments| && db.payments[i].ref.txid == inv.hash.value
                                       && db.payments[i].invoiceUid == inv.uid)
                  && (inv.status.InvoiceConfirming? ==> inv.hash.Some?)
                  && (inv.status.InvoiceUnpaid? || inv.status.InvoiceCancelled? ==> inv.hash.None?))
            && (forall i :: 0 <= i < |db.payments| ==>
                  var p := db.payments[i];
                  && (p.status.PaymentConfirmed? ==> p.hash.Some? && p.height.Some? && p.date.Some?)
                  && (p.status.PaymentConfirming? ==> p.hash.None?))
            && (forall j, k :: 0 <= j < k < |db.invoices| && db.invoices[j].hash.Some? ==>
                  db.invoices[j].hash != db.invoices[k].hash)
  {
    RunKeepsSound(EMPTY, events);
    var db := Run(EMPTY, events);
    assert forall k :: 0 <= k < |db.invoices| ==> InvoiceRowOk(db.payments, db.invoices[k]);
    assert forall i :: 0 <= i < |db.payments| ==> PaymentRowOk(db.payments[i]);
  }

  lemma {:induction false} EveryFreshRunIsSupported(events: seq<Event>)
    requires AllFresh(EMPTY, events)
    ensures var db := Run(EMPTY, events);
            forall k :: 0 <= k < |db.invoices| && db.invoices[k].status.InvoicePaid? && db.invoices[k].hash.None? ==>
                          exists i: nat :: i < |db.payments| && db.payments[i].invoiceUid == db.invoices[k].uid
                                           && db.payments[i].status.PaymentConfirmed?
  {
    RunKeepsConsistent(EMPTY, events);
    var db := Run(EMPTY, events);
    forall k | 0 <= k < |db.invoices| && db.invoices[k].status.InvoicePaid? && db.invoices[k].hash.None?
      ensures exists i: nat :: i < |db.payments| && db.payments[i].invoiceUid == db.invoices[k].uid
                               && db.payments[i].status.PaymentConfirmed?
    {
      assert Supported(db.payments, db.invoices[k]);
      var i: nat :| ConfirmedFor(db.payments, db.invoices[k].uid, i);
    }
  }

  // ---------------------------------------------------------------- txids used twice

  /** Invoice j is paid and has no hash, and payment row `id` is the only confirmed one it has. */
  ghost predicate RestsOn(db: Tables, j: nat, id: nat) {
    && j < |db.invoices| && db.invoices[j].status.InvoicePaid? && db.invoices[j].hash.None?
    && ConfirmedFor(db.payments, db.invoices[j].uid, id)
    && forall i: nat :: ConfirmedFor(db.payments, db.invoices[j].uid, i) ==> i == id
  }

  ghost predicate Undermines(db: Tables, txid: string) {
    var k, id := FindInvoiceByHash(db.invoices, txid), FindPayment(db.payments, txid);
    k.Some? && id.Some? && exists j: nat :: RestsOn(db, j, id.value)
  }

  /** Without unique txids a revert can fail another invoice's payment. It leaves a paid invoice with
      nothing behind it exactly when some hashless paid invoice rests on the payment row the txid finds. */
  lemma {:induction false} RevertKeepsSupportExactly(db: Tables, txid: string)
    requires Sound(db) && AllSupported(db)
    ensures AllSupported(Revert(db, txid).tables) <==> !Undermines(db, txid)
  {
    var db' := Revert(db, txid).tables;
    var k, id := FindInvoiceByHash(db.invoices, txid), FindPayment(db.payments, txid);
    if k.Some? && id.Some? {
      if Undermines(db, txid) {
        var j: nat :| RestsOn(db, j, id.value);
        assert forall i: nat :: ConfirmedFor(db'.payments, db.invoices[j].uid, i) ==>
            ConfirmedFor(db.payments, db.invoices[j].uid, i);
        assert !Supported(db'.payments, db'.invoices[j]);
      } else {
        forall j | 0 <= j < |db.invoices|
          ensures Supported(db'.payments, db'.invoices[j])
        {
          assert Supported(db.payments, db.invoices[j]) && !RestsOn(db, j, id.value);
          if j != k.value && db.invoices[j].status.InvoicePaid? && db.invoices[j].hash.None? {
            var i: nat :| ConfirmedFor(db.payments, db.invoices[j].uid, i) && i != id.value;
            assert ConfirmedFor(db'.payments, db.invoices[j].uid, i);
          }
        }
      }
    }
  }

  // ---------------------------------------------------------------- confirmations are write-once

  ghost predicate Frozen(p: Payment, q: Payment) {
    q.SameTriple(p) && (p.status.PaymentFailed? ==> q.status.PaymentFailed?)
  }

  lemma {:induction false} ApplyFreezes(db: Tables, e: Event, i: nat)
    requires i < |db.payments| && db.payments[i].HasHash()
    ensures i < |Apply(db, e).payments| && Frozen(db.payments[i], Apply(db, e).payments[i])
  {
    ApplyExtends(db, e);
  }

  /** No run removes a row, or changes what a payment is of, for which invoice and since when, or an invoice's uid. */
  lemma {:induction false} RunExtends(db: Tables, events: seq<Event>)
    ensures var after := Run(db, events);
            && |db.payments| <= |after.payments| && |db.invoices| <= |after.invoices|
            && (forall i :: 0 <= i < |db.payments| ==>
                  var p, q := db.payments[i], after.payments[i];
                  q.ref == p.ref && q.invoiceUid == p.invoiceUid && q.createdAt == p.createdAt)
            && (forall k :: 0 <= k < |db.invoices| ==> after.invoices[k].uid == db.invoices[k].uid)
    decreases |events|
  {
    if events != [] {
      ApplyExtends(db, events[0]);
      RunExtends(Apply(db, events[0]), events[1..]);
    }
  }

  /** Once a payment has a confirmation hash, no run changes its triple, and none confirms it again
      after it has failed. */
  lemma {:induction false} ConfirmationIsWriteOnce(db: Tables, events: seq<Event>, i: nat)
    requires i < |db.payments| && db.payments[i].HasHash()
    ensures i < |Run(db, events).payments|
    ensures var p, q := db.payments[i], Run(db, events).payments[i];
            && q.hash == p.hash && q.height == p.height && q.date == p.date
            && (p.status == PaymentFailed ==> q.status == PaymentFailed)
    decreases |events|
  {
    if events != [] {
      ApplyFreezes(db, events[0], i);
      ConfirmationIsWriteOnce(Apply(db, events[0]), events[1..], i);
    }
  }

  ghost predicate NeverRewritten(db: Tables, i: nat)
    requires i < |db.payments|
  {
    forall events: seq<Event> ::
      i < |Run(db, events).payments| &&
      var p, q := db.payments[i], Run(db, events).payments[i];
      q.hash == p.hash && q.height == p.height && q.date == p.date
  }

  /** A row just confirmed is safe from rewriting exactly when the confirmation hash was not the empty
      string, which the already-confirmed test reads as absent. */
  lemma {:induction false} WriteOnceExactly(db: Tables, i: nat, c: Confirmation)
    requires i < |db.payments| && !db.payments[i].HasHash()
    ensures var db' := ConfirmById(db, i, c).tables;
            i < |db'.payments| && (NeverRewritten(db', i) <==> c.hash != "")
  {
    var db' := ConfirmById(db, i, c).tables;
    if c.hash != "" {
      forall events: seq<Event>
        ensures i < |Run(db', events).payments|
        ensures var p, q := db'.payments[i], Run(db', events).payments[i];
                q.hash == p.hash && q.height == p.height && q.date == p.date
      {
        ConfirmationIsWriteOnce(db', events, i);
      }
    } else {
      var again := ConfirmsRow(i, Confirmation("0", 0, 0));
      assert Run(Apply(db', again), []) == Apply(db', again);
      assert Run(db', [again]) == Apply(db', again);
      assert Run(db', [again]).payments[i].hash != db'.payments[i].hash;
    }
  }

  // ---------------------------------------------------------------- one payment per invoice

  ghost predicate OnePaymentEach(payments: seq<Payment>) {
    forall i, j :: 0 <= i < j < |payments| ==> payments[i].invoiceUid != payments[j].invoiceUid
  }

  lemma {:induction false} RecordedStepKeepsOnePayment(db: Tables, e: Event)
    requires OnePaymentEach(db.payments) && !e.Submits?
    ensures OnePaymentEach(Apply(db, e).payments)
  {
    ApplyExtends(db, e);
    if !e.Records? {
      assert |Apply(db, e).payments| == |db.payments|;
    }
  }

  /** Runs that insert payments only through `recordPayment` never give an invoice a second one. */
  lemma {:induction false} RecordedRunsKeepOnePayment(db: Tables, events: seq<Event>)
    requires OnePaymentEach(db.payments) && forall e :: e in events ==> !e.Submits?
    ensures OnePaymentEach(Run(db, events).payments)
    decreases |events|
  {
    if events != [] {
      assert events[0] in events;
      RecordedStepKeepsOnePayment(db, events[0]);
      RecordedRunsKeepOnePayment(Apply(db, events[0]), events[1..]);
    }
  }

  // ---------------------------------------------------------------- confirmInvoice

  /** `confirmInvoice` reads some payment of the invoice, not the one the invoice's hash names. So a confirming
      invoice is settled exactly when the payment it is given has no complete confirmation of its own and the chain,
      asked about the invoice's hash under the chain and currency of that payment, has a confirmation. */
  lemma {:induction false} ConfirmInvoiceSettlesExactly(db: Tables, uid: string, i: Option<nat>,
      lookup: TxRef -> Lookup)
    requires Consistent(db) && PaymentOf(db.payments, uid, i)
    requires FindInvoice(db.invoices, uid).Some?
    requires var inv := db.invoices[FindInvoice(db.invoices, uid).value]; inv.status.InvoiceConfirming? && inv.HasHash()
    ensures i.Some?
    ensures var k := FindInvoice(db.invoices, uid).value; var p := db.payments[i.value];
            var after := InvoiceConfirmation(db, uid, i, lookup);
            && |after.invoices| == |db.invoices|
            && (after.invoices[k].status.InvoicePaid? <==>
                  && !p.HasFullTruthyTriple()
                  && lookup(TxRef(db.invoices[k].hash.value, p.ref.chain, p.ref.currency)).Found?)
  {
    var inv := db.invoices[FindInvoice(db.invoices, uid).value];
    assert InvoiceRowOk(db.payments, inv);
  }

  /** Whatever confirmation `confirmInvoice` reports is the one stored with the payment it reports. */
  lemma {:induction false} ReportedConfirmationIsStored(db: Tables, uid: string, i: Option<nat>,
      lookup: TxRef -> Lookup)
    requires Consistent(db) && PaymentOf(db.payments, uid, i) && InvoiceReport(db, uid, i, lookup).confirmation.Some?
    ensures var r, after := InvoiceReport(db, uid, i, lookup), InvoiceConfirmation(db, uid, i, lookup);
            && r.payment.Some? && r.payment.value < |after.payments|
            && var p, c := after.payments[r.payment.value], r.confirmation.value;
               p.invoiceUid == uid && p.hash == Some(c.hash) && p.height == Some(c.height) && p.date == Some(c.date)
  {
    var k := FindInvoice(db.invoices, uid).value;
    var inv := db.invoices[k];
    if !db.payments[i.value].HasFullTruthyTriple() {
      assert InvoiceRowOk(db.payments, inv) && Awaiting(db.payments, inv);
    }
  }

  lemma {:induction false} RunConcat(db: Tables, first: seq<Event>, second: seq<Event>)
    ensures Run(db, first + second) == Run(Run(db, first), second)
    ensures AllFresh(db, first + second) <==> AllFresh(db, first) && AllFresh(Run(db, first), second)
    decreases |first|
  {
    if first == [] {
      assert first + second == second;
    } else {
      assert (first + second)[1..] == first[1..] + second;
      RunConcat(Apply(db, first[0]), first[1..], second);
    }
  }

  lemma {:induction false} RunOne(db: Tables, e: Event)
    ensures Run(db, [e]) == Apply(db, e)
    ensures AllFresh(db, [e]) <==> Fresh(db, e)
  {
  }

  /** Paying and confirming a new invoice, then reverting. */
  lemma {:induction false} PayConfirmRevert(uid: string, ref: TxRef, c: Confirmation)
    ensures var events := [Creates(uid)] + [Submits(uid, ref, 0, true)] + [ConfirmsTxid(ref.txid, c)]
                          + [Reverts(ref.txid)];
            && AllFresh(EMPTY, events)
            && Run(EMPTY, events) == Tables([MarkConfirmed(NewPayment(ref, uid, 0), c).(status := PaymentFailed)],
                                            [Invoice(uid, InvoiceUnpaid, None, true, false)])
  {
    var e1, e2, e3, e4 := Creates(uid), Submits(uid, ref, 0, true), ConfirmsTxid(ref.txid, c), Reverts(ref.txid);
    var p := NewPayment(ref, uid, 0);
    var s1 := Tables([], [NewInvoice(uid)]);
    var s2 := Tables([p], [Invoice(uid, InvoiceConfirming, Some(ref.txid), true, false)]);
    var s3 := Tables([MarkConfirmed(p, c)], [Invoice(uid, InvoicePaid, Some(ref.txid), true, false)]);
    assert Apply(EMPTY, e1) == s1;
    assert Apply(s1, e2) == s2;
    assert Apply(s2, e3) == s3;
    RunOne(EMPTY, e1);
    RunOne(s1, e2);
    RunConcat(EMPTY, [e1], [e2]);
    RunOne(s2, e3);
    RunConcat(EMPTY, [e1] + [e2], [e3]);
    RunOne(s3, e4);
    RunConcat(EMPTY, [e1] + [e2] + [e3], [e4]);
  }

  /** An invoice is paid, confirmed, reverted and paid again, and the chain confirms the second payment. Then
      `confirmInvoice` settles the invoice exactly when its unordered lookup returns the newer payment row; given the
      older one it changes nothing, however often it is called. */
  lemma {:induction false} ResubmittedPaymentSettlesExactly(uid: string, first: TxRef, second: TxRef, c: Confirmation,
          d: Confirmation, pick: nat)
    requires first.txid != second.txid && second.txid != "" && c.hash != "" && c.height != 0
    ensures var paidAgain := [Creates(uid)] + [Submits(uid, first, 0, true)] + [ConfirmsTxid(first.txid, c)]
                             + [Reverts(first.txid)] + [Submits(uid, second, 1, true)];
            var db := Run(EMPTY, paidAgain);
            var after := Run(EMPTY, paidAgain + [ConfirmsInvoice(uid, pick, Found(d))]);
            && AllFresh(EMPTY, paidAgain + [ConfirmsInvoice(uid, pick, Found(d))])
            && db.invoices == [Invoice(uid, InvoiceConfirming, Some(second.txid), true, false)]
            && |after.invoices| == 1 && (after.invoices[0].status.InvoicePaid? <==> pick == 1)
            && (pick != 1 ==> after == db)
  {
    var head := [Creates(uid)] + [Submits(uid, first, 0, true)] + [ConfirmsTxid(first.txid, c)] + [Reverts(first.txid)];
    var e5, e6 := Submits(uid, second, 1, true), ConfirmsInvoice(uid, pick, Found(d));
    PayConfirmRevert(uid, first, c);
    var s4 := Run(EMPTY, head);
    var s5 := Tables(s4.payments + [NewPayment(second, uid, 1)],
                     [Invoice(uid, InvoiceConfirming, Some(second.txid), true, false)]);
    assert Apply(s4, e5) == s5;
    PaidAgain(s5, uid, pick, d);
    hide Apply, MarkConfirmed, NewPayment;
    RunOne(s4, e5);
    RunConcat(EMPTY, head, [e5]);
    RunOne(s5, e6);
    RunConcat(EMPTY, head + [e5], [e6]);
  }

  /** The same for the tables that run leaves. */
  lemma {:induction false} PaidAgain(db: Tables, uid: string, pick: nat, d: Confirmation)
    requires |db.payments| == 2 && |db.invoices| == 1 && db.invoices[0].uid == uid
    requires db.payments[0].invoiceUid == uid == db.payments[1].invoiceUid
    requires db.invoices[0].status.InvoiceConfirming? && db.invoices[0].HasHash()
    requires db.invoices[0].hash.value == db.payments[1].ref.txid != db.payments[0].ref.txid
    requires db.payments[0].HasFullTruthyTriple() && !db.payments[1].HasHash()
    ensures var after := Apply(db, ConfirmsInvoice(uid, pick, Found(d)));
            && |after.invoices| == 1 && (after.invoices[0].status.InvoicePaid? <==> pick == 1)
            && (pick != 1 ==> after == db)
  {
    assert FindInvoice(db.invoices, uid) == Some(0);
    assert FindPaymentOf(db.payments, uid) == Some(0);
    assert FindPayment(db.payments, db.invoices[0].hash.value) == Some(1);
  }

  /** A txid used twice: invoice a is paid by a recorded payment, invoice b by a submitted one with the same txid, and
      that transaction is then reverted. The revert fails the first payment, not its own, and a is left paid with
      no hash and no confirmed payment. */
  lemma {:induction false} UnderminedIsReached(a: string, b: string, ref: TxRef, c: Confirmation)
    requires a != b
    ensures var events := [Creates(a)] + [Records(0, ref.txid, ref.currency, Some(ref.chain), 0)]
                          + [ConfirmsTxid(ref.txid, c)]
                          + [Creates(b)] + [Submits(b, ref, 1, true)];
            var db := Run(EMPTY, events);
            && Sound(db) && AllSupported(db) && Undermines(db, ref.txid)
            && Run(EMPTY, events + [Reverts(ref.txid)]) ==
               Tables([MarkConfirmed(NewPayment(ref, a, 0), c).(status := PaymentFailed), NewPayment(ref, b, 1)],
                      [NewInvoice(a).(status := InvoicePaid), Invoice(b, InvoiceUnpaid, None, true, false)])
  {
    var head := [Creates(a)] + [Records(0, ref.txid, ref.currency, Some(ref.chain), 0)] + [ConfirmsTxid(ref.txid, c)];
    var e4, e5, e6 := Creates(b), Submits(b, ref, 1, true), Reverts(ref.txid);
    var p, q, paid := MarkConfirmed(NewPayment(ref, a, 0), c), NewPayment(ref, b, 1),
        NewInvoice(a).(status := InvoicePaid);
    var s3, s4 := Tables([p], [paid]), Tables([p], [paid, NewInvoice(b)]);
    var s5 := Tables([p, q], [paid, Invoice(b, InvoiceConfirming, Some(ref.txid), true, false)]);
    RecordedAndConfirmed(a, ref, c);
    assert Apply(s3, e4) == s4;
    assert FindInvoice(s4.invoices, b) == Some(1);
    assert Apply(s4, e5) == s5;
    UnderminedTables(s5, ref.txid);
    assert FindInvoiceByHash(s5.invoices, ref.txid) == Some(1);
    var s6 := Tables([p.(status := PaymentFailed), q], [paid, Invoice(b, InvoiceUnpaid, None, true, false)]);
    assert Apply(s5, e6) == s6;
    hide Apply, Sound, AllSupported, Undermines, FindInvoice, FindInvoiceByHash;
    RunConcat(EMPTY, head, [e4]);
    RunOne(s3, e4);
    RunConcat(EMPTY, head + [e4], [e5]);
    RunOne(s4, e5);
    RunConcat(EMPTY, head + [e4] + [e5], [e6]);
    RunOne(s5, e6);
    EmptyIsSound();
    RunKeepsSound(EMPTY, head + [e4] + [e5]);
  }

  lemma {:induction false} EmptyIsSound()
    ensures Sound(EMPTY)
  {
  }

  lemma {:induction false} RecordedAndConfirmed(uid: string, ref: TxRef, c: Confirmation)
    ensures var events := [Creates(uid)] + [Records(0, ref.txid, ref.currency, Some(ref.chain), 0)]
                          + [ConfirmsTxid(ref.txid, c)];
            Run(EMPTY, events) ==
            Tables([MarkConfirmed(NewPayment(ref, uid, 0), c)], [NewInvoice(uid).(status := InvoicePaid)])
  {
    var e1, e2, e3 := Creates(uid), Records(0, ref.txid, ref.currency, Some(ref.chain), 0), ConfirmsTxid(ref.txid, c);
    var s1, s2 := Tables([], [NewInvoice(uid)]), Tables([NewPayment(ref, uid, 0)], [NewInvoice(uid)]);
    var s3 := Tables([MarkConfirmed(NewPayment(ref, uid, 0), c)], [NewInvoice(uid).(status := InvoicePaid)]);
    assert Apply(EMPTY, e1) == s1;
    assert Apply(s1, e2) == s2;
    assert Apply(s2, e3) == s3;
    RunTwo(EMPTY, e1, e2);
    RunConcat(EMPTY, [e1] + [e2], [e3]);
    RunOne(s2, e3);
  }

  lemma {:induction false} RunTwo(db: Tables, e: Event, f: Event)
    ensures Run(db, [e] + [f]) == Apply(Apply(db, e), f)
  {
    RunOne(db, e);
    RunOne(Apply(db, e), f);
    RunConcat(db, [e], [f]);
  }

  lemma {:induction false} UnderminedTables(db: Tables, txid: string)
    requires |db.payments| == 2 && |db.invoices| == 2
    requires db.payments[0].ref.txid == txid && db.payments[0].status.PaymentConfirmed?
    requires db.payments[0].invoiceUid == db.invoices[0].uid != db.payments[1].invoiceUid
    requires db.invoices[0].status.InvoicePaid? && db.invoices[0].hash.None?
    requires db.invoices[1].hash == Some(txid) && !db.invoices[1].status.InvoicePaid?
    ensures AllSupported(db) && Undermines(db, txid)
  {
    assert FindInvoiceByHash(db.invoices, txid) == Some(1) && FindPayment(db.payments, txid) == Some(0);
    assert ConfirmedFor(db.payments, db.invoices[0].uid, 0);
    assert RestsOn(db, 0, 0);
  }
}
