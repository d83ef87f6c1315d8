/** EVM receipts routed to confirm or revert, and why their order does not matter. */
module Receipts {
  import opened Wrappers
  import opened Rows
  import opened Lifecycle
  import opened Runs
  import opened Database

  /** A receipt together with the timestamp of the block it names. */
  datatype Receipt = Receipt(txid: string, success: bool, blockHash: string, blockNumber: int, blockTime: int)

  function ConfirmationOf(r: Receipt): Confirmation {
    Confirmation(r.blockHash, r.blockNumber, r.blockTime * 1000)
  }

  function Handle(db: Tables, r: Receipt): Tables {
    if r.success then ConfirmByTxid(db, r.txid, ConfirmationOf(r)).tables else Revert(db, r.txid).tables
  }

  /** Whether `handleTransactionReceipt` gets as far as saving a receipt record: the webhook that
      `confirmPayment` sends after its writes may still throw, but is not sent for a payment already confirmed. */
  predicate ReachesRecord(db: Tables, r: Receipt, webhookThrows: bool) {
    && r.success && ConfirmByTxid(db, r.txid, ConfirmationOf(r)).outcome.Done?
    && (webhookThrows ==> db.payments[FindPayment(db.payments, r.txid).value].HasHash())
  }

  /** `handleTransactionReceipt`. A failing revert is not awaited, so its error is lost. The block is read before
      anything is written for an accepted receipt, and the client may fail to give it. */
  method HandleTransactionReceipt(db: Database, r: Receipt, blockThrows: bool, webhookThrows: bool)
    modifies db
    ensures db.Tables() == if r.success && blockThrows then old(db.Tables()) else Handle(old(db.Tables()), r)
    ensures db.receipts == if && !blockThrows && ReachesRecord(old(db.Tables()), r, webhookThrows)
                              && r.txid !in old(db.receipts)
                           then old(db.receipts) + [r.txid] else old(db.receipts)
  {
    if !r.success {
      var _ := RevertPayment(db, r.txid);
      return;
    }
    if blockThrows {
      return;
    }
    var before := FindPayment(db.payments, r.txid);
    var already := before.Some? && db.payments[before.value].HasHash();
    var out := ConfirmPaymentByTxid(db, r.txid, ConfirmationOf(r));
    if out.Threw? || (webhookThrows && !already) {
      return;
    }
    if r.txid !in db.receipts {
      db.receipts := db.receipts + [r.txid];
    }
  }

  function Process(db: Tables, receipts: seq<Receipt>): Tables {
    if receipts == [] then db
    else Handle(Process(db, receipts[..|receipts| - 1]), receipts[|receipts| - 1])
  }

  /** The chain says one thing about a transaction. */
  ghost predicate OneVerdictEach(receipts: seq<Receipt>) {
    forall r, s :: r in receipts && s in receipts && r.txid == s.txid ==> r == s
  }

  function Verdict(receipts: seq<Receipt>, txid: string): (v: Option<Receipt>)
    ensures v.Some? ==> v.value in receipts && v.value.txid == txid
    ensures v.None? ==> forall r :: r in receipts ==> r.txid != txid
  {
    if receipts == [] then None
    else if receipts[0].txid == txid then Some(receipts[0])
    else Verdict(receipts[1..], txid)
  }

  ghost predicate Accepted(receipts: seq<Receipt>, txid: string) {
    Verdict(receipts, txid).Some? && Verdict(receipts, txid).value.success
  }

  ghost predicate Rejected(receipts: seq<Receipt>, txid: string) {
    Verdict(receipts, txid).Some? && !Verdict(receipts, txid).value.success
  }

  // ---------------------------------------------------------------- what the receipts amount to

  /** The payment row after all the receipts. A revert only reaches a payment whose txid some invoice holds. */
  function SettledPayment(invoices: seq<Invoice>, receipts: seq<Receipt>, p: Payment): Payment {
    match Verdict(receipts, p.ref.txid)
    case None => p
    case Some(r) =>
      if r.success then (if p.HasHash() then p else MarkConfirmed(p, ConfirmationOf(r)))
      else if FindInvoiceByHash(invoices, p.ref.txid).Some? then p.(status := PaymentFailed)
      else p
  }

  ghost predicate PaidByReceipt(db: Tables, receipts: seq<Receipt>, k: nat, i: nat) {
    && i < |db.payments| && Accepted(receipts, db.payments[i].ref.txid) && Pays(db, i, k)
  }

  ghost predicate SettledAsPaid(db: Tables, receipts: seq<Receipt>, k: nat) {
    exists i: nat :: PaidByReceipt(db, receipts, k, i)
  }

  ghost function SettledInvoice(db: Tables, receipts: seq<Receipt>, k: nat): Invoice
    requires k < |db.invoices|
  {
    var inv := db.invoices[k];
    if inv.hash.Some? && Rejected(receipts, inv.hash.value) then inv.(status := InvoiceUnpaid, hash := None)
    else if SettledAsPaid(db, receipts, k) then inv.(status := InvoicePaid)
    else inv
  }

  ghost function Settlement(db: Tables, receipts: seq<Receipt>): Tables {
    Tables(
      seq(|db.payments|, i requires 0 <= i < |db.payments| => SettledPayment(db.invoices, receipts, db.payments[i])),
      seq(|db.invoices|, k requires 0 <= k < |db.invoices| => SettledInvoice(db, receipts, k)))
  }

  ghost predicate Ready(db: Tables) {
    Sound(db) && UniqueTxids(db.payments)
  }

  /** Invoice k waits for a transaction that the receipts reject, while they accept its unconfirmed payment i. */
  ghost predicate Contested(db: Tables, receipts: seq<Receipt>, k: nat, i: nat) {
    && k < |db.invoices| && db.invoices[k].hash.Some? && Rejected(receipts, db.invoices[k].hash.value)
    && PaidByReceipt(db, receipts, k, i)
  }

  ghost predicate Conflict(db: Tables, receipts: seq<Receipt>) {
    exists k: nat, i: nat :: Contested(db, receipts, k, i)
  }

  lemma {:induction false} VerdictSnoc(receipts: seq<Receipt>, r: Receipt, txid: string)
    ensures Verdict(receipts + [r], txid) ==
            if Verdict(receipts, txid).Some? then Verdict(receipts, txid)
            else if r.txid == txid then Some(r) else None
  {
    var all := receipts + [r];
    if receipts == [] {
      assert all == [r];
    } else {
      assert all[1..] == receipts[1..] + [r];
      assert all[0] == receipts[0];
      if receipts[0].txid != txid { VerdictSnoc(receipts[1..], r, txid); }
    }
  }

  /** Only the verdicts matter to the settlement. */
  lemma {:induction false} SameVerdictsSameSettlement(db: Tables, first: seq<Receipt>, second: seq<Receipt>)
    requires forall txid :: Verdict(first, txid) == Verdict(second, txid)
    ensures Settlement(db, first) == Settlement(db, second)
  {
    hide Verdict;
    var a, b := Settlement(db, first), Settlement(db, second);
    forall k: nat | k < |db.invoices|
      ensures SettledAsPaid(db, first, k) <==> SettledAsPaid(db, second, k)
    {
      assert forall i: nat :: PaidByReceipt(db, first, k, i) <==> PaidByReceipt(db, second, k, i);
    }
    assert a.payments == b.payments;
    assert a.invoices == b.invoices;
  }

  /** A verdict already in the list: the settlement is unchanged. */
  lemma {:induction false} SettlementOfRepeat(db: Tables, receipts: seq<Receipt>, r: Receipt)
    requires Verdict(receipts, r.txid).Some?
    ensures Settlement(db, receipts + [r]) == Settlement(db, receipts)
  {
    forall txid
      ensures Verdict(receipts + [r], txid) == Verdict(receipts, txid)
    {
      VerdictSnoc(receipts, r, txid);
    }
    SameVerdictsSameSettlement(db, receipts + [r], receipts);
  }

  lemma {:induction false} SettlementKeepsNames(db: Tables, receipts: seq<Receipt>)
    ensures PaymentsExtend(db.payments, Settlement(db, receipts).payments)
    ensures InvoicesExtend(db.invoices, Settlement(db, receipts).invoices)
  {
  }

  lemma {:induction false} ConflictGrows(db: Tables, receipts: seq<Receipt>, r: Receipt)
    requires !Conflict(db, receipts + [r])
    ensures !Conflict(db, receipts)
  {
    forall k: nat, i: nat
      ensures !Contested(db, receipts, k, i)
    {
      if Contested(db, receipts, k, i) {
        VerdictSnoc(receipts, r, db.invoices[k].hash.value);
        VerdictSnoc(receipts, r, db.payments[i].ref.txid);
        assert Contested(db, receipts + [r], k, i);
      }
    }
  }

  /** The first receipt for a transaction moves only the payment row with its txid. */
  lemma {:induction false} PaymentStep(invoices: seq<Invoice>, receipts: seq<Receipt>, r: Receipt, p: Payment)
    requires Verdict(receipts, r.txid).None?
    ensures SettledPayment(invoices, receipts + [r], p) ==
            if p.ref.txid == r.txid then SettledPayment(invoices, [r], p) else SettledPayment(invoices, receipts, p)
  {
    VerdictSnoc(receipts, r, p.ref.txid);
  }

  lemma {:induction false} PaidByStep(db: Tables, receipts: seq<Receipt>, r: Receipt, k: nat, i: nat)
    requires Verdict(receipts, r.txid).None?
    ensures PaidByReceipt(db, receipts + [r], k, i) <==>
            PaidByReceipt(db, receipts, k, i) ||
            (r.success && i < |db.payments| && db.payments[i].ref.txid == r.txid && Pays(db, i, k))
  {
    if i < |db.payments| {
      VerdictSnoc(receipts, r, db.payments[i].ref.txid);
    }
  }

  /** The invoices the receipts pay, after one more accepted receipt. */
  lemma {:induction false} AcceptedPaid(db: Tables, receipts: seq<Receipt>, r: Receipt, k: nat)
    requires UniqueTxids(db.payments) && Verdict(receipts, r.txid).None? && r.success
    ensures var id := FindPayment(db.payments, r.txid);
            SettledAsPaid(db, receipts + [r], k) <==>
            SettledAsPaid(db, receipts, k) || (id.Some? && Pays(db, id.value, k))
  {
    var id := FindPayment(db.payments, r.txid);
    var all := receipts + [r];
    forall i: nat
      ensures PaidByReceipt(db, all, k, i) <==>
              PaidByReceipt(db, receipts, k, i) || (id == Some(i) && Pays(db, i, k))
    {
      PaidByStep(db, receipts, r, k, i);
    }
    hide PaidByReceipt, Pays, FindPayment;
    if id.Some? && Pays(db, id.value, k) { assert PaidByReceipt(db, all, k, id.value); }
  }

  lemma {:induction false} AcceptedInvoice(db: Tables, receipts: seq<Receipt>, r: Receipt, k: nat)
    requires Ready(db) && Verdict(receipts, r.txid).None? && r.success && k < |db.invoices|
    requires !Conflict(db, receipts + [r])
    ensures var id := FindPayment(db.payments, r.txid);
            SettledInvoice(db, receipts + [r], k) ==
            if id.Some? && Pays(db, id.value, k) then SettledInvoice(db, receipts, k).(status := InvoicePaid)
            else SettledInvoice(db, receipts, k)
  {
    var id := FindPayment(db.payments, r.txid);
    AcceptedPaid(db, receipts, r, k);
    if id.Some? && Pays(db, id.value, k) {
      PaidByStep(db, receipts, r, k, id.value);
      assert PaidByReceipt(db, receipts + [r], k, id.value) && !Contested(db, receipts + [r], k, id.value);
    }
    hide SettledAsPaid, Pays, PaidByReceipt, Ready, Conflict;
    if db.invoices[k].hash.Some? {
      VerdictSnoc(receipts, r, db.invoices[k].hash.value);
    }
  }

  lemma {:induction false} AcceptedPayments(db: Tables, receipts: seq<Receipt>, r: Receipt)
    requires Ready(db) && Verdict(receipts, r.txid).None? && r.success
    ensures Handle(Settlement(db, receipts), r).payments == Settlement(db, receipts + [r]).payments
  {
    var now := Settlement(db, receipts);
    SettlementKeepsNames(db, receipts);
    FindPaymentStable(db.payments, now.payments, r.txid);
    forall i: nat | i < |db.payments| { PaymentStep(db.invoices, receipts, r, db.payments[i]); }
    var id := FindPayment(db.payments, r.txid);
    if id.Some? {
      OnlyOneWithTxid(db.payments, id.value);
      AcceptedPaymentStep(db, now, id.value, r);
    }
  }

  lemma {:induction false} AcceptedInvoices(db: Tables, receipts: seq<Receipt>, r: Receipt)
    requires Ready(db) && Verdict(receipts, r.txid).None? && r.success
    requires !Conflict(db, receipts + [r])
    ensures Handle(Settlement(db, receipts), r).invoices == Settlement(db, receipts + [r]).invoices
  {
    var now := Settlement(db, receipts);
    SettlementKeepsNames(db, receipts);
    FindPaymentStable(db.payments, now.payments, r.txid);
    forall k: nat | k < |db.invoices| { AcceptedInvoice(db, receipts, r, k); }
    var id := FindPayment(db.payments, r.txid);
    if id.Some? {
      AcceptedPaymentStep(db, now, id.value, r);
    }
  }

  /** The first receipt for a transaction, accepted: handling it moves the settlement on by that receipt. */
  lemma {:induction false} AcceptedStep(db: Tables, receipts: seq<Receipt>, r: Receipt)
    requires Ready(db) && Verdict(receipts, r.txid).None? && r.success
    requires !Conflict(db, receipts + [r])
    ensures Handle(Settlement(db, receipts), r) == Settlement(db, receipts + [r])
  {
    AcceptedPayments(db, receipts, r);
    AcceptedInvoices(db, receipts, r);
  }

  lemma {:induction false} OnlyOneWithTxid(payments: seq<Payment>, id: nat)
    requires UniqueTxids(payments) && id < |payments|
    ensures forall i :: 0 <= i < |payments| && payments[i].ref.txid == payments[id].ref.txid ==> i == id
  {
  }

  /** What handling an accepted receipt does to tables in which its payment is still as it was. */
  lemma {:induction false} AcceptedPaymentStep(db: Tables, now: Tables, id: nat, r: Receipt)
    requires Sound(db) && r.success && id < |db.payments|
    requires PaymentsExtend(db.payments, now.payments) && InvoicesExtend(db.invoices, now.invoices)
    requires |now.invoices| == |db.invoices|
    requires FindPayment(now.payments, r.txid) == Some(id) && now.payments[id] == db.payments[id]
    ensures var p := db.payments[id]; var after := Handle(now, r);
            if p.HasHash() then after == now
            else && FindInvoice(db.invoices, p.invoiceUid).Some?
                 && after.payments == now.payments[id := MarkConfirmed(p, ConfirmationOf(r))]
                 && after.invoices == SetStatus(now.invoices, FindInvoice(db.invoices, p.invoiceUid).value, InvoicePaid)
  {
  }

  lemma {:induction false} RejectedInvoice(db: Tables, receipts: seq<Receipt>, r: Receipt, k: nat)
    requires Verdict(receipts, r.txid).None? && !r.success && k < |db.invoices|
    ensures SettledInvoice(db, receipts + [r], k) ==
            if db.invoices[k].hash == Some(r.txid) then db.invoices[k].(status := InvoiceUnpaid, hash := None)
            else SettledInvoice(db, receipts, k)
    ensures SettledInvoice(db, receipts, k).hash == Some(r.txid) <==> db.invoices[k].hash == Some(r.txid)
    ensures SettledInvoice(db, receipts, k).(status := InvoiceUnpaid, hash := None) ==
            db.invoices[k].(status := InvoiceUnpaid, hash := None)
  {
    forall i: nat { PaidByStep(db, receipts, r, k, i); }
    assert SettledAsPaid(db, receipts + [r], k) <==> SettledAsPaid(db, receipts, k);
    if db.invoices[k].hash.Some? {
      VerdictSnoc(receipts, r, db.invoices[k].hash.value);
    }
  }

  lemma {:induction false} HashFindsPayment(db: Tables, txid: string)
    requires Sound(db)
    ensures FindInvoiceByHash(db.invoices, txid).Some? ==> FindPayment(db.payments, txid).Some?
    ensures forall k :: 0 <= k < |db.invoices| && db.invoices[k].hash == Some(txid) ==>
                          FindInvoiceByHash(db.invoices, txid) == Some(k)
  {
  }

  /** While a transaction has no verdict, its hash is looked up as if nothing had been settled. */
  lemma {:induction false} RejectedLookup(db: Tables, receipts: seq<Receipt>, r: Receipt)
    requires Verdict(receipts, r.txid).None? && !r.success
    ensures FindInvoiceByHash(Settlement(db, receipts).invoices, r.txid) == FindInvoiceByHash(db.invoices, r.txid)
    ensures FindPayment(Settlement(db, receipts).payments, r.txid) == FindPayment(db.payments, r.txid)
    ensures forall k: nat :: k < |db.invoices| ==>
              (SettledInvoice(db, receipts, k).hash == Some(r.txid) <==> db.invoices[k].hash == Some(r.txid))
  {
    SettlementKeepsNames(db, receipts);
    FindPaymentStable(db.payments, Settlement(db, receipts).payments, r.txid);
    forall k: nat | k < |db.invoices| { RejectedInvoice(db, receipts, r, k); }
  }

  lemma {:induction false} RejectedPayments(db: Tables, receipts: seq<Receipt>, r: Receipt)
    requires Ready(db) && Verdict(receipts, r.txid).None? && !r.success
    ensures Handle(Settlement(db, receipts), r).payments == Settlement(db, receipts + [r]).payments
  {
    RejectedLookup(db, receipts, r);
    HashFindsPayment(db, r.txid);
    forall i: nat | i < |db.payments| { PaymentStep(db.invoices, receipts, r, db.payments[i]); }
    var id := FindPayment(db.payments, r.txid);
    if id.Some? {
      OnlyOneWithTxid(db.payments, id.value);
    }
  }

  lemma {:induction false} RejectedInvoices(db: Tables, receipts: seq<Receipt>, r: Receipt)
    requires Ready(db) && Verdict(receipts, r.txid).None? && !r.success
    ensures Handle(Settlement(db, receipts), r).invoices == Settlement(db, receipts + [r]).invoices
  {
    hide Sound, Handle, FindInvoiceByHash, FindPayment, SettledInvoice;
    RejectedLookup(db, receipts, r);
    HashFindsPayment(db, r.txid);
    RevertedInvoices(Settlement(db, receipts), r);
    var handled, after := Handle(Settlement(db, receipts), r).invoices, Settlement(db, receipts + [r]).invoices;
    forall k: nat | k < |db.invoices|
      ensures handled[k] == after[k]
    {
      RejectedInvoice(db, receipts, r, k);
    }
    assert handled == after;
  }

  /** What handling a rejected receipt does to the invoices. */
  lemma {:induction false} RevertedInvoices(db: Tables, r: Receipt)
    requires !r.success
    requires FindInvoiceByHash(db.invoices, r.txid).Some? ==> FindPayment(db.payments, r.txid).Some?
    requires forall k :: 0 <= k < |db.invoices| && db.invoices[k].hash == Some(r.txid) ==>
                           FindInvoiceByHash(db.invoices, r.txid) == Some(k)
    ensures |Handle(db, r).invoices| == |db.invoices|
    ensures forall k :: 0 <= k < |db.invoices| ==>
              Handle(db, r).invoices[k] ==
              if db.invoices[k].hash == Some(r.txid) then db.invoices[k].(status := InvoiceUnpaid, hash := None)
              else db.invoices[k]
  {
  }

  /** The first receipt for a transaction, rejected. */
  lemma {:induction false} RejectedStep(db: Tables, receipts: seq<Receipt>, r: Receipt)
    requires Ready(db) && Verdict(receipts, r.txid).None? && !r.success
    ensures Handle(Settlement(db, receipts), r) == Settlement(db, receipts + [r])
  {
    RejectedPayments(db, receipts, r);
    RejectedInvoices(db, receipts, r);
  }

  lemma {:induction false} RepeatAccepted(db: Tables, receipts: seq<Receipt>, r: Receipt)
    requires Ready(db) && !Conflict(db, receipts) && Verdict(receipts, r.txid) == Some(r) && r.success
    ensures Handle(Settlement(db, receipts), r) == Settlement(db, receipts)
  {
    var now := Settlement(db, receipts);
    SettlementKeepsNames(db, receipts);
    FindPaymentStable(db.payments, now.payments, r.txid);
    var id := FindPayment(db.payments, r.txid);
    if id.Some? && !now.payments[id.value].HasHash() {
      var p := db.payments[id.value];
      FindInvoiceStable(db.invoices, now.invoices, p.invoiceUid);
      var k := FindInvoice(db.invoices, p.invoiceUid).value;
      assert PaidByReceipt(db, receipts, k, id.value) && !Contested(db, receipts, k, id.value);
      RewriteSame(now, id.value, k, ConfirmationOf(r));
    }
  }

  /** Confirming a payment that already carries this confirmation, for an invoice already paid. */
  lemma {:induction false} RewriteSame(db: Tables, id: nat, k: nat, c: Confirmation)
    requires id < |db.payments| && FindInvoice(db.invoices, db.payments[id].invoiceUid) == Some(k)
    requires db.payments[id] == MarkConfirmed(db.payments[id], c) && db.invoices[k].status.InvoicePaid?
    ensures ConfirmById(db, id, c).tables == db
  {
  }

  lemma {:induction false} RepeatRejected(db: Tables, receipts: seq<Receipt>, r: Receipt)
    requires Verdict(receipts, r.txid) == Some(r) && !r.success
    ensures Handle(Settlement(db, receipts), r) == Settlement(db, receipts)
  {
  }

  // ---------------------------------------------------------------- confluence

  lemma {:induction false} ProcessIsSettlement(db: Tables, receipts: seq<Receipt>)
    requires Ready(db) && OneVerdictEach(receipts) && !Conflict(db, receipts)
    ensures Process(db, receipts) == Settlement(db, receipts)
    decreases |receipts|
  {
    if receipts == [] {
      assert Settlement(db, receipts).payments == db.payments;
      assert Settlement(db, receipts).invoices == db.invoices;
    } else {
      var init, r := receipts[..|receipts| - 1], receipts[|receipts| - 1];
      assert receipts == init + [r];
      ConflictGrows(db, init, r);
      ProcessIsSettlement(db, init);
      if Verdict(init, r.txid).Some? {
        if r.success { RepeatAccepted(db, init, r); } else { RepeatRejected(db, init, r); }
        SettlementOfRepeat(db, init, r);
      } else if r.success {
        AcceptedStep(db, init, r);
      } else {
        RejectedStep(db, init, r);
      }
    }
  }

  lemma {:induction false} SameMembersSameVerdicts(db: Tables, first: seq<Receipt>, second: seq<Receipt>)
    requires OneVerdictEach(first) && forall r :: r in first <==> r in second
    ensures forall txid :: Verdict(first, txid) == Verdict(second, txid)
    ensures Conflict(db, first) ==> Conflict(db, second)
  {
    forall txid
      ensures Verdict(first, txid) == Verdict(second, txid)
    {
    }
    if k: nat, i: nat :| Contested(db, first, k, i) {
      assert Contested(db, second, k, i);
    }
  }

  /** Two lists with the same receipts in them, in any order and with any repetitions, leave the same tables when
      the receipts do not conflict over an invoice. */
  lemma {:induction false} ReceiptsConfluent(db: Tables, first: seq<Receipt>, second: seq<Receipt>)
    requires Ready(db) && OneVerdictEach(first) && !Conflict(db, first)
    requires forall r :: r in first <==> r in second
    ensures Process(db, first) == Process(db, second)
  {
    SameMembersSameVerdicts(db, first, second);
    SameMembersSameVerdicts(db, second, first);
    ProcessIsSettlement(db, first);
    ProcessIsSettlement(db, second);
    SameVerdictsSameSettlement(db, first, second);
  }

  /** With one payment per invoice there is never a conflict. */
  lemma {:induction false} OnePaymentNeverConflicts(db: Tables, receipts: seq<Receipt>)
    requires Ready(db) && OnePaymentEach(db.payments)
    ensures !Conflict(db, receipts)
  {
    forall k: nat, i: nat
      ensures !Contested(db, receipts, k, i)
    {
      if k < |db.invoices| { assert InvoiceRowOk(db.payments, db.invoices[k]); }
    }
  }

  // ---------------------------------------------------------------- conflicts do matter

  function Only(receipts: seq<Receipt>, success: bool): (r: seq<Receipt>)
    ensures forall x :: x in r <==> x in receipts && x.success == success
  {
    if receipts == [] then []
    else (if receipts[0].success == success then [receipts[0]] else []) + Only(receipts[1..], success)
  }

  lemma {:induction false} AddToEither(r: Receipt, a: multiset<Receipt>, b: multiset<Receipt>)
    ensures multiset{r} + a + b == multiset{r} + (a + b) == a + (multiset{r} + b)
  {
  }

  lemma {:induction false} SplitBySuccess(receipts: seq<Receipt>)
    ensures multiset(Only(receipts, true)) + multiset(Only(receipts, false)) == multiset(receipts)
    decreases |receipts|
  {
    if receipts != [] {
      var r, rest := receipts[0], receipts[1..];
      SplitBySuccess(rest);
      assert receipts == [r] + rest;
      assert Only(receipts, r.success) == [r] + Only(rest, r.success);
      OnlyOther(receipts);
      hide Only;
      AddToEither(r, multiset(Only(rest, true)), multiset(Only(rest, false)));
    }
  }

  lemma {:induction false} OnlyOther(receipts: seq<Receipt>)
    requires receipts != []
    ensures Only(receipts, !receipts[0].success) == Only(receipts[1..], !receipts[0].success)
  {
  }

  lemma {:induction false} ProcessConcat(db: Tables, first: seq<Receipt>, second: seq<Receipt>)
    ensures Process(db, first + second) == Process(Process(db, first), second)
    decreases |second|
  {
    if second == [] {
      assert first + second == first;
    } else {
      var init, last := second[..|second| - 1], second[|second| - 1];
      assert (first + second)[..|first + second| - 1] == first + init;
      ProcessConcat(db, first, init);
    }
  }

  lemma {:induction false} ProcessKeeps(db: Tables, receipts: seq<Receipt>)
    requires Ready(db)
    ensures var after := Process(db, receipts);
            && Ready(after) && |after.payments| == |db.payments| && |after.invoices| == |db.invoices|
            && PaymentsExtend(db.payments, after.payments) && InvoicesExtend(db.invoices, after.invoices)
    decreases |receipts|
  {
    if receipts != [] {
      var init, r := receipts[..|receipts| - 1], receipts[|receipts| - 1];
      ProcessKeeps(db, init);
      HandleKeeps(Process(db, init), r);
    }
  }

  lemma {:induction false} HandleKeeps(db: Tables, r: Receipt)
    requires Ready(db)
    ensures var after := Handle(db, r);
            && Ready(after) && |after.payments| == |db.payments| && |after.invoices| == |db.invoices|
            && PaymentsExtend(db.payments, after.payments) && InvoicesExtend(db.invoices, after.invoices)
  {
    var e := if r.success then ConfirmsTxid(r.txid, ConfirmationOf(r)) else Reverts(r.txid);
    assert Apply(db, e) == Handle(db, r);
    ApplyKeepsSound(db, e);
    ApplyExtends(db, e);
    SameSizes(db, r);
    hide Sound, Handle, Apply;
  }

  lemma {:induction false} SameSizes(db: Tables, r: Receipt)
    ensures |Handle(db, r).payments| == |db.payments| && |Handle(db, r).invoices| == |db.invoices|
  {
  }

  /** Accepted receipts leave every invoice's hash alone, and rejected ones every payment's confirmation. */
  ghost predicate Untouched(before: Tables, after: Tables, success: bool) {
    && |after.payments| == |before.payments| && |after.invoices| == |before.invoices|
    && (success ==> forall k :: 0 <= k < |before.invoices| ==> after.invoices[k].hash == before.invoices[k].hash)
    && (!success ==> forall i :: 0 <= i < |before.payments| ==> after.payments[i].SameTriple(before.payments[i]))
  }

  lemma {:induction false} HandleOneKind(db: Tables, r: Receipt)
    ensures Untouched(db, Handle(db, r), r.success)
  {
  }

  lemma {:induction false} ProcessOneKind(db: Tables, receipts: seq<Receipt>, success: bool)
    requires forall r :: r in receipts ==> r.success == success
    ensures Untouched(db, Process(db, receipts), success)
    decreases |receipts|
  {
    if receipts != [] {
      var init, r := receipts[..|receipts| - 1], receipts[|receipts| - 1];
      assert r in receipts;
      hide Handle;
      ProcessOneKind(db, init, success);
      HandleOneKind(Process(db, init), r);
    }
  }

  /** One rejected receipt, as it concerns invoice k. */
  lemma {:induction false} RejectOne(db: Tables, r: Receipt, k: nat)
    requires Sound(db) && !r.success && k < |db.invoices|
    ensures var after := Handle(db, r).invoices;
            && |after| == |db.invoices|
            && after[k] == if db.invoices[k].hash == Some(r.txid)
                           then db.invoices[k].(status := InvoiceUnpaid, hash := None) else db.invoices[k]
  {
    HashFindsPayment(db, r.txid);
    hide Sound;
  }

  lemma {:induction false} SomeSnoc(init: seq<Receipt>, r: Receipt, txid: string)
    ensures Names(init + [r], txid) <==> Names(init, txid) || r.txid == txid
  {
    if r.txid == txid { assert r in init + [r]; }
    if x :| x in init && x.txid == txid { assert x in init + [r]; }
  }

  /** Some receipt in the list is about this transaction. */
  ghost predicate Names(receipts: seq<Receipt>, txid: string) {
    exists r :: r in receipts && r.txid == txid
  }

  /** A rejected receipt for the transaction an invoice waits for, among any others: the invoice ends unpaid. */
  lemma {:induction false} RejectionReverts(db: Tables, receipts: seq<Receipt>, k: nat, txid: string)
    requires Ready(db) && (forall r :: r in receipts ==> !r.success) && k < |db.invoices|
    requires db.invoices[k].hash == Some(txid)
    ensures var after := Process(db, receipts).invoices;
            && k < |after|
            && if Names(receipts, txid) then after[k].status.InvoiceUnpaid? && after[k].hash.None?
               else after[k].hash == Some(txid)
    decreases |receipts|
  {
    if receipts != [] {
      var init, r := receipts[..|receipts| - 1], receipts[|receipts| - 1];
      assert receipts == init + [r];
      RejectionReverts(db, init, k, txid);
      ProcessKeeps(db, init);
      SomeSnoc(init, r, txid);
      RejectOne(Process(db, init), r, k);
      hide Sound, Handle, Names, UniqueTxids, PaymentsExtend, InvoicesExtend;
    }
  }

  /** One accepted receipt, as it concerns payment i and its invoice k. */
  lemma {:induction false} AcceptOne(db: Tables, r: Receipt, i: nat, k: nat)
    requires UniqueTxids(db.payments) && r.success && i < |db.payments| && k < |db.invoices|
    requires FindInvoice(db.invoices, db.payments[i].invoiceUid) == Some(k)
    ensures var after := Handle(db, r);
            && |after.payments| == |db.payments| && |after.invoices| == |db.invoices|
            && (r.txid != db.payments[i].ref.txid ==> after.payments[i] == db.payments[i])
            && (r.txid == db.payments[i].ref.txid && !db.payments[i].HasHash() ==>
                after.invoices[k].status.InvoicePaid?)
            && (db.invoices[k].status.InvoicePaid? ==> after.invoices[k].status.InvoicePaid?)
  {
    OnlyOneWithTxid(db.payments, i);
  }

  /** An accepted receipt for an unconfirmed payment of an invoice, among any others: the invoice ends paid. */
  lemma {:induction false} AcceptancePays(db: Tables, receipts: seq<Receipt>, i: nat, k: nat)
    requires Ready(db) && (forall r :: r in receipts ==> r.success) && Pays(db, i, k)
    ensures var after := Process(db, receipts);
            && i < |after.payments| && k < |after.invoices|
            && if Names(receipts, db.payments[i].ref.txid) then after.invoices[k].status.InvoicePaid?
               else !after.payments[i].HasHash()
    decreases |receipts|
  {
    var txid := db.payments[i].ref.txid;
    if receipts != [] {
      var init, r := receipts[..|receipts| - 1], receipts[|receipts| - 1];
      assert receipts == init + [r];
      SomeSnoc(init, r, txid);
      AcceptancePays(db, init, i, k);
      ProcessKeeps(db, init);
      var mid := Process(db, init);
      FindInvoiceStable(db.invoices, mid.invoices, db.payments[i].invoiceUid);
      assert mid.payments[i].ref == db.payments[i].ref && mid.payments[i].invoiceUid == db.payments[i].invoiceUid;
      AcceptOne(mid, r, i, k);
      hide Sound, Handle, Names, UniqueTxids, FindInvoice;
    }
  }

  /** Every order of these receipts leaves the same tables. */
  ghost predicate AllOrdersAgree(db: Tables, receipts: seq<Receipt>) {
    forall order :: multiset(order) == multiset(receipts) ==> Process(db, order) == Process(db, receipts)
  }

  lemma {:induction false} SameMultisetSameMembers(a: seq<Receipt>, b: seq<Receipt>)
    requires multiset(a) == multiset(b)
    ensures forall r :: r in a <==> r in b
  {
    forall r
      ensures r in a <==> r in b
    {
      assert r in a <==> r in multiset(a);
      assert r in b <==> r in multiset(b);
    }
  }

  /** A contested invoice ends paid if the rejections come first, and unpaid if they come last. */
  lemma {:induction false} ConflictSplits(db: Tables, receipts: seq<Receipt>, k: nat, i: nat)
    requires Ready(db) && OneVerdictEach(receipts) && Contested(db, receipts, k, i)
    ensures var ok, no := Only(receipts, true), Only(receipts, false);
            && k < |Process(db, no + ok).invoices| && Process(db, no + ok).invoices[k].status.InvoicePaid?
            && k < |Process(db, ok + no).invoices| && Process(db, ok + no).invoices[k].status.InvoiceUnpaid?
  {
    var ok, no := Only(receipts, true), Only(receipts, false);
    var txid := db.invoices[k].hash.value;
    assert Verdict(receipts, txid).value in no && Names(no, txid);
    assert Verdict(receipts, db.payments[i].ref.txid).value in ok && Names(ok, db.payments[i].ref.txid);
    ProcessConcat(db, no, ok);
    ProcessConcat(db, ok, no);
    ProcessKeeps(db, ok);
    ProcessKeeps(db, no);
    ProcessOneKind(db, ok, true);
    ProcessOneKind(db, no, false);
    RejectionReverts(Process(db, ok), no, k, txid);
    var reverted := Process(db, no);
    FindInvoiceStable(db.invoices, reverted.invoices, db.payments[i].invoiceUid);
    AcceptancePays(reverted, ok, i, k);
  }

  lemma {:induction false} ConflictDisagrees(db: Tables, receipts: seq<Receipt>)
    requires Ready(db) && OneVerdictEach(receipts) && Conflict(db, receipts)
    ensures !AllOrdersAgree(db, receipts)
  {
    hide Ready, Process, Contested, OneVerdictEach, Only;
    var k: nat, i: nat :| Contested(db, receipts, k, i);
    ConflictSplits(db, receipts, k, i);
    SplitBySuccess(receipts);
    var okFirst, noFirst := Only(receipts, true) + Only(receipts, false), Only(receipts, false) + Only(receipts, true);
    assert Process(db, okFirst) != Process(db, noFirst);
  }

  lemma {:induction false} NoConflictAgrees(db: Tables, receipts: seq<Receipt>)
    requires Ready(db) && OneVerdictEach(receipts) && !Conflict(db, receipts)
    ensures AllOrdersAgree(db, receipts)
  {
    hide Ready, Process, Conflict, OneVerdictEach;
    forall order | multiset(order) == multiset(receipts)
      ensures Process(db, order) == Process(db, receipts)
    {
      SameMultisetSameMembers(order, receipts);
      ReceiptsConfluent(db, receipts, order);
    }
  }

  /** Every order of the receipts leaves the same tables exactly when they do not conflict: no invoice has its
      transaction rejected while an unconfirmed payment of it is accepted. */
  lemma {:induction false} OrdersAgreeExactly(db: Tables, receipts: seq<Receipt>)
    requires Ready(db) && OneVerdictEach(receipts)
    ensures AllOrdersAgree(db, receipts) <==> !Conflict(db, receipts)
  {
    hide *;
    if Conflict(db, receipts) { ConflictDisagrees(db, receipts); } else { NoConflictAgrees(db, receipts); }
  }

  /** One payment per invoice is needed. An invoice paid twice, the first payment accepted and the second one
      rejected, ends paid or unpaid according to which receipt comes last. */
  lemma {:induction false} TwoPaymentsOrderMatters(uid: string, good: TxRef, bad: TxRef)
    requires good.txid != bad.txid
    ensures var db := Tables([NewPayment(good, uid, 0), NewPayment(bad, uid, 1)],
                             [Invoice(uid, InvoiceConfirming, Some(bad.txid), true, false)]);
            var ok, no := Receipt(good.txid, true, "0x1", 1, 0), Receipt(bad.txid, false, "0x1", 1, 0);
            && Sound(db) && UniqueTxids(db.payments)
            && Handle(Handle(db, no), ok).invoices[0].status.InvoicePaid?
            && Handle(Handle(db, ok), no).invoices[0].status.InvoiceUnpaid?
  {
    var db := Tables([NewPayment(good, uid, 0), NewPayment(bad, uid, 1)],
                     [Invoice(uid, InvoiceConfirming, Some(bad.txid), true, false)]);
    var ok, no := Receipt(good.txid, true, "0x1", 1, 0), Receipt(bad.txid, false, "0x1", 1, 0);
    assert db.payments[1].ref.txid == bad.txid;
    assert FindPayment(db.payments, good.txid) == Some(0);
    assert FindPayment(db.payments, bad.txid) == Some(1);
    assert FindInvoice(db.invoices, uid) == Some(0);
    var db1 := Handle(db, no);
    assert FindPayment(db1.payments, good.txid) == Some(0);
    assert FindInvoice(db1.invoices, uid) == Some(0);
    var db2 := Handle(db, ok);
    assert FindInvoiceByHash(db2.invoices, bad.txid) == Some(0);
    assert FindPayment(db2.payments, bad.txid) == Some(1);
  }

  /** An accepted receipt for a payment without a hash, in rows written out. */
  lemma {:induction false} AcceptedReceiptColumns(db: Tables, r: Receipt, i: nat)
    requires r.success && FindPayment(db.payments, r.txid) == Some(i) && !db.payments[i].HasHash()
    ensures var p, after := db.payments[i], Handle(db, r).payments;
            && |after| == |db.payments|
            && after[i] == Payment(p.ref, p.invoiceUid, p.createdAt, PaymentConfirmed, Some(r.blockHash),
                                   Some(r.blockNumber), Some(r.blockTime * 1000))
            && forall j :: 0 <= j < |after| && j != i ==> after[j] == db.payments[j]
  {
  }

  /** A receipt record is reached exactly for an accepted receipt whose payment was confirmed before, or has an
      invoice and gets its webhook sent. */
  lemma {:induction false} RecordReachedExactly(db: Tables, r: Receipt, webhookThrows: bool)
    ensures ReachesRecord(db, r, webhookThrows) <==>
            && r.success
            && var i := FindPayment(db.payments, r.txid);
               && i.Some?
               && var p := db.payments[i.value];
                  || (p.hash.Some? && p.hash.value != "")
                  || (!webhookThrows && FindInvoice(db.invoices, p.invoiceUid).Some?)
  {
  }
}
