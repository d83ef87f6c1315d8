/** A `confirmPayment` call that dies part of the way, and what calling it again achieves. */
module Retries {
  import opened Wrappers
  import opened Rows
  import opened Lifecycle
  import opened Runs
  import opened Schedules

  /** A call that gets m of its five turns and is then abandoned. */
  function AfterTurns(db: Tables, id: nat, c: Confirmation, m: nat): Tables {
    RunSchedule(Config(db, [Confirming(id, c, AtRead)]), seq(m, _ => 0)).db
  }

  /** The abandoned call, followed by a whole one. */
  function Retried(db: Tables, id: nat, c: Confirmation, m: nat): Tables {
    AfterTurns(AfterTurns(db, id, c, m), id, c, 5)
  }

  /** m turns of the call, one by one. */
  function Turned(db: Tables, id: nat, c: Confirmation, at: ConfirmPoint, m: nat): (Tables, ConfirmPoint)
    decreases m
  {
    if m == 0 then (db, at)
    else
      var (db', at') := StepConfirm(db, id, c, at);
      Turned(db', id, c, at', m - 1)
  }

  lemma {:induction false} TurnsInOrder(db: Tables, id: nat, c: Confirmation, at: ConfirmPoint, m: nat)
    ensures RunSchedule(Config(db, [Confirming(id, c, at)]), seq(m, _ => 0)) ==
            Config(Turned(db, id, c, at, m).0, [Confirming(id, c, Turned(db, id, c, at, m).1)])
    decreases m
  {
    if m > 0 {
      var (db', at') := StepConfirm(db, id, c, at);
      assert seq<nat>(m, _ => 0)[1..] == seq(m - 1, _ => 0);
      assert Step(Config(db, [Confirming(id, c, at)]), 0) == Config(db', [Confirming(id, c, at')]);
      TurnsInOrder(db', id, c, at', m - 1);
    }
  }

  /** What the turns have done to the tables: nothing until the second, the payment until the fifth, then both. */
  lemma {:induction false} StoppedTables(db: Tables, id: nat, c: Confirmation, m: nat, k: nat)
    requires id < |db.payments| && !db.payments[id].HasHash()
    requires FindInvoice(db.invoices, db.payments[id].invoiceUid) == Some(k)
    ensures var marked := db.(payments := db.payments[id := MarkConfirmed(db.payments[id], c)]);
            AfterTurns(db, id, c, m) ==
            if m < 2 then db else if m < 5 then marked
            else marked.(invoices := SetStatus(db.invoices, k, InvoicePaid))
  {
    TurnsInOrder(db, id, c, AtRead, m);
    var p := db.payments[id];
    var marked := db.(payments := db.payments[id := MarkConfirmed(p, c)]);
    if m >= 1 {
      assert Turned(db, id, c, AtRead, m) == Turned(db, id, c, AtCheck(p), m - 1);
    }
    if m >= 2 {
      assert Turned(db, id, c, AtCheck(p), m - 1) == Turned(marked, id, c, AtReread, m - 2);
    }
    if m >= 3 {
      assert Turned(marked, id, c, AtReread, m - 2) == Turned(marked, id, c, AtFindInvoice(p.invoiceUid), m - 3);
    }
    if m >= 4 {
      assert Turned(marked, id, c, AtFindInvoice(p.invoiceUid), m - 3) == Turned(marked, id, c, AtPay(k), m - 4);
    }
    if m >= 5 {
      var paid := marked.(invoices := SetStatus(db.invoices, k, InvoicePaid));
      assert Turned(marked, id, c, AtPay(k), m - 4) == Turned(paid, id, c, Finished(true), m - 5);
      FinishedStays(paid, id, c, true, m - 5);
    }
  }

  lemma {:induction false} FinishedStays(db: Tables, id: nat, c: Confirmation, wrote: bool, m: nat)
    ensures Turned(db, id, c, Finished(wrote), m).0 == db
  {
    if m > 0 { FinishedStays(db, id, c, wrote, m - 1); }
  }

  /** A call for a payment with a hash does nothing. */
  lemma {:induction false} AlreadyDone(db: Tables, id: nat, c: Confirmation, m: nat)
    requires id < |db.payments| && db.payments[id].HasHash()
    ensures AfterTurns(db, id, c, m) == db
  {
    TurnsInOrder(db, id, c, AtRead, m);
    if m >= 2 {
      assert Turned(db, id, c, AtRead, m) == Turned(db, id, c, AtCheck(db.payments[id]), m - 1);
      assert Turned(db, id, c, AtCheck(db.payments[id]), m - 1) == Turned(db, id, c, Finished(false), m - 2);
      FinishedStays(db, id, c, false, m - 2);
    } else if m == 1 {
      assert Turned(db, id, c, AtRead, 1) == Turned(db, id, c, AtCheck(db.payments[id]), 0);
    }
  }

  /** A call stopped after m of its five turns and made again has the effect of an uninterrupted one exactly when it
      had not yet written, had already finished, or the damage is not seen: its confirmation hash was empty, so the
      second call does not take the payment for confirmed, or the invoice was paid before. */
  lemma {:induction false} RetryCompletesExactly(db: Tables, id: nat, c: Confirmation, m: nat, k: nat)
    requires id < |db.payments| && !db.payments[id].HasHash()
    requires FindInvoice(db.invoices, db.payments[id].invoiceUid) == Some(k)
    ensures Retried(db, id, c, m) == ConfirmById(db, id, c).tables <==>
            m <= 1 || m >= 5 || c.hash == "" || db.invoices[k].status.InvoicePaid?
  {
    var half := AfterTurns(db, id, c, m);
    StoppedTables(db, id, c, m, k);
    FindInvoiceStable(db.invoices, half.invoices, db.payments[id].invoiceUid);
    if half.payments[id].HasHash() {
      AlreadyDone(half, id, c, 5);
    } else {
      StoppedTables(half, id, c, 5, k);
    }
    var done := ConfirmById(db, id, c).tables;
    assert done.invoices[k].status.InvoicePaid?;
    if m < 2 || c.hash == "" {
      assert Retried(db, id, c, m).payments == done.payments;
      assert Retried(db, id, c, m).invoices == done.invoices;
    } else if db.invoices[k].status.InvoicePaid? {
      assert done.invoices == db.invoices;
    }
  }

  /** Stopped between its two writes, with a confirmation hash: the payment is confirmed, no invoice has changed, and
      no number of further calls for this payment, in any schedule, changes anything more. */
  lemma {:induction false} AbandonedForGood(db: Tables, id: nat, c: Confirmation, m: nat, k: nat, retries: seq<Task>,
          schedule: seq<nat>)
    requires id < |db.payments| && !db.payments[id].HasHash() && c.hash != "" && 2 <= m < 5
    requires FindInvoice(db.invoices, db.payments[id].invoiceUid) == Some(k)
    requires forall j :: 0 <= j < |retries| ==> retries[j].Confirming? && retries[j].id == id && retries[j].at.AtRead?
    ensures var after := RunSchedule(Config(AfterTurns(db, id, c, m), retries), schedule).db;
            && after.payments == db.payments[id := MarkConfirmed(db.payments[id], c)]
            && after.invoices == db.invoices
  {
    StoppedTables(db, id, c, m, k);
    AbandonedConfirmationStays(Config(AfterTurns(db, id, c, m), retries), schedule);
  }

  /** A server run that ends so: an invoice is created and paid, its confirmation dies after the second turn, and a
      whole call made again leaves the payment confirmed and the invoice waiting. */
  lemma {:induction false} AbandonedIsReached(uid: string, ref: TxRef, c: Confirmation)
    requires c.hash != ""
    ensures var db := Run(EMPTY, [Creates(uid)] + [Submits(uid, ref, 0, true)]);
            Retried(db, 0, c, 2) == Tables([MarkConfirmed(NewPayment(ref, uid, 0), c)],
                                           [Invoice(uid, InvoiceConfirming, Some(ref.txid), true, false)])
  {
    var s1 := Tables([], [NewInvoice(uid)]);
    var s2 := Tables([NewPayment(ref, uid, 0)], [Invoice(uid, InvoiceConfirming, Some(ref.txid), true, false)]);
    assert Apply(EMPTY, Creates(uid)) == s1;
    assert Apply(s1, Submits(uid, ref, 0, true)) == s2;
    RunOne(EMPTY, Creates(uid));
    RunOne(s1, Submits(uid, ref, 0, true));
    RunConcat(EMPTY, [Creates(uid)], [Submits(uid, ref, 0, true)]);
    assert FindInvoice(s2.invoices, uid) == Some(0);
    StoppedTables(s2, 0, c, 2, 0);
    AlreadyDone(AfterTurns(s2, 0, c, 2), 0, c, 5);
  }
}
