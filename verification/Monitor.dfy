/** The minute-by-minute monitor: one pass over the recent payments still marked confirming. */
module Monitor {
  import opened Wrappers
  import opened Rows
  import opened Lifecycle
  import opened Database

  predicate InWindow(p: Payment, cutoff: int) {
    p.status.PaymentConfirming? && p.createdAt >= cutoff
  }

  ghost predicate NewestFirst(rows: seq<Snapshot>) {
    forall a, b :: 0 <= a < b < |rows| ==> rows[a].row.createdAt >= rows[b].row.createdAt
  }

  /** The rows a pass works on: each payment that is confirming and was created at the cutoff or later, once, newest
      first, as it stood when the pass began. */
  ghost predicate IsQueryResult(payments: seq<Payment>, cutoff: int, rows: seq<Snapshot>) {
    && (forall a, b :: 0 <= a < b < |rows| ==>
          rows[a].row.createdAt >= rows[b].row.createdAt && rows[a].id != rows[b].id)
    && (forall a :: 0 <= a < |rows| ==>
          && rows[a].id < |payments| && rows[a].row == payments[rows[a].id]
          && rows[a].row.status == PaymentConfirming && rows[a].row.createdAt >= cutoff)
    && (forall i: nat ::
          i < |payments| && payments[i].status == PaymentConfirming && payments[i].createdAt >= cutoff ==>
          Snapshot(i, payments[i]) in rows)
  }

  /** Where a row goes in a newest-first list. */
  function InsertAt(rows: seq<Snapshot>, at: int): (n: nat)
    ensures n <= |rows|
    ensures forall a :: 0 <= a < n ==> rows[a].row.createdAt >= at
    ensures n < |rows| ==> rows[n].row.createdAt < at
  {
    if rows == [] || rows[0].row.createdAt < at then 0 else 1 + InsertAt(rows[1..], at)
  }

  function Insert(rows: seq<Snapshot>, row: Snapshot): seq<Snapshot> {
    var n := InsertAt(rows, row.row.createdAt);
    rows[..n] + [row] + rows[n..]
  }

  lemma {:induction false} InsertKeepsOrder(rows: seq<Snapshot>, row: Snapshot)
    requires NewestFirst(rows)
    ensures NewestFirst(Insert(rows, row))
  {
  }

  lemma {:induction false} InsertMembers(rows: seq<Snapshot>, row: Snapshot)
    ensures forall r :: r in Insert(rows, row) <==> r in rows || r == row
  {
  }

  ghost predicate DistinctIds(rows: seq<Snapshot>) {
    forall a, b :: 0 <= a < b < |rows| ==> rows[a].id != rows[b].id
  }

  lemma {:induction false} InsertKeepsDistinct(rows: seq<Snapshot>, row: Snapshot)
    requires DistinctIds(rows) && forall r :: r in rows ==> r.id != row.id
    ensures DistinctIds(Insert(rows, row))
  {
  }

  /** `findMany` over the payments table. */
  method FindUnconfirmed(payments: seq<Payment>, cutoff: int) returns (rows: seq<Snapshot>)
    ensures IsQueryResult(payments, cutoff, rows)
  {
    rows := [];
    for i := 0 to |payments|
      invariant NewestFirst(rows) && DistinctIds(rows)
      invariant forall r :: r in rows <==> r.id < i && InWindow(payments[r.id], cutoff) && r.row == payments[r.id]
    {
      if InWindow(payments[i], cutoff) {
        var row := Snapshot(i, payments[i]);
        InsertKeepsOrder(rows, row);
        InsertMembers(rows, row);
        InsertKeepsDistinct(rows, row);
        rows := Insert(rows, row);
      }
    }
    assert forall a :: 0 <= a < |rows| ==> rows[a] in rows;
  }

  /** The payments a pass confirms. */
  ghost function Confirmable(db: Tables, cutoff: int, lookup: TxRef -> Lookup): set<nat> {
    set i: nat | i < |db.payments| && InWindow(db.payments[i], cutoff) && lookup(db.payments[i].ref).Found?
  }

  function Answer(lookup: TxRef -> Lookup): TxRef -> Confirmation {
    (ref: TxRef) => if lookup(ref).Found? then lookup(ref).confirmation else Confirmation("", 0, 0)
  }

  /** The confirmable rows among those already looked at. */
  ghost function Handled(rows: seq<Snapshot>, lookup: TxRef -> Lookup): set<nat> {
    set r | r in rows && lookup(r.row.ref).Found? :: r.id
  }

  /** One pass of `startConfirmingTransactions`. A lookup that fails, or a confirmation that throws, is logged
      and the loop goes on. */
  method Tick(db: Database, cutoff: int, lookup: TxRef -> Lookup)
    modifies db`payments, db`invoices
    ensures db.Tables() == ConfirmAll(old(db.Tables()), Confirmable(old(db.Tables()), cutoff, lookup), Answer(lookup))
  {
    var unconfirmed := FindUnconfirmed(db.payments, cutoff);
    ghost var start := db.Tables();
    var n := 0;
    ConfirmNothing(start, Answer(lookup));
    assert Handled(unconfirmed[..0], lookup) == {};
    while n < |unconfirmed|
      invariant 0 <= n <= |unconfirmed|
      invariant db.Tables() == ConfirmAll(start, Handled(unconfirmed[..n], lookup), Answer(lookup))
    {
      var payment := unconfirmed[n];
      HandledSnoc(unconfirmed, n, lookup);
      var confirmation := lookup(payment.row.ref);
      if confirmation.Found? {
        SnapshotIsCurrent(start, unconfirmed, n, lookup);
        ConfirmAllStep(start, Handled(unconfirmed[..n], lookup), Answer(lookup), payment.id);
        var _ := ConfirmPayment(db, payment, confirmation.confirmation);
      }
      n := n + 1;
    }
    assert unconfirmed[..n] == unconfirmed;
    HandledAll(start, cutoff, unconfirmed, lookup);
  }

  lemma {:induction false} HandledSnoc(rows: seq<Snapshot>, n: nat, lookup: TxRef -> Lookup)
    requires n < |rows|
    ensures Handled(rows[..n + 1], lookup) ==
            Handled(rows[..n], lookup) + if lookup(rows[n].row.ref).Found? then {rows[n].id} else {}
  {
  }

  /** No earlier confirmation of the pass has touched the row about to be confirmed. */
  lemma {:induction false} SnapshotIsCurrent(start: Tables, rows: seq<Snapshot>, n: nat, lookup: TxRef -> Lookup)
    requires n < |rows| && DistinctIds(rows)
    requires rows[n].id < |start.payments| && rows[n].row == start.payments[rows[n].id]
    ensures ConfirmAll(start, Handled(rows[..n], lookup), Answer(lookup)).payments[rows[n].id] == rows[n].row
  {
  }

  lemma {:induction false} HandledAll(start: Tables, cutoff: int, rows: seq<Snapshot>, lookup: TxRef -> Lookup)
    requires IsQueryResult(start.payments, cutoff, rows)
    ensures Handled(rows, lookup) == Confirmable(start, cutoff, lookup)
  {
  }

  ghost predicate PendingRowsClean(payments: seq<Payment>) {
    forall i :: 0 <= i < |payments| && payments[i].status.PaymentConfirming? ==> payments[i].hash.None?
  }

  /** Payment i is confirming, recent and has a confirmation, and invoice k is the one its uid finds. */
  ghost predicate DueFor(db: Tables, cutoff: int, lookup: TxRef -> Lookup, i: nat, k: nat) {
    && i < |db.payments| && db.payments[i].status == PaymentConfirming && db.payments[i].createdAt >= cutoff
    && lookup(db.payments[i].ref).Found? && FindInvoice(db.invoices, db.payments[i].invoiceUid) == Some(k)
  }

  /** A pass row by row. On sound tables a payment is confirmed, with what the chain says, exactly when it is
      confirming, recent and the chain has a confirmation; an invoice is paid exactly when such a payment is
      its own; every other row is as it was. */
  lemma {:induction false} TickIsPointwise(db: Tables, cutoff: int, lookup: TxRef -> Lookup)
    requires PendingRowsClean(db.payments)
    ensures var after := ConfirmAll(db, Confirmable(db, cutoff, lookup), Answer(lookup));
            && |after.payments| == |db.payments| && |after.invoices| == |db.invoices|
            && (forall i: nat :: i < |db.payments| ==>
                  var p := db.payments[i];
                  after.payments[i] ==
                  if p.status == PaymentConfirming && p.createdAt >= cutoff && lookup(p.ref).Found?
                  then var c := lookup(p.ref).confirmation;
                       Payment(p.ref, p.invoiceUid, p.createdAt, PaymentConfirmed, Some(c.hash), Some(c.height),
                               Some(c.date))
                  else p)
            && (forall k: nat :: k < |db.invoices| ==>
                  after.invoices[k] ==
                  if exists i: nat :: DueFor(db, cutoff, lookup, i, k) then db.invoices[k].(status := InvoicePaid)
                  else db.invoices[k])
  {
    var ids := Confirmable(db, cutoff, lookup);
    forall k: nat, i: nat
      ensures DueFor(db, cutoff, lookup, i, k) <==> i in ids && Pays(db, i, k)
    {
    }
    forall i: nat | i < |db.payments| && InWindow(db.payments[i], cutoff) && lookup(db.payments[i].ref).Found?
      ensures i in ids && Answer(lookup)(db.payments[i].ref) == lookup(db.payments[i].ref).confirmation
    {
    }
    forall k: nat | k < |db.invoices|
      ensures PaidBy(db, ids, k) <==> exists i: nat :: DueFor(db, cutoff, lookup, i, k)
    {
    }
  }

  /** A second pass straight after, with the chain unchanged, does nothing more. */
  lemma {:induction false} TickIsIdempotent(db: Tables, cutoff: int, lookup: TxRef -> Lookup)
    requires PendingRowsClean(db.payments)
    ensures var once := ConfirmAll(db, Confirmable(db, cutoff, lookup), Answer(lookup));
            ConfirmAll(once, Confirmable(once, cutoff, lookup), Answer(lookup)) == once
  {
    var once := ConfirmAll(db, Confirmable(db, cutoff, lookup), Answer(lookup));
    TickIsPointwise(db, cutoff, lookup);
    forall i: nat | i < |db.payments|
      ensures i !in Confirmable(once, cutoff, lookup)
    {
      assert once.payments[i].status.PaymentConfirming? ==> once.payments[i] == db.payments[i];
    }
    assert Confirmable(once, cutoff, lookup) == {};
    ConfirmNothing(once, Answer(lookup));
  }

  /** Of two confirming payments that the chain has confirmed, a pass never confirms the older one alone. */
  lemma {:induction false} NewerIsConfirmedToo(db: Tables, cutoff: int, lookup: TxRef -> Lookup, i: nat, j: nat)
    requires i < |db.payments| && j < |db.payments| && PendingRowsClean(db.payments)
    requires db.payments[i].status == db.payments[j].status == PaymentConfirming
    requires db.payments[i].createdAt <= db.payments[j].createdAt
    requires lookup(db.payments[i].ref).Found? && lookup(db.payments[j].ref).Found?
    ensures var after := ConfirmAll(db, Confirmable(db, cutoff, lookup), Answer(lookup));
            after.payments[i].status == PaymentConfirmed ==> after.payments[j].status == PaymentConfirmed
  {
    TickIsPointwise(db, cutoff, lookup);
    hide ConfirmAll, Confirmable, Answer;
  }
}
