/** Walking a Bitcoin block page by page, settling the invoices of the payments found in it. */
module BlockWalk {
  import opened Wrappers
  import opened Rows
  import opened Lifecycle
  import opened Database

  const PAGE := 500

  /** The page the block explorer serves at an offset. */
  function Page(txids: seq<string>, offset: nat): (page: seq<string>)
    ensures |page| == if offset >= |txids| then 0 else if |txids| - offset < 500 then |txids| - offset else 500
    ensures page == [] <==> offset >= |txids|
    ensures txids[..Min(offset, |txids|)] + page == txids[..Min(offset + PAGE, |txids|)]
  {
    txids[Min(offset, |txids|)..Min(offset + PAGE, |txids|)]
  }

  function Min(a: nat, b: nat): nat {
    if a <= b then a else b
  }

  ghost predicate Distinct<T>(s: seq<T>) {
    forall a, b :: 0 <= a < b < |s| ==> s[a] != s[b]
  }

  /** `findMany` by a list of txids: each matching payment row once, in id order. */
  function FindByTxids(payments: seq<Payment>, txids: seq<string>, from: nat := 0): (ids: seq<nat>)
    requires from <= |payments|
    ensures forall id :: id in ids <==> from <= id < |payments| && payments[id].ref.txid in txids
    ensures Distinct(ids)
    decreases |payments| - from
  {
    if from == |payments| then []
    else if payments[from].ref.txid in txids then [from] + FindByTxids(payments, txids, from + 1)
    else FindByTxids(payments, txids, from + 1)
  }

  /** What the walk hands off without waiting: two message topics, and payment updates whose promises are not
      awaited. Nothing below depends on when, or whether, those updates reach the table. */
  class Outbox {
    var paymentConfirmed: seq<nat>
    var invoicePaid: seq<nat>
    var deferred: seq<nat>

    constructor ()
      ensures paymentConfirmed == [] && invoicePaid == [] && deferred == []
    {
      paymentConfirmed, invoicePaid, deferred := [], [], [];
    }
  }

  /** Invoice k belongs to one of these payments. */
  ghost predicate Reached(payments: seq<Payment>, invoices: seq<Invoice>, ids: seq<nat>, k: nat) {
    exists i :: i in ids && i < |payments| && FindInvoice(invoices, payments[i].invoiceUid) == Some(k)
  }

  ghost function SettleAll(payments: seq<Payment>, invoices: seq<Invoice>, ids: seq<nat>): seq<Invoice> {
    seq(|invoices|, k requires 0 <= k < |invoices| =>
      if Reached(payments, invoices, ids, k) then invoices[k].(status := InvoicePaid) else invoices[k])
  }

  /** One paid message for each invoice reached that was confirming, and no other. */
  ghost predicate PaidMessages(payments: seq<Payment>, invoices: seq<Invoice>, ids: seq<nat>, paid: seq<nat>) {
    && Distinct(paid)
    && forall k: nat :: k in paid <==>
         k < |invoices| && invoices[k].status.InvoiceConfirming? && Reached(payments, invoices, ids, k)
  }

  /** The uid of payment `id` finds no invoice, so `confirmTransaction` throws for it. */
  predicate Orphan(payments: seq<Payment>, invoices: seq<Invoice>, id: nat) {
    id < |payments| && FindInvoice(invoices, payments[id].invoiceUid).None?
  }

  method ConfirmTransaction(db: Database, outbox: Outbox, id: nat) returns (out: Outcome)
    requires id < |db.payments|
    modifies db`invoices, outbox
    ensures out.Threw? <==> Orphan(old(db.payments), old(db.invoices), id)
    ensures outbox.deferred == old(outbox.deferred) + [id]
    ensures outbox.paymentConfirmed == old(outbox.paymentConfirmed) + [id]
    ensures out.Threw? ==> db.invoices == old(db.invoices) && outbox.invoicePaid == old(outbox.invoicePaid)
    ensures out.Done? ==>
              var k := FindInvoice(old(db.invoices), db.payments[id].invoiceUid).value;
              && db.invoices == SetStatus(old(db.invoices), k, InvoicePaid)
              && outbox.invoicePaid ==
                 old(outbox.invoicePaid) + if old(db.invoices)[k].status.InvoiceConfirming? then [k] else []
  {
    outbox.deferred := outbox.deferred + [id];
    outbox.paymentConfirmed := outbox.paymentConfirmed + [id];
    var found := FindInvoice(db.invoices, db.payments[id].invoiceUid);
    if found.None? {
      return Threw(NotFound);
    }
    var k := found.value;
    var originalStatus := db.invoices[k].status;
    db.invoices := db.invoices[k := db.invoices[k].(status := InvoicePaid)];
    if originalStatus.InvoiceConfirming? {
      outbox.invoicePaid := outbox.invoicePaid + [k];
    }
    out := Done(id);
  }

  /** Where a walk stands that has settled the payments `ids` since the invoices were `start`. */
  ghost predicate Progress(payments: seq<Payment>, start: seq<Invoice>, ids: seq<nat>, paid: seq<nat>,
          now: seq<Invoice>) {
    now == SettleAll(payments, start, ids) && PaidMessages(payments, start, ids, paid)
  }

  lemma {:induction false} ProgressStart(payments: seq<Payment>, invoices: seq<Invoice>)
    ensures Progress(payments, invoices, [], [], invoices)
  {
  }

  /** Settling one more payment, whether or not its invoice was reached before. */
  lemma {:induction false} ProgressStep(payments: seq<Payment>, start: seq<Invoice>, ids: seq<nat>, paid: seq<nat>,
          now: seq<Invoice>, id: nat)
    requires id < |payments| && Progress(payments, start, ids, paid, now)
    ensures Orphan(payments, now, id) <==> Orphan(payments, start, id)
    ensures !Orphan(payments, start, id) ==>
              var k := FindInvoice(now, payments[id].invoiceUid).value;
              Progress(payments, start, ids + [id],
                       paid + if now[k].status.InvoiceConfirming? then [k] else [], SetStatus(now, k, InvoicePaid))
  {
    FindInvoiceStable(start, now, payments[id].invoiceUid);
    if !Orphan(payments, start, id) {
      var k := FindInvoice(start, payments[id].invoiceUid).value;
      forall j: nat
        ensures Reached(payments, start, ids + [id], j) <==> Reached(payments, start, ids, j) || j == k
      {
        if Reached(payments, start, ids, j) {
          var i :| i in ids && i < |payments| && FindInvoice(start, payments[i].invoiceUid) == Some(j);
          assert i in ids + [id];
        }
        if j == k { assert id in ids + [id]; }
      }
      assert SetStatus(now, k, InvoicePaid) == SettleAll(payments, start, ids + [id]);
    }
  }

  /** The inner loop: the payments found on one page. `start` and `base` are the invoices and the number of
      paid messages when the walk began, `done` the payments settled on earlier pages. */
  method ConfirmPage(db: Database, outbox: Outbox, payments: seq<nat>, ghost start: seq<Invoice>,
          ghost done: seq<nat>, ghost base: nat)
    returns (out: Outcome, confirmed: seq<nat>)
    requires forall id :: id in payments ==> id < |db.payments|
    requires base <= |outbox.invoicePaid|
    requires Progress(db.payments, start, done, outbox.invoicePaid[base..], db.invoices)
    modifies db`invoices, outbox
    ensures base <= |outbox.invoicePaid| && outbox.invoicePaid[..base] == old(outbox.invoicePaid[..base])
    ensures Progress(db.payments, start, done + confirmed, outbox.invoicePaid[base..], db.invoices)
    ensures confirmed <= payments
    ensures out.Done? ==> confirmed == payments && forall id :: id in payments ==> !Orphan(db.payments, start, id)
    ensures out.Threw? ==> exists id :: id in payments && Orphan(db.payments, start, id)
    ensures out.Done? ==> outbox.paymentConfirmed == old(outbox.paymentConfirmed) + confirmed
  {
    hide Progress, Orphan;
    confirmed := [];
    assert done + confirmed == done;
    for n := 0 to |payments|
      invariant confirmed == payments[..n]
      invariant base <= |outbox.invoicePaid| && outbox.invoicePaid[..base] == old(outbox.invoicePaid[..base])
      invariant Progress(db.payments, start, done + confirmed, outbox.invoicePaid[base..], db.invoices)
      invariant forall id :: id in confirmed ==> !Orphan(db.payments, start, id)
      invariant outbox.paymentConfirmed == old(outbox.paymentConfirmed) + confirmed
    {
      var payment := payments[n];
      assert payment in payments;
      ProgressStep(db.payments, start, done + confirmed, outbox.invoicePaid[base..], db.invoices, payment);
      ghost var before := outbox.invoicePaid;
      out := ConfirmTransaction(db, outbox, payment);
      if out.Threw? {
        return;
      }
      assert outbox.invoicePaid[base..] == before[base..] + outbox.invoicePaid[|before|..];
      assert done + confirmed + [payment] == done + (confirmed + [payment]);
      confirmed := confirmed + [payment];
    }
    out := Done(0);
  }

  /** The payments whose txid is in the block. */
  ghost predicate ExactlyMatching(payments: seq<Payment>, txids: seq<string>, ids: seq<nat>) {
    forall id: nat :: id in ids <==> id < |payments| && payments[id].ref.txid in txids
  }

  lemma {:induction false} DistinctSplit(seen: seq<string>, page: seq<string>)
    requires Distinct(seen + page)
    ensures forall txid :: txid in seen ==> txid !in page
  {
    forall x, y | 0 <= x < |seen| && 0 <= y < |page|
      ensures seen[x] != page[y]
    {
      assert (seen + page)[x] != (seen + page)[|seen| + y];
    }
  }

  /** One page's matches after those of the pages before. */
  lemma {:induction false} MatchesSnoc(payments: seq<Payment>, seen: seq<string>, page: seq<string>, ids: seq<nat>)
    requires ExactlyMatching(payments, seen, ids)
    ensures ExactlyMatching(payments, seen + page, ids + FindByTxids(payments, page))
    ensures Distinct(seen + page) && Distinct(ids) ==> Distinct(ids + FindByTxids(payments, page))
  {
    var more := FindByTxids(payments, page);
    assert forall txid :: txid in seen + page <==> txid in seen || txid in page;
    if Distinct(seen + page) && Distinct(ids) {
      DistinctSplit(seen, page);
      assert forall b :: 0 <= b < |more| ==> more[b] in more;
    }
  }

  /** The invoices that get a paid message, in terms of the block alone. */
  lemma {:induction false} PaidMessagesByBlock(payments: seq<Payment>, invoices: seq<Invoice>, txids: seq<string>,
          ids: seq<nat>, paid: seq<nat>)
    requires ExactlyMatching(payments, txids, ids) && PaidMessages(payments, invoices, ids, paid)
    ensures forall k: nat :: k in paid <==>
              k < |invoices| && invoices[k].status.InvoiceConfirming? &&
              exists i: nat :: i < |payments| && payments[i].ref.txid in txids
                               && FindInvoice(invoices, payments[i].invoiceUid) == Some(k)
  {
  }

  /** Requests needed for a block: its pages, and the empty one that ends the loop. */
  function Requests(n: nat): nat {
    (n + PAGE - 1) / PAGE + 1
  }

  /** `confirmTransactionsFromBlock`. It throws exactly when some payment in the block has no invoice.
      Otherwise every payment in the block is confirmed, once if the block lists no txid twice. */
  method ConfirmTransactionsFromBlock(db: Database, outbox: Outbox, txids: seq<string>)
    returns (out: Outcome, confirmed: seq<nat>, requests: nat)
    modifies db`invoices, outbox
    ensures out.Threw? <==>
            exists id: nat :: id < |db.payments| && db.payments[id].ref.txid in txids &&
                              FindInvoice(old(db.invoices), db.payments[id].invoiceUid) == None
    ensures db.invoices == SettleAll(db.payments, old(db.invoices), confirmed)
    ensures old(outbox.invoicePaid) <= outbox.invoicePaid
    ensures PaidMessages(db.payments, old(db.invoices), confirmed, outbox.invoicePaid[|old(outbox.invoicePaid)|..])
    ensures out.Done? ==>
              && ExactlyMatching(db.payments, txids, confirmed)
              && (Distinct(txids) ==> Distinct(confirmed))
              && outbox.paymentConfirmed == old(outbox.paymentConfirmed) + confirmed
              && requests == (|txids| + 499) / 500 + 1
              && (forall k: nat :: k < |db.invoices| ==>
                    var was := old(db.invoices)[k];
                    db.invoices[k] ==
                    if exists i: nat :: i < |db.payments| && db.payments[i].ref.txid in txids
                                        && FindInvoice(old(db.invoices), db.payments[i].invoiceUid) == Some(k)
                    then Invoice(was.uid, InvoicePaid, was.hash, was.complete, was.cancelled) else was)
    ensures out.Done? ==> forall k: nat :: k in outbox.invoicePaid[|old(outbox.invoicePaid)|..] <==>
              k < |old(db.invoices)| && old(db.invoices)[k].status.InvoiceConfirming? &&
              exists i: nat :: i < |db.payments| && db.payments[i].ref.txid in txids
                               && FindInvoice(old(db.invoices), db.payments[i].invoiceUid) == Some(k)
  {
    ghost var start, base := db.invoices, |outbox.invoicePaid|;
    var newTransactions: Option<seq<string>> := None;
    var offset := 0;
    confirmed, requests := [], 0;
    ProgressStart(db.payments, db.invoices);
    while newTransactions.None? || newTransactions.value != []
      invariant offset == requests * PAGE
      invariant newTransactions.None? <==> requests == 0
      invariant requests > 0 ==> (newTransactions.value == [] <==> offset - PAGE >= |txids|)
      invariant requests > 1 ==> offset - 2 * PAGE < |txids|
      invariant base <= |outbox.invoicePaid| && outbox.invoicePaid[..base] == old(outbox.invoicePaid)
      invariant Progress(db.payments, start, confirmed, outbox.invoicePaid[base..], db.invoices)
      invariant ExactlyMatching(db.payments, txids[..Min(offset, |txids|)], confirmed)
      invariant Distinct(txids) ==> Distinct(confirmed)
      invariant forall id :: id in confirmed ==> !Orphan(db.payments, start, id)
      invariant outbox.paymentConfirmed == old(outbox.paymentConfirmed) + confirmed
      decreases |txids| + PAGE - offset
    {
      ghost var seen := txids[..Min(offset, |txids|)];
      var page := Page(txids, offset);
      requests := requests + 1;
      offset := offset + PAGE;
      newTransactions := Some(page);
      var payments := FindByTxids(db.payments, page);
      MatchesSnoc(db.payments, seen, page, confirmed);
      var more;
      out, more := ConfirmPage(db, outbox, payments, start, confirmed, base);
      confirmed := confirmed + more;
      if out.Threw? {
        return;
      }
    }
    assert txids[..Min(offset, |txids|)] == txids;
    PaidMessagesByBlock(db.payments, start, txids, confirmed, outbox.invoicePaid[base..]);
    out := Done(0);
  }

  /** The pages served for the requests made, joined, are the block: each transaction is looked at once. */
  function Served(txids: seq<string>, requests: nat): seq<string> {
    if requests == 0 then [] else Served(txids, requests - 1) + Page(txids, (requests - 1) * PAGE)
  }

  lemma {:induction false} ServedIsPrefix(txids: seq<string>, requests: nat)
    ensures Served(txids, requests) == txids[..Min(requests * PAGE, |txids|)]
  {
    if requests > 0 {
      ServedIsPrefix(txids, requests - 1);
    }
  }

  lemma {:induction false} PagesAreTheBlock(txids: seq<string>)
    ensures Served(txids, Requests(|txids|)) == txids
    ensures Page(txids, (Requests(|txids|) - 1) * PAGE) == []
    ensures forall r: nat :: r < Requests(|txids|) - 1 ==> Page(txids, r * PAGE) != []
  {
    ServedIsPrefix(txids, Requests(|txids|));
  }

  lemma {:induction false} SomeMember(s: seq<nat>)
    ensures s == [] || exists k :: k in s
  {
    if s != [] { assert s[0] in s; }
  }

  lemma {:induction false} ReachedAgain(payments: seq<Payment>, invoices: seq<Invoice>, once: seq<Invoice>,
          txids: seq<string>, first: seq<nat>, second: seq<nat>, k: nat)
    requires ExactlyMatching(payments, txids, first) && ExactlyMatching(payments, txids, second)
    requires InvoicesExtend(invoices, once) && |once| == |invoices|
    ensures Reached(payments, once, second, k) <==> Reached(payments, invoices, first, k)
  {
    if Reached(payments, invoices, first, k) {
      var i :| i in first && i < |payments| && FindInvoice(invoices, payments[i].invoiceUid) == Some(k);
      FindInvoiceStable(invoices, once, payments[i].invoiceUid);
      assert i in second;
    }
    if Reached(payments, once, second, k) {
      var i :| i in second && i < |payments| && FindInvoice(once, payments[i].invoiceUid) == Some(k);
      FindInvoiceStable(invoices, once, payments[i].invoiceUid);
      assert i in first;
    }
  }

  /** Walking the same block again publishes no paid message and changes no invoice. */
  lemma {:induction false} ReplayPublishesNothing(payments: seq<Payment>, invoices: seq<Invoice>, txids: seq<string>,
          first: seq<nat>, second: seq<nat>, paid: seq<nat>)
    requires ExactlyMatching(payments, txids, first) && ExactlyMatching(payments, txids, second)
    requires PaidMessages(payments, SettleAll(payments, invoices, first), second, paid)
    ensures paid == []
    ensures SettleAll(payments, SettleAll(payments, invoices, first), second) == SettleAll(payments, invoices, first)
  {
    var once := SettleAll(payments, invoices, first);
    forall k: nat { ReachedAgain(payments, invoices, once, txids, first, second, k); }
    SomeMember(paid);
    assert SettleAll(payments, once, second) == once;
  }
}
