/** What concurrent receipts can leave is what some order of them leaves, and every order can be had. */
module ReceiptOrders {
  import opened Wrappers
  import opened Rows
  import opened Lifecycle
  import opened Runs
  import opened Schedules
  import opened Receipts
  import opened ReceiptRaces

  // ---------------------------------------------------------------- receipts by class

  function Of(receipts: seq<Receipt>, rank: Receipt -> int, n: int): (r: seq<Receipt>)
    ensures forall x :: x in r <==> x in receipts && rank(x) == n
  {
    if receipts == [] then []
    else (if rank(receipts[0]) == n then [receipts[0]] else []) + Of(receipts[1..], rank, n)
  }

  lemma {:induction false} AddToOne(r: Receipt, a: multiset<Receipt>, b: multiset<Receipt>, c: multiset<Receipt>)
    ensures multiset{r} + a + b + c == multiset{r} + (a + b + c)
    ensures a + (multiset{r} + b) + c == multiset{r} + (a + b + c)
    ensures a + b + (multiset{r} + c) == multiset{r} + (a + b + c)
  {
  }

  lemma {:induction false} OfHead(receipts: seq<Receipt>, rank: Receipt -> int, n: int)
    requires receipts != []
    ensures multiset(Of(receipts, rank, n)) ==
            (if rank(receipts[0]) == n then multiset{receipts[0]} else multiset{}) +
                multiset(Of(receipts[1..], rank, n))
  {
    var rest := Of(receipts[1..], rank, n);
    if rank(receipts[0]) == n {
      assert Of(receipts, rank, n) == [receipts[0]] + rest;
    } else {
      assert Of(receipts, rank, n) == [] + rest == rest;
    }
  }

  /** Three classes make up the whole. */
  lemma {:induction false} ThreeClasses(receipts: seq<Receipt>, rank: Receipt -> int)
    requires forall r :: r in receipts ==> 0 <= rank(r) < 3
    ensures multiset(Of(receipts, rank, 0)) + multiset(Of(receipts, rank, 1)) + multiset(Of(receipts, rank, 2))
            == multiset(receipts)
    decreases |receipts|
  {
    if receipts != [] {
      var r, rest := receipts[0], receipts[1..];
      assert r in receipts && receipts == [r] + rest;
      ThreeClasses(rest, rank);
      OfHead(receipts, rank, 0);
      OfHead(receipts, rank, 1);
      OfHead(receipts, rank, 2);
      AddToOne(r, multiset(Of(rest, rank, 0)), multiset(Of(rest, rank, 1)), multiset(Of(rest, rank, 2)));
      hide Of;
    }
  }

  lemma {:induction false} VerdictInClass(receipts: seq<Receipt>, rank: Receipt -> int, n: int, txid: string)
    requires OneVerdictEach(receipts)
    ensures var v := Verdict(receipts, txid);
            Verdict(Of(receipts, rank, n), txid) == if v.Some? && rank(v.value) == n then v else None
  {
  }

  lemma {:induction false} OneVerdictInClass(receipts: seq<Receipt>, rank: Receipt -> int, n: int)
    requires OneVerdictEach(receipts)
    ensures OneVerdictEach(Of(receipts, rank, n))
  {
  }

  // ---------------------------------------------------------------- an order for every outcome

  /** The invoice waiting for this transaction ended paid. */
  predicate LeftPaid(db: Tables, end: Tables, txid: string) {
    var k := FindInvoiceByHash(db.invoices, txid);
    k.Some? && k.value < |end.invoices| && end.invoices[k.value].status.InvoicePaid?
  }

  /** Rejections of invoices that ended paid, then every acceptance, then the other rejections. */
  function Rank(db: Tables, end: Tables): Receipt -> int {
    (r: Receipt) => if r.success then 1 else if LeftPaid(db, end, r.txid) then 0 else 2
  }

  /** Receipts that are all accepted, or all rejected, do not conflict. */
  lemma {:induction false} OneKindAgrees(db: Tables, receipts: seq<Receipt>, success: bool)
    requires Ready(db) && OneVerdictEach(receipts) && forall r :: r in receipts ==> r.success == success
    ensures Process(db, receipts) == Settlement(db, receipts)
  {
    assert !Conflict(db, receipts);
    hide Ready;
    ProcessIsSettlement(db, receipts);
  }

  /** The tables after each of the three parts. */
  lemma {:induction false} ProcessInParts(db: Tables, first: seq<Receipt>, ok: seq<Receipt>, last: seq<Receipt>)
    requires Ready(db) && OneVerdictEach(first) && OneVerdictEach(ok) && OneVerdictEach(last)
    requires forall r :: r in first + last ==> !r.success
    requires forall r :: r in ok ==> r.success
    ensures Process(db, first + ok + last) == Settlement(Settlement(Settlement(db, first), ok), last)
    ensures Ready(Settlement(db, first)) && Ready(Settlement(Settlement(db, first), ok))
  {
    assert forall r :: r in first ==> r in first + last;
    assert forall r :: r in last ==> r in first + last;
    hide Ready, OneVerdictEach, Settlement;
    ProcessConcat(db, first + ok, last);
    ProcessConcat(db, first, ok);
    OneKindAgrees(db, first, false);
    ProcessKeeps(db, first);
    OneKindAgrees(Process(db, first), ok, true);
    ProcessKeeps(Process(db, first), ok);
    OneKindAgrees(Process(Process(db, first), ok), last, false);
  }

  /** The three parts of a list of receipts that ended in `end`. */
  ghost predicate Parts(db: Tables, receipts: seq<Receipt>, end: Tables, first: seq<Receipt>, ok: seq<Receipt>,
          last: seq<Receipt>) {
    && first == Of(receipts, Rank(db, end), 0) && ok == Of(receipts, Rank(db, end), 1)
    && last == Of(receipts, Rank(db, end), 2)
  }

  /** What each part says of a transaction. */
  lemma {:induction false} PartVerdicts(db: Tables, receipts: seq<Receipt>, end: Tables, first: seq<Receipt>,
          ok: seq<Receipt>, last: seq<Receipt>, txid: string)
    requires OneVerdictEach(receipts) && Parts(db, receipts, end, first, ok, last)
    ensures !Accepted(first, txid) && !Accepted(last, txid) && !Rejected(ok, txid)
    ensures Rejected(first, txid) <==> Rejected(receipts, txid) && LeftPaid(db, end, txid)
    ensures Rejected(last, txid) <==> Rejected(receipts, txid) && !LeftPaid(db, end, txid)
    ensures Accepted(ok, txid) <==> Accepted(receipts, txid)
    ensures Accepted(ok, txid) ==> Verdict(ok, txid) == Verdict(receipts, txid)
  {
    VerdictInClass(receipts, Rank(db, end), 0, txid);
    VerdictInClass(receipts, Rank(db, end), 1, txid);
    VerdictInClass(receipts, Rank(db, end), 2, txid);
    hide Of, OneVerdictEach, LeftPaid;
  }

  lemma {:induction false} NoneAcceptedNonePaid(db: Tables, receipts: seq<Receipt>, k: nat)
    requires forall txid :: !Accepted(receipts, txid)
    ensures !SettledAsPaid(db, receipts, k)
  {
  }

  /** After the first part: the invoices that end paid although rejected have been reverted. */
  lemma {:induction false} AfterFirst(db: Tables, receipts: seq<Receipt>, end: Tables, first: seq<Receipt>,
          ok: seq<Receipt>, last: seq<Receipt>)
    requires OneVerdictEach(receipts) && Parts(db, receipts, end, first, ok, last)
    ensures var d := Settlement(db, first);
            && |d.payments| == |db.payments| && |d.invoices| == |db.invoices|
            && (forall i: nat :: i < |db.payments| ==>
                  var txid := db.payments[i].ref.txid;
                  d.payments[i] == if Rejected(receipts, txid) && LeftPaid(db, end, txid)
                                   then db.payments[i].(status := PaymentFailed) else db.payments[i])
            && (forall k: nat :: k < |db.invoices| ==>
                  d.invoices[k] == if Unpaying(db, receipts, k) && LeftPaid(db, end, db.invoices[k].hash.value)
                                   then Unpaid(db.invoices[k]) else db.invoices[k])
  {
    forall txid { PartVerdicts(db, receipts, end, first, ok, last, txid); }
    forall k: nat { NoneAcceptedNonePaid(db, first, k); }
    hide OneVerdictEach, Parts, SettledAsPaid;
  }

  lemma {:induction false} SamePays(db: Tables, now: Tables, i: nat, k: nat)
    requires |now.payments| == |db.payments| && PaymentsExtend(db.payments, now.payments)
    requires |now.invoices| == |db.invoices| && InvoicesExtend(db.invoices, now.invoices)
    requires i < |db.payments| ==> now.payments[i].hash == db.payments[i].hash
    ensures Pays(now, i, k) <==> Pays(db, i, k)
  {
    if i < |db.payments| { FindInvoiceStable(db.invoices, now.invoices, db.payments[i].invoiceUid); }
  }

  /** The acceptances pay the same invoices after the first part as at the start. */
  lemma {:induction false} PaidInSecond(db: Tables, receipts: seq<Receipt>, end: Tables, first: seq<Receipt>,
          ok: seq<Receipt>, last: seq<Receipt>, k: nat)
    requires OneVerdictEach(receipts) && Parts(db, receipts, end, first, ok, last)
    ensures SettledAsPaid(Settlement(db, first), ok, k) <==> SettledAsPaid(db, receipts, k)
  {
    var d := Settlement(db, first);
    AfterFirst(db, receipts, end, first, ok, last);
    SettlementKeepsNames(db, first);
    forall i: nat
      ensures PaidByReceipt(d, ok, k, i) <==> PaidByReceipt(db, receipts, k, i)
    {
      SamePays(db, d, i, k);
      if i < |db.payments| { PartVerdicts(db, receipts, end, first, ok, last, db.payments[i].ref.txid); }
    }
    hide PaidByReceipt, Settlement;
  }

  /** After the second part: every accepted payment is confirmed, and its invoice paid. */
  lemma {:induction false} AfterSecond(db: Tables, receipts: seq<Receipt>, end: Tables, first: seq<Receipt>,
          ok: seq<Receipt>, last: seq<Receipt>)
    requires OneVerdictEach(receipts) && Parts(db, receipts, end, first, ok, last)
    ensures var d := Settlement(db, first); var e := Settlement(d, ok);
            && |e.payments| == |db.payments| && |e.invoices| == |db.invoices|
            && (forall i: nat :: i < |db.payments| ==>
                  var p := db.payments[i];
                  e.payments[i] == if !Accepted(receipts, p.ref.txid) then d.payments[i]
                                   else if p.HasHash() then p
                                   else MarkConfirmed(p, ConfirmationOf(Verdict(receipts, p.ref.txid).value)))
            && (forall k: nat :: k < |db.invoices| ==>
                  e.invoices[k] == if SettledAsPaid(db, receipts, k) then d.invoices[k].(status := InvoicePaid)
                                   else d.invoices[k])
  {
    AfterFirst(db, receipts, end, first, ok, last);
    forall txid { PartVerdicts(db, receipts, end, first, ok, last, txid); }
    forall k: nat { PaidInSecond(db, receipts, end, first, ok, last, k); }
    var d := Settlement(db, first);
    hide OneVerdictEach, Parts, SettledAsPaid, LeftPaid, Unpaying;
    forall i: nat | i < |db.payments|
      ensures var p := db.payments[i];
              SettledPayment(d.invoices, ok, d.payments[i]) ==
              if !Accepted(receipts, p.ref.txid) then d.payments[i]
              else if p.HasHash() then p else MarkConfirmed(p, ConfirmationOf(Verdict(receipts, p.ref.txid).value))
    {
    }
  }

  /** A transaction whose invoice did not end paid still finds it after the first two parts. */
  lemma {:induction false} StillHeld(db: Tables, receipts: seq<Receipt>, end: Tables, e: seq<Invoice>, txid: string)
    requires |e| == |db.invoices| && !LeftPaid(db, end, txid)
    requires forall k: nat :: k < |db.invoices| ==>
               e[k].hash == if Unpaying(db, receipts, k) && LeftPaid(db, end, db.invoices[k].hash.value) then None
                            else db.invoices[k].hash
    ensures FindInvoiceByHash(e, txid).Some? <==> FindInvoiceByHash(db.invoices, txid).Some?
  {
    hide LeftPaid;
    var k := FindInvoiceByHash(db.invoices, txid);
    if k.Some? { assert e[k.value].hash == Some(txid); }
  }

  /** Payment i after all three parts. */
  lemma {:induction false} FinalPayment(db: Tables, receipts: seq<Receipt>, end: Tables, first: seq<Receipt>,
          ok: seq<Receipt>, last: seq<Receipt>, i: nat)
    requires OneVerdictEach(receipts) && Parts(db, receipts, end, first, ok, last) && i < |db.payments|
    ensures var e := Settlement(Settlement(db, first), ok);
            && i < |e.payments|
            && SettledPayment(e.invoices, last, e.payments[i]) == SettledPayment(db.invoices, receipts, db.payments[i])
  {
    var txid := db.payments[i].ref.txid;
    var e := Settlement(Settlement(db, first), ok);
    AfterFirst(db, receipts, end, first, ok, last);
    AfterSecond(db, receipts, end, first, ok, last);
    PartVerdicts(db, receipts, end, first, ok, last, txid);
    hide Settlement, OneVerdictEach, Parts, SettledAsPaid;
    if !LeftPaid(db, end, txid) {
      StillHeld(db, receipts, end, e.invoices, txid);
    }
    assert LeftPaid(db, end, txid) ==> FindInvoiceByHash(db.invoices, txid).Some?;
    hide LeftPaid, FindInvoiceByHash;
  }

  /** Invoice k after all three parts. */
  lemma {:induction false} FinalInvoice(db: Tables, receipts: seq<Receipt>, end: Tables, first: seq<Receipt>,
          ok: seq<Receipt>, last: seq<Receipt>, k: nat)
    requires Sound(db) && OneVerdictEach(receipts) && Parts(db, receipts, end, first, ok, last)
    requires k < |db.invoices| == |end.invoices| && ResultRow(db, receipts, end, k)
    ensures var e := Settlement(Settlement(db, first), ok);
            k < |e.invoices| && SettledInvoice(e, last, k) == end.invoices[k]
  {
    var inv := db.invoices[k];
    var e := Settlement(Settlement(db, first), ok);
    AfterFirst(db, receipts, end, first, ok, last);
    AfterSecond(db, receipts, end, first, ok, last);
    forall txid { PartVerdicts(db, receipts, end, first, ok, last, txid); }
    NoneAcceptedNonePaid(e, last, k);
    if inv.hash.Some? {
      HashFindsPayment(db, inv.hash.value);
      assert LeftPaid(db, end, inv.hash.value) <==> end.invoices[k].status.InvoicePaid?;
    }
    hide Settlement, OneVerdictEach, Parts, SettledAsPaid, LeftPaid, Sound, Accepted, Rejected;
  }

  lemma {:induction false} PartsEndThere(db: Tables, receipts: seq<Receipt>, end: Tables, first: seq<Receipt>,
          ok: seq<Receipt>, last: seq<Receipt>)
    requires Sound(db) && OneVerdictEach(receipts) && RaceResult(db, receipts, end)
    requires Parts(db, receipts, end, first, ok, last)
    ensures Settlement(Settlement(Settlement(db, first), ok), last) == end
  {
    var e := Settlement(Settlement(db, first), ok);
    AfterSecond(db, receipts, end, first, ok, last);
    hide Sound, OneVerdictEach, Parts, SettledPayment, SettledInvoice, ResultRow;
    forall i: nat | i < |db.payments| { FinalPayment(db, receipts, end, first, ok, last, i); }
    forall k: nat | k < |db.invoices| { FinalInvoice(db, receipts, end, first, ok, last, k); }
    assert Settlement(e, last).payments == end.payments;
    assert Settlement(e, last).invoices == end.invoices;
  }

  /** Tables of the shape every interleaving leaves are left by handling the receipts in some order. */
  lemma {:induction false} ResultIsSomeOrder(db: Tables, receipts: seq<Receipt>, end: Tables)
    returns (order: seq<Receipt>)
    requires Ready(db) && OneVerdictEach(receipts) && RaceResult(db, receipts, end)
    ensures multiset(order) == multiset(receipts) && Process(db, order) == end
  {
    var rank := Rank(db, end);
    var first, ok, last := Of(receipts, rank, 0), Of(receipts, rank, 1), Of(receipts, rank, 2);
    order := first + ok + last;
    ThreeClasses(receipts, rank);
    OneVerdictInClass(receipts, rank, 0);
    OneVerdictInClass(receipts, rank, 1);
    OneVerdictInClass(receipts, rank, 2);
    assert forall r :: r in first + last ==> r in first || r in last;
    PartsEndThere(db, receipts, end, first, ok, last);
    hide Of, OneVerdictEach, Process, Settlement, Sound, RaceResult;
    ProcessInParts(db, first, ok, last);
  }

  /** Every completed interleaving of the receipts' row-level steps, conflict or not, leaves what handling them one
      after another in some order leaves. */
  lemma {:induction false} EveryInterleavingIsSomeOrder(db: Tables, receipts: seq<Receipt>, schedule: seq<nat>)
    returns (order: seq<Receipt>)
    requires Ready(db) && OneVerdictEach(receipts)
    requires Schedules.AllOver(RunSchedule(AllAtOnce(db, receipts), schedule))
    ensures multiset(order) == multiset(receipts)
    ensures RunSchedule(AllAtOnce(db, receipts), schedule).db == Process(db, order)
  {
    hide *;
    EveryRaceResult(db, receipts, schedule);
    order := ResultIsSomeOrder(db, receipts, RunSchedule(AllAtOnce(db, receipts), schedule).db);
  }

  // ---------------------------------------------------------------- an interleaving for every order

  /** Tables that have the rows of `start` under the names they had there. */
  ghost predicate SameNames(start: Tables, db: Tables) {
    && |db.payments| == |start.payments| && |db.invoices| == |start.invoices|
    && PaymentsExtend(start.payments, db.payments) && InvoicesExtend(start.invoices, db.invoices)
  }

  lemma {:induction false} HandleKeepsNames(start: Tables, db: Tables, r: Receipt)
    requires SameNames(start, db)
    ensures SameNames(start, Handle(db, r))
  {
  }

  /** n turns of one task, with no other in between. */
  function Turned(db: Tables, task: Task, n: nat): (Tables, Task)
    decreases n
  {
    if n == 0 then (db, task) else var (next, task') := StepTask(db, task); Turned(next, task', n - 1)
  }

  /** Five turns of a receipt's task are the whole of its handling. */
  lemma {:induction false} FiveTurnsHandle(start: Tables, db: Tables, r: Receipt)
    requires SameNames(start, db)
    ensures var (after, task) := Turned(db, TaskOf(start, r), 5); after == Handle(db, r) && Over(task)
  {
    FindPaymentStable(start.payments, db.payments, r.txid);
    if r.success {
      FiveTurnsConfirm(db, r);
    } else {
      FiveTurnsRevert(db, r);
    }
  }

  lemma {:induction false} TurnedStep(db: Tables, task: Task, n: nat)
    ensures var (next, task') := StepTask(db, task); Turned(db, task, n + 1) == Turned(next, task', n)
  {
  }

  lemma {:induction false} TurnedOver(db: Tables, task: Task, n: nat)
    requires Over(task)
    ensures Turned(db, task, n) == (db, task)
    decreases n
  {
    if n > 0 { TurnedOver(db, task, n - 1); }
  }

  lemma {:induction false} FiveTurnsConfirm(db: Tables, r: Receipt)
    requires r.success
    ensures var found := FindPayment(db.payments, r.txid);
            var id := if found.Some? then found.value else |db.payments|;
            var (after, task) := Turned(db, Confirming(id, ConfirmationOf(r), AtRead), 5);
            after == Handle(db, r) && Over(task)
  {
    var found := FindPayment(db.payments, r.txid);
    var id := if found.Some? then found.value else |db.payments|;
    var c := ConfirmationOf(r);
    TurnedStep(db, Confirming(id, c, AtRead), 4);
    if id >= |db.payments| {
      TurnedOver(db, Confirming(id, c, Stopped(false)), 4);
    } else {
      var p := db.payments[id];
      TurnedStep(db, Confirming(id, c, AtCheck(p)), 3);
      if p.HasHash() {
        TurnedOver(db, Confirming(id, c, Finished(false)), 3);
      } else {
        var marked := db.(payments := db.payments[id := MarkConfirmed(p, c)]);
        TurnedStep(marked, Confirming(id, c, AtReread), 2);
        TurnedStep(marked, Confirming(id, c, AtFindInvoice(p.invoiceUid)), 1);
        var k := FindInvoice(db.invoices, p.invoiceUid);
        if k.None? {
          TurnedOver(marked, Confirming(id, c, Stopped(true)), 1);
        } else {
          TurnedStep(marked, Confirming(id, c, AtPay(k.value)), 0);
        }
      }
    }
    hide Turned;
  }

  lemma {:induction false} FiveTurnsRevert(db: Tables, r: Receipt)
    requires !r.success
    ensures var (after, task) := Turned(db, Reverting(r.txid, AtFindHash), 5); after == Handle(db, r) && Over(task)
  {
    var k, id := FindInvoiceByHash(db.invoices, r.txid), FindPayment(db.payments, r.txid);
    TurnedStep(db, Reverting(r.txid, AtFindHash), 4);
    if k.None? {
      TurnedOver(db, Reverting(r.txid, RevertOver), 4);
    } else {
      TurnedStep(db, Reverting(r.txid, AtFindTxid(k.value)), 3);
      if id.None? {
        TurnedOver(db, Reverting(r.txid, RevertOver), 3);
      } else {
        var cleared := db.(invoices := db.invoices[k.value := Unpaid(db.invoices[k.value])]);
        TurnedStep(db, Reverting(r.txid, AtUnpay(k.value, id.value)), 2);
        TurnedStep(cleared, Reverting(r.txid, AtFail(id.value)), 1);
        TurnedOver(Handle(db, r), Reverting(r.txid, RevertOver), 1);
      }
    }
    hide Turned;
  }

  function Five(j: nat): seq<nat> {
    [j, j, j, j, j]
  }

  /** Each of these tasks in turn, run to its end. */
  function InTurn(js: seq<nat>): seq<nat> {
    if js == [] then [] else Five(js[0]) + InTurn(js[1..])
  }

  predicate InRange(js: seq<nat>, n: nat) {
    forall i :: 0 <= i < |js| ==> js[i] < n
  }

  function Chosen(receipts: seq<Receipt>, js: seq<nat>): seq<Receipt>
    requires InRange(js, |receipts|)
  {
    seq(|js|, i requires 0 <= i < |js| => receipts[js[i]])
  }

  lemma {:induction false} RunFive(cfg: Config, j: nat)
    requires j < |cfg.tasks|
    ensures var (after, task) := Turned(cfg.db, cfg.tasks[j], 5);
            RunSchedule(cfg, Five(j)) == Config(after, cfg.tasks[j := task])
  {
    var c1 := Step(cfg, j);
    var c2 := Step(c1, j);
    var c3 := Step(c2, j);
    var c4 := Step(c3, j);
    var c5 := Step(c4, j);
    TurnedStep(cfg.db, cfg.tasks[j], 4);
    TurnedStep(c1.db, c1.tasks[j], 3);
    TurnedStep(c2.db, c2.tasks[j], 2);
    TurnedStep(c3.db, c3.tasks[j], 1);
    TurnedStep(c4.db, c4.tasks[j], 0);
    assert c5.tasks == cfg.tasks[j := c5.tasks[j]];
    hide StepTask, Turned;
    assert Five(j)[1..] == [j, j, j, j] && [j, j, j, j][1..] == [j, j, j];
    assert [j, j, j][1..] == [j, j] && [j, j][1..] == [j] && [j][1..] == [];
    assert RunSchedule(c4, [j]) == c5;
    assert RunSchedule(c3, [j, j]) == c5;
    assert RunSchedule(c2, [j, j, j]) == c5;
    assert RunSchedule(c1, [j, j, j, j]) == c5;
  }

  ghost predicate Distinct(js: seq<nat>) {
    forall a, b :: 0 <= a < b < |js| ==> js[a] != js[b]
  }

  /** The tasks named by js have not begun. */
  ghost predicate NotBegun(start: Tables, receipts: seq<Receipt>, cfg: Config, js: seq<nat>) {
    |cfg.tasks| == |receipts| && forall j: nat :: j in js && j < |receipts| ==>
        cfg.tasks[j] == TaskOf(start, receipts[j])
  }

  lemma {:induction false} RunConcat(cfg: Config, first: seq<nat>, second: seq<nat>)
    ensures RunSchedule(cfg, first + second) == RunSchedule(RunSchedule(cfg, first), second)
    decreases |first|
  {
    if first == [] {
      assert first + second == second;
    } else {
      assert (first + second)[1..] == first[1..] + second;
      RunConcat(Step(cfg, first[0]), first[1..], second);
    }
  }

  lemma {:induction false} ProcessHead(db: Tables, r: Receipt, rest: seq<Receipt>)
    ensures Process(db, [r] + rest) == Process(Handle(db, r), rest)
  {
    ProcessConcat(db, [r], rest);
    assert [r][..0] == [];
  }

  /** Once task j has had its turns the others are where they were. */
  lemma {:induction false} StillNotBegun(start: Tables, receipts: seq<Receipt>, cfg: Config, next: Config, j: nat,
          rest: seq<nat>)
    requires NotBegun(start, receipts, cfg, [j] + rest) && Distinct([j] + rest) && InRange([j] + rest, |receipts|)
    requires j < |cfg.tasks| == |next.tasks|
    requires forall m :: 0 <= m < |cfg.tasks| && m != j ==> next.tasks[m] == cfg.tasks[m]
    ensures NotBegun(start, receipts, next, rest) && Distinct(rest) && InRange(rest, |receipts|) && j !in rest
  {
    var js := [j] + rest;
    assert forall i :: 0 <= i < |rest| ==> js[i + 1] == rest[i];
    assert js[0] == j;
    hide TaskOf;
  }

  /** The tasks named by js are over, with the effect of handling their receipts in that order. */
  ghost predicate DoneInTurn(cfg: Config, end: Config, receipts: seq<Receipt>, js: seq<nat>) {
    && InRange(js, |receipts|) && end.db == Process(cfg.db, Chosen(receipts, js))
    && |end.tasks| == |cfg.tasks| == |receipts|
    && forall m: nat :: m < |receipts| ==> if m in js then Over(end.tasks[m]) else end.tasks[m] == cfg.tasks[m]
  }

  lemma {:induction false} HeadThenRest(cfg: Config, next: Config, end: Config, receipts: seq<Receipt>, j: nat,
          rest: seq<nat>)
    requires j < |receipts| == |cfg.tasks| && j !in rest && next.db == Handle(cfg.db, receipts[j])
    requires DoneInTurn(next, end, receipts, rest) && Over(next.tasks[j])
    requires forall m :: 0 <= m < |cfg.tasks| && m != j ==> next.tasks[m] == cfg.tasks[m]
    ensures DoneInTurn(cfg, end, receipts, [j] + rest)
  {
    var js := [j] + rest;
    assert forall m :: m in js <==> m == j || m in rest;
    assert Chosen(receipts, js) == [receipts[j]] + Chosen(receipts, rest);
    hide Process, Handle, Over, Chosen;
    ProcessHead(cfg.db, receipts[j], Chosen(receipts, rest));
  }

  /** Running the tasks one after another, in any order, is handling their receipts in that order. */
  lemma {:induction false} InTurnIsProcess(start: Tables, receipts: seq<Receipt>, cfg: Config, js: seq<nat>)
    requires SameNames(start, cfg.db) && InRange(js, |receipts|) && Distinct(js) && NotBegun(start, receipts, cfg, js)
    ensures DoneInTurn(cfg, RunSchedule(cfg, InTurn(js)), receipts, js)
    decreases |js|
  {
    if js != [] {
      var j, rest := js[0], js[1..];
      assert js == [j] + rest;
      assert j in js && j < |receipts| && cfg.tasks[j] == TaskOf(start, receipts[j]);
      RunFive(cfg, j);
      FiveTurnsHandle(start, cfg.db, receipts[j]);
      HandleKeepsNames(start, cfg.db, receipts[j]);
      var next := RunSchedule(cfg, Five(j));
      hide RunSchedule, Turned, Handle, SameNames, TaskOf, Process, Over, Five;
      StillNotBegun(start, receipts, cfg, next, j, rest);
      hide NotBegun, Distinct, InRange, DoneInTurn;
      InTurnIsProcess(start, receipts, next, rest);
      RunConcat(cfg, Five(j), InTurn(rest));
      HeadThenRest(cfg, next, RunSchedule(next, InTurn(rest)), receipts, j, rest);
    }
  }

  /** The indices, from `from` on, of the receipts of one kind. */
  function Indices(receipts: seq<Receipt>, success: bool, from: nat): (js: seq<nat>)
    requires from <= |receipts|
    ensures forall j: nat :: j in js <==> from <= j < |receipts| && receipts[j].success == success
    ensures InRange(js, |receipts|) && Distinct(js)
    decreases |receipts| - from
  {
    if from == |receipts| then []
    else
      var rest := Indices(receipts, success, from + 1);
      assert forall a :: 0 <= a < |rest| ==> rest[a] in rest;
      if receipts[from].success == success then [from] + rest else rest
  }

  lemma {:induction false} ChosenIndices(receipts: seq<Receipt>, success: bool, from: nat)
    requires from <= |receipts|
    ensures Chosen(receipts, Indices(receipts, success, from)) == Only(receipts[from..], success)
    decreases |receipts| - from
  {
    if from < |receipts| {
      var rest := Indices(receipts, success, from + 1);
      ChosenIndices(receipts, success, from + 1);
      assert receipts[from..][1..] == receipts[from + 1..];
      ChosenConcat(receipts, [from], rest);
      assert Chosen(receipts, [from]) == [receipts[from]];
    }
  }

  lemma {:induction false} ChosenConcat(receipts: seq<Receipt>, first: seq<nat>, second: seq<nat>)
    requires InRange(first, |receipts|) && InRange(second, |receipts|)
    ensures InRange(first + second, |receipts|)
    ensures Chosen(receipts, first + second) == Chosen(receipts, first) + Chosen(receipts, second)
  {
  }

  lemma {:induction false} AtOnceNotBegun(db: Tables, receipts: seq<Receipt>, js: seq<nat>)
    ensures var cfg := AllAtOnce(db, receipts);
            cfg.db == db && SameNames(db, cfg.db) && NotBegun(db, receipts, cfg, js)
  {
  }

  lemma {:induction false} AllDone(cfg: Config, end: Config, receipts: seq<Receipt>, js: seq<nat>)
    requires DoneInTurn(cfg, end, receipts, js) && forall m: nat :: m < |receipts| ==> m in js
    ensures Schedules.AllOver(end)
  {
  }

  /** A completed schedule that handles first the receipts of one kind, then the others. */
  lemma {:induction false} KindsInTurn(db: Tables, receipts: seq<Receipt>, success: bool) returns (schedule: seq<nat>)
    ensures var end := RunSchedule(AllAtOnce(db, receipts), schedule);
            && Schedules.AllOver(end)
            && end.db == Process(db, Only(receipts, success) + Only(receipts, !success))
  {
    var first, second := Indices(receipts, success, 0), Indices(receipts, !success, 0);
    var js := first + second;
    schedule := InTurn(js);
    assert forall m: nat :: m < |receipts| ==> m in js;
    assert receipts[0..] == receipts;
    ChosenIndices(receipts, success, 0);
    ChosenIndices(receipts, !success, 0);
    DistinctKinds(receipts, first, second, success);
    ChosenConcat(receipts, first, second);
    hide Only, Indices, InTurn, RunSchedule, Process, AllAtOnce, SameNames, NotBegun, InRange, Distinct, Chosen;
    var cfg := AllAtOnce(db, receipts);
    AtOnceNotBegun(db, receipts, js);
    InTurnIsProcess(db, receipts, cfg, js);
    AllDone(cfg, RunSchedule(cfg, schedule), receipts, js);
  }

  lemma {:induction false} DistinctKinds(receipts: seq<Receipt>, first: seq<nat>, second: seq<nat>, success: bool)
    requires first == Indices(receipts, success, 0) && second == Indices(receipts, !success, 0)
    ensures Distinct(first + second)
  {
    forall a, b | 0 <= a < b < |first + second|
      ensures (first + second)[a] != (first + second)[b]
    {
      if a < |first| <= b {
        assert first[a] in first && second[b - |first|] in second;
      }
    }
    hide Indices;
  }

  /** All completed interleavings leave the same tables. */
  ghost predicate AllInterleavingsAgree(db: Tables, receipts: seq<Receipt>) {
    forall s, t :: Completes(db, receipts, s) && Completes(db, receipts, t) ==>
      RunSchedule(AllAtOnce(db, receipts), s).db == RunSchedule(AllAtOnce(db, receipts), t).db
  }

  ghost predicate Completes(db: Tables, receipts: seq<Receipt>, schedule: seq<nat>) {
    Schedules.AllOver(RunSchedule(AllAtOnce(db, receipts), schedule))
  }

  /** All completed interleavings leave the same tables exactly when the receipts do not conflict. */
  lemma {:induction false} InterleavingsAgreeExactly(db: Tables, receipts: seq<Receipt>)
    requires Ready(db) && OneVerdictEach(receipts)
    ensures AllInterleavingsAgree(db, receipts) <==> !Conflict(db, receipts)
  {
    if Conflict(db, receipts) {
      var k: nat, i: nat :| Contested(db, receipts, k, i);
      hide Ready, OneVerdictEach, Contested, RunSchedule, AllAtOnce, Process, Only;
      ConflictSplits(db, receipts, k, i);
      var s := KindsInTurn(db, receipts, true);
      var t := KindsInTurn(db, receipts, false);
      assert Completes(db, receipts, s) && Completes(db, receipts, t);
    } else {
      hide Ready, OneVerdictEach, Conflict, RunSchedule, AllAtOnce, Process;
      forall s, t | Completes(db, receipts, s) && Completes(db, receipts, t)
        ensures RunSchedule(AllAtOnce(db, receipts), s).db == RunSchedule(AllAtOnce(db, receipts), t).db
      {
        ReceiptsRaceSafely(db, receipts, s);
        ReceiptsRaceSafely(db, receipts, t);
      }
    }
  }
}
