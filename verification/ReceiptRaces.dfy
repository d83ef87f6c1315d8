/** Receipts handled concurrently. A revert is not awaited, and a confirm is cut at its awaits, so the row-level steps
    of any number of receipts may interleave in any way. */
module ReceiptRaces {
  import opened Wrappers
  import opened Rows
  import opened Lifecycle
  import opened Runs
  import opened Schedules
  import opened Receipts

  /** The work one receipt starts. An accepted one without a payment stops at its first read. */
  function TaskOf(db: Tables, r: Receipt): Task {
    if r.success then
      var id := FindPayment(db.payments, r.txid);
      Confirming(if id.Some? then id.value else |db.payments|, ConfirmationOf(r), AtRead)
    else Reverting(r.txid, AtFindHash)
  }

  function AllAtOnce(db: Tables, receipts: seq<Receipt>): Config {
    Config(db, seq(|receipts|, j requires 0 <= j < |receipts| => TaskOf(db, receipts[j])))
  }

  const IDLE := Cancelling("", CancelOver)

  /** The confirms alone, and the reverts alone. */
  function OnlyConfirms(tasks: seq<Task>): seq<Task> {
    seq(|tasks|, j requires 0 <= j < |tasks| => if tasks[j].Confirming? then tasks[j] else IDLE)
  }

  function OnlyReverts(tasks: seq<Task>): seq<Task> {
    seq(|tasks|, j requires 0 <= j < |tasks| => if tasks[j].Reverting? then tasks[j] else IDLE)
  }

  /** What the chain says of an accepted payment. */
  ghost function Conf(receipts: seq<Receipt>): TxRef -> Confirmation {
    (ref: TxRef) =>
      if Verdict(receipts, ref.txid).Some? then ConfirmationOf(Verdict(receipts, ref.txid).value)
          else Confirmation("", 0, 0)
  }

  /** The rows reverts write: invoices whose transaction is rejected, and the payments those transactions name. */
  ghost predicate Unpaying(start: Tables, receipts: seq<Receipt>, k: nat) {
    k < |start.invoices| && start.invoices[k].hash.Some? && Rejected(receipts, start.invoices[k].hash.value)
  }

  ghost predicate Failing(start: Tables, receipts: seq<Receipt>, i: nat) {
    && i < |start.payments| && Rejected(receipts, start.payments[i].ref.txid)
    && FindInvoiceByHash(start.invoices, start.payments[i].ref.txid).Some?
  }

  // ---------------------------------------------------------------- the reverts on their own

  function Unpaid(inv: Invoice): Invoice {
    inv.(status := InvoiceUnpaid, hash := None)
  }

  /** What one revert knows. */
  ghost predicate RevertOk(start: Tables, now: Tables, receipts: seq<Receipt>, task: Task) {
    match task
    case Confirming(_, _, _) => false
    case Cancelling(_, at) => at.CancelOver?
    case Reverting(txid, at) =>
      Rejected(receipts, txid) &&
      var k, id := FindInvoiceByHash(start.invoices, txid), FindPayment(start.payments, txid);
      (match at
       case AtFindHash => true
       case AtFindTxid(m) => k == Some(m)
       case AtUnpay(m, i) => k == Some(m) && id == Some(i)
       case AtFail(i) => k.Some? && Cleared(start, now, k.value) && id == Some(i)
       case RevertOver => k.Some? ==> Cleared(start, now, k.value))
  }

  ghost predicate Cleared(start: Tables, now: Tables, k: nat) {
    k < |start.invoices| == |now.invoices| && now.invoices[k] == Unpaid(start.invoices[k])
  }

  ghost predicate Failed(start: Tables, now: Tables, i: nat) {
    i < |start.payments| == |now.payments| && now.payments[i] == start.payments[i].(status := PaymentFailed)
  }

  /** Some revert is about to fail payment i. */
  ghost predicate AboutToFail(tasks: seq<Task>, i: nat) {
    exists j :: 0 <= j < |tasks| && tasks[j].Reverting? && tasks[j].stage == AtFail(i)
  }

  ghost predicate InvoicesMidway(start: Tables, now: Tables, receipts: seq<Receipt>) {
    && |now.invoices| == |start.invoices|
    && forall k: nat :: k < |start.invoices| ==>
         now.invoices[k] == start.invoices[k] || (Unpaying(start, receipts, k) && Cleared(start, now, k))
  }

  ghost predicate PaymentsMidway(start: Tables, now: Tables, receipts: seq<Receipt>, tasks: seq<Task>) {
    && |now.payments| == |start.payments|
    && forall i: nat :: i < |start.payments| ==>
         && (now.payments[i] == start.payments[i] || (Failing(start, receipts, i) && Failed(start, now, i)))
         && (Owed(start, now, i) ==> Failed(start, now, i) || AboutToFail(tasks, i))
  }

  /** The invoice waiting for payment i's transaction has been reverted. */
  ghost predicate Owed(start: Tables, now: Tables, i: nat)
    requires i < |start.payments|
  {
    var k := FindInvoiceByHash(start.invoices, start.payments[i].ref.txid);
    k.Some? && Cleared(start, now, k.value)
  }

  ghost predicate RevertsMidway(start: Tables, r: Config, receipts: seq<Receipt>) {
    && InvoicesMidway(start, r.db, receipts) && PaymentsMidway(start, r.db, receipts, r.tasks)
    && forall j :: 0 <= j < |r.tasks| ==> RevertOk(start, r.db, receipts, r.tasks[j])
  }

  /** While nothing is written, only the stepping task has to be looked at. */
  lemma {:induction false} ReadKeeps(start: Tables, r: Config, receipts: seq<Receipt>, j: nat, task: Task)
    requires RevertsMidway(start, r, receipts) && j < |r.tasks| && RevertOk(start, r.db, receipts, task)
    requires r.tasks[j].Reverting? && !r.tasks[j].stage.AtFail?
    ensures RevertsMidway(start, Config(r.db, r.tasks[j := task]), receipts)
  {
    forall i: nat | AboutToFail(r.tasks, i)
      ensures AboutToFail(r.tasks[j := task], i)
    {
      var w :| 0 <= w < |r.tasks| && r.tasks[w].Reverting? && r.tasks[w].stage == AtFail(i);
      assert r.tasks[j := task][w] == r.tasks[w];
    }
  }

  lemma {:induction false} FindHashStep(start: Tables, r: Config, receipts: seq<Receipt>, j: nat, txid: string)
    requires Ready(start) && RevertsMidway(start, r, receipts) && j < |r.tasks|
    requires r.tasks[j] == Reverting(txid, AtFindHash)
    ensures RevertsMidway(start, Step(r, j), receipts)
  {
    var found := FindInvoiceByHash(r.db.invoices, txid);
    HashFindsPayment(start, txid);
    assert RevertOk(start, r.db, receipts, r.tasks[j]);
    var task := Reverting(txid, if found.Some? then AtFindTxid(found.value) else RevertOver);
    hide Ready, PaymentsMidway;
    if found.Some? {
      assert r.db.invoices[found.value] == start.invoices[found.value];
    }
    assert RevertOk(start, r.db, receipts, task);
    ReadKeeps(start, r, receipts, j, task);
  }

  lemma {:induction false} SameTxids(start: Tables, now: Tables, receipts: seq<Receipt>, tasks: seq<Task>, txid: string)
    requires PaymentsMidway(start, now, receipts, tasks)
    ensures FindPayment(now.payments, txid) == FindPayment(start.payments, txid)
  {
    FindPaymentStable(start.payments, now.payments, txid);
  }

  lemma {:induction false} FindTxidStep(start: Tables, r: Config, receipts: seq<Receipt>, j: nat, txid: string, k: nat)
    requires Ready(start) && RevertsMidway(start, r, receipts) && j < |r.tasks|
    requires r.tasks[j] == Reverting(txid, AtFindTxid(k))
    ensures RevertsMidway(start, Step(r, j), receipts)
  {
    SameTxids(start, r.db, receipts, r.tasks, txid);
    HashFindsPayment(start, txid);
    assert RevertOk(start, r.db, receipts, r.tasks[j]);
    var id := FindPayment(start.payments, txid).value;
    ReadKeeps(start, r, receipts, j, Reverting(txid, AtUnpay(k, id)));
  }

  lemma {:induction false} RevertOkGrows(start: Tables, now: Tables, next: Tables, receipts: seq<Receipt>, task: Task)
    requires RevertOk(start, now, receipts, task) && forall m: nat :: Cleared(start, now, m) ==> Cleared(start, next, m)
    ensures RevertOk(start, next, receipts, task)
  {
  }

  /** Clearing an invoice that may be cleared. */
  lemma {:induction false} ClearedNext(start: Tables, now: Tables, receipts: seq<Receipt>, k: nat)
    requires InvoicesMidway(start, now, receipts) && Unpaying(start, receipts, k)
    ensures k < |now.invoices|
    ensures var next := now.(invoices := now.invoices[k := Unpaid(now.invoices[k])]);
            && InvoicesMidway(start, next, receipts)
            && forall m: nat :: Cleared(start, next, m) <==> Cleared(start, now, m) || m == k
  {
  }

  /** Only one payment waits for an invoice to be reverted. */
  lemma {:induction false} OwedOnce(start: Tables, now: Tables, next: Tables, k: nat, id: nat, txid: string, i: nat)
    requires Ready(start) && i < |start.payments| && FindPayment(start.payments, txid) == Some(id)
    requires FindInvoiceByHash(start.invoices, txid) == Some(k)
    requires forall m: nat :: Cleared(start, next, m) ==> Cleared(start, now, m) || m == k
    ensures Owed(start, next, i) ==> Owed(start, now, i) || i == id
  {
    OnlyOneWithTxid(start.payments, id);
  }

  lemma {:induction false} UnpayStep(start: Tables, r: Config, receipts: seq<Receipt>, j: nat, txid: string, k: nat,
          id: nat)
    requires Ready(start) && RevertsMidway(start, r, receipts) && j < |r.tasks|
    requires r.tasks[j] == Reverting(txid, AtUnpay(k, id))
    ensures RevertsMidway(start, Step(r, j), receipts)
  {
    assert RevertOk(start, r.db, receipts, r.tasks[j]);
    assert Unpaying(start, receipts, k);
    ClearedNext(start, r.db, receipts, k);
    var next := Step(r, j);
    assert next.db == r.db.(invoices := r.db.invoices[k := Unpaid(r.db.invoices[k])]);
    assert RevertOk(start, next.db, receipts, next.tasks[j]);
    hide Ready, RevertOk, Cleared, Failed, Owed, Unpaying, InvoicesMidway;
    forall t | 0 <= t < |r.tasks| && t != j
      ensures RevertOk(start, next.db, receipts, next.tasks[t])
    {
      RevertOkGrows(start, r.db, next.db, receipts, r.tasks[t]);
    }
    forall i: nat | i < |start.payments| && Owed(start, next.db, i)
      ensures Failed(start, next.db, i) || AboutToFail(next.tasks, i)
    {
      OwedOnce(start, r.db, next.db, k, id, txid, i);
      if i == id {
        assert next.tasks[j].stage == AtFail(i);
      } else {
        AboutToFailStays(r.tasks, j, next.tasks[j], i);
        SameFailed(start, r.db, next.db, i);
      }
    }
    forall i: nat | i < |start.payments| { SameFailed(start, r.db, next.db, i); }
  }

  lemma {:induction false} SameFailed(start: Tables, now: Tables, next: Tables, i: nat)
    requires next.payments == now.payments
    ensures Failed(start, next, i) <==> Failed(start, now, i)
  {
  }

  lemma {:induction false} AboutToFailStays(tasks: seq<Task>, j: nat, task: Task, i: nat)
    requires j < |tasks| && tasks[j].Reverting? && tasks[j].stage != AtFail(i)
    ensures AboutToFail(tasks, i) ==> AboutToFail(tasks[j := task], i)
  {
    if AboutToFail(tasks, i) {
      var w :| 0 <= w < |tasks| && tasks[w].Reverting? && tasks[w].stage == AtFail(i);
      assert tasks[j := task][w] == tasks[w];
    }
  }

  lemma {:induction false} FailStep(start: Tables, r: Config, receipts: seq<Receipt>, j: nat, txid: string, id: nat)
    requires Ready(start) && RevertsMidway(start, r, receipts) && j < |r.tasks|
    requires r.tasks[j] == Reverting(txid, AtFail(id))
    ensures RevertsMidway(start, Step(r, j), receipts)
  {
    assert RevertOk(start, r.db, receipts, r.tasks[j]);
    var next := Step(r, j);
    assert Failing(start, receipts, id);
    assert next.db.payments == r.db.payments[id := start.payments[id].(status := PaymentFailed)];
    assert forall m: nat :: Cleared(start, next.db, m) <==> Cleared(start, r.db, m);
    assert RevertOk(start, next.db, receipts, next.tasks[j]);
    hide Ready, RevertOk, Failing;
    forall t | 0 <= t < |r.tasks| && t != j
      ensures RevertOk(start, next.db, receipts, next.tasks[t])
    {
      RevertOkGrows(start, r.db, next.db, receipts, r.tasks[t]);
    }
    forall i: nat | i < |start.payments| && Owed(start, next.db, i) && i != id
      ensures Failed(start, next.db, i) || AboutToFail(next.tasks, i)
    {
      assert Owed(start, r.db, i);
      AboutToFailStays(r.tasks, j, next.tasks[j], i);
    }
  }

  lemma {:induction false} RevertStepKeeps(start: Tables, r: Config, receipts: seq<Receipt>, j: nat)
    requires Ready(start) && RevertsMidway(start, r, receipts)
    ensures RevertsMidway(start, Step(r, j), receipts)
  {
    if j < |r.tasks| {
      assert RevertOk(start, r.db, receipts, r.tasks[j]);
      match r.tasks[j]
      case Cancelling(_, _) => assert Step(r, j) == r;
      case Reverting(txid, at) =>
        match at {
         case AtFindHash => FindHashStep(start, r, receipts, j, txid);
         case AtFindTxid(k) => FindTxidStep(start, r, receipts, j, txid, k);
         case AtUnpay(k, id) => UnpayStep(start, r, receipts, j, txid, k, id);
         case AtFail(id) => FailStep(start, r, receipts, j, txid, id);
         case RevertOver => assert Step(r, j) == r;
        }
    }
  }

  // ---------------------------------------------------------------- both together

  /** Each row comes from whichever side writes it. An invoice that both sides write has the reverts' columns, and is
      paid or not according to which side wrote last. */
  ghost predicate Merged(start: Tables, now: Tables, c: Config, r: Tables, receipts: seq<Receipt>) {
    && |now.payments| == |c.db.payments| == |r.payments| == |start.payments|
    && |now.invoices| == |c.db.invoices| == |r.invoices| == |start.invoices|
    && (forall i :: 0 <= i < |start.payments| ==>
          now.payments[i] == if Failing(start, receipts, i) then r.payments[i] else c.db.payments[i])
    && (forall k :: 0 <= k < |start.invoices| ==>
          if Unpaying(start, receipts, k) then Overlaid(start, now, c.tasks, r, k)
          else now.invoices[k] == c.db.invoices[k])
  }

  ghost predicate Overlaid(start: Tables, now: Tables, calls: seq<Task>, r: Tables, k: nat) {
    && k < |now.invoices| == |r.invoices|
    && (|| now.invoices[k] == r.invoices[k]
        || (Settled(start, calls, k) && now.invoices[k] == r.invoices[k].(status := InvoicePaid)))
  }

  /** Columns one side never writes. */
  ghost predicate Columns(start: Tables, c: Tables, r: Tables, receipts: seq<Receipt>) {
    && PaymentsExtend(start.payments, c.payments) && PaymentsExtend(start.payments, r.payments)
    && |c.invoices| == |r.invoices| == |start.invoices|
    && (forall k :: 0 <= k < |start.invoices| ==>
          && c.invoices[k].uid == r.invoices[k].uid == start.invoices[k].uid
          && c.invoices[k].hash == start.invoices[k].hash
          && (!Unpaying(start, receipts, k) ==> r.invoices[k].hash == start.invoices[k].hash))
  }

  lemma {:induction false} MidwayColumns(start: Tables, c: Config, r: Config, receipts: seq<Receipt>,
          conf: TxRef -> Confirmation)
    requires Midway(start, c, conf) && RevertsMidway(start, r, receipts)
    ensures Columns(start, c.db, r.db, receipts)
  {
  }

  lemma {:induction false} MergedNames(start: Tables, now: Tables, c: Config, r: Tables, receipts: seq<Receipt>)
    requires Merged(start, now, c, r, receipts) && Columns(start, c.db, r, receipts)
    ensures InvoicesExtend(now.invoices, c.db.invoices) && PaymentsExtend(now.payments, r.payments)
    ensures forall k :: 0 <= k < |start.invoices| ==> now.invoices[k].hash == r.invoices[k].hash
  {
    hide Unpaying, Failing;
  }

  lemma {:induction false} MergedLookups(start: Tables, now: Tables, c: Config, r: Tables, receipts: seq<Receipt>,
          name: string)
    requires Merged(start, now, c, r, receipts) && Columns(start, c.db, r, receipts)
    ensures FindInvoice(now.invoices, name) == FindInvoice(c.db.invoices, name)
    ensures FindPayment(now.payments, name) == FindPayment(r.payments, name)
    ensures FindInvoiceByHash(now.invoices, name) == FindInvoiceByHash(r.invoices, name)
  {
    MergedNames(start, now, c, r, receipts);
    FindInvoiceStable(now.invoices, c.db.invoices, name);
    FindPaymentStable(now.payments, r.payments, name);
    SameHashes(now.invoices, r.invoices, name);
  }

  lemma {:induction false} SameHashes(a: seq<Invoice>, b: seq<Invoice>, txid: string)
    requires |a| == |b| && forall k :: 0 <= k < |a| ==> a[k].hash == b[k].hash
    ensures FindInvoiceByHash(a, txid) == FindInvoiceByHash(b, txid)
  {
  }

  lemma {:induction false} MergedGrows(start: Tables, now: Tables, c: Config, next: Config, r: Tables,
          receipts: seq<Receipt>)
    requires Merged(start, now, c, r, receipts) && next.db == c.db
    requires forall k: nat :: Settled(start, c.tasks, k) ==> Settled(start, next.tasks, k)
    ensures Merged(start, now, next, r, receipts)
  {
    hide Failing, Unpaying, Settled;
  }

  lemma {:induction false} MergedMark(start: Tables, now: Tables, c: Config, r: Tables, receipts: seq<Receipt>, id: nat,
          conf: Confirmation)
    requires Merged(start, now, c, r, receipts) && id < |start.payments| && !Failing(start, receipts, id)
    ensures now.payments[id] == c.db.payments[id]
    ensures Merged(start, now.(payments := now.payments[id := MarkConfirmed(now.payments[id], conf)]),
                   c.(db := c.db.(payments := c.db.payments[id := MarkConfirmed(c.db.payments[id], conf)])),
                   r, receipts)
  {
    hide Failing, Unpaying, Settled;
  }

  lemma {:induction false} MergedPay(start: Tables, now: Tables, c: Config, r: Tables, receipts: seq<Receipt>, k: nat)
    requires Merged(start, now, c, r, receipts) && k < |start.invoices| && Settled(start, c.tasks, k)
    ensures Merged(start, now.(invoices := SetStatus(now.invoices, k, InvoicePaid)),
                   c.(db := c.db.(invoices := SetStatus(c.db.invoices, k, InvoicePaid))), r, receipts)
  {
    hide Failing, Unpaying, Settled;
  }

  lemma {:induction false} MergedUnpay(start: Tables, now: Tables, c: Config, r: Tables, receipts: seq<Receipt>, k: nat)
    requires Merged(start, now, c, r, receipts) && Unpaying(start, receipts, k)
    ensures k < |now.invoices| == |r.invoices|
    ensures Merged(start, now.(invoices := now.invoices[k := Unpaid(now.invoices[k])]), c,
                   r.(invoices := r.invoices[k := Unpaid(r.invoices[k])]), receipts)
  {
    assert k < |start.invoices|;
    hide Failing, Unpaying, Settled;
  }

  lemma {:induction false} MergedFail(start: Tables, now: Tables, c: Config, r: Tables, receipts: seq<Receipt>, id: nat)
    requires Merged(start, now, c, r, receipts) && Failing(start, receipts, id)
    ensures id < |now.payments| == |r.payments|
    ensures Merged(start, now.(payments := now.payments[id := now.payments[id].(status := PaymentFailed)]), c,
                   r.(payments := r.payments[id := r.payments[id].(status := PaymentFailed)]), receipts)
  {
    assert id < |start.payments|;
    hide Failing, Unpaying, Settled;
  }

  /** A confirm call for an accepted payment does among reverts what it does without them, but that an invoice it pays
      may be reverted too. */
  lemma {:induction false} ConfirmAgrees(start: Tables, now: Tables, c: Config, next: Config, r: Tables,
          receipts: seq<Receipt>, id: nat, conf: Confirmation, at: ConfirmPoint)
    requires Merged(start, now, c, r, receipts) && Columns(start, c.db, r, receipts)
    requires id < |start.payments| ==> !Failing(start, receipts, id)
    requires next.db == StepConfirm(c.db, id, conf, at).0
    requires forall k: nat :: Settled(start, c.tasks, k) ==> Settled(start, next.tasks, k)
    requires at.AtPay? && at.k < |start.invoices| ==> Settled(start, next.tasks, at.k)
    ensures StepConfirm(now, id, conf, at).1 == StepConfirm(c.db, id, conf, at).1
    ensures Merged(start, StepConfirm(now, id, conf, at).0, next, r, receipts)
  {
    if at.AtFindInvoice? {
      MergedLookups(start, now, c, r, receipts, at.uid);
    }
    var waiting := next.(db := c.db);
    MergedGrows(start, now, c, waiting, r, receipts);
    assert |now.payments| == |c.db.payments| == |start.payments|;
    assert |now.invoices| == |c.db.invoices| == |start.invoices|;
    if id < |start.payments| {
      MergedMark(start, now, waiting, r, receipts, id, conf);
    }
    if at.AtPay? && at.k < |start.invoices| {
      MergedPay(start, now, waiting, r, receipts, at.k);
    }
    hide Merged, Failing, Unpaying, Settled, Columns;
  }

  /** A revert does among confirms what it does without them. */
  lemma {:induction false} RevertAgrees(start: Tables, now: Tables, c: Config, r: Tables, receipts: seq<Receipt>,
          txid: string, at: RevertPoint)
    requires Merged(start, now, c, r, receipts) && Columns(start, c.db, r, receipts)
    requires at.AtUnpay? ==> Unpaying(start, receipts, at.k)
    requires at.AtFail? ==> Failing(start, receipts, at.id)
    ensures StepRevert(now, txid, at).1 == StepRevert(r, txid, at).1
    ensures Merged(start, StepRevert(now, txid, at).0, c, StepRevert(r, txid, at).0, receipts)
  {
    MergedLookups(start, now, c, r, receipts, txid);
    if at.AtUnpay? { MergedUnpay(start, now, c, r, receipts, at.k); }
    if at.AtFail? { MergedFail(start, now, c, r, receipts, at.id); }
    hide Merged, Failing, Unpaying, FindInvoiceByHash, FindPayment, Settled, Columns;
  }

  ghost predicate Braid(start: Tables, cfg: Config, c: Config, r: Config, receipts: seq<Receipt>) {
    && (forall j :: 0 <= j < |cfg.tasks| ==> WorkOf(start, receipts, cfg.tasks[j]))
    && c.tasks == OnlyConfirms(cfg.tasks) && r.tasks == OnlyReverts(cfg.tasks)
    && Midway(start, c, Conf(receipts)) && RevertsMidway(start, r, receipts)
    && Merged(start, cfg.db, c, r.db, receipts)
  }

  ghost predicate WorkOf(start: Tables, receipts: seq<Receipt>, task: Task) {
    match task
    case Confirming(id, _, _) => id < |start.payments| ==> Accepted(receipts, start.payments[id].ref.txid)
    case Reverting(_, _) => true
    case Cancelling(_, _) => false
  }

  /** A step of a confirm call unsettles no invoice, and settles the one it pays. */
  lemma {:induction false} StepSettles(start: Tables, c: Config, conf: TxRef -> Confirmation, j: nat)
    requires Midway(start, c, conf) && j < |c.tasks| && c.tasks[j].Confirming?
    ensures forall k: nat :: Settled(start, c.tasks, k) ==> Settled(start, Step(c, j).tasks, k)
    ensures c.tasks[j].at.AtPay? && c.tasks[j].at.k < |start.invoices| ==>
              Settled(start, Step(c, j).tasks, c.tasks[j].at.k)
  {
    StepMarks(start, c, conf, j);
    assert TaskOk(start, c.tasks, c.tasks[j], conf);
    hide Midway, Settled;
  }

  lemma {:induction false} SplitUpdate(tasks: seq<Task>, j: nat, task: Task)
    requires j < |tasks|
    ensures OnlyConfirms(tasks[j := task]) == OnlyConfirms(tasks)[j := if task.Confirming? then task else IDLE]
    ensures OnlyReverts(tasks[j := task]) == OnlyReverts(tasks)[j := if task.Reverting? then task else IDLE]
  {
  }

  lemma {:induction false} StepBraids(start: Tables, cfg: Config, c: Config, r: Config, receipts: seq<Receipt>, j: nat)
    requires Ready(start) && Braid(start, cfg, c, r, receipts)
    ensures Braid(start, Step(cfg, j), Step(c, j), Step(r, j), receipts)
  {
    StepKeepsMidway(start, c, Conf(receipts), j);
    RevertStepKeeps(start, r, receipts, j);
    if j < |cfg.tasks| {
      MidwayColumns(start, c, r, receipts, Conf(receipts));
      assert WorkOf(start, receipts, cfg.tasks[j]);
      var task := Step(cfg, j).tasks[j];
      SplitUpdate(cfg.tasks, j, task);
      hide Ready, Midway, RevertsMidway, Merged, Columns;
      match cfg.tasks[j]
      case Confirming(id, conf, at) => ConfirmBraids(start, cfg, c, r, receipts, j);
      case Reverting(txid, at) => RevertBraids(start, cfg, c, r, receipts, j);
    }
  }

  lemma {:induction false} ConfirmBraids(start: Tables, cfg: Config, c: Config, r: Config, receipts: seq<Receipt>,
          j: nat)
    requires Braid(start, cfg, c, r, receipts) && Columns(start, c.db, r.db, receipts)
    requires j < |cfg.tasks| && cfg.tasks[j].Confirming?
    ensures Step(c, j).tasks[j] == Step(cfg, j).tasks[j] && Step(r, j) == r
    ensures Merged(start, Step(cfg, j).db, Step(c, j), r.db, receipts)
  {
    var id, conf, at := cfg.tasks[j].id, cfg.tasks[j].c, cfg.tasks[j].at;
    assert WorkOf(start, receipts, cfg.tasks[j]);
    assert c.tasks[j] == cfg.tasks[j] && r.tasks[j] == IDLE;
    StepSettles(start, c, Conf(receipts), j);
    hide Midway, RevertsMidway, Settled;
    ConfirmAgrees(start, cfg.db, c, Step(c, j), r.db, receipts, id, conf, at);
    hide Merged, Columns, StepConfirm;
    assert Step(r, j).tasks == r.tasks;
  }

  lemma {:induction false} RevertBraids(start: Tables, cfg: Config, c: Config, r: Config, receipts: seq<Receipt>,
      j: nat)
    requires Braid(start, cfg, c, r, receipts) && Columns(start, c.db, r.db, receipts)
    requires j < |cfg.tasks| && cfg.tasks[j].Reverting?
    ensures Step(r, j).tasks[j] == Step(cfg, j).tasks[j] && Step(c, j) == c
    ensures Merged(start, Step(cfg, j).db, Step(c, j), Step(r, j).db, receipts)
  {
    var txid, at := cfg.tasks[j].txid, cfg.tasks[j].stage;
    assert r.tasks[j] == cfg.tasks[j] && c.tasks[j] == IDLE;
    assert RevertOk(start, r.db, receipts, r.tasks[j]);
    RevertAgrees(start, cfg.db, c, r.db, receipts, txid, at);
    hide Merged, Midway, RevertsMidway, Columns, StepRevert;
    assert Step(c, j).tasks == c.tasks;
  }

  lemma {:induction false} RunBraids(start: Tables, cfg: Config, c: Config, r: Config, receipts: seq<Receipt>,
          schedule: seq<nat>)
    requires Ready(start) && Braid(start, cfg, c, r, receipts)
    ensures Braid(start, RunSchedule(cfg, schedule), RunSchedule(c, schedule), RunSchedule(r, schedule), receipts)
    decreases |schedule|
  {
    if schedule != [] {
      hide Ready, Braid, Step;
      StepBraids(start, cfg, c, r, receipts, schedule[0]);
      RunBraids(start, Step(cfg, schedule[0]), Step(c, schedule[0]), Step(r, schedule[0]), receipts, schedule[1..]);
    }
  }

  // ---------------------------------------------------------------- from the start to the end

  lemma {:induction false} VerdictOf(receipts: seq<Receipt>, r: Receipt)
    requires OneVerdictEach(receipts) && r in receipts
    ensures Verdict(receipts, r.txid) == Some(r)
  {
  }

  lemma {:induction false} StartCalls(db: Tables, receipts: seq<Receipt>)
    requires OneVerdictEach(receipts)
    ensures CallsOrIdle(Config(db, OnlyConfirms(AllAtOnce(db, receipts).tasks)), Conf(receipts))
    ensures forall j :: 0 <= j < |receipts| ==> WorkOf(db, receipts, AllAtOnce(db, receipts).tasks[j])
  {
    forall j: nat | j < |receipts| { VerdictOf(receipts, receipts[j]); }
  }

  lemma {:induction false} StartReverts(db: Tables, receipts: seq<Receipt>)
    requires OneVerdictEach(receipts)
    ensures RevertsMidway(db, Config(db, OnlyReverts(AllAtOnce(db, receipts).tasks)), receipts)
  {
    forall j: nat | j < |receipts| { VerdictOf(receipts, receipts[j]); }
  }

  lemma {:induction false} StartBraids(db: Tables, receipts: seq<Receipt>)
    requires OneVerdictEach(receipts)
    ensures var cfg := AllAtOnce(db, receipts);
            Braid(db, cfg, Config(db, OnlyConfirms(cfg.tasks)), Config(db, OnlyReverts(cfg.tasks)), receipts)
  {
    var cfg := AllAtOnce(db, receipts);
    StartCalls(db, receipts);
    StartReverts(db, receipts);
    hide RevertsMidway, CallsOrIdle, WorkOf;
    StartIsMidway(Config(db, OnlyConfirms(cfg.tasks)), Conf(receipts));
  }

  /** A task keeps its kind and what it is about. */
  ghost predicate SameWork(a: Task, b: Task) {
    match a
    case Confirming(id, _, _) => b.Confirming? && b.id == id
    case Reverting(txid, _) => b.Reverting? && b.txid == txid
    case Cancelling(_, _) => b.Cancelling?
  }

  lemma {:induction false} RunKeepsWork(cfg: Config, schedule: seq<nat>)
    ensures var end := RunSchedule(cfg, schedule);
            |end.tasks| == |cfg.tasks| && forall j :: 0 <= j < |cfg.tasks| ==> SameWork(cfg.tasks[j], end.tasks[j])
    decreases |schedule|
  {
    if schedule != [] {
      var next := Step(cfg, schedule[0]);
      RunKeepsWork(next, schedule[1..]);
      assert forall j :: 0 <= j < |cfg.tasks| ==> SameWork(cfg.tasks[j], next.tasks[j]);
      hide Step, RunSchedule;
    }
  }

  /** When every revert is over, the rows they were to write are written. */
  lemma {:induction false} RevertsEnd(start: Tables, r: Config, receipts: seq<Receipt>)
    requires Ready(start) && OneVerdictEach(receipts) && RevertsMidway(start, r, receipts)
    requires |r.tasks| == |receipts| && forall j :: 0 <= j < |r.tasks| ==> Over(r.tasks[j])
    requires forall j :: 0 <= j < |receipts| && !receipts[j].success ==>
                           r.tasks[j].Reverting? && r.tasks[j].txid == receipts[j].txid
    ensures forall k: nat :: Unpaying(start, receipts, k) ==> Cleared(start, r.db, k)
    ensures forall i: nat :: Failing(start, receipts, i) ==> Failed(start, r.db, i)
  {
    forall k: nat | Unpaying(start, receipts, k)
      ensures Cleared(start, r.db, k)
    {
      var txid := start.invoices[k].hash.value;
      var x := Verdict(receipts, txid).value;
      var j :| 0 <= j < |receipts| && receipts[j] == x;
      HashFindsPayment(start, txid);
      assert RevertOk(start, r.db, receipts, r.tasks[j]);
      hide Ready, RevertsMidway;
    }
    forall i: nat | Failing(start, receipts, i)
      ensures Failed(start, r.db, i)
    {
      var k := FindInvoiceByHash(start.invoices, start.payments[i].ref.txid).value;
      assert Unpaying(start, receipts, k);
      assert Owed(start, r.db, i) && !AboutToFail(r.tasks, i);
    }
  }

  /** The payments confirm calls are made for are those whose transactions are accepted. */
  lemma {:induction false} TargetsAreAccepted(db: Tables, receipts: seq<Receipt>, i: nat)
    requires UniqueTxids(db.payments) && OneVerdictEach(receipts) && i < |db.payments|
    ensures i in Targets(OnlyConfirms(AllAtOnce(db, receipts).tasks)) <==> Accepted(receipts, db.payments[i].ref.txid)
  {
    var tasks := OnlyConfirms(AllAtOnce(db, receipts).tasks);
    var txid := db.payments[i].ref.txid;
    OnlyOneWithTxid(db.payments, i);
    if i in Targets(tasks) {
      var j :| 0 <= j < |tasks| && tasks[j].Confirming? && tasks[j].id == i;
      VerdictOf(receipts, receipts[j]);
    }
    if Accepted(receipts, txid) {
      var x := Verdict(receipts, txid).value;
      var j :| 0 <= j < |receipts| && receipts[j] == x;
      assert tasks[j].Confirming? && tasks[j].id == i;
    }
  }

  lemma {:induction false} PaidByAccepted(db: Tables, receipts: seq<Receipt>, k: nat)
    requires UniqueTxids(db.payments) && OneVerdictEach(receipts)
    ensures PaidBy(db, Targets(OnlyConfirms(AllAtOnce(db, receipts).tasks)), k) <==> SettledAsPaid(db, receipts, k)
  {
    var ids := Targets(OnlyConfirms(AllAtOnce(db, receipts).tasks));
    forall i: nat | i < |db.payments| { TargetsAreAccepted(db, receipts, i); }
    hide Targets, Accepted;
    forall i: nat
      ensures i in ids && Pays(db, i, k) <==> PaidByReceipt(db, receipts, k, i)
    {
    }
  }

  /** What every interleaving leaves: the settlement, except that an invoice whose transaction is rejected may end paid
      if the receipts also accept an unconfirmed payment of it. */
  ghost predicate RaceResult(db: Tables, receipts: seq<Receipt>, end: Tables) {
    && end.payments == Settlement(db, receipts).payments
    && |end.invoices| == |db.invoices|
    && forall k: nat :: k < |db.invoices| ==> ResultRow(db, receipts, end, k)
  }

  ghost predicate ResultRow(db: Tables, receipts: seq<Receipt>, end: Tables, k: nat)
    requires k < |db.invoices| == |end.invoices|
  {
    || end.invoices[k] == SettledInvoice(db, receipts, k)
    || (Unpaying(db, receipts, k) && SettledAsPaid(db, receipts, k)
        && end.invoices[k] == Unpaid(db.invoices[k]).(status := InvoicePaid))
  }

  lemma {:induction false} EndPayment(db: Tables, end: Tables, c: Config, r: Tables, receipts: seq<Receipt>, i: nat)
    requires Ready(db) && OneVerdictEach(receipts) && i < |db.payments| && Merged(db, end, c, r, receipts)
    requires c.db == ConfirmAll(db, Targets(OnlyConfirms(AllAtOnce(db, receipts).tasks)), Conf(receipts))
    requires Failing(db, receipts, i) ==> Failed(db, r, i)
    ensures end.payments[i] == SettledPayment(db.invoices, receipts, db.payments[i])
  {
    TargetsAreAccepted(db, receipts, i);
    hide Ready, Targets, OneVerdictEach, Settled;
  }

  lemma {:induction false} EndInvoice(db: Tables, end: Tables, c: Config, r: Tables, receipts: seq<Receipt>, k: nat)
    requires Ready(db) && OneVerdictEach(receipts) && k < |db.invoices| && Merged(db, end, c, r, receipts)
    requires c.db == ConfirmAll(db, Targets(OnlyConfirms(AllAtOnce(db, receipts).tasks)), Conf(receipts))
    requires Unpaying(db, receipts, k) ==> Cleared(db, r, k)
    requires Settled(db, c.tasks, k) <==> PaidBy(db, Targets(OnlyConfirms(AllAtOnce(db, receipts).tasks)), k)
    ensures ResultRow(db, receipts, end, k)
  {
    PaidByAccepted(db, receipts, k);
    hide Ready, Targets, OneVerdictEach, Settled, PaidBy, SettledAsPaid;
  }

  lemma {:induction false} TasksEnd(db: Tables, receipts: seq<Receipt>, schedule: seq<nat>, calls: seq<Task>,
          reverts: seq<Task>)
    requires var end := RunSchedule(AllAtOnce(db, receipts), schedule);
             AllOver(end) && calls == OnlyConfirms(end.tasks) && reverts == OnlyReverts(end.tasks)
    ensures |calls| == |reverts| == |receipts|
    ensures forall j :: 0 <= j < |receipts| ==> Over(calls[j]) && Over(reverts[j])
    ensures forall j :: 0 <= j < |receipts| && !receipts[j].success ==>
              reverts[j].Reverting? && reverts[j].txid == receipts[j].txid
  {
    var cfg := AllAtOnce(db, receipts);
    var end := RunSchedule(cfg, schedule);
    RunKeepsWork(cfg, schedule);
    hide RunSchedule;
    assert forall j :: 0 <= j < |receipts| && !receipts[j].success ==> SameWork(cfg.tasks[j], end.tasks[j]);
  }

  lemma {:induction false} SidesEnd(db: Tables, receipts: seq<Receipt>, schedule: seq<nat>)
    requires Ready(db) && OneVerdictEach(receipts)
    requires AllOver(RunSchedule(AllAtOnce(db, receipts), schedule))
    ensures var cfg := AllAtOnce(db, receipts);
            var c := RunSchedule(Config(db, OnlyConfirms(cfg.tasks)), schedule);
            var r := RunSchedule(Config(db, OnlyReverts(cfg.tasks)), schedule);
            && Merged(db, RunSchedule(cfg, schedule).db, c, r.db, receipts)
            && c.db == ConfirmAll(db, Targets(OnlyConfirms(cfg.tasks)), Conf(receipts))
            && (forall k: nat :: k < |db.invoices| ==>
                  (Settled(db, c.tasks, k) <==> PaidBy(db, Targets(OnlyConfirms(cfg.tasks)), k)))
            && (forall k: nat :: Unpaying(db, receipts, k) ==> Cleared(db, r.db, k))
            && (forall i: nat :: Failing(db, receipts, i) ==> Failed(db, r.db, i))
  {
    var cfg := AllAtOnce(db, receipts);
    var c0, r0 := Config(db, OnlyConfirms(cfg.tasks)), Config(db, OnlyReverts(cfg.tasks));
    StartBraids(db, receipts);
    StartCalls(db, receipts);
    var c, r := RunSchedule(c0, schedule), RunSchedule(r0, schedule);
    hide Ready, Merged, Midway, RevertsMidway, RunSchedule, CallsOrIdle, WorkOf, OneVerdictEach, AllAtOnce;
    RunBraids(db, cfg, c0, r0, receipts, schedule);
    TasksEnd(db, receipts, schedule, c.tasks, r.tasks);
    hide OnlyConfirms, OnlyReverts, Over;
    ScheduleIndependence(c0, Conf(receipts), schedule);
    RevertsEnd(db, r, receipts);
    CallsEnd(db, c0, c, receipts, schedule);
  }

  lemma {:induction false} CallsEnd(db: Tables, c0: Config, c: Config, receipts: seq<Receipt>, schedule: seq<nat>)
    requires c0.db == db && Midway(db, c, Conf(receipts)) && AllOver(c) && c == RunSchedule(c0, schedule)
    requires Midway(db, c0, Conf(receipts))
    ensures forall k: nat :: k < |db.invoices| ==> (Settled(db, c.tasks, k) <==> PaidBy(db, Targets(c0.tasks), k))
  {
    RunKeepsMidway(db, c0, Conf(receipts), schedule);
    SameTargets(c0.tasks, c.tasks);
    assert TasksOk(db, c.tasks, Conf(receipts));
    forall k: nat | k < |db.invoices| { SettledWhenOver(db, c.tasks, Conf(receipts), k); }
  }

  lemma {:induction false} EveryRaceResult(db: Tables, receipts: seq<Receipt>, schedule: seq<nat>)
    requires Ready(db) && OneVerdictEach(receipts)
    requires AllOver(RunSchedule(AllAtOnce(db, receipts), schedule))
    ensures RaceResult(db, receipts, RunSchedule(AllAtOnce(db, receipts), schedule).db)
  {
    var cfg := AllAtOnce(db, receipts);
    var end := RunSchedule(cfg, schedule).db;
    var c := RunSchedule(Config(db, OnlyConfirms(cfg.tasks)), schedule);
    var r := RunSchedule(Config(db, OnlyReverts(cfg.tasks)), schedule).db;
    SidesEnd(db, receipts, schedule);
    hide Ready, OneVerdictEach, AllOver, RunSchedule, SettledInvoice, SettledPayment, ResultRow, Settled;
    forall i: nat | i < |db.payments| { EndPayment(db, end, c, r, receipts, i); }
    forall k: nat | k < |db.invoices| { EndInvoice(db, end, c, r, receipts, k); }
    assert end.payments == Settlement(db, receipts).payments;
  }

  /** However the row-level steps of all the receipts interleave, the reverts nobody waits for among them, once all
      are over the tables are those of handling the receipts one after another. */
  lemma {:induction false} ReceiptsRaceSafely(db: Tables, receipts: seq<Receipt>, schedule: seq<nat>)
    requires Ready(db) && OneVerdictEach(receipts) && !Conflict(db, receipts)
    requires AllOver(RunSchedule(AllAtOnce(db, receipts), schedule))
    ensures RunSchedule(AllAtOnce(db, receipts), schedule).db == Process(db, receipts)
  {
    var end := RunSchedule(AllAtOnce(db, receipts), schedule).db;
    EveryRaceResult(db, receipts, schedule);
    ProcessIsSettlement(db, receipts);
    hide Ready, OneVerdictEach, AllOver, RunSchedule, AllAtOnce, SettledInvoice, ResultRow, Conflict;
    forall k: nat | k < |db.invoices|
      ensures end.invoices[k] == SettledInvoice(db, receipts, k)
    {
      NoConflictRow(db, receipts, end, k);
    }
    assert end.invoices == Settlement(db, receipts).invoices;
  }

  lemma {:induction false} NoConflictRow(db: Tables, receipts: seq<Receipt>, end: Tables, k: nat)
    requires !Conflict(db, receipts) && k < |db.invoices| == |end.invoices| && ResultRow(db, receipts, end, k)
    ensures end.invoices[k] == SettledInvoice(db, receipts, k)
  {
    BothConflict(db, receipts, k);
    hide SettledInvoice, SettledAsPaid, Unpaying, Conflict;
  }

  lemma {:induction false} BothConflict(db: Tables, receipts: seq<Receipt>, k: nat)
    ensures Unpaying(db, receipts, k) && SettledAsPaid(db, receipts, k) ==> Conflict(db, receipts)
  {
    if Unpaying(db, receipts, k) && SettledAsPaid(db, receipts, k) {
      var i: nat :| PaidByReceipt(db, receipts, k, i);
      assert Contested(db, receipts, k, i);
    }
  }
}
