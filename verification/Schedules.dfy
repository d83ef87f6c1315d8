/** Concurrent operations cut at their awaits. Each task reads or writes one row at a time, other tasks run
    in between, and what a task has read may be arbitrarily old when it acts on it. */
module Schedules {
  import opened Wrappers
  import opened Rows
  import opened Lifecycle
  import opened Runs

  /** Where a `confirmPayment` call stands. Its payment object is read before the call (`AtRead`). */
  datatype ConfirmPoint =
    | AtRead
    | AtCheck(snapshot: Payment)
    | AtReread
    | AtFindInvoice(uid: string)
    | AtPay(k: nat)
    | Finished(wrote: bool)
    | Stopped(wrote: bool)

  datatype RevertPoint =
    | AtFindHash
    | AtFindTxid(k: nat)
    | AtUnpay(k: nat, id: nat)
    | AtFail(id: nat)
    | RevertOver

  datatype CancelPoint =
    | AtReadInvoice
    | AtCancel(k: nat, snapshot: Invoice)
    | CancelOver

  datatype Task =
    | Confirming(id: nat, c: Confirmation, at: ConfirmPoint)
    | Reverting(txid: string, stage: RevertPoint)
    | Cancelling(uid: string, step: CancelPoint)

  datatype Config = Config(db: Tables, tasks: seq<Task>)

  function StepConfirm(db: Tables, id: nat, c: Confirmation, at: ConfirmPoint): (Tables, ConfirmPoint) {
    match at
    case AtRead => (db, if id < |db.payments| then AtCheck(db.payments[id]) else Stopped(false))
    case AtCheck(snapshot) =>
      if snapshot.HasHash() then (db, Finished(false))
      else if id >= |db.payments| then (db, Stopped(false))
      else (db.(payments := db.payments[id := MarkConfirmed(db.payments[id], c)]), AtReread)
    case AtReread => (db, if id < |db.payments| then AtFindInvoice(db.payments[id].invoiceUid) else Stopped(true))
    case AtFindInvoice(uid) =>
      var found := FindInvoice(db.invoices, uid);
      (db, if found.Some? then AtPay(found.value) else Stopped(true))
    case AtPay(k) =>
      if k < |db.invoices| then (db.(invoices := SetStatus(db.invoices, k, InvoicePaid)), Finished(true))
      else (db, Stopped(true))
    case _ => (db, at)
  }

  function StepRevert(db: Tables, txid: string, at: RevertPoint): (Tables, RevertPoint) {
    match at
    case AtFindHash =>
      var found := FindInvoiceByHash(db.invoices, txid);
      (db, if found.Some? then AtFindTxid(found.value) else RevertOver)
    case AtFindTxid(k) =>
      var found := FindPayment(db.payments, txid);
      (db, if found.Some? then AtUnpay(k, found.value) else RevertOver)
    case AtUnpay(k, id) =>
      if k < |db.invoices| then
        (db.(invoices := db.invoices[k := db.invoices[k].(status := InvoiceUnpaid, hash := None)]), AtFail(id))
      else (db, RevertOver)
    case AtFail(id) =>
      if id < |db.payments| then
        (db.(payments := db.payments[id := db.payments[id].(status := PaymentFailed)]), RevertOver)
      else (db, RevertOver)
    case RevertOver => (db, at)
  }

  function StepCancel(db: Tables, uid: string, at: CancelPoint): (Tables, CancelPoint) {
    match at
    case AtReadInvoice =>
      var found := FindInvoice(db.invoices, uid);
      (db, if found.Some? then AtCancel(found.value, db.invoices[found.value]) else CancelOver)
    case AtCancel(k, snapshot) => (Cancel(db, k, snapshot).tables, CancelOver)
    case CancelOver => (db, at)
  }

  function StepTask(db: Tables, task: Task): (Tables, Task) {
    match task
    case Confirming(id, c, at) => var (db', at') := StepConfirm(db, id, c, at); (db', Confirming(id, c, at'))
    case Reverting(txid, at) => var (db', at') := StepRevert(db, txid, at); (db', Reverting(txid, at'))
    case Cancelling(uid, at) => var (db', at') := StepCancel(db, uid, at); (db', Cancelling(uid, at'))
  }

  function Step(cfg: Config, j: nat): Config {
    if j < |cfg.tasks| then
      var (db', task') := StepTask(cfg.db, cfg.tasks[j]);
      Config(db', cfg.tasks[j := task'])
    else cfg
  }

  /** Runs the tasks in the order the schedule names them. */
  function RunSchedule(cfg: Config, schedule: seq<nat>): Config
    decreases |schedule|
  {
    if schedule == [] then cfg else RunSchedule(Step(cfg, schedule[0]), schedule[1..])
  }

  // ---------------------------------------------------------------- safety of every schedule

  ghost predicate TriplesWhole(payments: seq<Payment>) {
    forall i :: 0 <= i < |payments| ==>
      && (payments[i].status.PaymentConfirmed? ==> payments[i].FullTriple())
      && (payments[i].hash.Some? ==> payments[i].FullTriple())
  }

  /** No row disappears, and no confirmation column goes back to null. */
  ghost predicate Evolves(before: seq<Payment>, after: seq<Payment>) {
    && |before| == |after|
    && forall i :: 0 <= i < |before| ==>
         && before[i].SameIdentity(after[i])
         && (before[i].hash.Some? ==> after[i].hash.Some?)
  }

  lemma {:induction false} StepIsSafe(cfg: Config, j: nat)
    requires TriplesWhole(cfg.db.payments)
    ensures TriplesWhole(Step(cfg, j).db.payments) && Evolves(cfg.db.payments, Step(cfg, j).db.payments)
  {
  }

  /** Whatever confirms, reverts and cancels are in flight and however stale their reads: at every moment a
      confirmed payment has its whole triple, and a confirmation hash never returns to null. */
  lemma {:induction false} EveryScheduleIsSafe(cfg: Config, schedule: seq<nat>)
    requires TriplesWhole(cfg.db.payments)
    ensures TriplesWhole(RunSchedule(cfg, schedule).db.payments)
    ensures var before, after := cfg.db.payments, RunSchedule(cfg, schedule).db.payments;
            && |after| == |before|
            && forall i :: 0 <= i < |before| ==>
                 var p, q := before[i], after[i];
                 && q.ref == p.ref && q.invoiceUid == p.invoiceUid && q.createdAt == p.createdAt
                 && (p.hash.Some? ==> q.hash.Some?)
                 && (q.hash.Some? || q.status == PaymentConfirmed ==> q.hash.Some? && q.height.Some? && q.date.Some?)
    decreases |schedule|
  {
    if schedule != [] {
      StepIsSafe(cfg, schedule[0]);
      EveryScheduleIsSafe(Step(cfg, schedule[0]), schedule[1..]);
    }
  }

  // ---------------------------------------------------------------- schedule independence

  ghost predicate Over(task: Task) {
    match task
    case Confirming(_, _, at) => at.Finished? || at.Stopped?
    case Reverting(_, at) => at.RevertOver?
    case Cancelling(_, at) => at.CancelOver?
  }

  ghost predicate AllOver(cfg: Config) {
    forall j :: 0 <= j < |cfg.tasks| ==> Over(cfg.tasks[j])
  }

  /** A `confirmPayment` call about to start, with the confirmation the chain gives its payment. */
  ghost predicate Call(db: Tables, task: Task, conf: TxRef -> Confirmation) {
    && task.Confirming? && task.at.AtRead?
    && (task.id < |db.payments| ==> task.c == conf(db.payments[task.id].ref))
  }

  ghost predicate ConfirmCalls(cfg: Config, conf: TxRef -> Confirmation) {
    forall j :: 0 <= j < |cfg.tasks| ==> Call(cfg.db, cfg.tasks[j], conf)
  }

  /** A finished task of another kind, which takes part no more. */
  predicate Idle(task: Task) {
    match task
    case Confirming(_, _, _) => false
    case Reverting(_, at) => at.RevertOver?
    case Cancelling(_, at) => at.CancelOver?
  }

  /** Confirm calls about to start, among tasks that are over. */
  ghost predicate CallsOrIdle(cfg: Config, conf: TxRef -> Confirmation) {
    forall j :: 0 <= j < |cfg.tasks| ==> Call(cfg.db, cfg.tasks[j], conf) || Idle(cfg.tasks[j])
  }

  ghost function Targets(tasks: seq<Task>): set<nat> {
    set j | 0 <= j < |tasks| && tasks[j].Confirming? :: tasks[j].id
  }

  /** The task has written its payment row. */
  ghost predicate HasWritten(task: Task) {
    task.Confirming? &&
    match task.at
    case AtReread => true
    case AtFindInvoice(_) => true
    case AtPay(_) => true
    case Finished(wrote) => wrote
    case Stopped(wrote) => wrote
    case _ => false
  }

  ghost predicate Touched(tasks: seq<Task>, i: nat) {
    exists j :: 0 <= j < |tasks| && HasWritten(tasks[j]) && tasks[j].id == i
  }

  ghost predicate Settled(db: Tables, tasks: seq<Task>, k: nat) {
    exists j :: 0 <= j < |tasks| && HasPaid(db, tasks[j], k)
  }

  ghost predicate HasPaid(db: Tables, task: Task, k: nat) {
    && task.Confirming? && task.at == Finished(true) && task.id < |db.payments|
    && FindInvoice(db.invoices, db.payments[task.id].invoiceUid) == Some(k)
  }

  /** A task that has written its row found it without a hash. */
  ghost predicate WroteRightly(start: Tables, id: nat) {
    id < |start.payments| && !start.payments[id].HasHash()
  }

  /** What one task knows, in terms of the tables all the calls started from. */
  ghost predicate TaskOk(start: Tables, tasks: seq<Task>, task: Task, conf: TxRef -> Confirmation) {
    if !task.Confirming? then Idle(task)
    else
      && (task.id < |start.payments| ==> task.c == conf(start.payments[task.id].ref))
      && PointOk(start, tasks, task.id, task.at)
  }

  ghost predicate PointOk(start: Tables, tasks: seq<Task>, id: nat, at: ConfirmPoint) {
    match at
    case AtRead => true
    case AtCheck(s) =>
      && id < |start.payments|
      && (if s.HasHash() then start.payments[id].HasHash() || Touched(tasks, id) else !start.payments[id].HasHash())
    case AtReread => WroteRightly(start, id)
    case AtFindInvoice(uid) => WroteRightly(start, id) && uid == start.payments[id].invoiceUid
    case AtPay(k) => WroteRightly(start, id) && FindInvoice(start.invoices, start.payments[id].invoiceUid) == Some(k)
    case Finished(wrote) =>
      if wrote then WroteRightly(start, id) && FindInvoice(start.invoices, start.payments[id].invoiceUid).Some?
      else id < |start.payments| && (start.payments[id].HasHash() || Touched(tasks, id))
    case Stopped(wrote) =>
      if wrote then WroteRightly(start, id) && FindInvoice(start.invoices, start.payments[id].invoiceUid).None?
      else id >= |start.payments|
  }

  /** The tables at any moment, from the starting ones and which writes have happened. */
  ghost predicate Midway(start: Tables, cfg: Config, conf: TxRef -> Confirmation) {
    && |cfg.db.payments| == |start.payments| && |cfg.db.invoices| == |start.invoices|
    && (forall i :: 0 <= i < |start.payments| ==>
          cfg.db.payments[i] ==
          if Touched(cfg.tasks, i) then MarkConfirmed(start.payments[i], conf(start.payments[i].ref))
              else start.payments[i])
    && (forall k :: 0 <= k < |start.invoices| ==>
          cfg.db.invoices[k] ==
          if Settled(start, cfg.tasks, k) then start.invoices[k].(status := InvoicePaid) else start.invoices[k])
    && (forall j :: 0 <= j < |cfg.tasks| ==> TaskOk(start, cfg.tasks, cfg.tasks[j], conf))
  }

  /** A step of task j changes which rows are touched, and which invoices are settled, only through j. */
  lemma {:induction false} StepMarks(start: Tables, cfg: Config, conf: TxRef -> Confirmation, j: nat)
    requires Midway(start, cfg, conf) && j < |cfg.tasks|
    ensures var cfg' := Step(cfg, j);
            && (forall i: nat :: Touched(cfg'.tasks, i) <==>
                  Touched(cfg.tasks, i) || (HasWritten(cfg'.tasks[j]) && cfg.tasks[j].id == i))
            && (forall k: nat :: Settled(start, cfg'.tasks, k) <==>
                  Settled(start, cfg.tasks, k) || HasPaid(start, cfg'.tasks[j], k))
  {
    var cfg' := Step(cfg, j);
    var task, task' := cfg.tasks[j], cfg'.tasks[j];
    assert TaskOk(start, cfg.tasks, task, conf);
    assert HasWritten(task) ==> HasWritten(task');
    assert forall k: nat :: HasPaid(start, task, k) ==> HasPaid(start, task', k);
    forall i: nat
      ensures Touched(cfg'.tasks, i) <==> Touched(cfg.tasks, i) || (HasWritten(task') && task.id == i)
    {
      if Touched(cfg.tasks, i) {
        var w :| 0 <= w < |cfg.tasks| && HasWritten(cfg.tasks[w]) && cfg.tasks[w].id == i;
        assert HasWritten(cfg'.tasks[w]) && cfg'.tasks[w].id == i;
      }
      if HasWritten(task') && task.id == i {
        assert cfg'.tasks[j].id == i;
      }
    }
    forall k: nat
      ensures Settled(start, cfg'.tasks, k) <==> Settled(start, cfg.tasks, k) || HasPaid(start, task', k)
    {
      if Settled(start, cfg.tasks, k) {
        var w :| 0 <= w < |cfg.tasks| && HasPaid(start, cfg.tasks[w], k);
        assert HasPaid(start, cfg'.tasks[w], k);
      }
    }
  }

  /** Being touched only helps what the other tasks know. */
  lemma {:induction false} PointOkGrows(start: Tables, tasks: seq<Task>, tasks': seq<Task>, id: nat, at: ConfirmPoint)
    requires PointOk(start, tasks, id, at) && (Touched(tasks, id) ==> Touched(tasks', id))
    ensures PointOk(start, tasks', id, at)
  {
  }

  lemma {:induction false} StepKeepsMidway(start: Tables, cfg: Config, conf: TxRef -> Confirmation, j: nat)
    requires Midway(start, cfg, conf)
    ensures Midway(start, Step(cfg, j), conf)
  {
    if j < |cfg.tasks| {
      var cfg' := Step(cfg, j);
      StepMarks(start, cfg, conf, j);
      StepOwnPoint(start, cfg, conf, j);
      forall t | 0 <= t < |cfg.tasks| && t != j
        ensures TaskOk(start, cfg'.tasks, cfg'.tasks[t], conf)
      {
        assert TaskOk(start, cfg.tasks, cfg.tasks[t], conf);
        if cfg.tasks[t].Confirming? {
          PointOkGrows(start, cfg.tasks, cfg'.tasks, cfg.tasks[t].id, cfg.tasks[t].at);
        }
      }
    }
  }

  /** The stepping task's own next point, and the row it writes if it writes one. */
  lemma {:induction false} StepOwnPoint(start: Tables, cfg: Config, conf: TxRef -> Confirmation, j: nat)
    requires Midway(start, cfg, conf) && j < |cfg.tasks|
    ensures var cfg' := Step(cfg, j);
            && TaskOk(start, cfg'.tasks, cfg'.tasks[j], conf)
            && |cfg'.db.payments| == |start.payments| && |cfg'.db.invoices| == |start.invoices|
            && (forall i :: 0 <= i < |start.payments| ==>
                  cfg'.db.payments[i] ==
                  if Touched(cfg'.tasks, i) then MarkConfirmed(start.payments[i], conf(start.payments[i].ref))
                  else start.payments[i])
            && (forall k :: 0 <= k < |start.invoices| ==>
                  cfg'.db.invoices[k] ==
                  if Settled(start, cfg'.tasks, k) then start.invoices[k].(status := InvoicePaid)
                      else start.invoices[k])
  {
    var cfg' := Step(cfg, j);
    var task, task' := cfg.tasks[j], cfg'.tasks[j];
    assert TaskOk(start, cfg.tasks, task, conf);
    StepMarks(start, cfg, conf, j);
    if task.Confirming? && task.at.AtFindInvoice? {
      FindInvoiceStable(start.invoices, cfg.db.invoices, task.at.uid);
    }
  }

  ghost predicate SameCalls(tasks: seq<Task>, tasks': seq<Task>) {
    && |tasks| == |tasks'|
    && forall j :: 0 <= j < |tasks| ==>
         && tasks'[j].Confirming? == tasks[j].Confirming?
         && (tasks[j].Confirming? ==> tasks'[j].id == tasks[j].id && tasks'[j].c == tasks[j].c)
  }

  lemma {:induction false} RunKeepsMidway(start: Tables, cfg: Config, conf: TxRef -> Confirmation, schedule: seq<nat>)
    requires Midway(start, cfg, conf)
    ensures Midway(start, RunSchedule(cfg, schedule), conf)
    ensures SameCalls(cfg.tasks, RunSchedule(cfg, schedule).tasks)
    decreases |schedule|
  {
    if schedule != [] {
      StepKeepsMidway(start, cfg, conf, schedule[0]);
      RunKeepsMidway(start, Step(cfg, schedule[0]), conf, schedule[1..]);
    }
  }

  lemma {:induction false} StartIsMidway(cfg: Config, conf: TxRef -> Confirmation)
    requires CallsOrIdle(cfg, conf)
    ensures Midway(cfg.db, cfg, conf)
  {
  }

  ghost predicate TasksOk(start: Tables, tasks: seq<Task>, conf: TxRef -> Confirmation) {
    forall j :: 0 <= j < |tasks| ==> TaskOk(start, tasks, tasks[j], conf) && Over(tasks[j])
  }

  lemma {:induction false} TouchedWhenOver(start: Tables, tasks: seq<Task>, conf: TxRef -> Confirmation, i: nat)
    requires TasksOk(start, tasks, conf) && i < |start.payments|
    ensures Touched(tasks, i) <==> i in Targets(tasks) && !start.payments[i].HasHash()
  {
  }

  lemma {:induction false} SettledWhenOver(start: Tables, tasks: seq<Task>, conf: TxRef -> Confirmation, k: nat)
    requires TasksOk(start, tasks, conf) && k < |start.invoices|
    ensures Settled(start, tasks, k) <==> PaidBy(start, Targets(tasks), k)
  {
    if Settled(start, tasks, k) {
      var j :| 0 <= j < |tasks| && HasPaid(start, tasks[j], k);
      assert TaskOk(start, tasks, tasks[j], conf);
      assert tasks[j].id in Targets(tasks) && Pays(start, tasks[j].id, k);
    }
    if PaidBy(start, Targets(tasks), k) {
      var i :| i in Targets(tasks) && Pays(start, i, k);
      TouchedWhenOver(start, tasks, conf, i);
      var j :| 0 <= j < |tasks| && HasWritten(tasks[j]) && tasks[j].id == i;
      assert TaskOk(start, tasks, tasks[j], conf);
      assert HasPaid(start, tasks[j], k);
    }
  }

  /** When every call is over, the rows written are those of the targets that had no hash, and every such
      write has been followed by the write to its invoice. */
  lemma {:induction false} MidwayWhenOver(start: Tables, cfg: Config, conf: TxRef -> Confirmation)
    requires Midway(start, cfg, conf) && AllOver(cfg)
    ensures cfg.db == ConfirmAll(start, Targets(cfg.tasks), conf)
  {
    var expected := ConfirmAll(start, Targets(cfg.tasks), conf);
    forall i: nat | i < |start.payments|
      ensures cfg.db.payments[i] == expected.payments[i]
    {
      TouchedWhenOver(start, cfg.tasks, conf, i);
    }
    forall k: nat | k < |start.invoices|
      ensures cfg.db.invoices[k] == expected.invoices[k]
    {
      SettledWhenOver(start, cfg.tasks, conf, k);
    }
    assert cfg.db.payments == expected.payments;
    assert cfg.db.invoices == expected.invoices;
  }

  lemma {:induction false} SameTargets(tasks: seq<Task>, tasks': seq<Task>)
    requires SameCalls(tasks, tasks')
    ensures Targets(tasks) == Targets(tasks')
  {
    forall j | 0 <= j < |tasks| && tasks[j].Confirming?
      ensures tasks[j].id in Targets(tasks') && tasks'[j].id in Targets(tasks)
    {
      assert tasks'[j].Confirming? && tasks'[j].id == tasks[j].id;
    }
  }

  /** Every interleaving of any number of `confirmPayment` calls that runs to completion leaves the same tables. */
  lemma {:induction false} ScheduleIndependence(cfg: Config, conf: TxRef -> Confirmation, schedule: seq<nat>)
    requires CallsOrIdle(cfg, conf) && AllOver(RunSchedule(cfg, schedule))
    ensures RunSchedule(cfg, schedule).db == ConfirmAll(cfg.db, Targets(cfg.tasks), conf)
  {
    var end := RunSchedule(cfg, schedule);
    StartIsMidway(cfg, conf);
    RunKeepsMidway(cfg.db, cfg, conf, schedule);
    MidwayWhenOver(cfg.db, end, conf);
    SameTargets(cfg.tasks, end.tasks);
  }

  // ---------------------------------------------------------------- the same as one call after another

  /** The calls made strictly one after another, each reading its payment just before it runs. */
  function ConfirmInTurn(db: Tables, calls: seq<Task>): Tables
    requires forall j :: 0 <= j < |calls| ==> calls[j].Confirming?
  {
    if calls == [] then db
    else
      var last := calls[|calls| - 1];
      ConfirmById(ConfirmInTurn(db, calls[..|calls| - 1]), last.id, last.c).tables
  }

  lemma {:induction false} InTurnIsConfirmAll(db: Tables, calls: seq<Task>, conf: TxRef -> Confirmation)
    requires ConfirmCalls(Config(db, calls), conf)
    ensures ConfirmInTurn(db, calls) == ConfirmAll(db, Targets(calls), conf)
    decreases |calls|
  {
    if calls == [] {
      assert ConfirmAll(db, {}, conf) == db;
    } else {
      var init, last := calls[..|calls| - 1], calls[|calls| - 1];
      InTurnIsConfirmAll(db, init, conf);
      TargetsSnoc(init, last);
      assert calls == init + [last];
      if last.id < |db.payments| {
        ConfirmAllStep(db, Targets(init), conf, last.id);
      } else {
        ConfirmAllOutOfRange(db, Targets(init), conf, last.id);
      }
    }
  }

  lemma {:induction false} TargetsSnoc(tasks: seq<Task>, task: Task)
    requires task.Confirming?
    ensures Targets(tasks + [task]) == Targets(tasks) + {task.id}
  {
    var all := tasks + [task];
    assert all[|tasks|] == task;
    assert forall j :: 0 <= j < |tasks| ==> all[j] == tasks[j];
    forall id | id in Targets(tasks)
      ensures id in Targets(all)
    {
      var j :| 0 <= j < |tasks| && tasks[j].Confirming? && tasks[j].id == id;
      assert all[j].Confirming? && all[j].id == id;
    }
  }

  lemma {:induction false} ConfirmAllOutOfRange(db: Tables, ids: set<nat>, conf: TxRef -> Confirmation, id: nat)
    requires id >= |db.payments|
    ensures ConfirmAll(db, ids + {id}, conf) == ConfirmAll(db, ids, conf)
  {
  }

  /** Concurrency adds nothing: the calls are serialisable, in any order. */
  lemma {:induction false} Serialisable(cfg: Config, conf: TxRef -> Confirmation, schedule: seq<nat>)
    requires ConfirmCalls(cfg, conf) && AllOver(RunSchedule(cfg, schedule))
    ensures RunSchedule(cfg, schedule).db == ConfirmInTurn(cfg.db, cfg.tasks)
  {
    ScheduleIndependence(cfg, conf, schedule);
    InTurnIsConfirmAll(cfg.db, cfg.tasks, conf);
  }

  // ---------------------------------------------------------------- schedules do complete

  /** A bound on the steps a task still takes. */
  function Left(task: Task): nat {
    match task
    case Confirming(_, _, at) =>
      (match at
       case AtRead => 5
       case AtCheck(_) => 4
       case AtReread => 3
       case AtFindInvoice(_) => 2
       case AtPay(_) => 1
       case _ => 0)
    case Reverting(_, at) =>
      (match at
       case AtFindHash => 4
       case AtFindTxid(_) => 3
       case AtUnpay(_, _) => 2
       case AtFail(_) => 1
       case RevertOver => 0)
    case Cancelling(_, at) =>
      (match at
       case AtReadInvoice => 2
       case AtCancel(_, _) => 1
       case CancelOver => 0)
  }

  function Turns(schedule: seq<nat>, j: nat): nat {
    if schedule == [] then 0 else (if schedule[0] == j then 1 else 0) + Turns(schedule[1..], j)
  }

  lemma {:induction false} TasksStay(cfg: Config, schedule: seq<nat>)
    ensures |RunSchedule(cfg, schedule).tasks| == |cfg.tasks|
    decreases |schedule|
  {
    if schedule != [] {
      TasksStay(Step(cfg, schedule[0]), schedule[1..]);
    }
  }

  lemma {:induction false} EachTurnHelps(cfg: Config, schedule: seq<nat>, j: nat)
    requires j < |cfg.tasks| == |RunSchedule(cfg, schedule).tasks|
    ensures var left := Left(RunSchedule(cfg, schedule).tasks[j]);
            left == 0 || left + Turns(schedule, j) <= Left(cfg.tasks[j])
    decreases |schedule|
  {
    if schedule != [] {
      EachTurnHelps(Step(cfg, schedule[0]), schedule[1..], j);
    }
  }

  /** No task ever waits for another: five turns each are enough, in whatever order. */
  lemma {:induction false} FiveTurnsEachComplete(cfg: Config, schedule: seq<nat>)
    requires forall j: nat :: j < |cfg.tasks| ==> Turns(schedule, j) >= 5
    ensures AllOver(RunSchedule(cfg, schedule))
  {
    TasksStay(cfg, schedule);
    forall j: nat | j < |cfg.tasks|
      ensures Over(RunSchedule(cfg, schedule).tasks[j])
    {
      EachTurnHelps(cfg, schedule, j);
    }
  }

  // ---------------------------------------------------------------- stale cancels

  /** A cancel acts on the invoice it read. Against sound tables its write keeps them sound exactly when the
      invoice, by then, still has no hash. */
  lemma {:induction false} StaleCancelExactly(db: Tables, k: nat, snapshot: Invoice)
    requires Sound(db) && k < |db.invoices| && snapshot.status.InvoiceUnpaid?
    ensures Sound(StepCancel(db, snapshot.uid, AtCancel(k, snapshot)).0) <==> db.invoices[k].hash.None?
  {
    var db' := StepCancel(db, snapshot.uid, AtCancel(k, snapshot)).0;
    if db.invoices[k].hash.None? {
      RowsStaySound(db, db');
      assert InvoiceRowOk(db.payments, db.invoices[k]);
    } else {
      assert !InvoiceRowOk(db'.payments, db'.invoices[k]);
    }
  }

  /** Run one after the other, in either order, a confirm and a cancel leave the invoice paid. */
  lemma {:induction false} CancelInTurnLeavesPaid(db: Tables, i: nat, k: nat, c: Confirmation)
    requires Pays(db, i, k) && db.invoices[k].status.InvoiceUnpaid?
    ensures Apply(Apply(db, Cancels(k)), ConfirmsRow(i, c)).invoices[k].status.InvoicePaid?
    ensures Apply(Apply(db, ConfirmsRow(i, c)), Cancels(k)).invoices[k].status.InvoicePaid?
  {
  }

  /** Cancel reads an unpaid invoice, the pending payment is confirmed, cancel writes: the invoice ends
      cancelled although its payment is confirmed. Neither order of the two whole operations ends that way. */
  lemma {:induction false} CancelCanOverwritePaid(uid: string, ref: TxRef, c: Confirmation)
    ensures var db := Tables([NewPayment(ref, uid, 0)], [NewInvoice(uid)]);
            var cfg := Config(db, [Cancelling(uid, AtReadInvoice), Confirming(0, c, AtRead)]);
            var end := RunSchedule(cfg, [0, 1, 1, 1, 1, 1, 0]);
            && AllOver(end)
            && end.db.payments == [MarkConfirmed(NewPayment(ref, uid, 0), c)]
            && end.db.invoices == [NewInvoice(uid).(status := InvoiceCancelled, cancelled := true)]
  {
  }

  // ---------------------------------------------------------------- abandoned confirmations

  /** If a `confirmPayment` call dies between its two writes, the payment has its hash and the invoice is not
      paid. From then on every call for that payment returns early: no later schedule of `confirmPayment`
      calls, all for payments with a hash, changes anything. */
  lemma {:induction false} AbandonedConfirmationStays(cfg: Config, schedule: seq<nat>)
    requires forall j :: 0 <= j < |cfg.tasks| ==> Waiting(cfg.db, cfg.tasks[j])
    ensures RunSchedule(cfg, schedule).db == cfg.db
    decreases |schedule|
  {
    if schedule != [] {
      AbandonedConfirmationStays(Step(cfg, schedule[0]), schedule[1..]);
    }
  }

  /** A call for a payment that already has its hash, at any point such a call can reach. */
  ghost predicate Waiting(db: Tables, task: Task) {
    && task.Confirming? && task.id < |db.payments| && db.payments[task.id].HasHash()
    && (task.at.AtRead? || (task.at.AtCheck? && task.at.snapshot.HasHash()) || task.at == Finished(false))
  }
}
