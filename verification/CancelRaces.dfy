/** One `cancelInvoice` call among any number of concurrent `confirmPayment` calls: when it ends as if the calls
    had been made one after another, and when it overwrites a paid invoice. */
module CancelRaces {
  import opened Wrappers
  import opened Rows
  import opened Lifecycle
  import opened Schedules

  /** Task x is a cancel about to read; all the others are confirm calls about to start. */
  ghost predicate OneCancel(cfg: Config, x: nat, uid: string, conf: TxRef -> Confirmation) {
    && x < |cfg.tasks| && cfg.tasks[x] == Cancelling(uid, AtReadInvoice)
    && forall j :: 0 <= j < |cfg.tasks| && j != x ==> Call(cfg.db, cfg.tasks[j], conf)
  }

  ghost predicate OthersConfirm(cfg: Config, x: nat) {
    x < |cfg.tasks| && forall j :: 0 <= j < |cfg.tasks| && j != x ==> cfg.tasks[j].Confirming?
  }

  // ---------------------------------------------------------------- the serial outcomes

  function CancelNow(db: Tables, uid: string): Tables {
    match FindInvoice(db.invoices, uid)
    case None => db
    case Some(k) => Cancel(db, k, db.invoices[k]).tables
  }

  /** The payments in `first` confirmed, then the invoice cancelled, then the payments in `second` confirmed. */
  ghost function AroundCancel(db: Tables, first: set<nat>, uid: string, second: set<nat>,
          conf: TxRef -> Confirmation): Tables {
    ConfirmAll(CancelNow(ConfirmAll(db, first, conf), uid), second, conf)
  }

  /** What whole calls made one after another can leave, in some order. */
  ghost predicate Serial(db: Tables, ids: set<nat>, uid: string, conf: TxRef -> Confirmation, result: Tables) {
    exists first, second :: first + second == ids && result == AroundCancel(db, first, uid, second, conf)
  }

  /** That is what making the calls in turn does. */
  lemma {:induction false} InTurnAroundCancel(db: Tables, first: seq<Task>, uid: string, second: seq<Task>,
          conf: TxRef -> Confirmation)
    requires ConfirmCalls(Config(db, first), conf) && ConfirmCalls(Config(db, second), conf)
    ensures ConfirmInTurn(CancelNow(ConfirmInTurn(db, first), uid), second) ==
            AroundCancel(db, Targets(first), uid, Targets(second), conf)
  {
    var mid := CancelNow(ConfirmAll(db, Targets(first), conf), uid);
    InTurnIsConfirmAll(db, first, conf);
    assert forall i :: 0 <= i < |db.payments| ==> mid.payments[i].ref == db.payments[i].ref;
    assert forall j :: 0 <= j < |second| ==> Call(db, second[j], conf);
    InTurnIsConfirmAll(mid, second, conf);
  }

  // ---------------------------------------------------------------- with and without the cancel

  ghost predicate Alike(a: Invoice, b: Invoice) {
    a.uid == b.uid && a.hash == b.hash && a.complete == b.complete
  }

  /** Tables that differ in nothing but the status and cancelled columns of invoice k. */
  ghost predicate DifferAt(a: Tables, b: Tables, k: nat) {
    && a.payments == b.payments && |a.invoices| == |b.invoices| && k < |a.invoices|
    && Alike(a.invoices[k], b.invoices[k])
    && forall m :: 0 <= m < |a.invoices| && m != k ==> a.invoices[m] == b.invoices[m]
  }

  /** Where the cancel stands, if invoice k is its own. */
  ghost predicate CancelsAt(db: Tables, task: Task, k: nat) {
    task.Cancelling? &&
    match task.step
    case AtReadInvoice => FindInvoice(db.invoices, task.uid) == Some(k)
    case AtCancel(m, _) => m == k
    case CancelOver => true
  }

  /** The same moment of the same schedule with the cancel and without it. */
  ghost predicate Shadows(cfg: Config, plain: Config, x: nat, k: nat) {
    && OthersConfirm(cfg, x) && CancelsAt(cfg.db, cfg.tasks[x], k) && DifferAt(cfg.db, plain.db, k)
    && plain.tasks == cfg.tasks[x := Cancelling("", CancelOver)]
  }

  lemma {:induction false} ConfirmStepsAlike(a: Tables, b: Tables, k: nat, id: nat, c: Confirmation, at: ConfirmPoint)
    requires DifferAt(a, b, k)
    ensures StepConfirm(a, id, c, at).1 == StepConfirm(b, id, c, at).1
    ensures DifferAt(StepConfirm(a, id, c, at).0, StepConfirm(b, id, c, at).0, k)
    ensures InvoicesExtend(a.invoices, StepConfirm(a, id, c, at).0.invoices)
    ensures |a.invoices| == |StepConfirm(a, id, c, at).0.invoices|
  {
    if at.AtFindInvoice? {
      FindInvoiceStable(a.invoices, b.invoices, at.uid);
    }
  }

  lemma {:induction false} CancelStepsAlike(a: Tables, b: Tables, k: nat, task: Task)
    requires DifferAt(a, b, k) && CancelsAt(a, task, k)
    ensures DifferAt(StepTask(a, task).0, b, k) && CancelsAt(StepTask(a, task).0, StepTask(a, task).1, k)
  {
  }

  lemma {:induction false} StepShadows(cfg: Config, plain: Config, x: nat, k: nat, j: nat)
    requires Shadows(cfg, plain, x, k)
    ensures Shadows(Step(cfg, j), Step(plain, j), x, k)
  {
    hide DifferAt, StepConfirm, StepCancel;
    if j == x {
      CancelStepsAlike(cfg.db, plain.db, k, cfg.tasks[x]);
      IdleStays(plain.db, plain.tasks[x]);
      assert Step(plain, j).tasks == Step(cfg, j).tasks[x := Cancelling("", CancelOver)];
    } else if j < |cfg.tasks| {
      var task := cfg.tasks[j];
      ConfirmStepsAlike(cfg.db, plain.db, k, task.id, task.c, task.at);
      FindInvoiceStable(cfg.db.invoices, Step(cfg, j).db.invoices, cfg.tasks[x].uid);
      assert Step(plain, j).tasks == Step(cfg, j).tasks[x := Cancelling("", CancelOver)];
    }
  }

  lemma {:induction false} IdleStays(db: Tables, task: Task)
    requires Idle(task)
    ensures StepTask(db, task) == (db, task)
  {
  }

  lemma {:induction false} RunShadows(cfg: Config, plain: Config, x: nat, k: nat, schedule: seq<nat>)
    requires Shadows(cfg, plain, x, k)
    ensures Shadows(RunSchedule(cfg, schedule), RunSchedule(plain, schedule), x, k)
    decreases |schedule|
  {
    if schedule != [] {
      StepShadows(cfg, plain, x, k, schedule[0]);
      RunShadows(Step(cfg, schedule[0]), Step(plain, schedule[0]), x, k, schedule[1..]);
    }
  }

  // ---------------------------------------------------------------- the invoice's own row

  /** Task j is about to mark invoice k paid. */
  predicate PaysNext(cfg: Config, j: nat, k: nat) {
    j < |cfg.tasks| && cfg.tasks[j].Confirming? && cfg.tasks[j].at == AtPay(k)
  }

  /** Somewhere in the schedule a confirm call marks invoice k paid. */
  predicate PaidDuring(cfg: Config, schedule: seq<nat>, k: nat)
    decreases |schedule|
  {
    schedule != [] && (PaysNext(cfg, schedule[0], k) || PaidDuring(Step(cfg, schedule[0]), schedule[1..], k))
  }

  /** While the cancel takes no turn, or is over, its invoice changes only by being paid. */
  lemma {:induction false} RowWhileConfirming(cfg: Config, x: nat, schedule: seq<nat>, k: nat)
    requires OthersConfirm(cfg, x) && k < |cfg.db.invoices| && (x !in schedule || Idle(cfg.tasks[x]))
    ensures var end := RunSchedule(cfg, schedule);
            && OthersConfirm(end, x) && end.tasks[x] == cfg.tasks[x] && k < |end.db.invoices|
            && end.db.invoices[k] ==
               if PaidDuring(cfg, schedule, k) then cfg.db.invoices[k].(status := InvoicePaid) else cfg.db.invoices[k]
    decreases |schedule|
  {
    if schedule != [] {
      assert schedule[0] in schedule;
      assert forall j :: j in schedule[1..] ==> j in schedule;
      var next := Step(cfg, schedule[0]);
      assert next.tasks[x] == cfg.tasks[x];
      RowWhileConfirming(next, x, schedule[1..], k);
    }
  }

  lemma {:induction false} PaidDuringConcat(cfg: Config, first: seq<nat>, second: seq<nat>, k: nat)
    ensures RunSchedule(cfg, first + second) == RunSchedule(RunSchedule(cfg, first), second)
    ensures PaidDuring(cfg, first + second, k) <==>
            PaidDuring(cfg, first, k) || PaidDuring(RunSchedule(cfg, first), second, k)
    decreases |first|
  {
    if first == [] {
      assert first + second == second;
    } else {
      assert (first + second)[1..] == first[1..] + second;
      PaidDuringConcat(Step(cfg, first[0]), first[1..], second, k);
    }
  }

  /** The confirm calls do the same with and without the cancel. */
  lemma {:induction false} SamePayments(cfg: Config, plain: Config, x: nat, k: nat, schedule: seq<nat>)
    requires Shadows(cfg, plain, x, k)
    ensures PaidDuring(cfg, schedule, k) <==> PaidDuring(plain, schedule, k)
    decreases |schedule|
  {
    if schedule != [] {
      StepShadows(cfg, plain, x, k, schedule[0]);
      SamePayments(Step(cfg, schedule[0]), Step(plain, schedule[0]), x, k, schedule[1..]);
    }
  }

  // ---------------------------------------------------------------- the serial outcomes, row by row

  lemma {:induction false} ConfirmAllRow(db: Tables, ids: set<nat>, conf: TxRef -> Confirmation, k: nat)
    requires k < |db.invoices|
    ensures var after := ConfirmAll(db, ids, conf);
            && |after.invoices| == |db.invoices|
            && after.invoices[k] == if PaidBy(db, ids, k) then db.invoices[k].(status := InvoicePaid)
                else db.invoices[k]
  {
  }

  /** After whole calls, in any order, an invoice that some call pays is paid. */
  lemma {:induction false} SerialPays(db: Tables, first: set<nat>, uid: string, second: set<nat>, k: nat,
          conf: TxRef -> Confirmation)
    requires k < |db.invoices| && FindInvoice(db.invoices, uid) == Some(k) && PaidBy(db, first + second, k)
    ensures AroundCancel(db, first, uid, second, conf).invoices[k].status.InvoicePaid?
  {
    var one := ConfirmAll(db, first, conf);
    FindInvoiceStable(db.invoices, one.invoices, uid);
    var mid := CancelNow(one, uid);
    ConfirmAllRow(db, first, conf, k);
    ConfirmAllRow(mid, second, conf, k);
    if !PaidBy(db, first, k) {
      var i :| i in first + second && Pays(db, i, k);
      assert i in second && i !in first;
      FindInvoiceStable(db.invoices, mid.invoices, db.payments[i].invoiceUid);
      assert Pays(mid, i, k);
    }
  }

  /** The cancel after every call, when it has nothing to cancel. */
  lemma {:induction false} CancelLast(db: Tables, ids: set<nat>, uid: string, k: nat, conf: TxRef -> Confirmation)
    requires k < |db.invoices| && FindInvoice(db.invoices, uid) == Some(k)
    requires !ConfirmAll(db, ids, conf).invoices[k].status.InvoiceUnpaid?
    ensures AroundCancel(db, ids, uid, {}, conf) == ConfirmAll(db, ids, conf)
  {
    var after := ConfirmAll(db, ids, conf);
    FindInvoiceStable(db.invoices, after.invoices, uid);
    ConfirmNothing(after, conf);
  }

  /** The cancel before every call. */
  lemma {:induction false} CancelFirst(db: Tables, ids: set<nat>, uid: string, k: nat, conf: TxRef -> Confirmation)
    requires k < |db.invoices| && FindInvoice(db.invoices, uid) == Some(k) && db.invoices[k].status.InvoiceUnpaid?
    ensures var plain := ConfirmAll(db, ids, conf);
            var status := if PaidBy(db, ids, k) then InvoicePaid else InvoiceCancelled;
            AroundCancel(db, {}, uid, ids, conf) ==
            plain.(invoices := plain.invoices[k := plain.invoices[k].(status := status, cancelled := true)])
  {
    ConfirmNothing(db, conf);
    var cancelled := CancelNow(db, uid);
    forall m: nat, i: nat
      ensures Pays(cancelled, i, m) <==> Pays(db, i, m)
    {
      if i < |db.payments| { FindInvoiceStable(db.invoices, cancelled.invoices, db.payments[i].invoiceUid); }
    }
    forall m: nat
      ensures PaidBy(cancelled, ids, m) <==> PaidBy(db, ids, m)
    {
    }
    var plain, around := ConfirmAll(db, ids, conf), AroundCancel(db, {}, uid, ids, conf);
    var status := if PaidBy(db, ids, k) then InvoicePaid else InvoiceCancelled;
    assert around.payments == plain.payments;
    assert around.invoices == plain.invoices[k := plain.invoices[k].(status := status, cancelled := true)];
  }

  // ---------------------------------------------------------------- the cancel's two turns

  /** The moment before the cancel reads. */
  function Reads(cfg: Config, before: seq<nat>): Config {
    RunSchedule(cfg, before)
  }

  /** The moment before it writes. */
  function Writes(cfg: Config, x: nat, before: seq<nat>, between: seq<nat>): Config {
    RunSchedule(Step(Reads(cfg, before), x), between)
  }

  function Ends(cfg: Config, x: nat, before: seq<nat>, between: seq<nat>, after: seq<nat>): Config {
    RunSchedule(Step(Writes(cfg, x, before, between), x), after)
  }

  lemma {:induction false} OneTurn(cfg: Config, x: nat, k: nat)
    ensures RunSchedule(cfg, [x]) == Step(cfg, x) && (PaidDuring(cfg, [x], k) <==> PaysNext(cfg, x, k))
  {
    assert [x][1..] == [];
  }

  /** The stages are those of the whole schedule. */
  lemma {:induction false} Stages(cfg: Config, x: nat, before: seq<nat>, between: seq<nat>, after: seq<nat>, k: nat)
    ensures var whole := before + [x] + between + [x] + after;
            && RunSchedule(cfg, whole) == Ends(cfg, x, before, between, after)
            && (PaidDuring(cfg, whole, k) <==>
                  || PaidDuring(cfg, before, k) || PaysNext(Reads(cfg, before), x, k)
                  || PaidDuring(Step(Reads(cfg, before), x), between, k) ||
                      PaysNext(Writes(cfg, x, before, between), x, k)
                  || PaidDuring(Step(Writes(cfg, x, before, between), x), after, k))
  {
    hide RunSchedule, PaidDuring, PaysNext, Step;
    PaidDuringConcat(cfg, before, [x], k);
    OneTurn(Reads(cfg, before), x, k);
    PaidDuringConcat(cfg, before + [x], between, k);
    PaidDuringConcat(cfg, before + [x] + between, [x], k);
    OneTurn(Writes(cfg, x, before, between), x, k);
    PaidDuringConcat(cfg, before + [x] + between + [x], after, k);
  }

  /** Every completed schedule gives the cancel two turns, unless its invoice does not exist. */
  lemma {:induction false} CompletedSchedulesSplit(cfg: Config, x: nat, uid: string, k: nat,
          conf: TxRef -> Confirmation, schedule: seq<nat>)
    returns (before: seq<nat>, between: seq<nat>, after: seq<nat>)
    requires OneCancel(cfg, x, uid, conf) && FindInvoice(cfg.db.invoices, uid) == Some(k)
    requires AllOver(RunSchedule(cfg, schedule))
    ensures schedule == before + [x] + between + [x] + after && x !in before && x !in between
  {
    if x !in schedule {
      RowWhileConfirming(cfg, x, schedule, k);
      assert false;
    }
    before, after := SplitAt(schedule, x);
    PaidDuringConcat(cfg, before + [x], after, k);
    PaidDuringConcat(cfg, before, [x], k);
    OneTurn(Reads(cfg, before), x, k);
    RowWhileConfirming(cfg, x, before, k);
    var plain := cfg.(tasks := cfg.tasks[x := Cancelling("", CancelOver)]);
    RunShadows(cfg, plain, x, k, before);
    StepShadows(Reads(cfg, before), RunSchedule(plain, before), x, k, x);
    var asked := Step(Reads(cfg, before), x);
    assert asked.tasks[x].step.AtCancel?;
    if x !in after {
      RowWhileConfirming(asked, x, after, k);
      assert false;
    }
    between, after := SplitAt(after, x);
  }

  lemma {:induction false} SplitAt(s: seq<nat>, x: nat) returns (first: seq<nat>, rest: seq<nat>)
    requires x in s
    ensures s == first + [x] + rest && x !in first
    decreases |s|
  {
    if s[0] == x {
      first, rest := [], s[1..];
    } else {
      first, rest := SplitAt(s[1..], x);
      first := [s[0]] + first;
    }
  }

  // ---------------------------------------------------------------- the invoice at the end

  /** What the schedule leaves in the invoice's row, from when it was paid. */
  function RowAtEnd(inv: Invoice, paidBefore: bool, paidBetween: bool, paidAfter: bool): Invoice {
    var read := if paidBefore then inv.(status := InvoicePaid) else inv;
    var met := if paidBetween then read.(status := InvoicePaid) else read;
    var left := if read.status.InvoiceUnpaid? then met.(status := InvoiceCancelled, cancelled := true) else met;
    if paidAfter then left.(status := InvoicePaid) else left
  }

  lemma {:induction false} CancelRow(cfg: Config, x: nat, uid: string, k: nat, before: seq<nat>, between: seq<nat>,
          after: seq<nat>)
    requires OthersConfirm(cfg, x) && cfg.tasks[x] == Cancelling(uid, AtReadInvoice) && k < |cfg.db.invoices|
    requires FindInvoice(cfg.db.invoices, uid) == Some(k)
    requires x !in before && x !in between
    ensures var end := Ends(cfg, x, before, between, after);
            && k < |end.db.invoices|
            && end.db.invoices[k] ==
               RowAtEnd(cfg.db.invoices[k], PaidDuring(cfg, before, k),
                        PaidDuring(Step(Reads(cfg, before), x), between, k),
                        PaidDuring(Step(Writes(cfg, x, before, between), x), after, k))
  {
    StillFinds(cfg, x, uid, k, before);
    RowWhileConfirming(cfg, x, before, k);
    RowWhileConfirming(Step(Reads(cfg, before), x), x, between, k);
    RowWhileConfirming(Step(Writes(cfg, x, before, between), x), x, after, k);
  }

  /** The end of a completed schedule: what the confirm calls do on their own, but for the invoice's row. */
  lemma {:induction false} EndOfSchedule(cfg: Config, x: nat, uid: string, k: nat, conf: TxRef -> Confirmation,
          before: seq<nat>, between: seq<nat>, after: seq<nat>)
    requires OneCancel(cfg, x, uid, conf) && FindInvoice(cfg.db.invoices, uid) == Some(k)
    requires x !in before && x !in between && AllOver(Ends(cfg, x, before, between, after))
    ensures DifferAt(Ends(cfg, x, before, between, after).db, ConfirmAll(cfg.db, Targets(cfg.tasks), conf), k)
    ensures !cfg.db.invoices[k].status.InvoicePaid? ==>
              (PaidBy(cfg.db, Targets(cfg.tasks), k) <==>
                 || PaidDuring(cfg, before, k) || PaidDuring(Step(Reads(cfg, before), x), between, k)
                 || PaidDuring(Step(Writes(cfg, x, before, between), x), after, k))
  {
    var whole := before + [x] + between + [x] + after;
    var plain := cfg.(tasks := cfg.tasks[x := Cancelling("", CancelOver)]);
    RunShadows(cfg, plain, x, k, whole);
    Stages(cfg, x, before, between, after, k);
    PlainEnd(cfg, plain, x, k, conf, whole);
    RowWhileConfirming(cfg, x, before, k);
    RowWhileConfirming(Step(Reads(cfg, before), x), x, between, k);
    ConfirmAllRow(cfg.db, Targets(cfg.tasks), conf, k);
  }

  /** Up to its first turn the cancel would find the same invoice. */
  lemma {:induction false} StillFinds(cfg: Config, x: nat, uid: string, k: nat, before: seq<nat>)
    requires OthersConfirm(cfg, x) && cfg.tasks[x] == Cancelling(uid, AtReadInvoice) && x !in before
    requires FindInvoice(cfg.db.invoices, uid) == Some(k)
    ensures FindInvoice(Reads(cfg, before).db.invoices, uid) == Some(k)
  {
    var plain := cfg.(tasks := cfg.tasks[x := Cancelling("", CancelOver)]);
    RunShadows(cfg, plain, x, k, before);
    RowWhileConfirming(cfg, x, before, k);
  }

  lemma {:induction false} PlainEnd(cfg: Config, plain: Config, x: nat, k: nat, conf: TxRef -> Confirmation,
          schedule: seq<nat>)
    requires x < |cfg.tasks| && Shadows(cfg, plain, x, k) && cfg.db == plain.db && cfg.tasks[x].Cancelling?
    requires forall j :: 0 <= j < |cfg.tasks| && j != x ==> Call(cfg.db, cfg.tasks[j], conf)
    requires AllOver(RunSchedule(cfg, schedule))
    ensures RunSchedule(plain, schedule).db == ConfirmAll(cfg.db, Targets(cfg.tasks), conf)
    ensures RunSchedule(plain, schedule).db.invoices[k] ==
            if PaidDuring(cfg, schedule, k) then cfg.db.invoices[k].(status := InvoicePaid) else cfg.db.invoices[k]
  {
    RunShadows(cfg, plain, x, k, schedule);
    SamePayments(cfg, plain, x, k, schedule);
    RowWhileConfirming(plain, x, schedule, k);
    ScheduleIndependence(plain, conf, schedule);
    assert forall j :: 0 <= j < |cfg.tasks| && j != x ==> plain.tasks[j] == cfg.tasks[j];
    SameTargets(cfg.tasks, plain.tasks);
  }

  // ---------------------------------------------------------------- the theorem

  /** The cancel read the invoice unpaid, and it was paid before the cancel wrote. */
  predicate OvertakenByPayment(cfg: Config, x: nat, k: nat, before: seq<nat>, between: seq<nat>)
    requires k < |Reads(cfg, before).db.invoices|
  {
    Reads(cfg, before).db.invoices[k].status.InvoiceUnpaid? && PaidDuring(Step(Reads(cfg, before), x), between, k)
  }

  lemma {:induction false} SameTables(a: Tables, b: Tables, k: nat)
    requires DifferAt(a, b, k) && a.invoices[k] == b.invoices[k]
    ensures a == b
  {
    assert a.invoices == b.invoices;
  }

  /** A completed schedule ends as whole calls would, in some order, exactly when no payment overtook the cancel or
      another one followed it. */
  lemma {:induction false} SerialExactly(cfg: Config, x: nat, uid: string, k: nat, conf: TxRef -> Confirmation,
          before: seq<nat>, between: seq<nat>, after: seq<nat>)
    requires OneCancel(cfg, x, uid, conf) && FindInvoice(cfg.db.invoices, uid) == Some(k)
    requires x !in before && x !in between && AllOver(Ends(cfg, x, before, between, after))
    ensures k < |Reads(cfg, before).db.invoices|
    ensures Serial(cfg.db, Targets(cfg.tasks), uid, conf, Ends(cfg, x, before, between, after).db) <==>
            (OvertakenByPayment(cfg, x, k, before, between) ==>
               PaidDuring(Step(Writes(cfg, x, before, between), x), after, k))
  {
    RowWhileConfirming(cfg, x, before, k);
    EndOfSchedule(cfg, x, uid, k, conf, before, between, after);
    CancelRow(cfg, x, uid, k, before, between, after);
    SerialRow(cfg.db, Targets(cfg.tasks), uid, k, conf, Ends(cfg, x, before, between, after).db,
              PaidDuring(cfg, before, k), PaidDuring(Step(Reads(cfg, before), x), between, k),
              PaidDuring(Step(Writes(cfg, x, before, between), x), after, k));
  }

  /** The same, in terms of when the invoice was paid. */
  lemma {:induction false} SerialRow(db: Tables, ids: set<nat>, uid: string, k: nat, conf: TxRef -> Confirmation,
          end: Tables, paidBefore: bool, paidBetween: bool, paidAfter: bool)
    requires k < |db.invoices| && FindInvoice(db.invoices, uid) == Some(k)
    requires DifferAt(end, ConfirmAll(db, ids, conf), k)
    requires end.invoices[k] == RowAtEnd(db.invoices[k], paidBefore, paidBetween, paidAfter)
    requires !db.invoices[k].status.InvoicePaid? ==> (PaidBy(db, ids, k) <==> paidBefore || paidBetween || paidAfter)
    ensures Serial(db, ids, uid, conf, end) <==>
            (db.invoices[k].status.InvoiceUnpaid? && !paidBefore && paidBetween ==> paidAfter)
  {
    var plain := ConfirmAll(db, ids, conf);
    ConfirmAllRow(db, ids, conf, k);
    assert ids + {} == ids && {} + ids == ids;
    if !db.invoices[k].status.InvoiceUnpaid? || paidBefore {
      SameTables(end, plain, k);
      CancelLast(db, ids, uid, k, conf);
      assert end == AroundCancel(db, ids, uid, {}, conf);
    } else if paidBetween && !paidAfter {
      forall first, second | first + second == ids
        ensures end != AroundCancel(db, first, uid, second, conf)
      {
        SerialPays(db, first, uid, second, k, conf);
      }
    } else {
      CancelFirst(db, ids, uid, k, conf);
      SameTables(end, AroundCancel(db, {}, uid, ids, conf), k);
    }
  }

  /** The cancel turns a paid invoice into a cancelled one. */
  predicate OverwritesPaid(cfg: Config, x: nat, k: nat) {
    && k < |cfg.db.invoices| && cfg.db.invoices[k].status.InvoicePaid?
    && k < |Step(cfg, x).db.invoices| && !Step(cfg, x).db.invoices[k].status.InvoicePaid?
  }

  /** A completed schedule is safe, ending as whole calls would and never overwriting a paid invoice, exactly when no
      payment falls between an unpaid read and its write; that is, when an invoice read unpaid is still unpaid at
      the write. */
  lemma {:induction false} SafeCancelExactly(cfg: Config, x: nat, uid: string, k: nat, conf: TxRef -> Confirmation,
          before: seq<nat>, between: seq<nat>, after: seq<nat>)
    requires OneCancel(cfg, x, uid, conf) && FindInvoice(cfg.db.invoices, uid) == Some(k)
    requires x !in before && x !in between && AllOver(Ends(cfg, x, before, between, after))
    ensures k < |Reads(cfg, before).db.invoices| && k < |Writes(cfg, x, before, between).db.invoices|
    ensures var serial := Serial(cfg.db, Targets(cfg.tasks), uid, conf, Ends(cfg, x, before, between, after).db);
            serial && !OverwritesPaid(Writes(cfg, x, before, between), x, k) <==>
            !OvertakenByPayment(cfg, x, k, before, between)
    ensures OverwritesPaid(Writes(cfg, x, before, between), x, k) <==> OvertakenByPayment(cfg, x, k, before, between)
    ensures OvertakenByPayment(cfg, x, k, before, between) <==>
            && Reads(cfg, before).db.invoices[k].status.InvoiceUnpaid?
            && !Writes(cfg, x, before, between).db.invoices[k].status.InvoiceUnpaid?
  {
    SerialExactly(cfg, x, uid, k, conf, before, between, after);
    StillFinds(cfg, x, uid, k, before);
    RowWhileConfirming(cfg, x, before, k);
    RowWhileConfirming(Step(Reads(cfg, before), x), x, between, k);
  }
}
