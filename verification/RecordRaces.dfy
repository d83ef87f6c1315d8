/** Concurrent `recordPayment` calls, cut at their awaits: the check for an earlier payment, the lookup of the payment
    option, and the insert. */
module RecordRaces {
  import opened Wrappers
  import opened Rows
  import opened Lifecycle
  import opened Runs

  datatype Point = AtCheck | AtOption | AtInsert | Over(inserted: bool)

  /** A call for an invoice; `chain` is that of the invoice's option in this currency, if it has one. */
  datatype Call = Call(uid: string, txid: string, currency: string, chain: Option<string>, createdAt: int, at: Point)
  {
    /** It has seen no payment, and nothing will stop it now. */
    predicate Bound() {
      chain.Some? && (at.AtOption? || at.AtInsert?)
    }
  }

  datatype State = State(payments: seq<Payment>, calls: seq<Call>)

  function StepCall(payments: seq<Payment>, call: Call): (seq<Payment>, Call) {
    match call.at
    case AtCheck =>
      (payments, call.(at := if FindPaymentOf(payments, call.uid).Some? then Over(false) else AtOption))
    case AtOption => (payments, call.(at := if call.chain.Some? then AtInsert else Over(false)))
    case AtInsert =>
      if call.chain.None? then (payments, call.(at := Over(false)))
      else
        (payments + [NewPayment(TxRef(call.txid, call.chain.value, call.currency), call.uid, call.createdAt)],
         call.(at := Over(true)))
    case Over(_) => (payments, call)
  }

  function Step(s: State, j: nat): State {
    if j < |s.calls| then
      var (payments, call) := StepCall(s.payments, s.calls[j]);
      State(payments, s.calls[j := call])
    else s
  }

  function RunCalls(s: State, schedule: seq<nat>): State
    decreases |schedule|
  {
    if schedule == [] then s else RunCalls(Step(s, schedule[0]), schedule[1..])
  }

  /** Three turns of one call are the whole call. */
  lemma {:induction false} ThreeTurnsAreRecord(db: Tables, call: Call)
    requires call.at.AtCheck?
    ensures RunCalls(State(db.payments, [call]), [0, 0, 0]).payments ==
            Record(db, call.uid, call.txid, call.currency, call.chain, call.createdAt).tables.payments
  {
    var s := State(db.payments, [call]);
    assert [0, 0, 0][1..] == [0, 0] && [0, 0][1..] == [0] && [0][1..] == [];
    assert RunCalls(s, [0, 0, 0]) == Step(Step(Step(s, 0), 0), 0);
  }

  ghost predicate AllOver(s: State) {
    forall j :: 0 <= j < |s.calls| ==> s.calls[j].at.Over?
  }

  /** Two calls for one invoice have both passed the check, and neither has inserted. */
  ghost predicate Overlapping(s: State) {
    exists a: nat, b: nat :: Overlap(s, a, b)
  }

  ghost predicate Overlap(s: State, a: nat, b: nat) {
    a < b < |s.calls| && s.calls[a].Bound() && s.calls[b].Bound() && s.calls[a].uid == s.calls[b].uid
  }

  ghost predicate EverOverlapping(s: State, schedule: seq<nat>)
    decreases |schedule|
  {
    Overlapping(s) || (schedule != [] && EverOverlapping(Step(s, schedule[0]), schedule[1..]))
  }

  // ---------------------------------------------------------------- without an overlap

  /** One payment each, and none yet for an invoice some call is bound to pay. */
  ghost predicate Clean(s: State) {
    && OnePaymentEach(s.payments)
    && forall a: nat :: a < |s.calls| && s.calls[a].Bound() ==> FindPaymentOf(s.payments, s.calls[a].uid).None?
  }

  lemma {:induction false} StepKeepsClean(s: State, j: nat)
    requires Clean(s) && !Overlapping(s)
    ensures Clean(Step(s, j))
  {
    if j < |s.calls| {
      forall a: nat | a < |s.calls| && a != j && s.calls[a].Bound() && s.calls[j].Bound()
        ensures s.calls[a].uid != s.calls[j].uid
      {
        assert !Overlap(s, a, j) && !Overlap(s, j, a);
      }
    }
  }

  lemma {:induction false} RunKeepsClean(s: State, schedule: seq<nat>)
    requires Clean(s) && !EverOverlapping(s, schedule)
    ensures Clean(RunCalls(s, schedule))
    decreases |schedule|
  {
    if schedule != [] {
      StepKeepsClean(s, schedule[0]);
      RunKeepsClean(Step(s, schedule[0]), schedule[1..]);
    }
  }

  // ---------------------------------------------------------------- after an overlap

  ghost predicate RowOf(payments: seq<Payment>, uid: string, i: nat) {
    i < |payments| && payments[i].invoiceUid == uid
  }

  ghost predicate HasRow(payments: seq<Payment>, uid: string) {
    exists i: nat :: RowOf(payments, uid, i)
  }

  ghost predicate HasTwoRows(payments: seq<Payment>, uid: string) {
    exists i: nat, j: nat :: i < j && RowOf(payments, uid, i) && RowOf(payments, uid, j)
  }

  /** The call is bound to insert, or has inserted. */
  predicate Committed(call: Call) {
    call.Bound() || call.at == Over(true)
  }

  /** Two committed calls for one invoice, with a row for each that has inserted. */
  ghost predicate Doubling(s: State, a: nat, b: nat) {
    && a < b < |s.calls| && s.calls[a].uid == s.calls[b].uid && Committed(s.calls[a]) && Committed(s.calls[b])
    && (s.calls[a].at.Over? || s.calls[b].at.Over? ==> HasRow(s.payments, s.calls[a].uid))
    && (s.calls[a].at.Over? && s.calls[b].at.Over? ==> HasTwoRows(s.payments, s.calls[a].uid))
  }

  lemma {:induction false} AppendRows(payments: seq<Payment>, p: Payment, uid: string)
    ensures HasRow(payments, uid) ==> HasRow(payments + [p], uid)
    ensures HasTwoRows(payments, uid) ==> HasTwoRows(payments + [p], uid)
    ensures p.invoiceUid == uid ==> HasRow(payments + [p], uid)
    ensures p.invoiceUid == uid && HasRow(payments, uid) ==> HasTwoRows(payments + [p], uid)
  {
    var after := payments + [p];
    if i: nat :| RowOf(payments, uid, i) {
      assert RowOf(after, uid, i);
    }
    if i: nat, j: nat :| i < j && RowOf(payments, uid, i) && RowOf(payments, uid, j) {
      assert RowOf(after, uid, i) && RowOf(after, uid, j);
    }
    if p.invoiceUid == uid {
      assert RowOf(after, uid, |payments|);
      if i: nat :| RowOf(payments, uid, i) {
        assert i < |payments| && RowOf(after, uid, i) && RowOf(after, uid, |payments|);
      }
    }
  }

  lemma {:induction false} StepKeepsDoubling(s: State, j: nat, a: nat, b: nat)
    requires Doubling(s, a, b)
    ensures Doubling(Step(s, j), a, b)
  {
    if j < |s.calls| && s.calls[j].at.AtInsert? && s.calls[j].chain.Some? {
      var call := s.calls[j];
      var p := NewPayment(TxRef(call.txid, call.chain.value, call.currency), call.uid, call.createdAt);
      AppendRows(s.payments, p, s.calls[a].uid);
    }
    hide HasRow, HasTwoRows;
  }

  lemma {:induction false} RunKeepsDoubling(s: State, schedule: seq<nat>, a: nat, b: nat)
    requires Doubling(s, a, b)
    ensures Doubling(RunCalls(s, schedule), a, b)
    decreases |schedule|
  {
    if schedule != [] {
      StepKeepsDoubling(s, schedule[0], a, b);
      hide Doubling, Step;
      RunKeepsDoubling(Step(s, schedule[0]), schedule[1..], a, b);
    }
  }

  lemma {:induction false} OverlapDoubles(s: State, schedule: seq<nat>)
    requires EverOverlapping(s, schedule) && AllOver(RunCalls(s, schedule))
    ensures !OnePaymentEach(RunCalls(s, schedule).payments)
    decreases |schedule|
  {
    if Overlapping(s) {
      var a: nat, b: nat :| Overlap(s, a, b);
      RunKeepsDoubling(s, schedule, a, b);
      var end := RunCalls(s, schedule);
      assert end.calls[a].at.Over? && end.calls[b].at.Over?;
      var i: nat, j: nat :| i < j && RowOf(end.payments, end.calls[a].uid, i) &&
          RowOf(end.payments, end.calls[a].uid, j);
    } else {
      OverlapDoubles(Step(s, schedule[0]), schedule[1..]);
    }
  }

  /** A completed schedule of concurrent calls leaves every invoice at most one payment exactly when there is no
      moment at which two calls for one invoice have both passed the check and neither has inserted. */
  lemma {:induction false} OnePaymentExactly(s: State, schedule: seq<nat>)
    requires OnePaymentEach(s.payments) && (forall j :: 0 <= j < |s.calls| ==> s.calls[j].at.AtCheck?)
    requires AllOver(RunCalls(s, schedule))
    ensures OnePaymentEach(RunCalls(s, schedule).payments) <==> !EverOverlapping(s, schedule)
  {
    if EverOverlapping(s, schedule) {
      OverlapDoubles(s, schedule);
    } else {
      RunKeepsClean(s, schedule);
    }
  }

  /** Two calls that check before either inserts give an unpaid invoice two payments. */
  lemma {:induction false} TwoCallsCanBothInsert(uid: string, first: TxRef, second: TxRef)
    ensures var a := Call(uid, first.txid, first.currency, Some(first.chain), 0, AtCheck);
            var b := Call(uid, second.txid, second.currency, Some(second.chain), 0, AtCheck);
            var end := RunCalls(State([], [a, b]), [0, 1, 0, 0, 1, 1]);
            AllOver(end) && end.payments == [NewPayment(first, uid, 0), NewPayment(second, uid, 0)]
  {
    var a := Call(uid, first.txid, first.currency, Some(first.chain), 0, AtCheck);
    var b := Call(uid, second.txid, second.currency, Some(second.chain), 0, AtCheck);
    var s1 := State([], [a.(at := AtOption), b]);
    var s2 := State([], [a.(at := AtOption), b.(at := AtOption)]);
    var s3 := State([], [a.(at := AtInsert), b.(at := AtOption)]);
    var s4 := State([NewPayment(first, uid, 0)], [a.(at := Over(true)), b.(at := AtOption)]);
    var s5 := State([NewPayment(first, uid, 0)], [a.(at := Over(true)), b.(at := AtInsert)]);
    var s6 := State([NewPayment(first, uid, 0), NewPayment(second, uid, 0)],
                    [a.(at := Over(true)), b.(at := Over(true))]);
    assert Step(State([], [a, b]), 0) == s1 && Step(s1, 1) == s2 && Step(s2, 0) == s3;
    assert Step(s3, 0) == s4 && Step(s4, 1) == s5 && Step(s5, 1) == s6;
    assert [0, 1, 0, 0, 1, 1][1..] == [1, 0, 0, 1, 1] && [1, 0, 0, 1, 1][1..] == [0, 0, 1, 1];
    assert [0, 0, 1, 1][1..] == [0, 1, 1] && [0, 1, 1][1..] == [1, 1] && [1, 1][1..] == [1];
    hide Step;
    assert RunCalls(s5, [1]) == RunCalls(s6, []) by { assert [1][1..] == []; }
    assert RunCalls(s4, [1, 1]) == s6;
    assert RunCalls(s3, [0, 1, 1]) == s6;
    assert RunCalls(s2, [0, 0, 1, 1]) == s6;
    assert RunCalls(s1, [1, 0, 0, 1, 1]) == s6;
  }
}
