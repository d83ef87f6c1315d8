/** Webhook attempts: a log of attempts and a status that latches on the first success. */
module Webhooks {
  import opened Wrappers

  datatype Status = Pending | Failed | Success

  datatype Attempt = Attempt(responseCode: Option<int>, error: Option<string>, ended: bool)
  {
    /** Ended with a response on record and no error. */
    predicate Succeeded() {
      ended && responseCode.Some? && error.None?
    }
  }

  /** What the outside does to one attempt: the invoice row may be missing, the request may fail with or without a
      response, and the write of the webhook's status may fail after the request went through. */
  datatype Delivery =
    | NoInvoice
    | Refused(response: Option<int>, message: string)
    | Delivered(code: int)
    | Unrecorded(code: int, message: string)

  datatype Webhook = Webhook(status: Status, attempts: seq<Attempt>)

  function Entry(delivery: Delivery): Attempt {
    match delivery
    case NoInvoice => Attempt(None, None, false)
    case Refused(response, message) => Attempt(response, Some(message), true)
    case Delivered(code) => Attempt(Some(code), None, true)
    case Unrecorded(code, message) => Attempt(Some(code), Some(message), true)
  }

  /** One call made with a row read earlier, whose status was `seen`. */
  function AfterAttempt(webhook: Webhook, seen: Status, delivery: Delivery): Webhook {
    if seen.Success? then webhook
    else Webhook(if delivery.Delivered? then Success else webhook.status, webhook.attempts + [Entry(delivery)])
  }

  datatype Outcome = AlreadySent | InvoiceNotFound | Attempted(attempt: Attempt)

  class WebhookStore {
    var status: Status
    var attempts: seq<Attempt>

    constructor ()
      ensures status == Pending && attempts == []
    {
      status, attempts := Pending, [];
    }

    function Row(): Webhook
      reads this
    {
      Webhook(status, attempts)
    }

    /** `attemptWebhook`. A failed request is recorded but the returned attempt is the one read before that write. */
    method AttemptWebhook(seen: Status, delivery: Delivery) returns (outcome: Outcome)
      modifies this
      ensures Row() == AfterAttempt(old(Row()), seen, delivery)
      ensures outcome.AlreadySent? <==> seen.Success?
      ensures outcome.InvoiceNotFound? <==> !seen.Success? && delivery.NoInvoice?
      ensures outcome.Attempted? && delivery.Delivered? ==> outcome.attempt == attempts[|attempts| - 1]
      ensures outcome.Attempted? && delivery.Refused? ==> !outcome.attempt.ended
      ensures outcome.Attempted? && delivery.Unrecorded? ==>
                outcome.attempt.Succeeded() && !attempts[|attempts| - 1].Succeeded()
    {
      if seen.Success? {
        return AlreadySent;
      }
      var id := |attempts|;
      attempts := attempts + [Attempt(None, None, false)];
      if delivery.NoInvoice? {
        return InvoiceNotFound;
      }
      var attempt := attempts[id];
      if delivery.Delivered? || delivery.Unrecorded? {
        attempt := attempt.(responseCode := Some(delivery.code), ended := true);
        attempts := attempts[id := attempt];
        if delivery.Delivered? {
          status := Success;
          return Attempted(attempt);
        }
      }
      attempts := attempts[id := attempts[id].(
        error := Some(delivery.message),
        responseCode :=
          if delivery.Refused? && delivery.response.Some? then delivery.response else attempts[id].responseCode,
        ended := true)];
      return Attempted(attempt);
    }
  }

  // ---------------------------------------------------------------- runs

  /** A run of calls, each of which reads the current row first. */
  function Run(webhook: Webhook, deliveries: seq<Delivery>): Webhook {
    if deliveries == [] then webhook
    else
      var before := Run(webhook, deliveries[..|deliveries| - 1]);
      AfterAttempt(before, before.status, deliveries[|deliveries| - 1])
  }

  /** A run of calls each of which saw a status of its own, read at any time. */
  function StaleRun(webhook: Webhook, calls: seq<(Status, Delivery)>): Webhook {
    if calls == [] then webhook
    else
      var last := calls[|calls| - 1];
      AfterAttempt(StaleRun(webhook, calls[..|calls| - 1]), last.0, last.1)
  }

  ghost predicate Latched(webhook: Webhook) {
    var n := |webhook.attempts|;
    && (webhook.status.Success? <==> n > 0 && webhook.attempts[n - 1].Succeeded())
    && forall k :: 0 <= k < n - 1 ==> !webhook.attempts[k].Succeeded()
  }

  function FirstDelivered(deliveries: seq<Delivery>): (n: nat)
    ensures n <= |deliveries|
    ensures n < |deliveries| ==> deliveries[n].Delivered?
    ensures forall k :: 0 <= k < n ==> !deliveries[k].Delivered?
  {
    if deliveries == [] || deliveries[0].Delivered? then 0 else 1 + FirstDelivered(deliveries[1..])
  }

  /** The log holds one entry per call up to and including the first that got through, and none after it. */
  function Log(deliveries: seq<Delivery>): seq<Attempt> {
    var n := FirstDelivered(deliveries);
    seq(if n < |deliveries| then n + 1 else n, k requires 0 <= k < |deliveries| => Entry(deliveries[k]))
  }

  /** In every run the status is success exactly when the last attempt succeeded, and no earlier one did. */
  lemma {:induction false} SuccessLatches(status: Status, deliveries: seq<Delivery>)
    requires !status.Success?
    ensures Latched(Run(Webhook(status, []), deliveries))
    decreases |deliveries|
  {
    if deliveries != [] {
      SuccessLatches(status, deliveries[..|deliveries| - 1]);
    }
  }

  /** What a run leaves, given outright: the calls up to the first success are logged and no other. */
  lemma {:induction false} RunIsItsLog(status: Status, deliveries: seq<Delivery>)
    requires !status.Success?
    ensures var final := Run(Webhook(status, []), deliveries);
            && final.attempts == Log(deliveries)
            && final.status == if FirstDelivered(deliveries) < |deliveries| then Success else status
    decreases |deliveries|
  {
    if deliveries != [] {
      var n := |deliveries| - 1;
      var earlier := deliveries[..n];
      RunIsItsLog(status, earlier);
      FirstDeliveredSnoc(earlier, deliveries[n]);
      assert deliveries == earlier + [deliveries[n]];
      LogSnoc(earlier, deliveries[n]);
      hide FirstDelivered, Log;
    }
  }

  /** The log of a run in columns: attempt k is on the k-th delivery, and none follows the first delivered one. */
  lemma {:induction false} LogColumns(status: Status, deliveries: seq<Delivery>)
    requires !status.Success?
    ensures var final := Run(Webhook(status, []), deliveries);
            && |final.attempts| <= |deliveries|
            && (final.status == Success <==> exists k :: 0 <= k < |deliveries| && deliveries[k].Delivered?)
            && (final.status != Success ==> final.status == status && |final.attempts| == |deliveries|)
            && (final.status == Success ==> |final.attempts| > 0 && deliveries[|final.attempts| - 1].Delivered?)
            && forall k :: 0 <= k < |final.attempts| ==>
                 match deliveries[k]
                 case NoInvoice => final.attempts[k] == Attempt(None, None, false)
                 case Refused(response, message) => final.attempts[k] == Attempt(response, Some(message), true)
                 case Delivered(code) => final.attempts[k] == Attempt(Some(code), None, true)
                                         && final.status == Success && k == |final.attempts| - 1
                 case Unrecorded(code, message) => final.attempts[k] == Attempt(Some(code), Some(message), true)
  {
    RunIsItsLog(status, deliveries);
    var final, n := Run(Webhook(status, []), deliveries), FirstDelivered(deliveries);
    if n < |deliveries| { assert deliveries[n].Delivered?; }
    assert forall k :: 0 <= k < |final.attempts| ==> final.attempts[k] == Entry(deliveries[k]);
    hide Run, FirstDelivered;
  }

  /** One attempt of each kind, and a call after the delivered one. */
  lemma {:induction false} OneOfEach(down: int, late: int, ok: int, why: string)
    ensures Run(Webhook(Pending, []), [NoInvoice, Refused(None, why), Refused(Some(down), why), Unrecorded(late, why)]
                                      + [Delivered(ok), Refused(None, why)]) ==
            Webhook(Success, [Attempt(None, None, false), Attempt(None, Some(why), true),
                              Attempt(Some(down), Some(why), true), Attempt(Some(late), Some(why), true),
                              Attempt(Some(ok), None, true)])
  {
    var deliveries := [NoInvoice, Refused(None, why), Refused(Some(down), why), Unrecorded(late, why)]
                      + [Delivered(ok), Refused(None, why)];
    LogColumns(Pending, deliveries);
    var final := Run(Webhook(Pending, []), deliveries);
    assert deliveries[4] == Delivered(ok);
    hide Run;
    assert |final.attempts| == 5;
  }

  lemma {:induction false} LogSnoc(earlier: seq<Delivery>, last: Delivery)
    ensures Log(earlier + [last]) ==
            if FirstDelivered(earlier) < |earlier| then Log(earlier) else Log(earlier) + [Entry(last)]
  {
    FirstDeliveredSnoc(earlier, last);
    hide FirstDelivered, Entry;
    var all := earlier + [last];
    assert forall k :: 0 <= k < |earlier| ==> all[k] == earlier[k];
    assert all[|earlier|] == last;
  }

  lemma {:induction false} FirstDeliveredSnoc(earlier: seq<Delivery>, last: Delivery)
    ensures var n := FirstDelivered(earlier);
            FirstDelivered(earlier + [last]) == if n < |earlier| || last.Delivered? then n else n + 1
  {
    var all := earlier + [last];
    var n, m := FirstDelivered(earlier), FirstDelivered(all);
    assert forall k :: 0 <= k < |earlier| ==> all[k] == earlier[k];
    assert all[|earlier|] == last;
  }

  /** Once successful, no further call changes anything. */
  lemma {:induction false} SuccessIsFinal(webhook: Webhook, deliveries: seq<Delivery>)
    requires webhook.status.Success?
    ensures Run(webhook, deliveries) == webhook
    decreases |deliveries|
  {
    if deliveries != [] {
      SuccessIsFinal(webhook, deliveries[..|deliveries| - 1]);
    }
  }

  /** With stale rows a delivered webhook may be sent again, but success is never lost: the status is success
      exactly when some attempt succeeded. */
  lemma {:induction false} StaleCallsKeepSuccess(status: Status, calls: seq<(Status, Delivery)>)
    requires !status.Success?
    ensures var final := StaleRun(Webhook(status, []), calls);
            final.status.Success? <==> exists k :: 0 <= k < |final.attempts| && final.attempts[k].Succeeded()
    decreases |calls|
  {
    if calls != [] {
      var before := StaleRun(Webhook(status, []), calls[..|calls| - 1]);
      StaleCallsKeepSuccess(status, calls[..|calls| - 1]);
      var final := StaleRun(Webhook(status, []), calls);
      assert forall k :: 0 <= k < |before.attempts| ==> final.attempts[k] == before.attempts[k];
      if !calls[|calls| - 1].0.Success? {
        assert final.attempts[|before.attempts|] == Entry(calls[|calls| - 1].1);
      }
    }
  }

  /** The call goes out, and gets through. */
  predicate GetsThrough(call: (Status, Delivery)) {
    !call.0.Success? && call.1.Delivered?
  }

  /** No call after one that got through still saw another status. */
  ghost predicate NoneTooLate(calls: seq<(Status, Delivery)>) {
    forall i, j :: 0 <= i < j < |calls| && GetsThrough(calls[i]) ==> calls[j].0.Success?
  }

  lemma {:induction false} StaleStatusExactly(status: Status, calls: seq<(Status, Delivery)>)
    requires !status.Success?
    ensures StaleRun(Webhook(status, []), calls).status.Success? <==>
            exists i :: 0 <= i < |calls| && GetsThrough(calls[i])
    decreases |calls|
  {
    if calls != [] {
      var n := |calls| - 1;
      StaleStatusExactly(status, calls[..n]);
      assert forall i :: 0 <= i < n ==> calls[..n][i] == calls[i];
    }
  }

  ghost predicate StatusTellsSuccess(webhook: Webhook) {
    webhook.status.Success? <==> exists k :: 0 <= k < |webhook.attempts| && webhook.attempts[k].Succeeded()
  }

  /** One more attempt breaks the latch exactly when an earlier one had succeeded. */
  lemma {:induction false} LatchSnoc(before: Webhook, after: Webhook, entry: Attempt)
    requires StatusTellsSuccess(before) && StatusTellsSuccess(after) && after.attempts == before.attempts + [entry]
    ensures Latched(after) <==> !before.status.Success?
  {
    var n := |before.attempts|;
    assert forall k :: 0 <= k < n ==> after.attempts[k] == before.attempts[k];
    assert after.attempts[n] == entry;
  }

  /** The latch holds in a run of calls with stale rows exactly when no call goes out after one that got through. */
  lemma {:induction false} LatchesExactly(status: Status, calls: seq<(Status, Delivery)>)
    requires !status.Success?
    ensures Latched(StaleRun(Webhook(status, []), calls)) <==> NoneTooLate(calls)
    decreases |calls|
  {
    if calls != [] {
      var n := |calls| - 1;
      var init, last := calls[..n], calls[n];
      var before, after := StaleRun(Webhook(status, []), init), StaleRun(Webhook(status, []), calls);
      LatchesExactly(status, init);
      StaleStatusExactly(status, init);
      StaleCallsKeepSuccess(status, init);
      StaleCallsKeepSuccess(status, calls);
      assert forall i :: 0 <= i < n ==> init[i] == calls[i];
      assert NoneTooLate(calls) <==> NoneTooLate(init) && (before.status.Success? ==> last.0.Success?);
      if !last.0.Success? {
        LatchSnoc(before, after, Entry(last.1));
      }
    }
  }

  /** Two overlapping calls that both read the pending row both deliver. */
  lemma {:induction false} OverlappingCallsDeliverTwice(code: int)
    ensures var calls := [(Pending, Delivered(code)), (Pending, Delivered(code))];
            var final := StaleRun(Webhook(Pending, []), calls);
            && final.attempts == [Entry(Delivered(code)), Entry(Delivered(code))]
            && !Latched(final)
  {
    var calls := [(Pending, Delivered(code)), (Pending, Delivered(code))];
    assert calls[..1] == [(Pending, Delivered(code))];
    assert calls[..1][..0] == [];
    assert StaleRun(Webhook(Pending, []), calls[..1]).attempts == [Entry(Delivered(code))];
    assert StaleRun(Webhook(Pending, []), calls).attempts[0].Succeeded();
  }
}
