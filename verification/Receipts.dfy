/** Receipts may be repeated: when a reply is lost, the same ACK or NACK reports a duplicate
    and changes nothing. */
module Receipts {
  import opened Telemetry
  import opened Broker
  import opened Transactions
  import opened Histories

  // ---------------------------------------------------------------- ACK

  /** A completion stays as it is until it expires. */
  lemma {:induction false} CompletionKept(s: State, h: History, id: string)
    requires Lawful(s, h) && InPhase(s.records, Completed, id)
    requires forall i :: 0 <= i < |h| ==> h[i].now < s.records[id].due
    ensures var records' := Replay(s, h).records; id in records' && records'[id] == s.records[id]
  {
    hide IsFirst;
    if h != [] {
      CompletionKept(s, h[..|h| - 1], id);
    }
  }

  /** The record an ACK leaves. */
  lemma AckCompletes(s: State, step: Step)
    requires Inv(s) && Possible(step) && step.call.AckCall? && Respond(s, step).reply == Done
    ensures var id, records' := step.call.id, Replay(s, Respond(s, step).journal).records;
            && InPhase(records', Completed, id) && records'[id].token == step.call.receipt
            && records'[id].due == step.now + step.options.completionTtl
            && ValidReceipt(id, step.call.receipt)
            && id in s.records && records'[id].hash == s.records[id].hash
  {
    hide Inv, Tally, Lawful, Replay, WellFormed;
    Nothing(s);
    assert HoldsLease(s, step.call.id, step.call.receipt, step.now);
  }

  lemma AckOfCompletion(s: State, step: Step)
    requires Inv(s) && Possible(step) && step.call.AckCall? && ValidReceipt(step.call.id, step.call.receipt)
    requires InPhase(s.records, Completed, step.call.id) && s.records[step.call.id].token == step.call.receipt
    ensures Respond(s, step) == if step.now < s.records[step.call.id].due then Verdict(Duplicate, [])
                                else Refused(StaleLease)
  {
    hide Inv, Lawful, Replay, Commit;
  }

  /** An ACK that took effect at step `a` is still on record at step `b`, as long as no step
      in between reads a time past its retention. */
  lemma {:induction false} AckRemembered(s: State, run: seq<Step>, a: nat, b: nat)
    requires Inv(s) && PossibleRun(run) && a < b <= |run|
    requires run[a].call.AckCall? && ReplyAt(s, run, a) == Done
    requires forall i :: a < i < b ==> run[i].now < run[a].now + run[a].options.completionTtl
    ensures var id, records' := run[a].call.id, After(s, run[..b]).records;
            && InPhase(records', Completed, id) && records'[id].token == run[a].call.receipt
            && records'[id].due == run[a].now + run[a].options.completionTtl
            && ValidReceipt(id, run[a].call.receipt)
  {
    hide Inv, Respond, After, Possible, Lawful, Replay, HistoryOf;
    AfterStep(s, run, b - 1);
    var before := After(s, run[..b - 1]);
    assert run[..b - 1 + 1] == run[..b];
    if b == a + 1 {
      AckCompletes(before, run[a]);
    } else {
      AckRemembered(s, run, a, b - 1);
      var expired := JournalShape(before, run[b - 1]);
      CompletionKept(before, Respond(before, run[b - 1]).journal, run[a].call.id);
    }
  }

  /** Repeating a successful ACK before its completion expires reports a duplicate and
      changes nothing at all, whatever happened in between; afterwards it is stale. */
  lemma AckRepeats(s: State, run: seq<Step>, a: nat, b: nat)
    requires Inv(s) && PossibleRun(run) && a < b < |run|
    requires run[a].call.AckCall? && ReplyAt(s, run, a) == Done && run[b].call == run[a].call
    requires forall i :: a < i < b ==> run[i].now < run[a].now + run[a].options.completionTtl
    ensures ReplyAt(s, run, b) == if run[b].now < run[a].now + run[a].options.completionTtl then Duplicate
                                  else Failed(StaleLease)
    ensures After(s, run[..b + 1]) == After(s, run[..b])
  {
    hide Inv, Respond, After, Possible, Lawful, HistoryOf;
    AckRemembered(s, run, a, b);
    AfterStep(s, run, b);
    AckOfCompletion(After(s, run[..b]), run[b]);
  }

  // ---------------------------------------------------------------- NACK

  /** The last change of a history that is about `id`. */
  ghost function LastOn(h: History, id: string): Option<Change> {
    if h == [] then None
    else if Subject(h[|h| - 1].change) == id then Some(h[|h| - 1].change)
    else LastOn(h[..|h| - 1], id)
  }

  /** The NACK a change leaves on its record. */
  function NackOf(c: Option<Change>): Option<NackRequest> {
    match c
    case Some(Requeue(n, _)) => Some(n)
    case Some(Quarantine(n)) => Some(n)
    case _ => None
  }

  /** A NACK is on record exactly when it was the last thing that happened to the event. */
  lemma {:induction false} NackIsLast(h: History, id: string)
    requires Lawful(EMPTY, h) && id in Replay(EMPTY, h).records
    ensures Replay(EMPTY, h).records[id].lastNack == NackOf(LastOn(h, id))
  {
    hide Inv, Enabled, Commit, NackOf;
    if h != [] {
      var n := |h| - 1;
      EmptyInv();
      ReplayInv(EMPTY, h[..n]);
      NackAfter(Replay(EMPTY, h[..n]), h[n].change, h[n].now, id);
      if Subject(h[n].change) != id {
        NackIsLast(h[..n], id);
      }
    }
  }

  lemma NackAfter(s: State, c: Change, now: int, id: string)
    requires Inv(s) && Enabled(s, c, now) && id in Commit(s, c, now).records
    ensures if Subject(c) == id then Commit(s, c, now).records[id].lastNack == NackOf(Some(c))
            else id in s.records && Commit(s, c, now).records[id] == s.records[id]
  {
    if !c.Admit? {
      RecordWellFormed(s, Subject(c));
    }
    hide Inv;
  }

  /** How often `id` was delivered since it was last accepted. */
  ghost function DeliveriesOn(h: History, id: string): nat {
    if h == [] then 0
    else
      var c, before := h[|h| - 1].change, DeliveriesOn(h[..|h| - 1], id);
      if Subject(c) != id then before
      else if c.Admit? then 0
      else if c.Deliver? then before + 1
      else before
  }

  /** The attempts on record are the deliveries since the event was accepted: a record has none
      exactly when its event was never delivered. */
  lemma {:induction false} AttemptsAreDeliveries(h: History, id: string)
    requires Lawful(EMPTY, h) && id in Replay(EMPTY, h).records
    ensures Replay(EMPTY, h).records[id].attempt == DeliveriesOn(h, id)
  {
    hide Inv, Enabled, Commit;
    if h != [] {
      var n := |h| - 1;
      AttemptAfter(Replay(EMPTY, h[..n]), h[n].change, h[n].now, id);
      if id in Replay(EMPTY, h[..n]).records {
        AttemptsAreDeliveries(h[..n], id);
      }
    }
  }

  lemma AttemptAfter(s: State, c: Change, now: int, id: string)
    requires Enabled(s, c, now) && id in Commit(s, c, now).records
    ensures var attempt := Commit(s, c, now).records[id].attempt;
            if Subject(c) == id && c.Admit? then attempt == 0
            else id in s.records
                 && attempt == s.records[id].attempt + if Subject(c) == id && c.Deliver? then 1 else 0
  {
    hide Before;
  }

  /** A ready or quarantined record keeps its last NACK until it is delivered again. */
  lemma {:induction false} NackKept(s: State, h: History, id: string)
    requires Inv(s) && Lawful(s, h) && (InPhase(s.records, Ready, id) || InPhase(s.records, Quarantined, id))
    requires forall i :: 0 <= i < |h| && h[i].change.Deliver? ==> h[i].change.delivery.Id() != id
    ensures var records' := Replay(s, h).records; id in records' && records'[id] == s.records[id]
  {
    hide Inv;
    if h != [] {
      NackKept(s, h[..|h| - 1], id);
    }
  }

  /** The record a NACK leaves: quarantined, or ready again at `retryAt`. */
  ghost predicate OnRecord(records: Records, n: NackRequest, retryAt: int) {
    && ValidNack(n) && n.eventId in records
    && var r := records[n.eventId];
       && (if n.permanent then r.phase == Quarantined && r.due == 0 else r.phase == Ready && r.due == retryAt)
       && r.lastNackToken == n.token && r.lastNack == Some(n) && r.reason == n.reason
  }

  /** When a NACKed event may be delivered again. */
  function RetryAt(step: Step): int
    requires step.call.NackCall?
  {
    step.now + step.call.nack.delayMillis * MILLISECOND
  }

  lemma NackRecords(s: State, step: Step)
    requires Inv(s) && Possible(step) && step.call.NackCall? && Respond(s, step).reply == Done
    ensures OnRecord(Replay(s, Respond(s, step).journal).records, step.call.nack, RetryAt(step))
  {
    hide Inv, Tally, Lawful, Replay, WellFormed;
    Nothing(s);
    assert HoldsLease(s, step.call.nack.eventId, step.call.nack.token, step.now);
  }

  lemma NackOfRecord(s: State, step: Step, n: NackRequest, retryAt: int)
    requires Inv(s) && Possible(step) && step.call.NackCall? && ValidNack(step.call.nack)
    requires OnRecord(s.records, n, retryAt) && step.call.nack.eventId == n.eventId && step.call.nack.token == n.token
    ensures Respond(s, step) == if step.call.nack == n then Verdict(Duplicate, []) else Refused(Conflict)
  {
    hide Inv, Tally, Lawful, Replay, Commit;
  }

  /** Step `i` delivered the event that step `a` NACKed. */
  ghost predicate Redelivers(s: State, run: seq<Step>, a: nat, i: nat)
    requires Inv(s) && PossibleRun(run) && a < |run| && i < |run| && run[a].call.NackCall?
  {
    ReplyAt(s, run, i).Delivered? && ReplyAt(s, run, i).delivery.Id() == run[a].call.nack.eventId
  }

  lemma {:induction false} NackRemembered(s: State, run: seq<Step>, a: nat, b: nat)
    requires Inv(s) && PossibleRun(run) && a < b <= |run|
    requires run[a].call.NackCall? && ReplyAt(s, run, a) == Done
    requires forall i :: a < i < b ==> !Redelivers(s, run, a, i)
    ensures OnRecord(After(s, run[..b]).records, run[a].call.nack, RetryAt(run[a]))
  {
    hide Inv, Respond, After, Possible, Lawful, Replay, HistoryOf, ValidNack, RetryAt;
    AfterStep(s, run, b - 1);
    var before := After(s, run[..b - 1]);
    assert run[..b - 1 + 1] == run[..b];
    if b == a + 1 {
      NackRecords(before, run[a]);
    } else {
      NackRemembered(s, run, a, b - 1);
      var expired := JournalShape(before, run[b - 1]);
      assert !Redelivers(s, run, a, b - 1);
      NackKept(before, Respond(before, run[b - 1]).journal, run[a].call.nack.eventId);
    }
  }

  /** Until the event is delivered again, repeating a successful NACK reports a duplicate, and
      a different NACK with the same token is a conflict. Neither changes anything. */
  lemma NackRepeats(s: State, run: seq<Step>, a: nat, b: nat)
    requires Inv(s) && PossibleRun(run) && a < b < |run|
    requires run[a].call.NackCall? && ReplyAt(s, run, a) == Done
    requires run[b].call.NackCall? && ValidNack(run[b].call.nack)
    requires run[b].call.nack.eventId == run[a].call.nack.eventId && run[b].call.nack.token == run[a].call.nack.token
    requires forall i :: a < i < b ==> !Redelivers(s, run, a, i)
    ensures ReplyAt(s, run, b) == if run[b].call == run[a].call then Duplicate else Failed(Conflict)
    ensures After(s, run[..b + 1]) == After(s, run[..b])
  {
    hide Inv, Respond, After, Possible, Lawful, HistoryOf, ValidNack;
    NackRemembered(s, run, a, b);
    AfterStep(s, run, b);
    NackOfRecord(After(s, run[..b]), run[b], run[a].call.nack, RetryAt(run[a]));
  }

  // ---------------------------------------------------------------- what a NACK decides

  lemma DeliveredWasDue(s: State, step: Step, n: NackRequest, retryAt: int)
    requires Inv(s) && Possible(step) && OnRecord(s.records, n, retryAt)
    requires Respond(s, step).reply.Delivered? && Respond(s, step).reply.delivery.Id() == n.eventId
    ensures !n.permanent && retryAt <= step.now
  {
    hide Inv, Respond, Possible;
    var journal := Respond(s, step).journal;
    var expired := JournalShape(s, step);
    assert journal[..|journal| - 1] == expired;
    NackKept(s, expired, n.eventId);
  }

  /** A retry NACK's delay is respected: the next delivery comes no earlier than it asked. */
  lemma RetryWaits(s: State, run: seq<Step>, a: nat, b: nat)
    requires Inv(s) && PossibleRun(run) && a < b < |run|
    requires run[a].call.NackCall? && ReplyAt(s, run, a) == Done
    requires (forall i :: a < i < b ==> !Redelivers(s, run, a, i)) && Redelivers(s, run, a, b)
    ensures !run[a].call.nack.permanent && RetryAt(run[a]) <= run[b].now
  {
    hide Inv, Respond, After, Possible, Lawful, HistoryOf, OnRecord;
    NackRemembered(s, run, a, b);
    DeliveredWasDue(After(s, run[..b]), run[b], run[a].call.nack, RetryAt(run[a]));
  }

  /** Quarantine is final: after a permanent NACK the event is never delivered again, and its
      record, payload included, stays. */
  lemma {:induction false} QuarantineIsFinal(s: State, run: seq<Step>, a: nat, b: nat)
    requires Inv(s) && PossibleRun(run) && a < b < |run|
    requires run[a].call.NackCall? && ReplyAt(s, run, a) == Done && run[a].call.nack.permanent
    ensures !Redelivers(s, run, a, b)
    ensures InPhase(After(s, run[..b]).records, Quarantined, run[a].call.nack.eventId)
  {
    hide Inv, Respond, After, Possible, Lawful, HistoryOf, ReplyAt;
    forall i | a < i < b ensures !Redelivers(s, run, a, i) {
      QuarantineIsFinal(s, run, a, i);
    }
    NackRemembered(s, run, a, b);
    if Redelivers(s, run, a, b) {
      RetryWaits(s, run, a, b);
    }
  }
}
