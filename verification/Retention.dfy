/** How long an accepted id is remembered: until its event was acknowledged and the completion's
    retention ran out, and not a moment less. */
module Retention {
  import opened Telemetry
  import opened Broker
  import opened Transactions
  import opened Histories
  import opened Receipts

  /** The broker holds an accepted event itself, unfinished. */
  predicate Pending(records: Records, data: Payload) {
    var id := data.event.eventId;
    id in records && records[id].phase != Completed && records[id].hash == data
  }

  /** The broker remembers that an accepted event was finished, until `due`. */
  predicate Finished(records: Records, data: Payload, due: int) {
    var id := data.event.eventId;
    InPhase(records, Completed, id) && records[id].hash == data && records[id].due == due
  }

  /** An unfinished event is held through everything but its own completion. */
  lemma {:induction false} PendingKept(s: State, h: History, data: Payload)
    requires Lawful(s, h) && Pending(s.records, data)
    requires forall i :: 0 <= i < |h| && h[i].change.Complete? ==> h[i].change.acked != data.event.eventId
    ensures Pending(Replay(s, h).records, data)
  {
    hide IsFirst;
    if h != [] {
      PendingKept(s, h[..|h| - 1], data);
    }
  }

  /** Step `c` was an ACK of `id` that took effect. */
  ghost predicate AckedAt(s: State, run: seq<Step>, id: string, c: nat)
    requires Inv(s) && PossibleRun(run) && c < |run|
  {
    run[c].call.AckCall? && run[c].call.id == id && ReplyAt(s, run, c) == Done
  }

  /** When the completion of step `c` expires. */
  function Until(step: Step): int {
    step.now + step.options.completionTtl
  }

  /** At step `b`, what was accepted at step `a` is still pending, or was ACKed at a step in
      between and its completion is on record or has expired by time `clock`. */
  ghost predicate Remembered(s: State, run: seq<Step>, a: nat, b: nat, data: Payload, clock: int)
    requires Inv(s) && PossibleRun(run) && b <= |run|
  {
    var records := After(s, run[..b]).records;
    || Pending(records, data)
    || exists c: nat :: a < c < b && AckedAt(s, run, data.event.eventId, c)
         && (Until(run[c]) <= clock || Finished(records, data, Until(run[c])))
  }

  /** What one step can do to a pending event: complete it by an ACK, or leave it pending. */
  lemma PendingStep(s: State, step: Step, data: Payload)
    requires Inv(s) && Possible(step) && Pending(s.records, data)
    ensures var v := Respond(s, step);
            if step.call.AckCall? && step.call.id == data.event.eventId && v.reply == Done
            then Finished(Replay(s, v.journal).records, data, Until(step))
            else Pending(Replay(s, v.journal).records, data)
  {
    hide Inv, Respond, Possible;
    var v := Respond(s, step);
    var expired := JournalShape(s, step);
    if step.call.AckCall? && step.call.id == data.event.eventId && v.reply == Done {
      AckFinishes(s, step, data);
    } else {
      PendingKept(s, v.journal, data);
    }
  }

  lemma AckFinishes(s: State, step: Step, data: Payload)
    requires Inv(s) && Possible(step) && Pending(s.records, data)
    requires step.call.AckCall? && step.call.id == data.event.eventId && Respond(s, step).reply == Done
    ensures Finished(Replay(s, Respond(s, step).journal).records, data, Until(step))
  {
    hide Inv, Possible, Respond, Lawful, Replay;
    AckCompletes(s, step);
  }

  /** What one step can do to a completion: nothing before it expires. */
  lemma FinishedStep(s: State, step: Step, data: Payload, due: int)
    requires Inv(s) && Possible(step) && Finished(s.records, data, due) && step.now < due
    ensures Finished(Replay(s, Respond(s, step).journal).records, data, due)
  {
    hide Inv, Respond, Possible;
    var expired := JournalShape(s, step);
    CompletionKept(s, Respond(s, step).journal, data.event.eventId);
  }

  lemma AcceptLeavesPending(s: State, step: Step, data: Payload)
    requires Inv(s) && Possible(step) && Respond(s, step).reply == Accepted
    requires AcceptedBy(step, Accepted) == Some(data)
    ensures Pending(Replay(s, Respond(s, step).journal).records, data)
  {
    hide Inv, Respond, Possible, Enabled;
    var journal := Respond(s, step).journal;
    var expired := JournalShape(s, step);
    assert journal[..|journal| - 1] == expired;
  }

  lemma {:induction false} RememberedAt(s: State, run: seq<Step>, a: nat, b: nat, data: Payload)
    requires Inv(s) && PossibleRun(run) && OrderedRun(run) && a < b <= |run|
    requires AcceptedBy(run[a], ReplyAt(s, run, a)) == Some(data)
    ensures Remembered(s, run, a, b, data, run[b - 1].now)
  {
    hide Inv, Respond, After, Possible, Lawful, Replay, HistoryOf, Pending, Finished, Until;
    AfterStep(s, run, b - 1);
    var before := After(s, run[..b - 1]);
    assert run[..b - 1 + 1] == run[..b];
    if b == a + 1 {
      AcceptLeavesPending(before, run[a], data);
    } else {
      RememberedAt(s, run, a, b - 1, data);
      if Pending(before.records, data) {
        PendingStep(before, run[b - 1], data);
        assert AckedAt(s, run, data.event.eventId, b - 1) || Pending(After(s, run[..b]).records, data);
      } else {
        var c: nat :| a < c < b - 1 && AckedAt(s, run, data.event.eventId, c)
          && (Until(run[c]) <= run[b - 2].now || Finished(before.records, data, Until(run[c])));
        if run[b - 1].now < Until(run[c]) {
          FinishedStep(before, run[b - 1], data, Until(run[c]));
        }
      }
    }
  }

  /** A publish under a remembered id is a duplicate or a conflict. */
  lemma PublishFinds(s: State, step: Step, data: Payload, due: int)
    requires Inv(s) && Possible(step) && step.call.PublishCall? && step.call.event.eventId == data.event.eventId
    requires Publishable(step.call.event, step.call.encoded, step.options)
    requires Pending(s.records, data) || (Finished(s.records, data, due) && step.now < due)
    ensures Respond(s, step).reply == if AcceptedBy(step, Accepted) == Some(data) then Duplicate else Failed(Conflict)
  {
    hide Inv, ForgetDue, Sweep, Event.Validate;
    var h := Sweep(s, step.call.event.eventId, step.now, step.options.cleanupBatch);
    if Pending(s.records, data) {
      PendingKept(s, h, data);
    } else {
      CompletionKept(s, h, data.event.eventId);
    }
  }

  /** Deduplication: with a clock that never goes back, publishing an accepted id again answers
      duplicate for the same content and conflict for any other, unless the event was ACKed in
      between and the retention of that completion has run out. */
  lemma Deduplicates(s: State, run: seq<Step>, a: nat, b: nat, data: Payload)
    requires Inv(s) && PossibleRun(run) && OrderedRun(run) && a < b < |run|
    requires AcceptedBy(run[a], ReplyAt(s, run, a)) == Some(data)
    requires run[b].call.PublishCall? && run[b].call.event.eventId == data.event.eventId
    requires Publishable(run[b].call.event, run[b].call.encoded, run[b].options)
    ensures || ReplyAt(s, run, b)
            == (if AcceptedBy(run[b], Accepted) == Some(data) then Duplicate else Failed(Conflict))
            || exists c: nat :: a < c < b && AckedAt(s, run, data.event.eventId, c) && Until(run[c]) <= run[b].now
  {
    hide Inv, Respond, After, Possible, Lawful, Replay, HistoryOf, Pending, Finished, Until, Publishable;
    RememberedAt(s, run, a, b, data);
    var before := After(s, run[..b]);
    if Pending(before.records, data) {
      PublishFinds(before, run[b], data, 0);
    } else {
      var c: nat :| a < c < b && AckedAt(s, run, data.event.eventId, c)
        && (Until(run[c]) <= run[b - 1].now || Finished(before.records, data, Until(run[c])));
      if run[b].now < Until(run[c]) {
        PublishFinds(before, run[b], data, Until(run[c]));
      }
    }
  }

  // ---------------------------------------------------------------- the end of retention

  /** Step `i` accepted an event under `id`. */
  ghost predicate AcceptedAt(s: State, run: seq<Step>, id: string, i: nat)
    requires Inv(s) && PossibleRun(run) && i < |run|
  {
    Accepts(run[i], ReplyAt(s, run, i), id)
  }

  predicate Accepts(step: Step, reply: Reply, id: string) {
    AcceptedBy(step, reply).Some? && step.call.event.eventId == id
  }

  /** What `id` stood for is finished: its completion, due at `until`, is on record, or it has
      expired by time `clock` and is gone. */
  predicate Over(records: Records, id: string, until: int, clock: int) {
    if id in records then records[id].phase == Completed && records[id].due == until else until <= clock
  }

  /** Nothing but an admission brings a finished id back. */
  lemma {:induction false} OverKept(s: State, h: History, id: string, until: int, clock: int)
    requires Lawful(s, h) && Over(s.records, id, until, clock)
    requires forall i :: 0 <= i < |h| ==> h[i].now <= clock && (h[i].change.Admit? ==> Subject(h[i].change) != id)
    ensures Over(Replay(s, h).records, id, until, clock)
  {
    hide Before;
    if h != [] {
      OverKept(s, h[..|h| - 1], id, until, clock);
    }
  }

  lemma OverStep(s: State, step: Step, id: string, until: int, clock: int)
    requires Inv(s) && Possible(step) && Over(s.records, id, until, clock) && step.now <= clock
    requires !Accepts(step, Respond(s, step).reply, id)
    ensures Over(Replay(s, Respond(s, step).journal).records, id, until, clock)
  {
    hide Inv, Respond, Possible, Over;
    var expired := JournalShape(s, step);
    OverKept(s, Respond(s, step).journal, id, until, clock);
  }

  lemma {:induction false} OverRun(s: State, run: seq<Step>, from: nat, b: nat, id: string, until: int, clock: int)
    requires Inv(s) && PossibleRun(run) && from <= b <= |run|
    requires Over(After(s, run[..from]).records, id, until, clock)
    requires forall i :: from <= i < b ==> run[i].now <= clock && !AcceptedAt(s, run, id, i)
    ensures Over(After(s, run[..b]).records, id, until, clock)
  {
    hide Inv, Respond, After, Possible, Lawful, Replay, HistoryOf, Over, Accepts;
    if from < b {
      OverRun(s, run, from, b - 1, id, until, clock);
      AfterStep(s, run, b - 1);
      assert run[..b - 1 + 1] == run[..b];
      assert !AcceptedAt(s, run, id, b - 1);
      OverStep(After(s, run[..b - 1]), run[b - 1], id, until, clock);
    }
  }

  /** After an effective ACK the event stays finished until the id is accepted again. */
  lemma OverAfterAck(s: State, run: seq<Step>, c: nat, b: nat, id: string, clock: int)
    requires Inv(s) && PossibleRun(run) && c < b <= |run| && AckedAt(s, run, id, c)
    requires forall i :: c < i < b ==> run[i].now <= clock && !AcceptedAt(s, run, id, i)
    ensures Over(After(s, run[..b]).records, id, Until(run[c]), clock)
  {
    hide Inv, Respond, After, Possible, Lawful, Replay, HistoryOf;
    AfterStep(s, run, c);
    AckCompletes(After(s, run[..c]), run[c]);
    OverRun(s, run, c + 1, b, id, Until(run[c]), clock);
  }

  lemma OverSwept(s: State, id: string, until: int, now: int, n: nat)
    requires Over(s.records, id, until, now)
    ensures var s' := Replay(s, Sweep(s, id, now, n)); id in s'.records <==> now < until
    ensures now < until ==> id in s.records
  {
    hide ForgetDue, Replay, Lawful;
    OverKept(s, ForgetDue(s, now, n), id, until, now);
    if now < until {
      SweepKeeps(s, id, until, now, n);
    }
  }

  lemma SweepKeeps(s: State, id: string, until: int, now: int, n: nat)
    requires Over(s.records, id, until, now) && now < until
    ensures id in s.records && id in Replay(s, Sweep(s, id, now, n)).records
  {
    hide Sweep;
    CompletionKept(s, Sweep(s, id, now, n), id);
  }

  /** Under a finished id a publish is a duplicate or a conflict before its completion expires, and
      neither from then on. */
  lemma PublishUnderFinished(s: State, step: Step, id: string, until: int)
    requires Inv(s) && Possible(step) && step.call.PublishCall? && step.call.event.eventId == id
    requires Publishable(step.call.event, step.call.encoded, step.options)
    requires Over(s.records, id, until, step.now)
    ensures Respond(s, step).reply in {Duplicate, Failed(Conflict)} <==> step.now < until
  {
    hide Inv, Sweep, Event.Validate, Over;
    OverSwept(s, id, until, step.now, step.options.cleanupBatch);
  }

  /** The retention of an acceptance at step `a` has run out by step `b`. */
  ghost predicate RanOut(s: State, run: seq<Step>, a: nat, b: nat, id: string)
    requires Inv(s) && PossibleRun(run) && b < |run|
  {
    exists c: nat :: a < c < b && AckedAt(s, run, id, c) && Until(run[c]) <= run[b].now
  }

  /** The last of the steps before `b` that accepted `id`, if any did. */
  lemma {:induction false} LastAcceptance(s: State, run: seq<Step>, b: nat, id: string) returns (last: Option<nat>)
    requires Inv(s) && PossibleRun(run) && b <= |run|
    ensures last.Some? ==> last.value < b && AcceptedAt(s, run, id, last.value)
    ensures forall i :: 0 <= i < b && (last.Some? ==> last.value < i) ==> !AcceptedAt(s, run, id, i)
  {
    hide Inv, Possible, AcceptedAt;
    if b == 0 {
      last := None;
    } else if AcceptedAt(s, run, id, b - 1) {
      last := Some(b - 1);
    } else {
      last := LastAcceptance(s, run, b - 1, id);
    }
  }

  /** Deduplication, exactly: over any run on a new database whose clock never goes back, a
      publish under `id` is answered duplicate or conflict if and only if the id was accepted
      before and the retention of that acceptance has not run out. */
  lemma DeduplicatesExactly(run: seq<Step>, b: nat, id: string)
    requires PossibleRun(run) && OrderedRun(run) && b < |run|
    requires run[b].call.PublishCall? && run[b].call.event.eventId == id
    requires Publishable(run[b].call.event, run[b].call.encoded, run[b].options)
    ensures Inv(EMPTY)
    ensures ReplyAt(EMPTY, run, b) in {Duplicate, Failed(Conflict)}
       <==> exists a: nat :: a < b && AcceptedAt(EMPTY, run, id, a) && !RanOut(EMPTY, run, a, b, id)
  {
    EmptyInv();
    hide Inv, Possible, Publishable, ReplyAt, RanOut, AcceptedAt, After, Respond;
    if a: nat :| a < b && AcceptedAt(EMPTY, run, id, a) && !RanOut(EMPTY, run, a, b, id) {
      StillRetained(EMPTY, run, a, b, id);
    }
    var last := LastAcceptance(EMPTY, run, b, id);
    if last.None? {
      NeverAccepted(run, b, id);
    } else if RanOut(EMPTY, run, last.value, b, id) {
      NotRetained(EMPTY, run, last.value, b, id);
    }
  }

  lemma StillRetained(s: State, run: seq<Step>, a: nat, b: nat, id: string)
    requires Inv(s) && PossibleRun(run) && OrderedRun(run) && a < b < |run|
    requires AcceptedAt(s, run, id, a) && !RanOut(s, run, a, b, id)
    requires run[b].call.PublishCall? && run[b].call.event.eventId == id
    requires Publishable(run[b].call.event, run[b].call.encoded, run[b].options)
    ensures ReplyAt(s, run, b) in {Duplicate, Failed(Conflict)}
  {
    hide Inv, Possible, Publishable, ReplyAt, Until, After, Respond;
    Deduplicates(s, run, a, b, AcceptedBy(run[a], ReplyAt(s, run, a)).value);
  }

  lemma NotRetained(s: State, run: seq<Step>, a: nat, b: nat, id: string)
    requires Inv(s) && PossibleRun(run) && OrderedRun(run) && a < b < |run| && RanOut(s, run, a, b, id)
    requires forall i :: a < i < b ==> !AcceptedAt(s, run, id, i)
    requires run[b].call.PublishCall? && run[b].call.event.eventId == id
    requires Publishable(run[b].call.event, run[b].call.encoded, run[b].options)
    ensures ReplyAt(s, run, b) !in {Duplicate, Failed(Conflict)}
  {
    hide Inv, Possible, Publishable, Until, After, Respond, AckedAt, AcceptedAt, Over;
    var c: nat :| a < c < b && AckedAt(s, run, id, c) && Until(run[c]) <= run[b].now;
    OverAfterAck(s, run, c, b, id, run[b].now);
    PublishUnderFinished(After(s, run[..b]), run[b], id, Until(run[c]));
  }

  lemma NeverAccepted(run: seq<Step>, b: nat, id: string)
    requires Inv(EMPTY) && PossibleRun(run) && OrderedRun(run) && b < |run|
    requires forall i :: 0 <= i < b ==> !AcceptedAt(EMPTY, run, id, i)
    requires run[b].call.PublishCall? && run[b].call.event.eventId == id
    requires Publishable(run[b].call.event, run[b].call.encoded, run[b].options)
    ensures ReplyAt(EMPTY, run, b) !in {Duplicate, Failed(Conflict)}
  {
    hide Inv, Possible, Publishable, After, Respond, AcceptedAt;
    AfterNothing(EMPTY);
    assert run[..0] == [];
    OverRun(EMPTY, run, 0, b, id, run[b].now, run[b].now);
    PublishUnderFinished(After(EMPTY, run[..b]), run[b], id, run[b].now);
  }

  // ---------------------------------------------------------------- delivery after a completion

  /** A finished event is not delivered. */
  lemma FinishedNotDelivered(s: State, step: Step, id: string, until: int)
    requires Inv(s) && Possible(step) && Over(s.records, id, until, step.now)
    ensures !(Respond(s, step).reply.Delivered? && Respond(s, step).reply.delivery.Id() == id)
  {
    hide Inv, Respond, Possible;
    var v := Respond(s, step);
    var expired := JournalShape(s, step);
    if v.reply.Delivered? && v.reply.delivery.Id() == id {
      assert v.journal[..|v.journal| - 1] == expired;
      OverKept(s, expired, id, until, step.now);
    }
  }

  /** An id is accepted over a finished event only once the completion has expired. */
  lemma AcceptedOverFinished(s: State, step: Step, id: string, until: int)
    requires Inv(s) && Possible(step) && Over(s.records, id, until, step.now)
    requires Accepts(step, Respond(s, step).reply, id)
    ensures until <= step.now
  {
    hide Sweep, Event.Validate, Over, Inv;
    OverSwept(s, id, until, step.now, step.options.cleanupBatch);
  }

  /** Step `e`, after the ACK at step `c`, accepted the id afresh, once the completion had expired. */
  ghost predicate AcceptedAfresh(s: State, run: seq<Step>, id: string, c: nat, e: nat)
    requires Inv(s) && PossibleRun(run) && c < |run| && e < |run|
  {
    c < e && AcceptedAt(s, run, id, e) && Until(run[c]) <= run[e].now
  }

  /** An event that was ACKed is delivered again only after its id was accepted afresh. */
  lemma DeliveredAfresh(s: State, run: seq<Step>, id: string, c: nat, b: nat)
    requires Inv(s) && PossibleRun(run) && OrderedRun(run) && c < b < |run| && AckedAt(s, run, id, c)
    requires ReplyAt(s, run, b).Delivered? && ReplyAt(s, run, b).delivery.Id() == id
    ensures exists e: nat :: c < e < b && AcceptedAfresh(s, run, id, c, e)
  {
    hide Inv, Possible, Until, After, Respond, AckedAt, AcceptedAt, Over;
    var e := FirstAcceptance(s, run, c + 1, b, id);
    OverAfterAck(s, run, c, e, id, run[e].now);
    var before := After(s, run[..e]);
    if e == b {
      FinishedNotDelivered(before, run[b], id, Until(run[c]));
    } else {
      AcceptsAt(s, run, id, e);
      AcceptedOverFinished(before, run[e], id, Until(run[c]));
      assert AcceptedAfresh(s, run, id, c, e);
    }
  }

  lemma AcceptsAt(s: State, run: seq<Step>, id: string, e: nat)
    requires Inv(s) && PossibleRun(run) && e < |run| && AcceptedAt(s, run, id, e)
    ensures Accepts(run[e], Respond(After(s, run[..e]), run[e]).reply, id)
  {
  }

  lemma {:induction false} FirstAcceptance(s: State, run: seq<Step>, from: nat, b: nat, id: string) returns (first: nat)
    requires Inv(s) && PossibleRun(run) && from <= b <= |run|
    ensures from <= first <= b && (first < b ==> AcceptedAt(s, run, id, first))
    ensures forall i :: from <= i < first ==> !AcceptedAt(s, run, id, i)
    decreases b - from
  {
    hide Inv, Possible, AcceptedAt;
    if from == b || AcceptedAt(s, run, id, from) {
      first := from;
    } else {
      first := FirstAcceptance(s, run, from + 1, b, id);
    }
  }

  // ---------------------------------------------------------------- which events are held

  /** Some step after `a` ACKed `id` to effect. */
  ghost predicate AckedAfter(s: State, run: seq<Step>, a: nat, id: string)
    requires Inv(s) && PossibleRun(run)
  {
    exists c: nat :: a < c < |run| && AckedAt(s, run, id, c)
  }

  lemma {:induction false} PendingUntilAcked(s: State, run: seq<Step>, a: nat, b: nat, data: Payload)
    requires Inv(s) && PossibleRun(run) && a < b <= |run|
    requires AcceptedBy(run[a], ReplyAt(s, run, a)) == Some(data)
    requires forall c :: a < c < b ==> !AckedAt(s, run, data.event.eventId, c)
    ensures Pending(After(s, run[..b]).records, data)
  {
    hide Inv, Respond, After, Possible, Lawful, Replay, HistoryOf, Pending, Finished;
    AfterStep(s, run, b - 1);
    var before := After(s, run[..b - 1]);
    assert run[..b - 1 + 1] == run[..b];
    if b == a + 1 {
      AcceptLeavesPending(before, run[a], data);
    } else {
      PendingUntilAcked(s, run, a, b - 1, data);
      assert !AckedAt(s, run, data.event.eventId, b - 1);
      PendingStep(before, run[b - 1], data);
    }
  }

  /** A time no step of the run is later than. */
  function Latest(run: seq<Step>): (latest: int)
    ensures forall i :: 0 <= i < |run| ==> run[i].now <= latest
  {
    if run == [] then 0
    else
      var prior, now := Latest(run[..|run| - 1]), run[|run| - 1].now;
      if prior < now then now else prior
  }

  /** What is not pending after its last acceptance and an ACK, or without any acceptance. */
  lemma NotPending(s: State, run: seq<Step>, last: Option<nat>, id: string)
    requires Inv(s) && PossibleRun(run)
    requires last.Some? ==> last.value < |run| && AckedAfter(s, run, last.value, id)
    requires last.None? ==> id !in s.records
    requires forall i :: 0 <= i < |run| && (last.Some? ==> last.value < i) ==> !AcceptedAt(s, run, id, i)
    ensures id in After(s, run).records ==> After(s, run).records[id].phase == Completed
  {
    hide Inv, Possible, After, AckedAt, AcceptedAt, Until;
    var latest := Latest(run);
    assert run[..|run|] == run;
    match last
    case Some(a) =>
      var c: nat :| a < c < |run| && AckedAt(s, run, id, c);
      OverAfterAck(s, run, c, |run|, id, latest);
    case None =>
      AfterNothing(s);
      assert run[..0] == [];
      OverRun(s, run, 0, |run|, id, latest, latest);
  }

  /** Conservation, event by event: over any run on a new database the broker holds `data`
      unfinished if and only if a step accepted it and no later step ACKed its id. */
  lemma PendingExactly(run: seq<Step>, data: Payload)
    requires PossibleRun(run)
    ensures Inv(EMPTY)
    ensures Pending(After(EMPTY, run).records, data)
       <==> exists a: nat :: a < |run| && AcceptedBy(run[a], ReplyAt(EMPTY, run, a)) == Some(data)
                             && !AckedAfter(EMPTY, run, a, data.event.eventId)
  {
    EmptyInv();
    hide Inv, Possible, After, ReplyAt, AckedAt;
    assert run[..|run|] == run;
    if a: nat :| a < |run| && AcceptedBy(run[a], ReplyAt(EMPTY, run, a)) == Some(data)
                 && !AckedAfter(EMPTY, run, a, data.event.eventId) {
      PendingUntilAcked(EMPTY, run, a, |run|, data);
    }
    if Pending(After(EMPTY, run).records, data) {
      var id := data.event.eventId;
      var last := LastAcceptance(EMPTY, run, |run|, id);
      if last.None? || AckedAfter(EMPTY, run, last.value, id) {
        NotPending(EMPTY, run, last, id);
      } else {
        HeldIsAccepted(EMPTY, run, last.value, data);
      }
    }
  }

  lemma HeldIsAccepted(s: State, run: seq<Step>, a: nat, data: Payload)
    requires Inv(s) && PossibleRun(run) && a < |run| && AcceptedAt(s, run, data.event.eventId, a)
    requires !AckedAfter(s, run, a, data.event.eventId) && Pending(After(s, run).records, data)
    ensures AcceptedBy(run[a], ReplyAt(s, run, a)) == Some(data)
  {
    hide Inv, Possible, After, ReplyAt, AckedAt;
    assert run[..|run|] == run;
    PendingUntilAcked(s, run, a, |run|, AcceptedBy(run[a], ReplyAt(s, run, a)).value);
  }
}
