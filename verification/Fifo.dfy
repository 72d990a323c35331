/** First deliveries happen in the order of acceptance, whatever delays, expiries and
    redeliveries come between them. */
module Fifo {
  import opened Telemetry
  import opened Broker
  import opened Transactions
  import opened Histories

  /** The event accepted as number `q` is still waiting for its first delivery. */
  ghost predicate Waiting(s: State, accepted: seq<Payload>, q: nat)
    requires q < |accepted|
  {
    var id := accepted[q].event.eventId;
    && InPhase(s.records, Ready, id)
    && s.records[id].attempt == 0 && s.records[id].sequence == q + 1 && s.records[id].hash == accepted[q]
  }

  ghost function DueOf(s: State, accepted: seq<Payload>, q: nat): int
    requires q < |accepted| && Waiting(s, accepted, q)
  {
    s.records[accepted[q].event.eventId].due
  }

  /** Exactly the events after the first `|firsts|` accepted ones await a first delivery,
      and they came due in the order they were accepted. */
  ghost predicate InOrder(s: State, accepted: seq<Payload>, firsts: seq<Payload>, clock: int) {
    && s.sequence == |accepted|
    && firsts <= accepted
    && (forall q :: |firsts| <= q < |accepted| ==> Waiting(s, accepted, q) && DueOf(s, accepted, q) <= clock)
    && (forall p, q :: |firsts| <= p < q < |accepted| ==> DueOf(s, accepted, p) <= DueOf(s, accepted, q))
    && (forall id :: id in s.records && s.records[id].attempt == 0 ==> s.records[id].sequence > |firsts|)
  }

  /** A first delivery can only be that of the earliest accepted event still waiting. */
  lemma NextInLine(s: State, accepted: seq<Payload>, firsts: seq<Payload>, clock: int, id: string)
    requires Inv(s) && InOrder(s, accepted, firsts, clock)
    requires IsFirst(s.records, Ready, id) && s.records[id].attempt == 0
    ensures |firsts| < |accepted| && id == accepted[|firsts|].event.eventId
  {
    var q := s.records[id].sequence - 1;
    assert Waiting(s, accepted, q);
    assert accepted[q].event.eventId == id;
    if q > |firsts| {
      assert DueOf(s, accepted, |firsts|) <= DueOf(s, accepted, q);
      assert Before(KeyOf(s.records[accepted[|firsts|].event.eventId]), KeyOf(s.records[id]));
    }
  }

  lemma InOrderAdmit(s: State, data: Payload, accepted: seq<Payload>, firsts: seq<Payload>, clock: int, now: int)
    requires Inv(s) && InOrder(s, accepted, firsts, clock)
    requires Enabled(s, Admit(data), now) && clock <= now
    ensures InOrder(Commit(s, Admit(data), now), accepted + [data], firsts, now)
  {
    var s', accepted' := Commit(s, Admit(data), now), accepted + [data];
    forall q | |firsts| <= q < |accepted'|
      ensures Waiting(s', accepted', q)
      ensures DueOf(s', accepted', q) == if q < |accepted| then DueOf(s, accepted, q) else now
    {
      if q < |accepted| {
        assert Waiting(s, accepted, q);
      }
    }
  }

  /** The states agree on every record but that of `id`. */
  ghost predicate SameBut(s: State, s': State, id: string) {
    && s'.sequence == s.sequence
    && forall j :: j != id ==>
         && (j in s'.records <==> j in s.records)
         && (j in s.records ==> s'.records[j] == s.records[j])
  }

  /** The order is kept when a record that waits no more changes. */
  lemma InOrderKept(s: State, s': State, id: string, accepted: seq<Payload>, firsts: seq<Payload>,
                    firsts': seq<Payload>, clock: int, now: int)
    requires InOrder(s, accepted, firsts, clock) && clock <= now && SameBut(s, s', id)
    requires firsts' <= accepted && |firsts| <= |firsts'| && (id in s'.records ==> s'.records[id].attempt > 0)
    requires forall q :: |firsts'| <= q < |accepted| ==> accepted[q].event.eventId != id
    requires forall j :: j != id && j in s.records && s.records[j].attempt == 0 ==> s.records[j].sequence > |firsts'|
    ensures InOrder(s', accepted, firsts', now)
  {
    forall q | |firsts'| <= q < |accepted|
      ensures Waiting(s', accepted, q) && DueOf(s', accepted, q) == DueOf(s, accepted, q)
    {
      assert Waiting(s, accepted, q);
    }
  }

  /** A record delivered before does not wait. */
  lemma NotWaiting(s: State, id: string, accepted: seq<Payload>, firsts: seq<Payload>, clock: int)
    requires InOrder(s, accepted, firsts, clock) && id in s.records && s.records[id].attempt > 0
    ensures forall q :: |firsts| <= q < |accepted| ==> accepted[q].event.eventId != id
  {
    forall q | |firsts| <= q < |accepted| ensures accepted[q].event.eventId != id {
      assert Waiting(s, accepted, q);
    }
  }

  /** A first delivery takes the first event in line; the others came after it. */
  lemma FirstInLine(s: State, d: Delivery, accepted: seq<Payload>, firsts: seq<Payload>, clock: int, now: int)
    requires Inv(s) && InOrder(s, accepted, firsts, clock)
    requires Enabled(s, Deliver(d), now) && d.attempt == 1
    ensures |firsts| < |accepted| && firsts + [d.data] <= accepted
    ensures forall q :: |firsts| < q < |accepted| ==> accepted[q].event.eventId != d.Id()
    ensures forall j :: j != d.Id() && j in s.records && s.records[j].attempt == 0 ==>
              s.records[j].sequence > |firsts| + 1
  {
    NextInLine(s, accepted, firsts, clock, d.Id());
    assert Waiting(s, accepted, |firsts|);
    RecordWellFormed(s, d.Id());
    hide IsFirst, KeyOf;
    forall q | |firsts| < q < |accepted| ensures accepted[q].event.eventId != d.Id() {
      assert Waiting(s, accepted, q);
    }
  }

  lemma InOrderFirst(s: State, d: Delivery, accepted: seq<Payload>, firsts: seq<Payload>, clock: int, now: int)
    requires Inv(s) && InOrder(s, accepted, firsts, clock)
    requires Enabled(s, Deliver(d), now) && clock <= now && d.attempt == 1
    ensures InOrder(Commit(s, Deliver(d), now), accepted, firsts + [d.data], now)
  {
    assert d.Id() in s.records;
    hide Inv, Enabled, Commit;
    FirstInLine(s, d, accepted, firsts, clock, now);
    DeliveredFirst(s, d, now);
    InOrderKept(s, Commit(s, Deliver(d), now), d.Id(), accepted, firsts, firsts + [d.data], clock, now);
  }

  /** A change of an existing record leaves the others alone. */
  lemma OneRecordChanges(s: State, c: Change, now: int)
    requires !c.Admit? && Subject(c) in s.records
    ensures var s', id, r := Commit(s, c, now), Subject(c), Rewrite(s, c, now);
            && SameBut(s, s', id)
            && (id in s'.records <==> r.Some?)
            && (r.Some? ==> s'.records[id] == r.value)
  {
    hide Rewrite, Subject;
  }

  lemma DeliveredFirst(s: State, d: Delivery, now: int)
    requires d.Id() in s.records
    ensures var s' := Commit(s, Deliver(d), now);
            SameBut(s, s', d.Id()) && d.Id() in s'.records && s'.records[d.Id()].attempt > 0
  {
    hide SameBut, Commit;
    OneRecordChanges(s, Deliver(d), now);
  }

  lemma AttemptedBefore(s: State, c: Change, now: int)
    requires Inv(s) && Enabled(s, c, now) && !c.Admit? && !(c.Deliver? && c.delivery.attempt == 1)
    ensures var s', id := Commit(s, c, now), Subject(c);
            && id in s.records && s.records[id].attempt > 0 && SameBut(s, s', id)
            && (id in s'.records ==> s'.records[id].attempt > 0)
  {
    RecordWellFormed(s, Subject(c));
    hide Inv, SameBut, Commit, Before;
    OneRecordChanges(s, c, now);
  }

  lemma InOrderOther(s: State, c: Change, accepted: seq<Payload>, firsts: seq<Payload>, clock: int, now: int)
    requires Inv(s) && InOrder(s, accepted, firsts, clock)
    requires Enabled(s, c, now) && clock <= now && !c.Admit? && !(c.Deliver? && c.delivery.attempt == 1)
    ensures InOrder(Commit(s, c, now), accepted, firsts, now)
  {
    hide Inv, Enabled, Commit;
    AttemptedBefore(s, c, now);
    NotWaiting(s, Subject(c), accepted, firsts, clock);
    InOrderKept(s, Commit(s, c, now), Subject(c), accepted, firsts, firsts, clock, now);
  }

  lemma InOrderCommit(s: State, e: Entry, accepted: seq<Payload>, firsts: seq<Payload>, clock: int)
    requires Inv(s) && InOrder(s, accepted, firsts, clock)
    requires Enabled(s, e.change, e.now) && clock <= e.now
    ensures InOrder(Commit(s, e.change, e.now),
                    accepted + match AdmittedIn(e) { case Some(p) => [p] case None => [] },
                    firsts + match FirstDeliveredIn(e) { case Some(p) => [p] case None => [] }, e.now)
  {
    hide Inv, InOrder, Enabled, Commit;
    assert accepted + [] == accepted && firsts + [] == firsts;
    if e.change.Admit? {
      InOrderAdmit(s, e.change.data, accepted, firsts, clock, e.now);
    } else if e.change.Deliver? && e.change.delivery.attempt == 1 {
      InOrderFirst(s, e.change.delivery, accepted, firsts, clock, e.now);
    } else {
      InOrderOther(s, e.change, accepted, firsts, clock, e.now);
    }
  }

  lemma {:induction false} HistoryInOrder(h: History, clock: int)
    requires Lawful(EMPTY, h) && Ordered(h) && (forall i :: 0 <= i < |h| ==> h[i].now <= clock)
    ensures InOrder(Replay(EMPTY, h), Pick(h, AdmittedIn), Pick(h, FirstDeliveredIn), clock)
  {
    hide Inv, Enabled;
    if h != [] {
      var n := |h| - 1;
      HistoryInOrder(h[..n], h[n].now);
      EmptyInv();
      ReplayInv(EMPTY, h[..n]);
      InOrderCommit(Replay(EMPTY, h[..n]), h[n], Pick(h[..n], AdmittedIn), Pick(h[..n], FirstDeliveredIn), h[n].now);
    }
  }

  /** FIFO of first deliveries: over any run on a new database whose clock never goes
      back, the events delivered a first time are the events accepted, in order. */
  lemma {:induction false} FirstDeliveriesAreFifo(run: seq<Step>)
    requires PossibleRun(run) && OrderedRun(run)
    ensures Inv(EMPTY) && Observed(EMPTY, run, FirstDeliveredBy) <= Observed(EMPTY, run, AcceptedBy)
  {
    EmptyInv();
    hide Matching, Inv, Lawful, Replay, HistoryOf, Respond, Observed;
    AcceptanceMatches();
    DeliveryMatches();
    ObservedIsCommitted(EMPTY, run, AdmittedIn, AcceptedBy);
    ObservedIsCommitted(EMPTY, run, FirstDeliveredIn, FirstDeliveredBy);
    if run != [] {
      HistoryOrdered(EMPTY, run);
      HistoryInOrder(HistoryOf(EMPTY, run), run[|run| - 1].now);
    } else {
      NothingObserved(EMPTY);
    }
  }

  lemma NothingObserved(s: State)
    requires Inv(s)
    ensures Observed(s, [], FirstDeliveredBy) == Observed(s, [], AcceptedBy) == []
  {
  }
}
