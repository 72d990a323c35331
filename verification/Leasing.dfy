/** A lease is granted exactly when something is due, to the first record in line, and
    nothing that is due can be overtaken for ever. */
module Leasing {
  import opened Telemetry
  import opened Broker
  import opened Transactions
  import opened Histories
  import opened Expiry
  import Receipts

  // ---------------------------------------------------------------- completeness

  /** Something is ready, or was leased, and is due. This is also what the read-only probe
      of a poll looks for before it opens a transaction. */
  ghost predicate AnythingDue(records: Records, now: int) {
    DueIn(records, Ready, now) + DueIn(records, Leased, now) != {}
  }

  /** The delivery hands out the event of a record: its content, one attempt more, until the lease
      of the given token ends. */
  predicate HandsOut(d: Delivery, r: Record, token: string, expires: int) {
    d.data == r.hash && d.attempt == r.attempt + 1 && d.token == token && d.expires == expires
  }

  /** Every answer of a lease attempt, exactly: it delivers if and only if something is due and a
      token could be drawn. It delivers the first ready record after expiry, with its content and one
      attempt more; and when it is empty, there was no expiry for its rollback to discard. */
  lemma LeaseComplete(s: State, token: Option<string>, now: int, o: Options)
    requires Inv(s) && o.Validate() && (token.Some? ==> |token.value| == TOKEN_BYTES)
    ensures var reply, s1 := TryLease(s, token, now, o).reply, Released(s, now, o.cleanupBatch);
            && (reply.Delivered? <==> AnythingDue(s.records, now) && token.Some?)
            && (reply == Failed(Entropy) <==> AnythingDue(s.records, now) && token.None?)
            && (reply == Empty <==> !AnythingDue(s.records, now))
            && (reply.Delivered? ==>
                  var id := reply.delivery.Id();
                  && IsFirst(s1.records, Ready, id) && id in s.records
                  && HandsOut(reply.delivery, s.records[id], token.value, now + o.leaseDuration))
            && (reply == Empty ==> s1 == s)
  {
    hide Inv, TryLease, Released, IsFirst, AnythingDue, Lawful, Replay;
    DeliversFirst(s, token, now, o);
    DueAfterExpiry(s, now, o.cleanupBatch);
  }

  /** Something ready is due after expiry if and only if something was due before, and then expiry
      touched no content and no attempt; otherwise it touched nothing. */
  lemma DueAfterExpiry(s: State, now: int, n: nat)
    requires Inv(s) && n > 0
    ensures DueFirst(Released(s, now, n).records, Ready, now).Some? <==> AnythingDue(s.records, now)
    ensures !AnythingDue(s.records, now) ==> Released(s, now, n) == s
    ensures forall id :: id in Released(s, now, n).records ==>
              && id in s.records
              && Released(s, now, n).records[id].hash == s.records[id].hash
              && Released(s, now, n).records[id].attempt == s.records[id].attempt
  {
    hide Inv, Released, IsFirst;
    var released := ReleaseEffect(s, now, n);
    var records' := Released(s, now, n).records;
    NoneDue(records', Ready, now);
    if id :| id in DueIn(s.records, Ready, now) {
      assert InPhase(records', Ready, id);
    } else if id :| id in DueIn(s.records, Leased, now) {
      assert released != {};
      var first :| first in released;
      assert InPhase(records', Ready, first);
    } else {
      assert released == {};
      assert Reset(s.records, {}, now) == s.records;
      forall id | InPhase(records', Ready, id) ensures now < records'[id].due {
        assert id !in DueIn(s.records, Ready, now);
      }
    }
  }

  lemma DeliversFirst(s: State, token: Option<string>, now: int, o: Options)
    requires Inv(s) && o.Validate() && (token.Some? ==> |token.value| == TOKEN_BYTES)
    ensures var reply, records' := TryLease(s, token, now, o).reply, Released(s, now, o.cleanupBatch).records;
            match DueFirst(records', Ready, now)
            case None => reply == Empty
            case Some(id) =>
              && id in records'
              && if token.None? then reply == Failed(Entropy)
                 else
                   && reply.Delivered? && reply.delivery.Id() == id
                   && HandsOut(reply.delivery, records'[id], token.value, now + o.leaseDuration)
  {
    ReplayInv(s, ReleaseDue(s, now, o.cleanupBatch));
    hide IsFirst;
  }

  // ---------------------------------------------------------------- no starvation

  /** The ready records that would be delivered before `id`. */
  ghost function Ahead(records: Records, id: string): set<string>
    requires id in records
  {
    set j | j in records && InPhase(records, Ready, j) && Before(KeyOf(records[j]), KeyOf(records[id]))
  }

  lemma AheadAfter(before: Records, after: Records, id: string, subject: string)
    requires id in before && id in after && id != subject && after[id] == before[id]
    requires forall j :: j != subject ==> (j in before <==> j in after) && (j in before ==> after[j] == before[j])
    ensures Ahead(after, id) - {subject} == Ahead(before, id) - {subject}
  {
  }

  /** A change other than a delivery puts nothing ahead of an overdue record. */
  lemma OnlyDeliveriesOvertake(s: State, c: Change, now: int, id: string)
    requires Inv(s) && Enabled(s, c, now)
    requires InPhase(s.records, Ready, id) && s.records[id].due < now
    requires c.Deliver? ==> c.delivery.Id() != id
    ensures var records' := Commit(s, c, now).records;
            && id in records' && records'[id] == s.records[id]
            && Ahead(records', id) == Ahead(s.records, id) - (if c.Deliver? then {c.delivery.Id()} else {})
            && (c.Deliver? ==> c.delivery.Id() in Ahead(s.records, id))
  {
    assert c.Admit? || Subject(c) in s.records;
    hide Inv, Ahead, Enabled, Commit;
    var records', subject := Commit(s, c, now).records, Subject(c);
    Elsewhere(s, c, now, id);
    AheadAfter(s.records, records', id, subject);
    BehindAfter(s, c, now, id);
    if c.Deliver? {
      FirstIsAhead(s, subject, id, c, now);
    } else {
      BehindBefore(s, c, now, id);
    }
    assert Ahead(records', id) - {subject} == Ahead(records', id);
  }

  /** A change rewrites its subject and nothing else. */
  lemma Elsewhere(s: State, c: Change, now: int, id: string)
    requires Enabled(s, c, now)
    requires InPhase(s.records, Ready, id) && (c.Deliver? ==> c.delivery.Id() != id)
    ensures var before, after := s.records, Commit(s, c, now).records;
            && id != Subject(c) && id in after && after[id] == before[id]
            && forall j :: j != Subject(c) ==> (j in before <==> j in after) && (j in before ==> after[j] == before[j])
  {
  }

  lemma BehindAfter(s: State, c: Change, now: int, id: string)
    requires Enabled(s, c, now) && id in s.records && id != Subject(c) && s.records[id].due < now
    ensures id in Commit(s, c, now).records && Subject(c) !in Ahead(Commit(s, c, now).records, id)
  {
  }

  lemma BehindBefore(s: State, c: Change, now: int, id: string)
    requires Enabled(s, c, now) && !c.Deliver? && id in s.records
    ensures Subject(c) !in Ahead(s.records, id)
  {
  }

  lemma FirstIsAhead(s: State, first: string, id: string, c: Change, now: int)
    requires Inv(s) && Enabled(s, c, now) && c.Deliver? && first == c.delivery.Id()
    requires InPhase(s.records, Ready, id) && first != id
    ensures first in Ahead(s.records, id)
  {
  }

  ghost predicate Undelivered(h: History, id: string) {
    forall i :: 0 <= i < |h| && h[i].change.Deliver? ==> h[i].change.delivery.Id() != id
  }

  /** While `id` waits, its rank falls by exactly the number of deliveries. */
  lemma {:induction false} RankFalls(s: State, h: History, id: string)
    requires Inv(s) && Lawful(s, h) && InPhase(s.records, Ready, id)
    requires (forall i :: 0 <= i < |h| ==> s.records[id].due < h[i].now) && Undelivered(h, id)
    ensures var records' := Replay(s, h).records;
            && id in records' && records'[id] == s.records[id]
            && |Ahead(records', id)| + |Pick(h, DeliveredIn)| == |Ahead(s.records, id)|
  {
    hide Inv, Enabled, Ahead, Commit;
    if h != [] {
      var n := |h| - 1;
      RankFalls(s, h[..n], id);
      ReplayInv(s, h[..n]);
      OnlyDeliveriesOvertake(Replay(s, h[..n]), h[n].change, h[n].now, id);
    }
  }

  /** The number of lease attempts that drew a token. */
  function Attempts(run: seq<Step>): nat {
    if run == [] then 0
    else Attempts(run[..|run| - 1]) + if DrawnBy(run[|run| - 1]).Some? then 1 else 0
  }

  /** One step that does not deliver `id` uses up one place ahead of it if it is a lease attempt. */
  lemma RankStep(s: State, step: Step, id: string)
    requires Inv(s) && Possible(step)
    requires InPhase(s.records, Ready, id) && s.records[id].due < step.now
    requires Respond(s, step).reply.Delivered? ==> Respond(s, step).reply.delivery.Id() != id
    ensures var records' := Replay(s, Respond(s, step).journal).records;
            && id in records' && records'[id] == s.records[id]
            && |Ahead(records', id)| + (if DrawnBy(step).Some? then 1 else 0) == |Ahead(s.records, id)|
  {
    hide Inv, Respond, Ahead, Matching, Pick, Lawful, Replay;
    var v := Respond(s, step);
    var expired := JournalShape(s, step);
    DeliveryMatches();
    JournalTells(s, step, DeliveredIn, DeliveredBy);
    DeliversWhenAsked(s, step, id);
    RankFalls(s, v.journal, id);
  }

  lemma DeliversWhenAsked(s: State, step: Step, id: string)
    requires Inv(s) && Possible(step)
    requires InPhase(s.records, Ready, id) && s.records[id].due < step.now
    ensures Respond(s, step).reply.Delivered? <==> DrawnBy(step).Some?
  {
    var expired := JournalShape(s, step);
    if DrawnBy(step).Some? {
      hide Inv;
      assert id in DueIn(s.records, Ready, step.now);
      LeaseComplete(s, step.call.token, step.now, step.options);
    }
  }

  /** No starvation: a ready record that came due before the times a run reads is delivered
      once the run makes more lease attempts than there were records ahead of it. */
  lemma {:induction false} NoStarvation(s: State, run: seq<Step>, id: string)
    requires Inv(s) && PossibleRun(run) && InPhase(s.records, Ready, id)
    requires forall i :: 0 <= i < |run| ==> s.records[id].due < run[i].now
    requires Attempts(run) > |Ahead(s.records, id)|
    ensures exists i :: 0 <= i < |run| && ReplyAt(s, run, i).Delivered? && ReplyAt(s, run, i).delivery.Id() == id
  {
    assert run[..|run|] == run;
    if forall i :: 0 <= i < |run| && ReplyAt(s, run, i).Delivered? ==> ReplyAt(s, run, i).delivery.Id() != id {
      StillWaiting(s, run, id, |run|);
    }
  }

  lemma {:induction false} StillWaiting(s: State, run: seq<Step>, id: string, n: nat)
    requires Inv(s) && PossibleRun(run) && InPhase(s.records, Ready, id) && n <= |run|
    requires forall i :: 0 <= i < |run| ==> s.records[id].due < run[i].now
    requires forall i :: 0 <= i < |run| && ReplyAt(s, run, i).Delivered? ==> ReplyAt(s, run, i).delivery.Id() != id
    ensures var records' := After(s, run[..n]).records;
            && id in records' && records'[id] == s.records[id]
            && |Ahead(records', id)| + Attempts(run[..n]) == |Ahead(s.records, id)|
  {
    hide Inv, Respond, Ahead, After, Possible, Replay, Lawful, HistoryOf;
    if n == 0 {
      AfterNothing(s);
    } else {
      StillWaiting(s, run, id, n - 1);
      AfterStep(s, run, n - 1);
      assert run[..n][..n - 1] == run[..n - 1];
      assert !(ReplyAt(s, run, n - 1).Delivered? && ReplyAt(s, run, n - 1).delivery.Id() == id);
      RankStep(After(s, run[..n - 1]), run[n - 1], id);
    }
  }

  // ---------------------------------------------------------------- expired leases come back

  /** The leases that expire before that of `id`. */
  ghost function LeasesAhead(records: Records, id: string): set<string>
    requires id in records
  {
    set j | j in records && InPhase(records, Leased, j) && Before(KeyOf(records[j]), KeyOf(records[id]))
  }

  /** `id` is leased, and its lease has expired by time `now`. */
  predicate Overdue(records: Records, id: string, now: int) {
    InPhase(records, Leased, id) && records[id].due <= now
  }

  lemma LeasesAheadAfter(before: Records, after: Records, id: string, subject: string)
    requires id in before && id in after && id != subject && after[id] == before[id]
    requires forall j :: j != subject ==> (j in before <==> j in after) && (j in before ==> after[j] == before[j])
    ensures LeasesAhead(after, id) - {subject} == LeasesAhead(before, id) - {subject}
  {
  }

  /** A change other than its own release leaves an overdue lease as it is, puts no lease ahead of
      it, and takes one away from there if it is a release. */
  lemma OnlyReleasesAdvance(s: State, c: Change, now: int, id: string)
    requires Inv(s) && Enabled(s, c, now) && Overdue(s.records, id, now) && c != Release(id)
    ensures var records' := Commit(s, c, now).records;
            && id in records' && records'[id] == s.records[id]
            && |LeasesAhead(records', id)| == |LeasesAhead(s.records, id)| - if c.Release? then 1 else 0
  {
    assert c.Admit? || Subject(c) in s.records;
    hide Inv, LeasesAhead, Enabled, Commit;
    var records', subject := Commit(s, c, now).records, Subject(c);
    LeaseElsewhere(s, c, now, id);
    LeasesAheadAfter(s.records, records', id, subject);
    BehindLease(s, c, now, id);
    if c.Release? {
      FirstLeaseAhead(s, subject, id, now);
    }
    SameOrOneLess(LeasesAhead(s.records, id), LeasesAhead(records', id), subject);
  }

  lemma SameOrOneLess(before: set<string>, after: set<string>, x: string)
    requires after - {x} == before - {x} && x !in after
    ensures |after| == |before| - if x in before then 1 else 0
  {
    assert after == before - {x};
  }

  lemma LeaseElsewhere(s: State, c: Change, now: int, id: string)
    requires Enabled(s, c, now) && Overdue(s.records, id, now) && c != Release(id)
    ensures var before, after := s.records, Commit(s, c, now).records;
            && id != Subject(c) && id in after && after[id] == before[id]
            && forall j :: j != Subject(c) ==> (j in before <==> j in after) && (j in before ==> after[j] == before[j])
  {
  }

  lemma BehindLease(s: State, c: Change, now: int, id: string)
    requires Enabled(s, c, now) && Overdue(s.records, id, now) && id != Subject(c)
    ensures id in Commit(s, c, now).records && Subject(c) !in LeasesAhead(Commit(s, c, now).records, id)
    ensures !c.Release? ==> Subject(c) !in LeasesAhead(s.records, id)
  {
  }

  lemma FirstLeaseAhead(s: State, first: string, id: string, now: int)
    requires Inv(s) && Enabled(s, Release(first), now) && InPhase(s.records, Leased, id) && first != id
    ensures first in LeasesAhead(s.records, id)
  {
    assert !Before(KeyOf(s.records[id]), KeyOf(s.records[first]));
    assert s.records[id].sequence != s.records[first].sequence;
  }

  /** While an overdue lease is not released, each release is that of one ahead of it. */
  lemma {:induction false} LeaseRankFalls(s: State, h: History, id: string)
    requires Inv(s) && Lawful(s, h) && InPhase(s.records, Leased, id)
    requires forall i :: 0 <= i < |h| ==> s.records[id].due <= h[i].now && h[i].change != Release(id)
    ensures var records' := Replay(s, h).records;
            && id in records' && records'[id] == s.records[id]
            && |LeasesAhead(records', id)| + Releases(h) == |LeasesAhead(s.records, id)|
  {
    hide Inv, Enabled, LeasesAhead, Commit;
    if h != [] {
      var n := |h| - 1;
      LeaseRankFalls(s, h[..n], id);
      ReplayInv(s, h[..n]);
      OnlyReleasesAdvance(Replay(s, h[..n]), h[n].change, h[n].now, id);
    }
  }

  function Releases(h: History): nat {
    if h == [] then 0 else Releases(h[..|h| - 1]) + if h[|h| - 1].change.Release? then 1 else 0
  }

  lemma {:induction false} AllReleases(h: History)
    requires forall i :: 0 <= i < |h| ==> h[i].change.Release?
    ensures Releases(h) == |h|
  {
    if h != [] {
      AllReleases(h[..|h| - 1]);
    }
  }

  lemma {:induction false} MoreReleases(a: History, b: History)
    ensures Releases(a + b) == Releases(a) + Releases(b)
  {
    if b == [] {
      assert a + b == a;
    } else {
      MoreReleases(a, b[..|b| - 1]);
      assert (a + b)[..|a + b| - 1] == a + b[..|b| - 1];
    }
  }

  /** A batch that does not reach an overdue lease is a full one. */
  lemma {:induction false} FullBatch(s: State, id: string, now: int, n: nat)
    requires Inv(s) && Overdue(s.records, id, now)
    requires forall i :: 0 <= i < |ReleaseDue(s, now, n)| ==> ReleaseDue(s, now, n)[i].change != Release(id)
    ensures |ReleaseDue(s, now, n)| == n
    decreases n
  {
    hide Inv, Lawful, Commit, Enabled, ReleaseDue, IsFirst, LeasesAhead;
    if n == 0 {
      NoneReleased(s, now);
    } else {
      NoneDue(s.records, Leased, now);
      var c := Release(DueFirst(s.records, Leased, now).value);
      FirstExpires(s, now);
      var rest := ReleaseDue(Commit(s, c, now), now, n - 1);
      OneReleased(s, now, n);
      assert ReleaseDue(s, now, n)[0] == Entry(c, now);
      InvCommit(s, c, now);
      OnlyReleasesAdvance(s, c, now, id);
      assert forall i :: 0 <= i < |rest| ==> rest[i] == ReleaseDue(s, now, n)[i + 1];
      FullBatch(Commit(s, c, now), id, now, n - 1);
    }
  }

  lemma NoneReleased(s: State, now: int)
    ensures ReleaseDue(s, now, 0) == []
  {
  }

  lemma OneReleased(s: State, now: int, n: nat)
    requires n > 0 && DueFirst(s.records, Leased, now).Some?
    ensures var c := Release(DueFirst(s.records, Leased, now).value);
            Enabled(s, c, now) && ReleaseDue(s, now, n) == [Entry(c, now)] + ReleaseDue(Commit(s, c, now), now, n - 1)
  {
    hide Lawful, IsFirst;
    FirstExpires(s, now);
  }

  // What one step does to an overdue lease.

  /** The lease is over: the event was delivered by this very step, or is ready as of its time. */
  ghost predicate BackAt(s: State, step: Step, id: string)
    requires Inv(s) && Possible(step)
  {
    var v := Respond(s, step);
    || (v.reply.Delivered? && v.reply.delivery.Id() == id)
    || (InPhase(Replay(s, v.journal).records, Ready, id) && Replay(s, v.journal).records[id].due == step.now)
  }

  lemma ReleasedByStep(s: State, step: Step, id: string, i: nat)
    requires Inv(s) && Possible(step) && i < |Respond(s, step).journal|
    requires Respond(s, step).journal[i].change == Release(id)
    ensures BackAt(s, step, id)
  {
    hide Inv, Respond, Possible, Replay, Lawful;
    var v := Respond(s, step);
    var expired := JournalShape(s, step);
    var until, rest := v.journal[..i + 1], v.journal[i + 1..];
    LawfulSplit(s, v.journal, i + 1);
    assert v.journal[i].now == step.now;
    ReleasedLast(s, until, id);
    if !(v.reply.Delivered? && v.reply.delivery.Id() == id) {
      NotDeliveredIn(s, step, id, expired, i + 1);
      ReplayInv(s, until);
      Receipts.NackKept(Replay(s, until), rest, id);
    }
  }

  /** A history that ends with a release leaves the record ready as of that time. */
  lemma ReleasedLast(s: State, h: History, id: string)
    requires Lawful(s, h) && h != [] && h[|h| - 1].change == Release(id)
    ensures var records' := Replay(s, h).records; InPhase(records', Ready, id) && records'[id].due == h[|h| - 1].now
  {
    hide IsFirst;
    assert Enabled(Replay(s, h[..|h| - 1]), Release(id), h[|h| - 1].now);
  }

  lemma NotDeliveredIn(s: State, step: Step, id: string, expired: History, from: nat)
    requires Inv(s) && Possible(step) && from <= |Respond(s, step).journal|
    requires forall i :: 0 <= i < |expired| ==> expired[i].change.Release? || expired[i].change.Forget?
    requires var v := Respond(s, step);
             || v.journal == expired
             || (|v.journal| == |expired| + 1 && v.journal[..|expired|] == expired
                 && OwnChange(step, v.reply, v.journal[|expired|].change))
    requires !(Respond(s, step).reply.Delivered? && Respond(s, step).reply.delivery.Id() == id)
    ensures var rest := Respond(s, step).journal[from..];
            forall i :: 0 <= i < |rest| && rest[i].change.Deliver? ==> rest[i].change.delivery.Id() != id
  {
    hide Inv, Respond, Possible;
    var journal := Respond(s, step).journal;
    assert forall i :: 0 <= i < |expired| && i < |journal| ==> journal[i] == expired[i];
  }

  /** A step that leaves an overdue lease in place leaves fewer ahead of it: a batch fewer when it
      is a lease attempt. */
  lemma LeaseStep(s: State, step: Step, id: string)
    requires Inv(s) && Possible(step) && Overdue(s.records, id, step.now) && !BackAt(s, step, id)
    ensures var records' := Replay(s, Respond(s, step).journal).records;
            && id in records' && records'[id] == s.records[id]
            && |LeasesAhead(records', id)| + (if DrawnBy(step).Some? then step.options.cleanupBatch else 0)
               <= |LeasesAhead(s.records, id)|
  {
    hide Inv, Respond, Possible, LeasesAhead, BackAt, Lawful, Replay, Overdue;
    var v := Respond(s, step);
    var expired := JournalShape(s, step);
    forall i: nat | i < |v.journal| ensures v.journal[i].change != Release(id) {
      if v.journal[i].change == Release(id) {
        ReleasedByStep(s, step, id, i);
      }
    }
    OverdueIs(s.records, id, step.now);
    LeaseRankFalls(s, v.journal, id);
    if DrawnBy(step).Some? {
      BatchReleased(s, step, id);
    }
  }

  lemma OverdueIs(records: Records, id: string, now: int)
    ensures Overdue(records, id, now) <==> InPhase(records, Leased, id) && records[id].due <= now
  {
  }

  lemma BatchReleased(s: State, step: Step, id: string)
    requires Inv(s) && Possible(step) && Overdue(s.records, id, step.now) && DrawnBy(step).Some?
    requires forall i: nat :: i < |Respond(s, step).journal| ==> Respond(s, step).journal[i].change != Release(id)
    ensures Releases(Respond(s, step).journal) == step.options.cleanupBatch
  {
    var v, n := Respond(s, step), step.options.cleanupBatch;
    var h := ReleaseDue(s, step.now, n);
    OverdueLeaseDelivers(s, step, id);
    var d := v.reply.delivery;
    assert v.journal == h + [Entry(Deliver(d), step.now)];
    hide Inv, Respond, Possible, Lawful, Replay;
    assert forall i: nat :: i < |h| ==> h[i] == v.journal[i];
    FullBatch(s, id, step.now, n);
    AllReleases(h);
    MoreReleases(h, [Entry(Deliver(d), step.now)]);
    NoRelease(Entry(Deliver(d), step.now));
  }

  lemma OverdueLeaseDelivers(s: State, step: Step, id: string)
    requires Inv(s) && Possible(step) && Overdue(s.records, id, step.now) && DrawnBy(step).Some?
    ensures Respond(s, step).reply.Delivered? && step.call.LeaseCall?
    ensures Respond(s, step).journal == ReleaseDue(s, step.now, step.options.cleanupBatch)
                                        + [Entry(Deliver(Respond(s, step).reply.delivery), step.now)]
  {
    hide Inv, ReleaseDue, Lawful, Replay;
    assert id in DueIn(s.records, Leased, step.now);
    LeaseComplete(s, step.call.token, step.now, step.options);
  }

  lemma NoRelease(e: Entry)
    requires !e.change.Release?
    ensures Releases([e]) == 0
  {
  }

  /** Step `i` of the run ended the lease of `id`. */
  ghost predicate BackIn(s: State, run: seq<Step>, id: string, i: nat)
    requires Inv(s) && PossibleRun(run) && i < |run|
  {
    BackAt(After(s, run[..i]), run[i], id)
  }

  lemma {:induction false} StillLeased(s: State, run: seq<Step>, id: string, batch: nat, n: nat)
    requires Inv(s) && PossibleRun(run) && n <= |run|
    requires forall i :: 0 <= i < |run| ==> Overdue(s.records, id, run[i].now) && batch <= run[i].options.cleanupBatch
    requires forall i :: 0 <= i < n ==> !BackIn(s, run, id, i)
    requires InPhase(s.records, Leased, id)
    ensures var records' := After(s, run[..n]).records;
            && id in records' && records'[id] == s.records[id]
            && |LeasesAhead(records', id)| + Attempts(run[..n]) * batch <= |LeasesAhead(s.records, id)|
  {
    hide Inv, Respond, LeasesAhead, After, Possible, Replay, Lawful, HistoryOf, BackAt;
    if n == 0 {
      AfterNothing(s);
    } else {
      StillLeased(s, run, id, batch, n - 1);
      AfterStep(s, run, n - 1);
      assert run[..n][..n - 1] == run[..n - 1];
      assert !BackIn(s, run, id, n - 1);
      assert Overdue(s.records, id, run[n - 1].now);
      LeaseStep(After(s, run[..n - 1]), run[n - 1], id);
      MoreAttempts(Attempts(run[..n - 1]), if DrawnBy(run[n - 1]).Some? then 1 else 0, batch,
                   run[n - 1].options.cleanupBatch);
    }
  }

  lemma MoreAttempts(a: nat, one: nat, batch: nat, full: nat)
    requires one <= 1 && batch <= full
    ensures (a + one) * batch <= a * batch + if one == 1 then full else 0
  {
  }

  /** An overdue lease is over within one lease attempt for each batch of leases ahead of it, and
      one more. */
  lemma {:induction false} LeasesComeBack(s: State, run: seq<Step>, id: string, batch: nat)
    requires Inv(s) && PossibleRun(run) && InPhase(s.records, Leased, id)
    requires forall i :: 0 <= i < |run| ==> Overdue(s.records, id, run[i].now) && batch <= run[i].options.cleanupBatch
    requires Attempts(run) * batch > |LeasesAhead(s.records, id)|
    ensures exists i :: 0 <= i < |run| && BackIn(s, run, id, i)
  {
    hide Inv, Possible, After, BackIn, Overdue, LeasesAhead;
    assert run[..|run|] == run;
    if forall i :: 0 <= i < |run| ==> !BackIn(s, run, id, i) {
      StillLeased(s, run, id, batch, |run|);
    }
  }

  ghost predicate DeliveredAt(s: State, run: seq<Step>, id: string, i: nat)
    requires Inv(s) && PossibleRun(run) && i < |run|
  {
    ReplyAt(s, run, i).Delivered? && ReplyAt(s, run, i).delivery.Id() == id
  }

  /** Once its lease is over, the event is delivered or stays ready as of that time. */
  lemma {:induction false} ReadyOnceBack(s: State, run: seq<Step>, id: string, i: nat, n: nat)
    requires Inv(s) && PossibleRun(run) && i < n <= |run| && BackIn(s, run, id, i)
    requires forall k :: 0 <= k < n ==> !DeliveredAt(s, run, id, k)
    ensures var records' := After(s, run[..n]).records; InPhase(records', Ready, id) && records'[id].due == run[i].now
    decreases n
  {
    hide Inv, Respond, After, Possible, Replay, Lawful, HistoryOf;
    AfterStep(s, run, n - 1);
    assert run[..n - 1 + 1] == run[..n];
    assert !DeliveredAt(s, run, id, n - 1);
    var before := After(s, run[..n - 1]);
    if n > i + 1 {
      ReadyOnceBack(s, run, id, i, n - 1);
      var expired := JournalShape(before, run[n - 1]);
      NotDeliveredIn(before, run[n - 1], id, expired, 0);
      assert Respond(before, run[n - 1]).journal[0..] == Respond(before, run[n - 1]).journal;
      Receipts.NackKept(before, Respond(before, run[n - 1]).journal, id);
    }
  }

  /** No starvation of expired leases: an overdue lease with `p` leases ahead of it is over within
      p / batch + 1 lease attempts, and from then on the event is delivered within as many further
      attempts, at later times, as there are ready records ahead of it, and one more. */
  lemma {:induction false} NoLeaseStarvation(s: State, early: seq<Step>, late: seq<Step>, id: string, batch: nat)
    requires Inv(s) && PossibleRun(early) && PossibleRun(late) && InPhase(s.records, Leased, id)
    requires forall i :: 0 <= i < |early| ==>
              && Overdue(s.records, id, early[i].now)
              && batch <= early[i].options.cleanupBatch
    requires Attempts(early) * batch > |LeasesAhead(s.records, id)|
    requires forall i, j :: 0 <= i < |early| && 0 <= j < |late| ==> early[i].now < late[j].now
    requires id in After(s, early).records ==> Attempts(late) > |Ahead(After(s, early).records, id)|
    ensures PossibleRun(early + late)
    ensures exists i :: 0 <= i < |early + late| && DeliveredAt(s, early + late, id, i)
  {
    hide Inv, Possible, After, BackIn, Overdue, LeasesAhead, Ahead, ReplyAt, Attempts;
    var run := early + late;
    if i :| 0 <= i < |early| && DeliveredAt(s, early, id, i) {
      EarlyReply(s, early, late, id, i);
    } else {
      LeasesComeBack(s, early, id, batch);
      var i :| 0 <= i < |early| && BackIn(s, early, id, i);
      ReadyOnceBack(s, early, id, i, |early|);
      assert early[..|early|] == early;
      NoStarvation(After(s, early), late, id);
      var j :| 0 <= j < |late| && ReplyAt(After(s, early), late, j).Delivered?
               && ReplyAt(After(s, early), late, j).delivery.Id() == id;
      LateReply(s, early, late, j);
      assert DeliveredAt(s, run, id, |early| + j);
    }
  }

  lemma EarlyReply(s: State, early: seq<Step>, late: seq<Step>, id: string, i: nat)
    requires Inv(s) && PossibleRun(early) && PossibleRun(early + late) && i < |early| && DeliveredAt(s, early, id, i)
    ensures DeliveredAt(s, early + late, id, i)
  {
    assert (early + late)[..i] == early[..i];
  }

  lemma LateReply(s: State, early: seq<Step>, late: seq<Step>, j: nat)
    requires Inv(s) && PossibleRun(early) && PossibleRun(late) && PossibleRun(early + late) && j < |late|
    ensures ReplyAt(s, early + late, |early| + j) == ReplyAt(After(s, early), late, j)
  {
    hide Inv, Possible, After, Respond;
    assert (early + late)[..|early| + j] == early + late[..j];
    AfterConcat(s, early, late[..j]);
  }
}
