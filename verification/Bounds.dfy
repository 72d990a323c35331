/** Admission limits hold over whole runs, and an ACK never needs room of its own. */
module Bounds {
  import opened Telemetry
  import opened Broker
  import opened Transactions
  import opened Histories
  import opened Expiry

  /** The four bounded quantities. */
  datatype Usage = Usage(active: int, identities: int, quarantined: int, bytes: int)

  ghost function UsageOf(records: Records): Usage {
    Usage(Active(records), Identities(records), Tally(records, Count(Quarantined)), Tally(records, LogicalBytes))
  }

  function Limits(o: Options): Usage {
    Usage(o.capacity, o.dedupCapacity, o.quarantineCapacity, o.maxLogicalBytes)
  }

  /** Each quantity of `after` is within the limit or at most what it was `before`. */
  predicate Contained(after: Usage, before: Usage, limit: Usage) {
    && after.active <= Max(before.active, limit.active)
    && after.identities <= Max(before.identities, limit.identities)
    && after.quarantined <= Max(before.quarantined, limit.quarantined)
    && after.bytes <= Max(before.bytes, limit.bytes)
  }

  predicate AtMost(u: Usage, v: Usage) {
    u.active <= v.active && u.identities <= v.identities && u.quarantined <= v.quarantined && u.bytes <= v.bytes
  }

  /** Every change but an admission or a quarantine leaves each quantity where it was or
      lower; in particular completing an event takes no new identity and frees bytes. */
  lemma OnlyAdmissionGrows(s: State, c: Change, now: int)
    requires Inv(s) && Enabled(s, c, now)
    ensures var u, u' := UsageOf(s.records), UsageOf(Commit(s, c, now).records);
            match c
            case Admit(data) =>
              u' == Usage(u.active + 1, u.identities + 1, u.quarantined, u.bytes + data.size + ACTIVE_OVERHEAD)
            case Quarantine(_) => u' == u.(quarantined := u.quarantined + 1)
            case Complete(id, _, _) => u' == u.(active := u.active - 1,
                                               bytes := u.bytes - s.records[id].hash.size - ACTIVE_OVERHEAD
                                                   + COMPLETED_OVERHEAD)
            case Forget(_) => u' == u.(identities := u.identities - 1, bytes := u.bytes - COMPLETED_OVERHEAD)
            case _ => u' == u
  {
    hide Inv, Tally, Commit;
    if !c.Admit? {
      RecordWellFormed(s, Subject(c));
    }
    TallyCommit(s, c, now, Count(Ready));
    TallyCommit(s, c, now, Count(Leased));
    TallyCommit(s, c, now, Count(Quarantined));
    TallyCommit(s, c, now, Count(Completed));
    TallyCommit(s, c, now, LogicalBytes);
  }

  lemma {:induction false} ExpiryShrinks(s: State, h: History)
    requires Inv(s) && Lawful(s, h)
    requires forall i :: 0 <= i < |h| ==> h[i].change.Release? || h[i].change.Forget?
    ensures AtMost(UsageOf(Replay(s, h).records), UsageOf(s.records))
    ensures UsageOf(Replay(s, h).records).active == UsageOf(s.records).active
  {
    hide Inv, Enabled, UsageOf;
    if h != [] {
      var n := |h| - 1;
      ExpiryShrinks(s, h[..n]);
      ReplayInv(s, h[..n]);
      OnlyAdmissionGrows(Replay(s, h[..n]), h[n].change, h[n].now);
    }
  }

  lemma PublishContained(s: State, step: Step)
    requires Inv(s) && Possible(step) && step.call.PublishCall?
    ensures Contained(UsageOf(Replay(s, Respond(s, step).journal).records), UsageOf(s.records), Limits(step.options))
  {
    hide Inv, Tally, Lawful, Replay, ForgetDue;
    Nothing(s);
    var v, e := Respond(s, step), step.call.event;
    if v.reply == Accepted || v.reply == Duplicate {
      var h := Sweep(s, e.eventId, step.now, step.options.cleanupBatch);
      ExpiryShrinks(s, h);
      ReplayInv(s, h);
      if v.reply == Accepted {
        var c := Admit(Payload(e, step.call.encoded.value));
        assert v.journal == h + [Entry(c, step.now)];
        LawfulOne(Replay(s, h), c, step.now);
        ReplayConcat(s, h, [Entry(c, step.now)]);
        OnlyAdmissionGrows(Replay(s, h), c, step.now);
      }
    }
  }

  lemma OtherContained(s: State, step: Step)
    requires Inv(s) && Possible(step) && !step.call.PublishCall?
    ensures Contained(UsageOf(Replay(s, Respond(s, step).journal).records), UsageOf(s.records), Limits(step.options))
  {
    hide Inv, UsageOf, Respond, Commit;
    var v := Respond(s, step);
    var expired := JournalShape(s, step);
    if v.journal == expired {
      ExpiryShrinks(s, expired);
    } else {
      var own := v.journal[|expired|];
      assert v.journal[..|v.journal| - 1] == expired;
      ExpiryShrinks(s, expired);
      ReplayInv(s, expired);
      OnlyAdmissionGrows(Replay(s, expired), own.change, own.now);
      if own.change.Quarantine? {
        QuarantineChecked(s, step);
        assert expired == [];
      }
    }
  }

  lemma QuarantineChecked(s: State, step: Step)
    requires Inv(s) && Possible(step) && step.call.NackCall? && step.call.nack.permanent
    requires Respond(s, step).reply == Done
    ensures UsageOf(s.records).quarantined < step.options.quarantineCapacity && |Respond(s, step).journal| == 1
  {
    hide Inv, Tally, Lawful, Replay, Commit;
  }

  /** No step takes a quantity above its limit, and one already above it never grows. */
  lemma StepContained(s: State, step: Step)
    requires Inv(s) && Possible(step)
    ensures Contained(UsageOf(Replay(s, Respond(s, step).journal).records), UsageOf(s.records), Limits(step.options))
  {
    if step.call.PublishCall? {
      PublishContained(s, step);
    } else {
      OtherContained(s, step);
    }
  }

  /** Over any run whose options stay within `limit` (reopened as often as one likes), every
      quantity stays within `limit` or at most what it was at the start. */
  lemma {:induction false} RunContained(s: State, run: seq<Step>, limit: Usage)
    requires Inv(s) && PossibleRun(run)
    requires forall i :: 0 <= i < |run| ==> AtMost(Limits(run[i].options), limit)
    ensures Contained(UsageOf(After(s, run).records), UsageOf(s.records), limit)
  {
    hide Inv, UsageOf, Respond, Possible, After, Replay, Lawful, HistoryOf;
    if run == [] {
      AfterNothing(s);
    } else {
      var n := |run| - 1;
      RunContained(s, run[..n], limit);
      AfterStep(s, run, n);
      assert run[..n + 1] == run;
      StepContained(After(s, run[..n]), run[n]);
    }
  }

  /** A database used only within `limit` never exceeds it. */
  lemma NeverOverLimit(run: seq<Step>, limit: Usage)
    requires PossibleRun(run) && AtMost(Usage(0, 0, 0, 0), limit)
    requires forall i :: 0 <= i < |run| ==> AtMost(Limits(run[i].options), limit)
    ensures Inv(EMPTY) && AtMost(UsageOf(After(EMPTY, run).records), limit)
  {
    hide Inv, UsageOf, After, Possible;
    EmptyInv();
    EmptyUsage();
    RunContained(EMPTY, run, limit);
  }

  lemma EmptyUsage()
    ensures UsageOf(EMPTY.records) == Usage(0, 0, 0, 0)
  {
  }

  // ---------------------------------------------------------------- what the counters count

  function AckedIn(e: Entry): Option<string> {
    if e.change.Complete? then Some(e.change.acked) else None
  }

  /** An event acknowledged, not for the second time. */
  function AckedBy(step: Step, reply: Reply): Option<string> {
    if reply == Done && step.call.AckCall? then Some(step.call.id) else None
  }

  lemma AckMatches()
    ensures Matching(AckedIn, AckedBy)
  {
  }

  /** The ready records never delivered. */
  ghost function NeverDelivered(records: Records): set<string> {
    set id | id in records && InPhase(records, Ready, id) && records[id].attempt == 0
  }

  /** A record without an attempt is ready, so counting them counts the ready ones. */
  lemma {:induction false} UndeliveredAreReady(records: Records)
    requires forall id :: id in records ==> WellFormed(id, records[id])
    ensures Tally(records, Undelivered) == |NeverDelivered(records)|
    decreases records
  {
    hide WellFormed, Tally, NeverDelivered;
    if records == map[] {
      NothingToDeliver();
    } else {
      var id :| id in records;
      TallyDrop(records, id, Undelivered);
      UndeliveredAreReady(records - {id});
      OneMoreUndelivered(records, id);
    }
  }

  lemma NothingToDeliver()
    ensures Tally(map[], Undelivered) == 0 && NeverDelivered(map[]) == {}
  {
  }

  lemma OneMoreUndelivered(records: Records, id: string)
    requires id in records && WellFormed(id, records[id])
    ensures |NeverDelivered(records)| == |NeverDelivered(records - {id})| + if records[id].attempt == 0 then 1 else 0
  {
    AttemptedUnlessReady(records, id);
    hide WellFormed;
    var others := NeverDelivered(records - {id});
    assert id !in others;
    assert NeverDelivered(records) == if records[id].attempt == 0 then others + {id} else others;
  }

  lemma AttemptedUnlessReady(records: Records, id: string)
    requires id in records && WellFormed(id, records[id])
    ensures records[id].attempt == 0 ==> InPhase(records, Ready, id)
  {
  }

  /** The number of events not acknowledged, and of ready records never delivered. */
  ghost predicate Balanced(s: State, accepted: seq<Payload>, acked: seq<string>, delivered: seq<Delivery>,
                           firsts: seq<Payload>) {
    && s.accepted == |accepted| && s.acked == |acked| && s.deliveries == |delivered|
    && s.redeliveries == |delivered| - |firsts|
    && |accepted| == Active(s.records) + |acked|
    && |accepted| - |firsts| == |NeverDelivered(s.records)|
  }

  lemma {:induction false} HistoryCounted(h: History)
    requires Lawful(EMPTY, h)
    ensures var s := Replay(EMPTY, h);
            && s.accepted == |Pick(h, AdmittedIn)| && s.acked == |Pick(h, AckedIn)|
               && s.deliveries == |Pick(h, DeliveredIn)|
            && s.redeliveries == |Pick(h, DeliveredIn)| - |Pick(h, FirstDeliveredIn)|
  {
    hide Inv, IsFirst;
    if h != [] {
      var n := |h| - 1;
      HistoryCounted(h[..n]);
      AttemptsCount(Replay(EMPTY, h[..n]), h[n]);
    }
  }

  lemma AttemptsCount(s: State, e: Entry)
    requires Enabled(s, e.change, e.now)
    ensures e.change.Deliver? ==> e.change.delivery.attempt >= 1
  {
  }

  /** Conservation, in terms of the answers given: over any run on a new database the counters
      are the numbers of accepted events, of effective ACKs and of deliveries; as many accepted
      events as were not ACKed are ready, leased or quarantined; and as many as were never delivered
      are ready without an attempt. */
  lemma {:induction false} RunsBalance(run: seq<Step>)
    requires PossibleRun(run)
    ensures Inv(EMPTY)
    ensures Balanced(After(EMPTY, run), Observed(EMPTY, run, AcceptedBy), Observed(EMPTY, run, AckedBy),
                     Observed(EMPTY, run, DeliveredBy), Observed(EMPTY, run, FirstDeliveredBy))
  {
    hide *;
    EmptyInv();
    RunCounted(run);
    CountsBalance(After(EMPTY, run), Observed(EMPTY, run, AcceptedBy), Observed(EMPTY, run, AckedBy),
                  Observed(EMPTY, run, DeliveredBy), Observed(EMPTY, run, FirstDeliveredBy));
  }

  ghost predicate Counted(s: State, accepted: int, acked: int, delivered: int, firsts: int) {
    s.accepted == accepted && s.acked == acked && s.deliveries == delivered && s.redeliveries == delivered - firsts
  }

  lemma RunCounted(run: seq<Step>)
    requires PossibleRun(run)
    ensures Inv(EMPTY) && Inv(After(EMPTY, run))
    ensures Counted(After(EMPTY, run), |Observed(EMPTY, run, AcceptedBy)|, |Observed(EMPTY, run, AckedBy)|,
                    |Observed(EMPTY, run, DeliveredBy)|, |Observed(EMPTY, run, FirstDeliveredBy)|)
  {
    hide Matching, Inv, Lawful, Replay, HistoryOf, Respond, Observed, Pick, Possible;
    EmptyInv();
    AcceptanceMatches();
    AckMatches();
    DeliveryMatches();
    ObservedIsCommitted(EMPTY, run, AdmittedIn, AcceptedBy);
    ObservedIsCommitted(EMPTY, run, AckedIn, AckedBy);
    ObservedIsCommitted(EMPTY, run, DeliveredIn, DeliveredBy);
    ObservedIsCommitted(EMPTY, run, FirstDeliveredIn, FirstDeliveredBy);
    HistoryCounted(HistoryOf(EMPTY, run));
  }

  lemma CountsBalance(s: State, accepted: seq<Payload>, acked: seq<string>, delivered: seq<Delivery>,
                      firsts: seq<Payload>)
    requires Inv(s) && Counted(s, |accepted|, |acked|, |delivered|, |firsts|)
    ensures Balanced(s, accepted, acked, delivered, firsts)
  {
    assert forall id :: id in s.records ==> WellFormed(id, s.records[id]);
    hide Active, Tally, WellFormed;
    UndeliveredAreReady(s.records);
  }

  // ---------------------------------------------------------------- what quarantine holds

  function QuarantinedIn(e: Entry): Option<string> {
    if e.change.Quarantine? then Some(e.change.poison.eventId) else None
  }

  /** An event quarantined, not for the second time. */
  function QuarantinedBy(step: Step, reply: Reply): Option<string> {
    if reply == Done && step.call.NackCall? && step.call.nack.permanent then Some(step.call.nack.eventId) else None
  }

  lemma QuarantineMatches()
    ensures Matching(QuarantinedIn, QuarantinedBy)
  {
  }

  lemma {:induction false} HistoryQuarantined(h: History)
    requires Lawful(EMPTY, h)
    ensures Tally(Replay(EMPTY, h).records, Count(Quarantined)) == |Pick(h, QuarantinedIn)|
  {
    hide Inv, Enabled, Commit, Active, Identities;
    EmptyInv();
    EmptyUsage();
    if h != [] {
      var n := |h| - 1;
      HistoryQuarantined(h[..n]);
      ReplayInv(EMPTY, h[..n]);
      hide Tally;
      OnlyAdmissionGrows(Replay(EMPTY, h[..n]), h[n].change, h[n].now);
    }
  }

  /** Quarantine holds as many events as permanent NACKs took effect: nothing leaves it. */
  lemma QuarantineCounted(run: seq<Step>)
    requires PossibleRun(run)
    ensures Inv(EMPTY)
    ensures Tally(After(EMPTY, run).records, Count(Quarantined)) == |Observed(EMPTY, run, QuarantinedBy)|
  {
    hide Matching, Inv, Lawful, Replay, HistoryOf, Respond, Observed, Pick, Possible, Tally;
    EmptyInv();
    QuarantineMatches();
    ObservedIsCommitted(EMPTY, run, QuarantinedIn, QuarantinedBy);
    HistoryQuarantined(HistoryOf(EMPTY, run));
  }
}
