/** Seen from outside, the broker with its bounded batches behaves like an ideal one that
    forgets every completion the instant it expires, with one exception stated exactly. */
module Ideal {
  import opened Telemetry
  import opened Broker
  import opened Transactions
  import opened Histories
  import opened Expiry

  /** The state with every expired completion forgotten. */
  ghost function Purge(s: State, now: int): State {
    s.(records := s.records - DueIn(s.records, Completed, now))
  }

  lemma PurgeInv(s: State, now: int)
    requires Inv(s)
    ensures Inv(Purge(s, now))
  {
    var due := DueIn(s.records, Completed, now);
    var forgotten := ForgetEffect(s, now, |due|);
    assert due == forgotten + (due - forgotten);
    ReplayInv(s, ForgetDue(s, now, |due|));
  }

  lemma PurgeTwice(s: State, earlier: int, later: int)
    requires earlier <= later
    ensures Purge(Purge(s, earlier), later) == Purge(s, later)
  {
  }

  lemma PurgeRemoved(s: State, some: set<string>, now: int)
    requires some <= DueIn(s.records, Completed, now)
    ensures Purge(s.(records := s.records - some), now) == Purge(s, now)
  {
  }

  /** Any change but a removal commutes with purging. */
  lemma PurgeCommutes(s: State, c: Change, now: int)
    requires Enabled(s, c, now) && !c.Forget?
    ensures Enabled(Purge(s, now), c, now)
    ensures Purge(Commit(s, c, now), now) == Commit(Purge(s, now), c, now)
  {
    PurgeEnables(s, c, now);
    PurgeRewrites(s, c, now);
    assert c.Admit? || (Subject(c) in s.records && Subject(c) in Purge(s, now).records);
    hide Enabled, Rewrite, DueIn;
    PurgePut(s.records, Subject(c), Rewrite(s, c, now).value, now);
  }

  lemma PurgeRewrites(s: State, c: Change, now: int)
    requires Enabled(s, c, now) && !c.Forget?
    ensures c.Admit? || (Subject(c) in s.records && Subject(c) in Purge(s, now).records)
    ensures Rewrite(s, c, now).Some? && Rewrite(Purge(s, now), c, now) == Rewrite(s, c, now)
    ensures var r := Rewrite(s, c, now).value; r.phase == Completed ==> now < r.due
  {
  }

  lemma PurgePut(records: Records, id: string, r: Record, now: int)
    requires r.phase == Completed ==> now < r.due
    ensures records[id := r] - DueIn(records[id := r], Completed, now)
         == (records - DueIn(records, Completed, now))[id := r]
  {
  }

  lemma PurgeEnables(s: State, c: Change, now: int)
    requires Enabled(s, c, now) && !c.Forget?
    ensures Enabled(Purge(s, now), c, now)
  {
  }

  /** The first lease in line is a lease either way. */
  lemma SameFirst(s: State, p: Phase, now: int)
    requires Inv(s) && p != Completed
    ensures DueFirst(Purge(s, now).records, p, now) == DueFirst(s.records, p, now)
  {
    var records' := Purge(s, now).records;
    assert forall id :: InPhase(records', p, id) <==> InPhase(s.records, p, id);
    NoneDue(s.records, p, now);
    NoneDue(records', p, now);
    if DueFirst(s.records, p, now).Some? {
      var i, j := DueFirst(s.records, p, now).value, DueFirst(records', p, now).value;
      assert s.records[i].sequence == s.records[j].sequence;
    }
  }

  lemma {:induction false} SameReleases(s: State, now: int, n: nat)
    requires Inv(s)
    ensures ReleaseDue(Purge(s, now), now, n) == ReleaseDue(s, now, n)
    ensures Purge(Released(s, now, n), now) == Released(Purge(s, now), now, n)
    decreases n
  {
    hide Inv, Purge, Released, Commit, IsFirst, DueFirst, InPhase;
    SameFirst(s, Leased, now);
    if n == 0 || DueFirst(s.records, Leased, now).None? {
      ReleasedNone(s, now, n);
      ReleasedNone(Purge(s, now), now, n);
    } else {
      var c := Release(DueFirst(s.records, Leased, now).value);
      FirstExpires(s, now);
      hide Enabled;
      InvCommit(s, c, now);
      PurgeCommutes(s, c, now);
      ReleasedStep(s, now, n);
      ReleasedStep(Purge(s, now), now, n);
      SameReleases(Commit(s, c, now), now, n - 1);
    }
  }

  // ---------------------------------------------------------------- counting what is left behind

  /** What one completion adds to a gauge. */
  function CompletionWeight(g: Gauge): nat {
    match g
    case Count(p) => if p == Completed then 1 else 0
    case LogicalBytes => COMPLETED_OVERHEAD
    case Undelivered => 0
  }

  lemma {:induction false} TallyWithout(records: Records, some: set<string>, g: Gauge)
    requires forall id :: id in some ==> InPhase(records, Completed, id) && records[id].attempt > 0
    ensures Tally(records - some, g) == Tally(records, g) - |some| * CompletionWeight(g)
    decreases some
  {
    if some == {} {
      assert records - some == records;
    } else {
      var id :| id in some;
      var rest := some - {id};
      TallyWithout(records, rest, g);
      assert records - some == records - rest - {id};
      TallyDrop(records - rest, id, g);
      assert |some| * CompletionWeight(g) == |rest| * CompletionWeight(g) + CompletionWeight(g);
    }
  }

  /** The expired completions that expire before that of `id`. */
  ghost function Older(records: Records, due: set<string>, id: string): set<string>
    requires due <= records.Keys && id in due
  {
    set j | j in due && Before(KeyOf(records[j]), KeyOf(records[id]))
  }

  /** The completions that have expired but that a publish of `id` leaves in place: all but a
      batch, and but the one of `id` itself when the batch does not reach it. */
  ghost function Backlog(s: State, id: string, now: int, o: Options): nat {
    var due, n := DueIn(s.records, Completed, now), o.cleanupBatch;
    Max(0, |due| - n - if id in due && |Older(s.records, due, id)| >= n then 1 else 0)
  }

  /** Whether an expired completion is among the `n` earliest is decided by its rank. */
  lemma RankDecides(records: Records, some: set<string>, due: set<string>, n: nat, id: string)
    requires due <= records.Keys && Earliest(records, some, due, n) && id in due
    ensures id in some <==> |Older(records, due, id)| < n
  {
    var older := Older(records, due, id);
    if id in some {
      SubsetSize(older, some - {id});
      assert |some - {id}| == |some| - 1;
    } else {
      SubsetSize(some, older);
      SubsetSize(some + {id}, due);
    }
  }

  lemma SubsetSize(a: set<string>, b: set<string>)
    requires a <= b
    ensures |a| <= |b|
  {
    var rest := b - a;
    assert a + rest == b;
    assert |a + rest| == |a| + |rest|;
  }

  lemma SweepIs(s: State, id: string, now: int, n: nat)
    ensures var s1 := Forgotten(s, now, n);
            Replay(s, Sweep(s, id, now, n)) == if InPhase(s1.records, Completed, id) && s1.records[id].due <= now
                                               then s1.(records := s1.records - {id}) else s1
  {
    hide ForgetDue, Lawful, Replay;
  }

  lemma SweptSets(records: Records, due: set<string>, some: set<string>, id: string, now: int, n: nat)
    requires due == DueIn(records, Completed, now) && some <= due && |some| == Min(n, |due|)
    ensures var gone := if id in due then some + {id} else some;
            && gone <= due && |due - gone| == Max(0, |due| - n - if id in due - some then 1 else 0)
            && DueIn(records - gone, Completed, now) == due - gone
            && records - gone == if id in due - some then records - some - {id} else records - some
  {
    var gone := if id in due then some + {id} else some;
    assert |due - gone| + |gone| == |due| by {
      assert due == gone + (due - gone);
    }
    if id in due && id !in some {
      assert |gone| == |some| + 1;
      assert records - some - {id} == records - gone;
      SubsetSize(gone, due);
    } else {
      assert gone == some;
    }
  }

  /** A publish first removes expired completions, always including the one under its own id, and
      leaves exactly the backlog. */
  lemma SweepEffect(s: State, id: string, now: int, o: Options) returns (gone: set<string>)
    requires Inv(s) && o.Validate()
    ensures var due, s' := DueIn(s.records, Completed, now), Replay(s, Sweep(s, id, now, o.cleanupBatch));
            && s' == s.(records := s.records - gone) && gone <= due
            && |due - gone| == Backlog(s, id, now, o)
            && (id in due ==> id in gone)
            && DueIn(s'.records, Completed, now) == due - gone
  {
    hide Inv, Lawful, Replay, Forgotten, Sweep;
    var due, n := DueIn(s.records, Completed, now), o.cleanupBatch;
    var some := ForgetEffect(s, now, n);
    SweepIs(s, id, now, n);
    SweptSets(s.records, due, some, id, now, n);
    if id in due {
      RankDecides(s.records, some, due, n, id);
    }
    hide Earliest;
    gone := if id in due then some + {id} else some;
    var kept := s.records - some;
    assert id in due - some <==> InPhase(kept, Completed, id) && kept[id].due <= now;
  }

  /** Leftover completions make a publish fail that an ideal broker would decide otherwise:
      their bytes, or their identities, are what is missing. */
  ghost predicate Crowded(p: State, left: nat, data: Payload, o: Options) {
    var bytes, extra := Tally(p.records, LogicalBytes) + data.size + ACTIVE_OVERHEAD, left * COMPLETED_OVERHEAD;
    && data.event.eventId !in p.records
    && Active(p.records) < o.capacity
    && (|| bytes <= o.maxLogicalBytes < bytes + extra
        || (bytes + extra <= o.maxLogicalBytes
            && Identities(p.records) < o.dedupCapacity <= Identities(p.records) + left))
  }

  lemma GaugesWithout(records: Records, some: set<string>)
    requires forall id :: id in some ==> InPhase(records, Completed, id) && records[id].attempt > 0
    ensures Active(records - some) == Active(records)
    ensures Identities(records - some) == Identities(records) - |some|
    ensures Tally(records - some, LogicalBytes) == Tally(records, LogicalBytes) - |some| * COMPLETED_OVERHEAD
  {
    TallyWithout(records, some, Count(Ready));
    TallyWithout(records, some, Count(Leased));
    TallyWithout(records, some, Count(Quarantined));
    TallyWithout(records, some, Count(Completed));
    TallyWithout(records, some, LogicalBytes);
  }

  /** Sweeping does not touch what an ideal broker knows, and leaves the backlog to count. */
  lemma SweptGauges(s: State, id: string, now: int, o: Options)
    requires Inv(s) && o.Validate()
    ensures var swept, p, left := Replay(s, Sweep(s, id, now, o.cleanupBatch)), Purge(s, now), Backlog(s, id, now, o);
            && (id in swept.records <==> id in p.records)
            && (id in p.records ==> swept.records[id] == p.records[id])
            && Active(swept.records) == Active(s.records) == Active(p.records)
            && Identities(swept.records) == Identities(p.records) + left
            && Tally(swept.records, LogicalBytes) == Tally(p.records, LogicalBytes) + left * COMPLETED_OVERHEAD
  {
    var due := DueIn(s.records, Completed, now);
    hide Inv, Sweep, Tally, Replay, Lawful, Active, Identities;
    var gone := SweepEffect(s, id, now, o);
    var swept := Replay(s, Sweep(s, id, now, o.cleanupBatch));
    Attempted(s);
    GaugesWithout(s.records, due);
    GaugesWithout(swept.records, due - gone);
    assert swept.records - (due - gone) == s.records - due;
  }

  lemma Attempted(s: State)
    requires Inv(s)
    ensures forall j :: InPhase(s.records, Completed, j) ==> s.records[j].attempt > 0
  {
  }

  // ---------------------------------------------------------------- one publish

  lemma NoSweep(s: State, id: string, now: int, n: nat)
    requires Inv(s) && DueIn(s.records, Completed, now) == {}
    ensures Sweep(s, id, now, n) == []
  {
    NoneDue(s.records, Completed, now);
    forall j | InPhase(s.records, Completed, j) ensures now < s.records[j].due {
      assert j !in DueIn(s.records, Completed, now);
    }
    ForgottenNone(s, now, n);
  }

  lemma NothingLeft(s: State, now: int)
    ensures DueIn(Purge(s, now).records, Completed, now) == {}
  {
  }

  /** Every answer of a publish, exactly: what an ideal broker knows decides between duplicate,
      conflict and admission; admission takes a place, bytes and an identity, of which the completions
      left behind take up the last two. Nothing else refuses an event. */
  lemma PublishDecides(s: State, e: Event, encoded: Option<nat>, now: int, o: Options)
    requires Inv(s) && o.Validate()
    ensures Publish(s, e, encoded, now, o).reply == Failed(Invalid) <==> !Publishable(e, encoded, o)
    ensures Publishable(e, encoded, o) ==>
              var reply, id, data := Publish(s, e, encoded, now, o).reply, e.eventId, Payload(e, encoded.value);
              var known, left := Purge(s, now).records, Backlog(s, id, now, o);
              var place := Active(s.records) < o.capacity;
              var bytes := Tally(known, LogicalBytes) + left * COMPLETED_OVERHEAD + data.size + ACTIVE_OVERHEAD
                           <= o.maxLogicalBytes;
              var identity := Identities(known) + left < o.dedupCapacity;
              && (reply == Duplicate <==> id in known && known[id].hash == data)
              && (reply == Failed(Conflict) <==> id in known && known[id].hash != data)
              && (reply == Failed(Full) <==> id !in known && !(place && bytes))
              && (reply == Failed(DedupFull) <==> id !in known && place && bytes && !identity)
              && (reply == Accepted <==> id !in known && place && bytes && identity)
  {
    hide Inv, Purge, Sweep, Tally, Backlog, Active, Identities, Replay, Lawful, Event.Validate;
    SweptGauges(s, e.eventId, now, o);
  }

  /** The ideal broker has nothing to sweep and nothing left behind. */
  lemma IdealSweep(s: State, id: string, now: int, o: Options)
    requires Inv(s) && o.Validate()
    ensures var p := Purge(s, now);
            && Inv(p) && Purge(p, now) == p
            && Sweep(p, id, now, o.cleanupBatch) == [] && Backlog(p, id, now, o) == 0
  {
    hide Inv, Sweep, Purge;
    PurgeInv(s, now);
    NothingLeft(s, now);
    PurgeTwice(s, now, now);
    NoSweep(Purge(s, now), id, now, o.cleanupBatch);
  }

  /** The answers of publish are the ideal ones exactly when the leftover completions are not
      what is missing; duplicates and conflicts are always answered ideally. */
  lemma PublishAnswersIdeally(s: State, e: Event, encoded: Option<nat>, now: int, o: Options)
    requires Inv(s) && o.Validate() && Publishable(e, encoded, o)
    ensures Inv(Purge(s, now))
    ensures var p, data := Purge(s, now), Payload(e, encoded.value);
            var actual, ideal := Publish(s, e, encoded, now, o).reply, Publish(p, e, encoded, now, o).reply;
            && (actual == ideal <==> !Crowded(p, Backlog(s, e.eventId, now, o), data, o))
            && (actual == Duplicate <==> ideal == Duplicate)
            && (actual == Failed(Conflict) <==> ideal == Failed(Conflict))
            && (actual == Accepted ==> ideal == Accepted)
  {
    hide Inv, Purge, Sweep, Tally, Backlog, Active, Identities, Publish;
    SweptGauges(s, e.eventId, now, o);
    IdealSweep(s, e.eventId, now, o);
    PublishDecides(s, e, encoded, now, o);
    PublishDecides(Purge(s, now), e, encoded, now, o);
  }

  /** While no more identities are held than are allowed, a publish is refused for want of
      identities only if no completion has expired at all. */
  lemma DedupFullIsHonest(s: State, e: Event, encoded: Option<nat>, now: int, o: Options)
    requires Inv(s) && o.Validate() && Identities(s.records) <= o.dedupCapacity
    requires Publish(s, e, encoded, now, o).reply == Failed(DedupFull)
    ensures DueIn(s.records, Completed, now) == {} && Identities(s.records) == o.dedupCapacity
  {
    hide Inv, Sweep, Tally, Replay, Lawful, Event.Validate;
    var due := DueIn(s.records, Completed, now);
    var gone := SweepEffect(s, e.eventId, now, o);
    Attempted(s);
    GaugesWithout(s.records, gone);
    assert due != {} ==> |due| > 0;
  }

  // ---------------------------------------------------------------- whole runs

  /** A publish that leftover completions spoil. */
  ghost predicate CrowdedStep(s: State, step: Step)
    requires Possible(step)
  {
    && step.call.PublishCall? && Publishable(step.call.event, step.call.encoded, step.options)
    && Crowded(Purge(s, step.now), Backlog(s, step.call.event.eventId, step.now, step.options),
               Payload(step.call.event, step.call.encoded.value), step.options)
  }

  /** The actual and the ideal broker answer alike and stay alike. */
  ghost predicate Alike(s: State, step: Step)
    requires Inv(s) && Possible(step)
  {
    var p := Purge(s, step.now);
    && Inv(p)
    && var v, w := Respond(s, step), Respond(p, step);
       v.reply == w.reply && Purge(Replay(s, v.journal), step.now) == Replay(p, w.journal)
  }

  lemma PublishAlike(s: State, step: Step)
    requires Inv(s) && Possible(step) && step.call.PublishCall? && !CrowdedStep(s, step)
    ensures Alike(s, step)
  {
    hide Inv, Purge, Sweep, Replay, Lawful, Crowded, Backlog, Event.Validate, Commit, Tally;
    PurgeInv(s, step.now);
    var e, encoded, now, o := step.call.event, step.call.encoded, step.now, step.options;
    Nothing(s);
    Nothing(Purge(s, now));
    if Publishable(e, encoded, o) {
      PublishAnswersIdeally(s, e, encoded, now, o);
      IdealSweep(s, e.eventId, now, o);
      PurgeSwept(s, e.eventId, now, o);
      var s2 := Replay(s, Sweep(s, e.eventId, now, o.cleanupBatch));
      if Respond(s, step).reply == Accepted {
        PurgeCommutes(s2, Admit(Payload(e, encoded.value)), now);
      }
    }
  }

  lemma PurgeSwept(s: State, id: string, now: int, o: Options)
    requires Inv(s) && o.Validate()
    ensures Purge(Replay(s, Sweep(s, id, now, o.cleanupBatch)), now) == Purge(s, now)
  {
    hide Inv, Purge, Sweep, Replay, Lawful;
    var gone := SweepEffect(s, id, now, o);
    PurgeRemoved(s, gone, now);
  }

  lemma LeaseAlike(s: State, step: Step)
    requires Inv(s) && Possible(step) && step.call.LeaseCall?
    ensures Alike(s, step)
  {
    hide Inv, Purge, ReleaseDue, Lawful, Replay, Commit;
    var now, o := step.now, step.options;
    PurgeInv(s, now);
    ReplayInv(s, ReleaseDue(s, now, o.cleanupBatch));
    Nothing(s);
    Nothing(Purge(s, now));
    var s1, v := Released(s, now, o.cleanupBatch), Respond(s, step);
    SameReleases(s, now, o.cleanupBatch);
    SameFirst(s1, Ready, now);
    if v.reply.Delivered? {
      var id := DueFirst(s1.records, Ready, now).value;
      RecordWellFormed(s1, id);
      SameRecord(s1, id, now);
      PurgeCommutes(s1, Deliver(v.reply.delivery), now);
    }
  }

  /** A single change, and no Forget, is committed alike. */
  lemma OneChangeAlike(s: State, c: Change, now: int)
    requires Enabled(s, c, now) && !c.Forget?
    ensures var p := Purge(s, now);
            && Enabled(p, c, now) && Lawful(s, [Entry(c, now)]) && Lawful(p, [Entry(c, now)])
            && Purge(Replay(s, [Entry(c, now)]), now) == Replay(p, [Entry(c, now)])
  {
    PurgeCommutes(s, c, now);
    hide Purge, Enabled, Commit;
    LawfulOne(s, c, now);
    LawfulOne(Purge(s, now), c, now);
  }

  /** A record that has not expired is the same in both, and an expired one is in no lease. */
  lemma SameRecord(s: State, id: string, now: int)
    ensures var records' := Purge(s, now).records;
            && (id in records' <==> id in s.records && !(InPhase(s.records, Completed, id) && s.records[id].due <= now))
            && (id in records' ==> records'[id] == s.records[id])
  {
  }

  lemma AckAlike(s: State, step: Step)
    requires Inv(s) && Possible(step) && step.call.AckCall?
    ensures Alike(s, step)
  {
    hide Inv, Purge, Lawful, Replay;
    var p, v := Purge(s, step.now), Respond(s, step);
    PurgeInv(s, step.now);
    Nothing(s);
    Nothing(p);
    SameRecord(s, step.call.id, step.now);
    if v.reply == Done {
      var c := Complete(step.call.id, step.call.receipt, step.now + step.options.completionTtl);
      OneChangeAlike(s, c, step.now);
      assert [] + [Entry(c, step.now)] == [Entry(c, step.now)];
    }
  }

  function NackChange(n: NackRequest, now: int): Change {
    if n.permanent then Quarantine(n) else Requeue(n, now + n.delayMillis * MILLISECOND)
  }

  lemma NackAnswer(s: State, n: NackRequest, now: int, o: Options)
    ensures var v := Nack(s, n, now, o);
            && v.journal == (if v.reply == Done then [Entry(NackChange(n, now), now)] else [])
            && (v.reply == Done ==> Enabled(s, NackChange(n, now), now))
  {
  }

  lemma NackReplies(s: State, p: State, n: NackRequest, now: int, o: Options)
    requires var id := n.eventId;
             && (id in p.records <==>
                   && id in s.records
                   && !(InPhase(s.records, Completed, id) && s.records[id].due <= now))
             && (id in p.records ==> p.records[id] == s.records[id])
    requires Tally(p.records, Count(Quarantined)) == Tally(s.records, Count(Quarantined))
    ensures Nack(p, n, now, o).reply == Nack(s, n, now, o).reply
  {
    hide Tally, Lawful, Replay, Commit, Enabled;
  }

  lemma NackAlike(s: State, step: Step)
    requires Inv(s) && Possible(step) && step.call.NackCall?
    ensures Alike(s, step)
  {
    Attempted(s);
    hide Inv, Purge, Lawful, Replay, Tally, Commit;
    var p, n := Purge(s, step.now), step.call.nack;
    PurgeInv(s, step.now);
    Nothing(s);
    Nothing(p);
    SameRecord(s, n.eventId, step.now);
    SameQuarantine(s, step.now);
    NackAnswer(s, n, step.now, step.options);
    NackAnswer(p, n, step.now, step.options);
    NackReplies(s, p, n, step.now, step.options);
    hide Nack;
    if Respond(s, step).reply == Done {
      OneChangeAlike(s, NackChange(n, step.now), step.now);
    }
  }

  lemma CompletionsDue(s: State, now: int)
    ensures forall id :: id in DueIn(s.records, Completed, now) ==> InPhase(s.records, Completed, id)
  {
    hide Tally;
  }

  lemma SameQuarantine(s: State, now: int)
    requires Inv(s)
    ensures Tally(Purge(s, now).records, Count(Quarantined)) == Tally(s.records, Count(Quarantined))
  {
    hide Inv, Tally, DueIn, InPhase;
    Attempted(s);
    CompletionsDue(s, now);
    TallyWithout(s.records, DueIn(s.records, Completed, now), Count(Quarantined));
  }

  lemma FaultAlike(s: State, step: Step)
    requires Inv(s) && Possible(step) && step.call.Fault?
    ensures Alike(s, step)
  {
    hide Inv, Purge, Lawful, Replay;
    PurgeInv(s, step.now);
    Nothing(s);
    Nothing(Purge(s, step.now));
  }

  lemma CleanupAlike(s: State, step: Step)
    requires Inv(s) && Possible(step) && step.call.CleanupCall?
    ensures Alike(s, step)
  {
    hide Inv, Purge, Lawful, Replay, ReleaseDue, ForgetDue;
    var p, now, n := Purge(s, step.now), step.now, step.options.cleanupBatch;
    PurgeInv(s, now);
    ReplayInv(s, ReleaseDue(s, now, n));
    ReplayInv(p, ReleaseDue(p, now, n));
    var s1, p1 := Released(s, now, n), Released(p, now, n);
    ReplayConcat(s, ReleaseDue(s, now, n), ForgetDue(s1, now, n));
    ReplayConcat(p, ReleaseDue(p, now, n), ForgetDue(p1, now, n));
    SameReleases(s, now, n);
    var forgotten := ForgetEffect(s1, now, n);
    PurgeRemoved(s1, forgotten, now);
    NothingLeft(s1, now);
    NoSweep(p1, "", now, n);
    Nothing(p1);
  }

  /** Answers and states of the two brokers agree at every step that is not crowded. */
  lemma StepsAlike(s: State, step: Step)
    requires Inv(s) && Possible(step) && !CrowdedStep(s, step)
    ensures Alike(s, step)
  {
    hide Inv, Alike, CrowdedStep, Possible;
    match step.call
    case PublishCall(_, _) => PublishAlike(s, step);
    case LeaseCall(_) => LeaseAlike(s, step);
    case AckCall(_, _) => AckAlike(s, step);
    case NackCall(_) => NackAlike(s, step);
    case CleanupCall => CleanupAlike(s, step);
    case Fault => FaultAlike(s, step);
  }

  /** The ideal broker: it purges, then does the step. */
  ghost function IdealAfter(s: State, run: seq<Step>): (s': State)
    requires Inv(s) && PossibleRun(run)
    ensures Inv(s')
  {
    if run == [] then s
    else
      var step := run[|run| - 1];
      var i := IdealAfter(s, run[..|run| - 1]);
      PurgeInv(i, step.now);
      ReplayInv(Purge(i, step.now), Respond(Purge(i, step.now), step).journal);
      Replay(Purge(i, step.now), Respond(Purge(i, step.now), step).journal)
  }

  ghost function IdealReplyAt(s: State, run: seq<Step>, i: nat): Reply
    requires Inv(s) && PossibleRun(run) && i < |run|
  {
    var before := IdealAfter(s, run[..i]);
    PurgeInv(before, run[i].now);
    Respond(Purge(before, run[i].now), run[i]).reply
  }

  /** Refinement: over any run whose clock never goes back and none of whose publishes is
      crowded, the broker gives the ideal broker's answers, step by step. */
  lemma {:induction false} RefinesIdeal(s: State, run: seq<Step>)
    requires Inv(s) && PossibleRun(run) && OrderedRun(run)
    requires forall i :: 0 <= i < |run| ==> !CrowdedStep(After(s, run[..i]), run[i])
    ensures forall i :: 0 <= i < |run| ==> ReplyAt(s, run, i) == IdealReplyAt(s, run, i)
    ensures run != [] ==> IdealAfter(s, run) == Purge(After(s, run), run[|run| - 1].now)
  {
    hide Inv, Purge, After, Possible, CrowdedStep, IdealAfter, Alike, ReplyAt, IdealReplyAt;
    if run != [] {
      var n := |run| - 1;
      var prior := run[..n];
      assert forall i :: 0 <= i < n ==> prior[..i] == run[..i];
      assert CrowdedStep(After(s, run[..n]), run[n]) == false;
      RefinesIdeal(s, prior);
      forall i | 0 <= i < n ensures ReplyAt(s, run, i) == IdealReplyAt(s, run, i) {
        SameReplies(s, run, n, i);
      }
      RefinesStep(s, run, prior, run[n]);
    }
  }

  /** The first crowded step of a run, if there is one. */
  lemma {:induction false} FirstCrowded(s: State, run: seq<Step>, n: nat) returns (first: Option<nat>)
    requires Inv(s) && PossibleRun(run) && n <= |run|
    ensures first.Some? ==> first.value < n && CrowdedStep(After(s, run[..first.value]), run[first.value])
    ensures forall i :: 0 <= i < n && (first.Some? ==> i < first.value) ==> !CrowdedStep(After(s, run[..i]), run[i])
  {
    hide Inv, Possible, CrowdedStep, After;
    if n == 0 {
      first := None;
    } else {
      first := FirstCrowded(s, run, n - 1);
      if first.None? && CrowdedStep(After(s, run[..n - 1]), run[n - 1]) {
        first := Some(n - 1);
      }
    }
  }

  /** A crowded publish is answered otherwise than by the ideal broker. */
  lemma CrowdedDiffers(s: State, step: Step)
    requires Inv(s) && Possible(step) && CrowdedStep(s, step) && Inv(Purge(s, step.now))
    ensures Respond(s, step).reply != Respond(Purge(s, step.now), step).reply
  {
    hide Inv, Purge, Backlog, Crowded, Publishable, Publish;
    PublishAnswersIdeally(s, step.call.event, step.call.encoded, step.now, step.options);
  }

  lemma CrowdedAt(s: State, run: seq<Step>, k: nat)
    requires Inv(s) && PossibleRun(run) && OrderedRun(run) && k < |run|
    requires CrowdedStep(After(s, run[..k]), run[k])
    requires forall i :: 0 <= i < k ==> !CrowdedStep(After(s, run[..i]), run[i])
    ensures ReplyAt(s, run, k) != IdealReplyAt(s, run, k)
  {
    hide Inv, Purge, After, Possible, CrowdedStep, IdealAfter, Respond;
    var prior := run[..k];
    assert forall i :: 0 <= i < k ==> prior[..i] == run[..i];
    RefinesIdeal(s, prior);
    IdealCatchesUp(s, prior, run[k].now);
    PurgeInv(After(s, prior), run[k].now);
    CrowdedDiffers(After(s, prior), run[k]);
  }

  /** Refinement, exactly: over any run whose clock never goes back the broker gives the ideal
      broker's answers at every step if and only if none of its publishes is crowded. */
  lemma RefinesExactly(s: State, run: seq<Step>)
    requires Inv(s) && PossibleRun(run) && OrderedRun(run)
    ensures (forall i :: 0 <= i < |run| ==> ReplyAt(s, run, i) == IdealReplyAt(s, run, i))
       <==> (forall i :: 0 <= i < |run| ==> !CrowdedStep(After(s, run[..i]), run[i]))
  {
    hide Inv, Possible, CrowdedStep, After, ReplyAt, IdealReplyAt, OrderedRun;
    var first := FirstCrowded(s, run, |run|);
    match first
    case Some(k) => CrowdedAt(s, run, k);
    case None => RefinesIdeal(s, run);
  }

  lemma SameReplies(s: State, run: seq<Step>, n: nat, i: nat)
    requires Inv(s) && PossibleRun(run) && i < n <= |run|
    ensures ReplyAt(s, run, i) == ReplyAt(s, run[..n], i) && IdealReplyAt(s, run, i) == IdealReplyAt(s, run[..n], i)
  {
    assert run[..n][..i] == run[..i];
  }

  lemma RefinesStep(s: State, run: seq<Step>, prior: seq<Step>, step: Step)
    requires Inv(s) && PossibleRun(run) && PossibleRun(prior) && Possible(step) && run != []
    requires prior == run[..|run| - 1] && step == run[|run| - 1]
    requires !CrowdedStep(After(s, prior), step)
    requires prior != [] ==>
               prior[|prior| - 1].now <= step.now && IdealAfter(s, prior)
                   == Purge(After(s, prior), prior[|prior| - 1].now)
    ensures ReplyAt(s, run, |run| - 1) == IdealReplyAt(s, run, |run| - 1)
    ensures IdealAfter(s, run) == Purge(After(s, run), step.now)
  {
    hide *;
    LastStep(s, run);
    IdealCatchesUp(s, prior, step.now);
    AlikeStep(After(s, prior), Purge(IdealAfter(s, prior), step.now), step);
  }

  lemma AlikeStep(s: State, p: State, step: Step)
    requires Inv(s) && Inv(p) && Possible(step) && p == Purge(s, step.now) && !CrowdedStep(s, step)
    ensures Respond(s, step).reply == Respond(p, step).reply
    ensures Purge(Replay(s, Respond(s, step).journal), step.now) == Replay(p, Respond(p, step).journal)
  {
    hide Inv, Possible, CrowdedStep, Purge, Respond, Replay, Lawful;
    StepsAlike(s, step);
  }

  lemma LastStep(s: State, run: seq<Step>)
    requires Inv(s) && PossibleRun(run) && run != []
    ensures var n := |run| - 1;
            var a, i := After(s, run[..n]), Purge(IdealAfter(s, run[..n]), run[n].now);
            && Inv(i)
            && IdealAfter(s, run) == Replay(i, Respond(i, run[n]).journal)
            && IdealReplyAt(s, run, n) == Respond(i, run[n]).reply
            && After(s, run) == Replay(a, Respond(a, run[n]).journal)
            && ReplyAt(s, run, n) == Respond(a, run[n]).reply
  {
    hide Inv, Purge, Possible, Respond, Replay, Lawful, After;
    var n := |run| - 1;
    PurgeInv(IdealAfter(s, run[..n]), run[n].now);
    AfterStep(s, run, n);
    assert run[..n + 1] == run;
  }

  lemma IdealCatchesUp(s: State, run: seq<Step>, now: int)
    requires Inv(s) && PossibleRun(run)
    requires run != [] ==> run[|run| - 1].now <= now && IdealAfter(s, run) == Purge(After(s, run), run[|run| - 1].now)
    ensures Purge(IdealAfter(s, run), now) == Purge(After(s, run), now)
  {
    if run == [] {
      AfterNothing(s);
    } else {
      PurgeTwice(After(s, run), run[|run| - 1].now, now);
    }
  }
}
