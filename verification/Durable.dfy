/** The durable broker itself: an object that puts and deletes keys in its buckets and
    updates its counters in place, one transaction per operation, rolled back on error. */
module DurableBroker {
  import opened Telemetry
  import opened Broker
  import opened Transactions
  import opened Indexes

  lemma FirstIn(records: Records, p: Phase, id: string, now: int)
    requires DueFirst(records, p, now) == Some(id)
    ensures InPhase(records, p, id) && records[id].due <= now
  {
  }

  const EMPTY_FILE := File(map[], map[], map[], map[], 0, NO_STATS)

  lemma EmptyAgrees()
    ensures Agree(EMPTY_FILE) && View(EMPTY_FILE) == EMPTY
  {
    EmptyInv();
  }

  /** What agreement says about one record, and about the counters. */
  lemma Held(f: File, id: string)
    requires Agree(f) && id in f.records
    ensures WellFormed(id, f.records[id])
  {
  }

  lemma Counted(f: File)
    requires Agree(f)
    ensures Counts(f.records, f.stats)
  {
  }

  lemma FirstAgreesIn(f: File, p: Phase, now: int, k: Option<Key>)
    requires Agree(f) && p != Quarantined
    requires var b := BucketOf(f, p);
             && (k.Some? ==> IsLeast(b.Keys, k.value) && k.value.due <= now)
             && (k.None? ==> forall j :: j in b ==> now < j.due)
    ensures DueFirst(f.records, p, now) == if k.Some? then Some(BucketOf(f, p)[k.value]) else None
    ensures k.Some? ==> KeyOf(f.records[BucketOf(f, p)[k.value]]) == k.value
  {
    FirstAgrees(f.records, f.sequence, BucketOf(f, p), p, now, k);
  }

  function BucketOf(f: File, p: Phase): Bucket {
    match p
    case Ready => f.ready
    case Leased => f.leases
    case Completed => f.completions
    case Quarantined => map[]
  }

  // The bucket and counter writes of each operation amount to its change.

  lemma AdmitWrites(f: File, data: Payload, now: int)
    requires Agree(f) && data.event.eventId !in f.records
    ensures var id, seqn := data.event.eventId, f.sequence + 1;
            var r := Record(Some(data), data, Ready, seqn, 0, now, "", "", None, "");
            var f' := f.(records := f.records[id := r], ready := f.ready[Key(now, seqn) := id], sequence := seqn,
                         stats := f.stats.(ready := f.stats.ready + 1, accepted := f.stats.accepted + 1,
                                           logicalBytes := f.stats.logicalBytes + data.size + ACTIVE_OVERHEAD));
            Agree(f') && View(f') == Commit(View(f), Admit(data), now)
  {
    hide Agree;
    AgreeCommit(f, Admit(data), now);
  }

  lemma DeliverWrites(f: File, d: Delivery, now: int)
    requires Enabled(View(f), Deliver(d), now) && Agree(f)
    ensures var id := d.Id();
            var r := f.records[id];
            var r' := r.(phase := Leased, token := d.token, due := d.expires, attempt := r.attempt + 1,
                         lastNackToken := "", lastNack := None, reason := "");
            var f' := f.(records := f.records[id := r'], ready := f.ready - {KeyOf(r)},
                         leases := f.leases[KeyOf(r') := id],
                         stats := f.stats.(ready := f.stats.ready - 1, leased := f.stats.leased + 1,
                                           deliveries := f.stats.deliveries + 1,
                                           redeliveries := f.stats.redeliveries + if r'.attempt > 1 then 1 else 0));
            Agree(f') && View(f') == Commit(View(f), Deliver(d), now)
  {
    hide Agree;
    AgreeCommit(f, Deliver(d), now);
  }

  lemma CompleteWrites(f: File, id: string, token: string, until: int, now: int)
    requires HoldsLease(View(f), id, token, now) && |token| == TOKEN_BYTES && now < until && Agree(f)
    ensures var r := f.records[id];
            var r' := r.(event := None, phase := Completed, due := until);
            var f' := f.(records := f.records[id := r'], leases := f.leases - {KeyOf(r)},
                         completions := f.completions[KeyOf(r') := id],
                         stats := f.stats.(leased := f.stats.leased - 1, completed := f.stats.completed + 1,
                                           acked := f.stats.acked + 1,
                                           logicalBytes := f.stats.logicalBytes
                                             - (r.hash.size + ACTIVE_OVERHEAD - COMPLETED_OVERHEAD)));
            Agree(f') && View(f') == Commit(View(f), Complete(id, token, until), now)
  {
    hide Agree;
    AgreeCommit(f, Complete(id, token, until), now);
  }

  lemma RequeueWrites(f: File, n: NackRequest, retryAt: int, now: int)
    requires HoldsLease(View(f), n.eventId, n.token, now) && |n.token| == TOKEN_BYTES && now <= retryAt && Agree(f)
    ensures var id := n.eventId;
            var r := f.records[id];
            var r' := Nacked(r, n).(phase := Ready, due := retryAt);
            var f' := f.(records := f.records[id := r'], leases := f.leases - {KeyOf(r)},
                         ready := f.ready[KeyOf(r') := id],
                         stats := f.stats.(leased := f.stats.leased - 1, ready := f.stats.ready + 1));
            Agree(f') && View(f') == Commit(View(f), Requeue(n, retryAt), now)
  {
    hide Agree;
    AgreeCommit(f, Requeue(n, retryAt), now);
  }

  lemma QuarantineWrites(f: File, n: NackRequest, now: int)
    requires HoldsLease(View(f), n.eventId, n.token, now) && |n.token| == TOKEN_BYTES && Agree(f)
    ensures var id := n.eventId;
            var r := f.records[id];
            var f' := f.(records := f.records[id := Nacked(r, n).(phase := Quarantined, due := 0)],
                         leases := f.leases - {KeyOf(r)},
                         stats := f.stats.(leased := f.stats.leased - 1, quarantined := f.stats.quarantined + 1));
            Agree(f') && View(f') == Commit(View(f), Quarantine(n), now)
  {
    hide Agree;
    AgreeCommit(f, Quarantine(n), now);
  }

  lemma ReleaseWrites(f: File, id: string, now: int)
    requires IsFirst(f.records, Leased, id) && f.records[id].due <= now && Agree(f)
    ensures var r := f.records[id];
            var r' := r.(phase := Ready, token := "", due := now);
            var f' := f.(records := f.records[id := r'], leases := f.leases - {KeyOf(r)},
                         ready := f.ready[KeyOf(r') := id],
                         stats := f.stats.(leased := f.stats.leased - 1, ready := f.stats.ready + 1));
            Agree(f') && View(f') == Commit(View(f), Release(id), now)
  {
    hide Agree;
    AgreeCommit(f, Release(id), now);
  }

  lemma ForgetWrites(f: File, id: string, now: int)
    requires InPhase(f.records, Completed, id) && f.records[id].due <= now && Agree(f)
    ensures var f' := f.(records := f.records - {id}, completions := f.completions - {KeyOf(f.records[id])},
                         stats := f.stats.(completed := f.stats.completed - 1,
                                           logicalBytes := f.stats.logicalBytes - COMPLETED_OVERHEAD));
            Agree(f') && View(f') == Commit(View(f), Forget(id), now)
  {
    hide Agree;
    AgreeCommit(f, Forget(id), now);
  }

  class Durable {
    var records: Records
    var ready: Bucket
    var leases: Bucket
    var completions: Bucket
    var sequence: nat
    var stats: Stats
    var opts: Options

    function Contents(): File
      reads this
    {
      File(records, ready, leases, completions, sequence, stats)
    }

    /** The broker state the buckets stand for. */
    function State(): Broker.State
      reads this
    {
      View(Contents())
    }

    ghost predicate Valid()
      reads this
    {
      Agree(Contents()) && opts.Validate()
    }

    /** A new, empty database. */
    constructor (o: Options)
      requires o.Validate()
      ensures Valid() && State() == EMPTY && opts == o
    {
      hide Agree;
      EmptyAgrees();
      records, ready, leases, completions := map[], map[], map[], map[];
      sequence, stats, opts := 0, NO_STATS, o;
    }

    /** The same database opened again, perhaps with other limits. */
    method Reopen(o: Options) returns (err: Option<Error>)
      requires Valid()
      modifies this`opts
      ensures Valid()
      ensures err.None? <==> o.Validate()
      ensures opts == if o.Validate() then o else old(opts)
    {
      if !o.Validate() {
        return Some(Invalid);
      }
      opts := o;
      return None;
    }

    /** Abandons a transaction: everything is as when it began. */
    method Rollback(begun: File)
      modifies this
      ensures Contents() == begun && opts == old(opts)
    {
      records, ready, leases, completions := begun.records, begun.ready, begun.leases, begun.completions;
      sequence, stats := begun.sequence, begun.stats;
    }

    method ExpireLeases(now: int)
      requires Valid()
      modifies this
      ensures Valid() && opts == old(opts)
      ensures State() == Released(old(State()), now, opts.cleanupBatch)
    {
      hide Agree, Released, Commit;
      for i := 0 to opts.cleanupBatch
        invariant Valid() && opts == old(opts)
        invariant Released(State(), now, opts.cleanupBatch - i) == Released(old(State()), now, opts.cleanupBatch)
      {
        var k := FirstDue(leases, now);
        FirstAgreesIn(Contents(), Leased, now, k);
        if k.None? {
          ReleasedNone(State(), now, opts.cleanupBatch - i);
          break;
        }
        var id := leases[k.value];
        ReleasedStep(State(), now, opts.cleanupBatch - i);
        ReleaseWrites(Contents(), id, now);
        var r := records[id];
        leases := leases - {k.value};
        r := r.(phase := Ready, token := "", due := now);
        records := records[id := r];
        ready := ready[Key(now, r.sequence) := id];
        stats := stats.(leased := stats.leased - 1, ready := stats.ready + 1);
      }
      ReleasedNone(State(), now, 0);
    }

    method RemoveCompleted(id: string, now: int)
      requires Valid() && InPhase(records, Completed, id) && records[id].due <= now
      modifies this
      ensures Valid() && opts == old(opts)
      ensures State() == Commit(old(State()), Forget(id), now)
    {
      hide Agree, Commit;
      ForgetWrites(Contents(), id, now);
      completions := completions - {KeyOf(records[id])};
      records := records - {id};
      stats := stats.(completed := stats.completed - 1, logicalBytes := stats.logicalBytes - COMPLETED_OVERHEAD);
    }

    method ExpireCompleted(now: int)
      requires Valid()
      modifies this
      ensures Valid() && opts == old(opts)
      ensures State() == Forgotten(old(State()), now, opts.cleanupBatch)
    {
      hide Agree, Forgotten;
      for i := 0 to opts.cleanupBatch
        invariant Valid() && opts == old(opts)
        invariant Forgotten(State(), now, opts.cleanupBatch - i) == Forgotten(old(State()), now, opts.cleanupBatch)
      {
        var k := FirstDue(completions, now);
        FirstAgreesIn(Contents(), Completed, now, k);
        if k.None? {
          ForgottenNone(State(), now, opts.cleanupBatch - i);
          break;
        }
        ForgottenStep(State(), now, opts.cleanupBatch - i);
        RemoveCompleted(completions[k.value], now);
      }
      ForgottenNone(State(), now, 0);
    }

    method PublishContext(e: Event, encoded: Option<nat>, now: int) returns (reply: Reply)
      requires Valid()
      modifies this
      ensures Valid() && opts == old(opts)
      ensures var v := Publish(old(State()), e, encoded, now, opts);
              reply == v.reply && State() == Replay(old(State()), v.journal)
      ensures reply.Failed? ==> Contents() == old(Contents())
    {
      hide Agree, Inv, Tally, ForgetDue, Replay, Lawful, Commit, Event.Validate, IsFirst, Enabled, WellFormed;
      Nothing(State());
      if !e.Validate() || encoded.None? || encoded.value > opts.maxPayloadBytes {
        return Failed(Invalid);
      }
      var data, id, tx := Payload(e, encoded.value), e.eventId, Contents();
      ExpireCompleted(now);
      if InPhase(records, Completed, id) && records[id].due <= now {
        RemoveCompleted(id, now);
      }
      if id in records {
        if records[id].hash != data {
          Rollback(tx);
          return Failed(Conflict);
        }
        return Duplicate;
      }
      Counted(Contents());
      if stats.ready + stats.leased + stats.quarantined >= opts.capacity
        || stats.logicalBytes + data.size + ACTIVE_OVERHEAD > opts.maxLogicalBytes {
        Rollback(tx);
        return Failed(Full);
      }
      if stats.ready + stats.leased + stats.quarantined + stats.completed >= opts.dedupCapacity {
        Rollback(tx);
        return Failed(DedupFull);
      }
      AdmitWrites(Contents(), data, now);
      sequence := sequence + 1;
      var r := Record(Some(data), data, Ready, sequence, 0, now, "", "", None, "");
      records := records[id := r];
      ready := ready[Key(now, sequence) := id];
      stats := stats.(ready := stats.ready + 1, accepted := stats.accepted + 1,
                      logicalBytes := stats.logicalBytes + data.size + ACTIVE_OVERHEAD);
      return Accepted;
    }

    /** `token` is what the random source returned, None when it failed. */
    method LeaseNow(token: Option<string>, now: int) returns (reply: Reply)
      requires Valid() && (token.Some? ==> |token.value| == TOKEN_BYTES)
      modifies this
      ensures Valid() && opts == old(opts)
      ensures var v := TryLease(old(State()), token, now, opts);
              reply == v.reply && State() == Replay(old(State()), v.journal)
      ensures !reply.Delivered? ==> Contents() == old(Contents())
    {
      hide Agree, Inv, ReleaseDue, Replay, Lawful, IsFirst, Commit;
      Nothing(State());
      var tx := Contents();
      ExpireLeases(now);
      var k := FirstDue(ready, now);
      FirstAgreesIn(Contents(), Ready, now, k);
      if k.None? {
        Rollback(tx);
        return Empty;
      }
      var id := ready[k.value];
      FirstIn(records, Ready, id, now);
      var r := records[id];
      Held(Contents(), id);
      if token.None? {
        Rollback(tx);
        return Failed(Entropy);
      }
      var d := DeliveryOf(r, token.value, now + opts.leaseDuration);
      DeliverWrites(Contents(), d, now);
      ready := ready - {k.value};
      r := r.(phase := Leased, token := token.value, due := now + opts.leaseDuration, attempt := r.attempt + 1,
              lastNackToken := "", lastNack := None, reason := "");
      records := records[id := r];
      leases := leases[Key(r.due, r.sequence) := id];
      stats := stats.(ready := stats.ready - 1, leased := stats.leased + 1, deliveries := stats.deliveries + 1);
      if r.attempt > 1 {
        stats := stats.(redeliveries := stats.redeliveries + 1);
      }
      return Delivered(d);
    }

    method AckLease(id: string, token: string, now: int) returns (reply: Reply)
      requires Valid()
      modifies this
      ensures Valid() && opts == old(opts)
      ensures var v := Ack(old(State()), id, token, now, opts);
              reply == v.reply && State() == Replay(old(State()), v.journal)
      ensures reply != Done ==> Contents() == old(Contents())
    {
      hide Agree, Inv, Tally, Lawful, Replay, Commit;
      Nothing(State());
      if !ValidReceipt(id, token) {
        return Failed(Invalid);
      }
      if id !in records {
        return Failed(StaleLease);
      }
      var r := records[id];
      if r.phase == Completed && r.token == token && r.due > now {
        return Duplicate;
      }
      if r.phase != Leased || r.token != token || r.due <= now {
        return Failed(StaleLease);
      }
      Held(Contents(), id);
      CompleteWrites(Contents(), id, token, now + opts.completionTtl, now);
      leases := leases - {KeyOf(r)};
      stats := stats.(logicalBytes := stats.logicalBytes - (r.event.value.size + ACTIVE_OVERHEAD - COMPLETED_OVERHEAD));
      r := r.(event := None, phase := Completed, due := now + opts.completionTtl);
      records := records[id := r];
      completions := completions[KeyOf(r) := id];
      stats := stats.(leased := stats.leased - 1, completed := stats.completed + 1, acked := stats.acked + 1);
      return Done;
    }

    method NackLease(n: NackRequest, now: int) returns (reply: Reply)
      requires Valid()
      modifies this
      ensures Valid() && opts == old(opts)
      ensures var v := Nack(old(State()), n, now, opts);
              reply == v.reply && State() == Replay(old(State()), v.journal)
      ensures reply != Done ==> Contents() == old(Contents())
    {
      hide Agree, Inv, Tally, Lawful, Replay, Commit;
      Nothing(State());
      if !ValidNack(n) {
        return Failed(Invalid);
      }
      if n.eventId !in records {
        return Failed(StaleLease);
      }
      var r := records[n.eventId];
      if (r.phase == Ready || r.phase == Quarantined) && r.lastNackToken == n.token {
        if r.lastNack != Some(n) {
          return Failed(Conflict);
        }
        return Duplicate;
      }
      if r.phase != Leased || r.token != n.token || r.due <= now {
        return Failed(StaleLease);
      }
      Counted(Contents());
      if n.permanent && stats.quarantined >= opts.quarantineCapacity {
        return Failed(Full);
      }
      if n.permanent {
        QuarantineWrites(Contents(), n, now);
      } else {
        RequeueWrites(Contents(), n, now + n.delayMillis * MILLISECOND, now);
      }
      leases := leases - {KeyOf(r)};
      r := r.(lastNackToken := n.token, lastNack := Some(n), token := "", reason := n.reason);
      stats := stats.(leased := stats.leased - 1);
      if n.permanent {
        r := r.(phase := Quarantined, due := 0);
        stats := stats.(quarantined := stats.quarantined + 1);
      } else {
        r := r.(phase := Ready, due := now + n.delayMillis * MILLISECOND);
        stats := stats.(ready := stats.ready + 1);
        ready := ready[KeyOf(r) := n.eventId];
      }
      records := records[n.eventId := r];
      return Done;
    }

    /** `probed` is the time of the read-only look that spares an idle pass its commit. */
    method CleanupPass(probed: int, now: int) returns (ran: bool)
      requires Valid()
      modifies this
      ensures Valid() && opts == old(opts)
      ensures ran <==> exists id :: id in old(records) && old(records)[id].phase in {Leased, Completed}
                                    && old(records)[id].due <= probed
      ensures State() == if ran then Replay(old(State()), Cleanup(old(State()), now, opts).journal) else old(State())
    {
      hide Agree;
      var lease := FirstDue(leases, probed);
      FirstAgreesIn(Contents(), Leased, probed, lease);
      NoneDue(records, Leased, probed);
      var completion := FirstDue(completions, probed);
      FirstAgreesIn(Contents(), Completed, probed, completion);
      NoneDue(records, Completed, probed);
      ran := lease.Some? || completion.Some?;
      if ran {
        ghost var before := State();
        ExpireLeases(now);
        ExpireCompleted(now);
        var released := ReleaseDue(before, now, opts.cleanupBatch);
        ReplayConcat(before, released, ForgetDue(Replay(before, released), now, opts.cleanupBatch));
      }
    }
  }
}
