/** When a publish is accepted, in terms of the calls and answers before it. */
module Acceptance {
  import opened Telemetry
  import opened Broker
  import opened Transactions
  import opened Histories
  import opened Expiry
  import opened Ideal
  import Bounds
  import Retention

  // ---------------------------------------------------------------- completions remembered

  /** The completions that expire after `now`. */
  ghost function Unexpired(records: Records, now: int): set<string> {
    set id | id in records && InPhase(records, Completed, id) && now < records[id].due
  }

  /** A completion that lasts beyond `now`, in a history and in an answer. */
  function LastingIn(now: int): Entry -> Option<string> {
    (e: Entry) => if e.change.Complete? && now < e.change.until then Some(e.change.acked) else None
  }

  function LastingBy(now: int): (Step, Reply) -> Option<string> {
    (step: Step, reply: Reply) =>
      if reply == Done && step.call.AckCall? && now < Retention.Until(step) then Some(step.call.id) else None
  }

  lemma LastingMatches(now: int)
    ensures Matching(LastingIn(now), LastingBy(now))
  {
  }

  /** Only an ACK adds to the completions that last beyond `now`; before `now` none of them goes. */
  lemma UnexpiredCommit(s: State, c: Change, at: int, now: int)
    requires Enabled(s, c, at) && at <= now
    ensures Unexpired(Commit(s, c, at).records, now)
         == Unexpired(s.records, now) + match LastingIn(now)(Entry(c, at)) { case Some(id) => {id} case None => {} }
    ensures c.Complete? ==> c.acked !in Unexpired(s.records, now)
  {
    hide Before;
  }

  lemma {:induction false} HistoryLasting(h: History, now: int)
    requires Lawful(EMPTY, h) && forall i :: 0 <= i < |h| ==> h[i].now <= now
    ensures |Unexpired(Replay(EMPTY, h).records, now)| == |Pick(h, LastingIn(now))|
  {
    hide Enabled, Commit, LastingIn, Unexpired;
    if h == [] {
      NothingUnexpired(now);
    } else {
      var n := |h| - 1;
      HistoryLasting(h[..n], now);
      OneMoreLasting(Replay(EMPTY, h[..n]), h[n], now);
    }
  }

  lemma NothingUnexpired(now: int)
    ensures Unexpired(map[], now) == {}
  {
  }

  lemma OneMoreLasting(s: State, e: Entry, now: int)
    requires Enabled(s, e.change, e.now) && e.now <= now
    ensures |Unexpired(Commit(s, e.change, e.now).records, now)|
         == |Unexpired(s.records, now)| + if LastingIn(now)(e).Some? then 1 else 0
  {
    UnexpiredCommit(s, e.change, e.now, now);
    assert e == Entry(e.change, e.now);
    hide Enabled, Commit, Unexpired;
  }

  /** The records of a phase. */
  ghost function IdsIn(records: Records, p: Phase): set<string> {
    set id | id in records && InPhase(records, p, id)
  }

  lemma IdsWithout(records: Records, p: Phase, id: string)
    requires id in records
    ensures |IdsIn(records, p)| == |IdsIn(records - {id}, p)| + Weight(Count(p), records[id])
  {
    var all := IdsIn(records, p);
    assert id in all <==> records[id].phase == p;
    assert IdsIn(records - {id}, p) == all - {id};
    hide IdsIn;
  }

  /** Counting the records of a phase counts their ids. */
  lemma {:induction false} CountIsSize(records: Records, p: Phase)
    ensures Tally(records, Count(p)) == |IdsIn(records, p)|
    decreases records
  {
    hide Weight, IdsIn;
    if records == map[] {
      NoIds(p);
    } else {
      var id :| id in records;
      hide Tally;
      TallyDrop(records, id, Count(p));
      CountIsSize(records - {id}, p);
      IdsWithout(records, p, id);
    }
  }

  lemma NoIds(p: Phase)
    ensures IdsIn(map[], p) == {}
  {
  }

  lemma PurgedCompletions(s: State, now: int)
    ensures Tally(Purge(s, now).records, Count(Completed)) == |Unexpired(s.records, now)|
  {
    hide Tally;
    CountIsSize(Purge(s, now).records, Completed);
    assert IdsIn(Purge(s, now).records, Completed) == Unexpired(s.records, now);
  }

  /** Over a run, the completions that last beyond `now` are as many as the ACKs that made them. */
  lemma LastingCounted(run: seq<Step>, now: int)
    requires PossibleRun(run) && OrderedRun(run) && (forall i :: 0 <= i < |run| ==> run[i].now <= now)
    ensures Inv(EMPTY)
    ensures |Unexpired(After(EMPTY, run).records, now)| == |Observed(EMPTY, run, LastingBy(now))|
  {
    hide Matching, Inv, Lawful, Replay, HistoryOf, Respond, Observed, Pick, Possible, LastingIn, LastingBy, Unexpired;
    EmptyInv();
    LastingMatches(now);
    ObservedIsCommitted(EMPTY, run, LastingIn(now), LastingBy(now));
    HistoryOrdered(EMPTY, run);
    HistoryLasting(HistoryOf(EMPTY, run), now);
  }

  // ---------------------------------------------------------------- acceptance over a run

  /** The events accepted and not acknowledged, by the answers given. */
  ghost function Unfinished(run: seq<Step>): int
    requires Inv(EMPTY) && PossibleRun(run)
  {
    |Observed(EMPTY, run, AcceptedBy)| - |Observed(EMPTY, run, Bounds.AckedBy)|
  }

  /** The ACKs whose completions have not expired by time `now`, by the answers given. */
  ghost function Remembered(run: seq<Step>, now: int): nat
    requires Inv(EMPTY) && PossibleRun(run)
  {
    |Observed(EMPTY, run, LastingBy(now))|
  }

  lemma FiguresObserved(run: seq<Step>, now: int)
    requires PossibleRun(run) && OrderedRun(run) && (forall i :: 0 <= i < |run| ==> run[i].now <= now)
    ensures Inv(EMPTY)
    ensures var s := After(EMPTY, run);
            && Active(s.records) == Active(Purge(s, now).records) == Unfinished(run)
            && Identities(Purge(s, now).records) == Unfinished(run) + Remembered(run, now)
  {
    hide Inv, Observed, After, Purge, Possible, Tally, Unexpired, LastingBy;
    EmptyInv();
    var s := After(EMPTY, run);
    Bounds.RunsBalance(run);
    LastingCounted(run, now);
    PurgedCompletions(s, now);
    SameActive(s, now);
  }

  lemma SameActive(s: State, now: int)
    requires Inv(s)
    ensures Active(Purge(s, now).records) == Active(s.records)
  {
    hide Inv, Tally;
    Attempted(s);
    GaugesWithout(s.records, DueIn(s.records, Completed, now));
  }

  /** Some step accepted `id`, and what it accepted is still remembered at step `b`. */
  ghost predicate Retained(run: seq<Step>, b: nat, id: string)
    requires Inv(EMPTY) && PossibleRun(run) && b < |run|
  {
    exists a: nat :: a < b && Retention.AcceptedAt(EMPTY, run, id, a) && !Retention.RanOut(EMPTY, run, a, b, id)
  }

  /** There is room for `size` bytes more beside `left` completions left behind. */
  ghost predicate BytesFit(s: State, now: int, left: nat, size: nat, o: Options) {
    Tally(Purge(s, now).records, LogicalBytes) + left * COMPLETED_OVERHEAD + size + ACTIVE_OVERHEAD <= o.maxLogicalBytes
  }

  /** Acceptance, exactly: over any run on a new database whose clock never goes back, a publish is
      accepted if and only if its event is publishable, its id is not retained, fewer events than the
      capacity were accepted and not ACKed, fewer identities than allowed are in use, counting those
      events, the ACKs still remembered and the completions left behind, and the bytes fit. */
  lemma AcceptedExactly(run: seq<Step>, b: nat)
    requires PossibleRun(run) && OrderedRun(run) && b < |run| && run[b].call.PublishCall?
    ensures Inv(EMPTY)
    ensures var e, encoded, now, o := run[b].call.event, run[b].call.encoded, run[b].now, run[b].options;
            var s, before := After(EMPTY, run[..b]), run[..b];
            var left := Backlog(s, e.eventId, now, o);
            ReplyAt(EMPTY, run, b) == Accepted <==>
              && Publishable(e, encoded, o)
              && !Retained(run, b, e.eventId)
              && Unfinished(before) < o.capacity
              && Unfinished(before) + Remembered(before, now) + left < o.dedupCapacity
              && BytesFit(s, now, left, encoded.value, o)
  {
    EmptyInv();
    hide Inv, Possible, After, Respond, Options.Validate, Publishable, Backlog, Unfinished, Remembered, BytesFit,
         Retained, OrderedRun, HistoryOf;
    var step, s := run[b], After(EMPTY, run[..b]);
    EarlierSteps(run, b);
    FiguresObserved(run[..b], step.now);
    AcceptsWhen(s, step);
    if Publishable(step.call.event, step.call.encoded, step.options) {
      RetainedExactly(run, b);
    }
  }

  lemma EarlierSteps(run: seq<Step>, b: nat)
    requires OrderedRun(run) && b < |run|
    ensures OrderedRun(run[..b]) && forall i :: 0 <= i < b ==> run[..b][i].now <= run[b].now
  {
  }

  lemma RetainedExactly(run: seq<Step>, b: nat)
    requires PossibleRun(run) && OrderedRun(run) && b < |run| && run[b].call.PublishCall?
    requires Publishable(run[b].call.event, run[b].call.encoded, run[b].options)
    ensures Inv(EMPTY)
    ensures ReplyAt(EMPTY, run, b) in {Duplicate, Failed(Conflict)} <==> Retained(run, b, run[b].call.event.eventId)
  {
    hide Inv, Possible, ReplyAt, Publishable, Retention.AcceptedAt, Retention.RanOut;
    Retention.DeduplicatesExactly(run, b, run[b].call.event.eventId);
  }

  /** One publish is accepted unless it is refused for its form or its id, or for want of room. */
  lemma AcceptsWhen(s: State, step: Step)
    requires Inv(s) && Possible(step) && step.call.PublishCall?
    ensures var e, encoded, now, o := step.call.event, step.call.encoded, step.now, step.options;
            var reply, left := Respond(s, step).reply, Backlog(s, e.eventId, now, o);
            reply == Accepted <==>
              && Publishable(e, encoded, o) && reply !in {Duplicate, Failed(Conflict)}
              && Active(s.records) < o.capacity && Identities(Purge(s, now).records) + left < o.dedupCapacity
              && BytesFit(s, now, left, encoded.value, o)
  {
    hide Inv, Publishable, Options.Validate, Tally, Active, Identities, Backlog, Purge, Publish;
    PublishDecides(s, step.call.event, step.call.encoded, step.now, step.options);
  }
}
