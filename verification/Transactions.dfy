/** What each broker operation answers and which changes its transaction commits. A
    refused operation commits nothing: the transaction is rolled back. */
module Transactions {
  import opened Telemetry
  import opened Broker

  const MAX_REQUEST_BYTES := 65536
  const MAX_NACK_DELAY_MILLIS := 3_600_000
  const MAX_REASON_BYTES := 256

  datatype Options = Options(
    path: string,
    capacity: int,
    dedupCapacity: int,
    quarantineCapacity: int,
    maxPayloadBytes: int,
    maxLogicalBytes: int,
    leaseDuration: int,
    completionTtl: int,
    openTimeout: int,
    cleanupInterval: int,
    cleanupBatch: int)
  {
    /** The limits a database may be opened with. */
    predicate Validate() {
      && path != ""
      && 1 <= capacity <= 100_000
      && capacity <= dedupCapacity <= 1_000_000
      && 1 <= quarantineCapacity <= 100_000
      && 1 <= maxPayloadBytes <= MAX_REQUEST_BYTES - 1024
      && ACTIVE_OVERHEAD + maxPayloadBytes <= maxLogicalBytes
      && MILLISECOND <= leaseDuration <= 24 * HOUR
      && 0 < completionTtl <= 365 * 24 * HOUR
      && 0 < openTimeout && 0 < cleanupInterval
      && 1 <= cleanupBatch <= 1000
    }
  }

  datatype Error = Invalid | Conflict | Full | DedupFull | StaleLease | Entropy | Storage

  datatype Reply =
    | Accepted
    | Duplicate
    | Delivered(delivery: Delivery)
    | Empty
    | Done
    | Failed(error: Error)

  datatype Verdict = Verdict(reply: Reply, journal: History)

  function Refused(e: Error): Verdict {
    Verdict(Failed(e), [])
  }

  // ---------------------------------------------------------------- bounded expiry

  /** The expiry of up to `n` leases that are due, first key first. */
  ghost function ReleaseDue(s: State, now: int, n: nat): (h: History)
    ensures Lawful(s, h)
    ensures forall i :: 0 <= i < |h| ==> h[i].now == now && h[i].change.Release?
    decreases n
  {
    if n == 0 then []
    else
      match DueFirst(s.records, Leased, now)
      case None => []
      case Some(id) =>
        var c := Release(id);
        LawfulOne(s, c, now);
        var rest := ReleaseDue(Commit(s, c, now), now, n - 1);
        ReplayConcat(s, [Entry(c, now)], rest);
        [Entry(c, now)] + rest
  }

  /** The removal of up to `n` completions that are due, first key first. */
  ghost function ForgetDue(s: State, now: int, n: nat): (h: History)
    ensures Lawful(s, h)
    ensures forall i :: 0 <= i < |h| ==> h[i].now == now && h[i].change.Forget?
    decreases n
  {
    if n == 0 then []
    else
      match DueFirst(s.records, Completed, now)
      case None => []
      case Some(id) =>
        var c := Forget(id);
        LawfulOne(s, c, now);
        var rest := ForgetDue(Commit(s, c, now), now, n - 1);
        ReplayConcat(s, [Entry(c, now)], rest);
        [Entry(c, now)] + rest
  }

  /** What `n` bounded expiry steps lead to. */
  ghost function Released(s: State, now: int, n: nat): State {
    Replay(s, ReleaseDue(s, now, n))
  }

  ghost function Forgotten(s: State, now: int, n: nat): State {
    Replay(s, ForgetDue(s, now, n))
  }

  lemma ReleasedStep(s: State, now: int, n: nat)
    requires n > 0 && DueFirst(s.records, Leased, now).Some?
    ensures var c := Release(DueFirst(s.records, Leased, now).value);
            Released(s, now, n) == Released(Commit(s, c, now), now, n - 1)
  {
    var c := Release(DueFirst(s.records, Leased, now).value);
    LawfulOne(s, c, now);
    ReplayConcat(s, [Entry(c, now)], ReleaseDue(Commit(s, c, now), now, n - 1));
  }

  lemma ForgottenStep(s: State, now: int, n: nat)
    requires n > 0 && DueFirst(s.records, Completed, now).Some?
    ensures var c := Forget(DueFirst(s.records, Completed, now).value);
            Forgotten(s, now, n) == Forgotten(Commit(s, c, now), now, n - 1)
  {
    var c := Forget(DueFirst(s.records, Completed, now).value);
    LawfulOne(s, c, now);
    ReplayConcat(s, [Entry(c, now)], ForgetDue(Commit(s, c, now), now, n - 1));
  }

  lemma ReleasedNone(s: State, now: int, n: nat)
    requires n == 0 || DueFirst(s.records, Leased, now).None?
    ensures Released(s, now, n) == s
  {
  }

  lemma ForgottenNone(s: State, now: int, n: nat)
    requires n == 0 || DueFirst(s.records, Completed, now).None?
    ensures Forgotten(s, now, n) == s
  {
  }

  lemma FirstExpires(s: State, now: int)
    requires DueFirst(s.records, Leased, now).Some?
    ensures var c := Release(DueFirst(s.records, Leased, now).value); Enabled(s, c, now) && Subject(c) in s.records
  {
  }

  lemma Nothing(s: State)
    ensures Lawful(s, []) && Replay(s, []) == s
  {
  }

  /** A history and one more change. */
  ghost function Then(s: State, h: History, c: Change, now: int): (r: History)
    requires Lawful(s, h) && Enabled(Replay(s, h), c, now)
    ensures Lawful(s, r) && Replay(s, r) == Commit(Replay(s, h), c, now)
  {
    LawfulOne(Replay(s, h), c, now);
    ReplayConcat(s, h, [Entry(c, now)]);
    h + [Entry(c, now)]
  }

  // ---------------------------------------------------------------- publish

  /** Publish removes a bounded batch of completions and then `id` itself if it has expired. */
  ghost function Sweep(s: State, id: string, now: int, n: nat): (h: History)
    ensures Lawful(s, h)
    ensures forall i :: 0 <= i < |h| ==> h[i].now == now && h[i].change.Forget?
  {
    var h := ForgetDue(s, now, n);
    var s1 := Replay(s, h);
    if InPhase(s1.records, Completed, id) && s1.records[id].due <= now then Then(s, h, Forget(id), now)
    else h
  }

  /** The decision on an event once expired completions are out of the way. */
  ghost function Admission(s: State, data: Payload, o: Options): Reply {
    var id := data.event.eventId;
    if id in s.records then
      if s.records[id].hash == data then Duplicate else Failed(Conflict)
    else if Active(s.records) >= o.capacity
         || Tally(s.records, LogicalBytes) + data.size + ACTIVE_OVERHEAD > o.maxLogicalBytes then Failed(Full)
    else if Identities(s.records) >= o.dedupCapacity then Failed(DedupFull)
    else Accepted
  }

  /** `encoded` is the length of the event's JSON text, or None when it has none. */
  predicate Publishable(e: Event, encoded: Option<nat>, o: Options) {
    e.Validate() && encoded.Some? && encoded.value <= o.maxPayloadBytes
  }

  ghost function Publish(s: State, e: Event, encoded: Option<nat>, now: int, o: Options): (v: Verdict)
    requires o.Validate()
    ensures Lawful(s, v.journal)
  {
    if !Publishable(e, encoded, o) then Refused(Invalid)
    else
      var data := Payload(e, encoded.value);
      var h := Sweep(s, e.eventId, now, o.cleanupBatch);
      match Admission(Replay(s, h), data, o)
      case Accepted => Verdict(Accepted, Then(s, h, Admit(data), now))
      case Duplicate => Verdict(Duplicate, h)
      case refusal => Verdict(refusal, [])
  }

  // ---------------------------------------------------------------- lease

  /** `token` is the random token drawn for the delivery, or None when drawing it failed. */
  ghost function TryLease(s: State, token: Option<string>, now: int, o: Options): (v: Verdict)
    requires Inv(s) && o.Validate() && (token.Some? ==> |token.value| == TOKEN_BYTES)
    ensures Lawful(s, v.journal)
  {
    var h := ReleaseDue(s, now, o.cleanupBatch);
    ReplayInv(s, h);
    var s1 := Replay(s, h);
    match DueFirst(s1.records, Ready, now)
    case None => Verdict(Empty, [])
    case Some(id) =>
      if token.None? then Refused(Entropy)
      else
        var d := DeliveryOf(s1.records[id], token.value, now + o.leaseDuration);
        Verdict(Delivered(d), Then(s, h, Deliver(d), now))
  }

  function DeliveryOf(r: Record, token: string, expires: int): Delivery {
    Delivery(r.hash, token, expires, r.attempt + 1)
  }

  // ---------------------------------------------------------------- receipts

  predicate ValidReceipt(id: string, token: string) {
    0 < |id| <= MAX_ID_BYTES && |token| == TOKEN_BYTES
  }

  ghost function Ack(s: State, id: string, token: string, now: int, o: Options): (v: Verdict)
    requires o.Validate()
    ensures Lawful(s, v.journal)
  {
    if !ValidReceipt(id, token) then Refused(Invalid)
    else if InPhase(s.records, Completed, id) && s.records[id].token == token && now < s.records[id].due then
      Verdict(Duplicate, [])
    else if !HoldsLease(s, id, token, now) then Refused(StaleLease)
    else Verdict(Done, Then(s, [], Complete(id, token, now + o.completionTtl), now))
  }

  predicate ValidNack(n: NackRequest) {
    && ValidReceipt(n.eventId, n.token)
    && 0 <= n.delayMillis <= MAX_NACK_DELAY_MILLIS
    && 0 < |n.reason| <= MAX_REASON_BYTES
    && (n.permanent ==> n.delayMillis == 0)
  }

  ghost function Nack(s: State, n: NackRequest, now: int, o: Options): (v: Verdict)
    ensures Lawful(s, v.journal)
  {
    var id := n.eventId;
    if !ValidNack(n) then Refused(Invalid)
    else if (InPhase(s.records, Ready, id) || InPhase(s.records, Quarantined, id))
         && s.records[id].lastNackToken == n.token then
      if s.records[id].lastNack == Some(n) then Verdict(Duplicate, []) else Refused(Conflict)
    else if !HoldsLease(s, id, n.token, now) then Refused(StaleLease)
    else if n.permanent then
      if Tally(s.records, Count(Quarantined)) >= o.quarantineCapacity then Refused(Full)
      else Verdict(Done, Then(s, [], Quarantine(n), now))
    else Verdict(Done, Then(s, [], Requeue(n, now + n.delayMillis * MILLISECOND), now))
  }

  // ---------------------------------------------------------------- cleanup

  ghost function Cleanup(s: State, now: int, o: Options): (v: Verdict)
    requires o.Validate()
    ensures Lawful(s, v.journal)
  {
    var released := ReleaseDue(s, now, o.cleanupBatch);
    var forgotten := ForgetDue(Replay(s, released), now, o.cleanupBatch);
    ReplayConcat(s, released, forgotten);
    Verdict(Done, released + forgotten)
  }

  // ---------------------------------------------------------------- runs

  /** `Fault` is a transaction that storage failed to commit. */
  datatype Call =
    | PublishCall(event: Event, encoded: Option<nat>)
    | LeaseCall(token: Option<string>)
    | AckCall(id: string, receipt: string)
    | NackCall(nack: NackRequest)
    | CleanupCall
    | Fault

  /** One call with the time the broker read and the options it was open with. Options
      may differ from step to step: the broker was reopened in between. */
  datatype Step = Step(call: Call, now: int, options: Options)

  predicate Possible(step: Step) {
    && step.options.Validate()
    && (step.call.LeaseCall? && step.call.token.Some? ==> |step.call.token.value| == TOKEN_BYTES)
  }

  ghost function Respond(s: State, step: Step): (v: Verdict)
    requires Inv(s) && Possible(step)
    ensures Lawful(s, v.journal)
  {
    match step.call
    case PublishCall(e, encoded) => Publish(s, e, encoded, step.now, step.options)
    case LeaseCall(token) => TryLease(s, token, step.now, step.options)
    case AckCall(id, token) => Ack(s, id, token, step.now, step.options)
    case NackCall(n) => Nack(s, n, step.now, step.options)
    case CleanupCall => Cleanup(s, step.now, step.options)
    case Fault => Refused(Storage)
  }

  ghost predicate PossibleRun(run: seq<Step>) {
    forall i :: 0 <= i < |run| ==> Possible(run[i])
  }

  /** The history a run commits. */
  ghost function HistoryOf(s: State, run: seq<Step>): (h: History)
    requires Inv(s) && PossibleRun(run)
    ensures Lawful(s, h) && Inv(Replay(s, h))
  {
    if run == [] then []
    else
      var h := HistoryOf(s, run[..|run| - 1]);
      var v := Respond(Replay(s, h), run[|run| - 1]);
      ReplayConcat(s, h, v.journal);
      ReplayInv(s, h + v.journal);
      h + v.journal
  }

  /** The state a run ends in. */
  ghost function After(s: State, run: seq<Step>): (s': State)
    requires Inv(s) && PossibleRun(run)
    ensures Inv(s')
  {
    Replay(s, HistoryOf(s, run))
  }

  lemma AfterNothing(s: State)
    requires Inv(s)
    ensures After(s, []) == s
  {
  }

  lemma AfterStep(s: State, run: seq<Step>, i: nat)
    requires Inv(s) && PossibleRun(run) && i < |run|
    ensures After(s, run[..i + 1]) == Replay(After(s, run[..i]), Respond(After(s, run[..i]), run[i]).journal)
  {
    hide Inv, Respond, Possible;
    assert run[..i + 1][..i] == run[..i];
    ReplayConcat(s, HistoryOf(s, run[..i]), Respond(After(s, run[..i]), run[i]).journal);
  }

  /** Two runs, one after the other, are one run. */
  lemma {:induction false} AfterConcat(s: State, a: seq<Step>, b: seq<Step>)
    requires Inv(s) && PossibleRun(a) && PossibleRun(b) && PossibleRun(a + b)
    ensures After(s, a + b) == After(After(s, a), b)
  {
    hide Inv, Respond, Possible, After, HistoryOf, Replay, Lawful;
    if b == [] {
      assert a + b == a;
      AfterNothing(After(s, a));
    } else {
      var n := |b| - 1;
      assert (a + b)[..|a| + n] == a + b[..n] && (a + b)[|a| + n] == b[n];
      assert (a + b)[..|a| + n + 1] == a + b && b[..n + 1] == b;
      AfterConcat(s, a, b[..n]);
      AfterStep(s, a + b, |a| + n);
      AfterStep(After(s, a), b, n);
    }
  }

  /** The answer to step `i` of a run. */
  ghost function ReplyAt(s: State, run: seq<Step>, i: nat): Reply
    requires Inv(s) && PossibleRun(run) && i < |run|
  {
    Respond(After(s, run[..i]), run[i]).reply
  }
}
