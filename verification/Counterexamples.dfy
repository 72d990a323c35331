/** Concrete runs that meet the exceptions: leftovers of a bounded batch that refuse an event, an
    id accepted again with other content, and an accepted event whose row is another's. */
module Counterexamples {
  import opened Telemetry
  import opened Broker
  import opened Transactions
  import opened Histories
  import opened Expiry
  import opened Ideal

  // ---------------------------------------------------------------- one event, start to finish

  ghost predicate OnlyCompletions(records: Records) {
    forall id :: id in records ==> records[id].phase == Completed
  }

  /** A publish for which there is room once expired completions are swept. */
  ghost predicate Welcome(s: State, data: Payload, now: int, o: Options) {
    && Inv(s) && o.Validate() && Publishable(data.event, Some(data.size), o)
    && var s1 := Replay(s, Sweep(s, data.event.eventId, now, o.cleanupBatch));
       OnlyCompletions(s1.records) && Admission(s1, data, o) == Accepted
  }

  ghost function Swept(s: State, data: Payload, now: int, o: Options): State
    requires o.Validate()
  {
    Replay(s, Sweep(s, data.event.eventId, now, o.cleanupBatch))
  }

  /** The state with `data` accepted, then leased, then completed. */
  function Admitted(s: State, data: Payload, now: int): State {
    Commit(s, Admit(data), now)
  }

  function LeaseOf(data: Payload, token: string, now: int, o: Options): Delivery {
    Delivery(data, token, now + o.leaseDuration, 1)
  }

  function Handed(s: State, data: Payload, token: string, now: int, o: Options): State {
    var s1 := Admitted(s, data, now);
    Commit(s1, Deliver(LeaseOf(data, token, now, o)), now)
  }

  function Handled(s: State, data: Payload, token: string, now: int, o: Options): State {
    var s2 := Handed(s, data, token, now, o);
    Commit(s2, Complete(data.event.eventId, token, now + o.completionTtl), now)
  }

  /** What is left of a handled event. */
  function Completion(data: Payload, token: string, sequence: nat, until: int): Record {
    Record(None, data, Completed, sequence, 1, until, token, "", None, "")
  }

  lemma HandledIs(s: State, data: Payload, token: string, now: int, o: Options)
    ensures var s3, id := Handled(s, data, token, now, o), data.event.eventId;
            s3.records == s.records[id := Completion(data, token, s.sequence + 1, now + o.completionTtl)]
  {
  }

  function PublishStep(data: Payload, now: int, o: Options): Step {
    Step(PublishCall(data.event, Some(data.size)), now, o)
  }

  function LeaseStep(token: string, now: int, o: Options): Step {
    Step(LeaseCall(Some(token)), now, o)
  }

  function AckStep(data: Payload, token: string, now: int, o: Options): Step {
    Step(AckCall(data.event.eventId, token), now, o)
  }

  /** A call answered `reply` takes state `s` to `s'`. */
  ghost predicate Takes(s: State, step: Step, reply: Reply, s': State) {
    && Inv(s) && Possible(step)
    && Respond(s, step).reply == reply && Replay(s, Respond(s, step).journal) == s' && Inv(s')
  }

  lemma PublishTakes(s: State, data: Payload, now: int, o: Options)
    requires Welcome(s, data, now, o)
    ensures Takes(s, PublishStep(data, now, o), Accepted, Admitted(Swept(s, data, now, o), data, now))
  {
    hide Inv, Sweep, Event.Validate;
    ReplayInv(s, Respond(s, PublishStep(data, now, o)).journal);
  }

  lemma OnlyReady(s: State, data: Payload, now: int)
    requires OnlyCompletions(s.records) && data.event.eventId !in s.records
    ensures var s1 := Admitted(s, data, now);
            && (forall id :: InPhase(s1.records, Ready, id) <==> id == data.event.eventId)
            && (forall id :: !InPhase(s1.records, Leased, id))
            && s1.records[data.event.eventId].due == now
            && DeliveryOf(s1.records[data.event.eventId], "", 0).attempt == 1
            && s1.records[data.event.eventId].hash == data
  {
  }

  lemma LeaseTakes(s: State, data: Payload, token: string, now: int, o: Options)
    requires Inv(Admitted(s, data, now)) && o.Validate() && |token| == TOKEN_BYTES
    requires OnlyCompletions(s.records) && data.event.eventId !in s.records
    ensures Takes(Admitted(s, data, now), LeaseStep(token, now, o), Delivered(LeaseOf(data, token, now, o)),
                  Handed(s, data, token, now, o))
  {
    var s1, id := Admitted(s, data, now), data.event.eventId;
    OnlyReady(s, data, now);
    NoneDue(s1.records, Leased, now);
    NoneDue(s1.records, Ready, now);
    hide Inv, Admitted, OnlyCompletions;
    assert ReleaseDue(s1, now, o.cleanupBatch) == [];
    Nothing(s1);
    assert DueFirst(s1.records, Ready, now) == Some(id);
    var v := Respond(s1, LeaseStep(token, now, o));
    ReplayInv(s1, v.journal);
  }

  lemma AckTakes(s: State, data: Payload, token: string, now: int, o: Options)
    requires Inv(Handed(s, data, token, now, o)) && o.Validate()
    requires ValidReceipt(data.event.eventId, token)
    ensures Takes(Handed(s, data, token, now, o), AckStep(data, token, now, o), Done, Handled(s, data, token, now, o))
  {
    var s2 := Handed(s, data, token, now, o);
    assert HoldsLease(s2, data.event.eventId, token, now);
    Nothing(s2);
    hide Inv;
    ReplayInv(s2, Respond(s2, AckStep(data, token, now, o)).journal);
  }

  lemma WelcomeIsNew(s: State, data: Payload, now: int, o: Options)
    requires Welcome(s, data, now, o)
    ensures data.event.eventId !in Swept(s, data, now, o).records && OnlyCompletions(Swept(s, data, now, o).records)
  {
    hide Inv, Sweep;
  }

  /** Publish, lease and ACK of an event there is room for. */
  lemma Handling(s: State, data: Payload, token: string, now: int, o: Options)
    requires Welcome(s, data, now, o) && ValidReceipt(data.event.eventId, token)
    ensures var s0 := Swept(s, data, now, o);
            && Takes(s, PublishStep(data, now, o), Accepted, Admitted(s0, data, now))
            && Takes(Admitted(s0, data, now), LeaseStep(token, now, o), Delivered(LeaseOf(data, token, now, o)),
                     Handed(s0, data, token, now, o))
            && Takes(Handed(s0, data, token, now, o), AckStep(data, token, now, o), Done,
                     Handled(s0, data, token, now, o))
  {
    hide Inv, OnlyCompletions, Admitted, Handed, Handled, Swept, Respond, Possible;
    WelcomeIsNew(s, data, now, o);
    PublishTakes(s, data, now, o);
    LeaseTakes(Swept(s, data, now, o), data, token, now, o);
    AckTakes(Swept(s, data, now, o), data, token, now, o);
  }

  /** The three calls. */
  function Calls(data: Payload, token: string, now: int, o: Options): seq<Step> {
    [PublishStep(data, now, o), LeaseStep(token, now, o), AckStep(data, token, now, o)]
  }

  // ---------------------------------------------------------------- runs

  lemma StepTaken(start: State, run: seq<Step>, i: nat, s: State, reply: Reply, s': State)
    requires Inv(start) && PossibleRun(run) && i < |run|
    requires After(start, run[..i]) == s && Takes(s, run[i], reply, s')
    ensures ReplyAt(start, run, i) == reply && After(start, run[..i + 1]) == s'
  {
    hide Inv, Possible, After, Respond;
    AfterStep(start, run, i);
  }

  lemma EventHandled(start: State, run: seq<Step>, i: nat, s: State, data: Payload, token: string, now: int, o: Options)
    requires Inv(start) && PossibleRun(run) && i + 3 <= |run| && run[i..i + 3] == Calls(data, token, now, o)
    requires After(start, run[..i]) == s && Welcome(s, data, now, o) && o.Validate()
             && ValidReceipt(data.event.eventId, token)
    ensures ReplyAt(start, run, i) == Accepted && ReplyAt(start, run, i + 2) == Done
    ensures After(start, run[..i + 3]) == Handled(Swept(s, data, now, o), data, token, now, o)
  {
    hide Inv, Possible, After, Takes, Welcome, Admitted, Handed, Handled, Swept, ReplyAt, ValidReceipt;
    assert run[i] == run[i..i + 3][0] && run[i + 1] == run[i..i + 3][1] && run[i + 2] == run[i..i + 3][2];
    Handling(s, data, token, now, o);
    var s0 := Swept(s, data, now, o);
    StepTaken(start, run, i, s, Accepted, Admitted(s0, data, now));
    StepTaken(start, run, i + 1, Admitted(s0, data, now), Delivered(LeaseOf(data, token, now, o)),
              Handed(s0, data, token, now, o));
    StepTaken(start, run, i + 2, Handed(s0, data, token, now, o), Done, Handled(s0, data, token, now, o));
  }

  /** With nothing but completions, each counts one identity and its overhead. */
  lemma CompletionsOnly(s: State)
    requires Inv(s) && OnlyCompletions(s.records)
    ensures Active(s.records) == 0 && Identities(s.records) == |s.records|
    ensures Tally(s.records, LogicalBytes) == |s.records| * COMPLETED_OVERHEAD
  {
    Attempted(s);
    assert s.records - s.records.Keys == map[];
    GaugesWithout(s.records, s.records.Keys);
    assert |s.records| == |s.records.Keys|;
  }

  lemma NothingSwept(s: State, data: Payload, now: int, o: Options)
    requires Inv(s) && o.Validate() && DueIn(s.records, Completed, now) == {}
    ensures Swept(s, data, now, o) == s
  {
    NoSweep(s, data.event.eventId, now, o.cleanupBatch);
    Nothing(s);
  }

  // ---------------------------------------------------------------- leftovers refuse an event

  function Sample(id: string, metric: string): Event {
    Event(SCHEMA_VERSION, id, "streamer", 0, 1, 1000,
          Measurement(1, "GPU-1", metric, Finite(0.0), "0", "nvidia0", "H100", "host", "", "", "", ""))
  }

  const TOKEN_A := "0123456789abcdef0123456789abcdef"
  const TOKEN_B := "fedcba9876543210fedcba9876543210"

  /** Room for one event of `size` bytes beside one completion, and batches of one. */
  function Tight(size: nat): Options {
    Options("db", 1, 3, 1, size + 1, size + ACTIVE_OVERHEAD + COMPLETED_OVERHEAD, MILLISECOND, HOUR, 1, 1, 1)
  }

  function A(size: nat): Payload { Payload(Sample("a", "GPU_UTIL"), size) }
  function B(size: nat): Payload { Payload(Sample("b", "GPU_UTIL"), size) }
  function C(size: nat): Payload { Payload(Sample("cc", "GPU_UTIL"), size) }

  /** Two events are published, delivered and acknowledged; when both completions have expired, a
      third is published, whose id is one byte longer. */
  function TightRun(size: nat): seq<Step> {
    var o := Tight(size);
    Calls(A(size), TOKEN_A, 0, o) + Calls(B(size), TOKEN_B, 0, o) + [PublishStep(C(size + 1), HOUR, o)]
  }

  /** Room for an event when nothing has expired. */
  lemma WelcomeFresh(s: State, data: Payload, now: int, o: Options)
    requires Inv(s) && OnlyCompletions(s.records) && DueIn(s.records, Completed, now) == {}
    requires data.event.eventId !in s.records && o.Validate() && Publishable(data.event, Some(data.size), o)
    requires |s.records| * COMPLETED_OVERHEAD + data.size + ACTIVE_OVERHEAD <= o.maxLogicalBytes
    requires |s.records| < o.dedupCapacity
    ensures Welcome(s, data, now, o) && Swept(s, data, now, o) == s
  {
    hide Inv, Sweep, OnlyCompletions, Active, Identities, Tally, Event.Validate;
    NothingSwept(s, data, now, o);
    CompletionsOnly(s);
  }

  /** What is left after both events: two completions, due an hour later. */
  ghost predicate TwoLeft(records: Records) {
    && records.Keys == {"a", "b"}
    && forall id :: id in records ==> records[id].phase == Completed && records[id].due == HOUR
  }

  lemma TightValid(size: nat)
    requires 0 < size < MAX_REQUEST_BYTES - 1024
    ensures Tight(size).Validate()
    ensures Publishable(A(size).event, Some(size), Tight(size)) && Publishable(B(size).event, Some(size), Tight(size))
    ensures Publishable(C(size + 1).event, Some(size + 1), Tight(size))
    ensures ValidReceipt("a", TOKEN_A) && ValidReceipt("b", TOKEN_B)
    ensures PossibleRun(TightRun(size)) && OrderedRun(TightRun(size)) && FreshTokens(TightRun(size))
  {
    assert TOKEN_A[0] != TOKEN_B[0];
  }

  lemma TightCalls(size: nat)
    ensures var run, o := TightRun(size), Tight(size);
            && |run| == 7
            && run[0..3] == Calls(A(size), TOKEN_A, 0, o) && run[3..6] == Calls(B(size), TOKEN_B, 0, o)
            && run[6] == PublishStep(C(size + 1), HOUR, o)
  {
    hide Tight;
  }

  lemma TightFirst(start: State, size: nat)
    requires 0 < size < MAX_REQUEST_BYTES - 1024 && Inv(start) && start.records == map[] && PossibleRun(TightRun(size))
    ensures |TightRun(size)| == 7
    ensures var run, s3 := TightRun(size), Handled(start, A(size), TOKEN_A, 0, Tight(size));
            && ReplyAt(start, run, 0) == Accepted && After(start, run[..3]) == s3
            && s3.records == map["a" := Completion(A(size), TOKEN_A, start.sequence + 1, HOUR)]
  {
    hide Inv, Possible, After, Handled, Publishable, Options.Validate, ReplyAt, ValidReceipt, Calls, TightRun;
    var run, o := TightRun(size), Tight(size);
    TightValid(size);
    TightCalls(size);
    HandledIs(start, A(size), TOKEN_A, 0, o);
    assert run[..0] == [];
    AfterNothing(start);
    WelcomeFresh(start, A(size), 0, o);
    EventHandled(start, run, 0, start, A(size), TOKEN_A, 0, o);
  }

  lemma OneLeft(records: Records, r: Record)
    requires records == map["a" := r] && r.phase == Completed && r.due == HOUR
    ensures OnlyCompletions(records) && DueIn(records, Completed, 0) == {} && |records| == 1 && "b" !in records
  {
  }

  lemma TightSecond(start: State, size: nat)
    requires 0 < size < MAX_REQUEST_BYTES - 1024 && Inv(start) && start.records == map[] && PossibleRun(TightRun(size))
    ensures |TightRun(size)| == 7
    ensures ReplyAt(start, TightRun(size), 3) == Accepted && TwoLeft(After(start, TightRun(size)[..6]).records)
  {
    hide Inv, Possible, After, Handled, Publishable, Options.Validate, ReplyAt, ValidReceipt, Calls, TightRun, DueIn,
         OnlyCompletions;
    var run, o := TightRun(size), Tight(size);
    var s3 := Handled(start, A(size), TOKEN_A, 0, o);
    TightValid(size);
    TightCalls(size);
    TightFirst(start, size);
    OneLeft(s3.records, Completion(A(size), TOKEN_A, start.sequence + 1, HOUR));
    HandledIs(s3, B(size), TOKEN_B, 0, o);
    WelcomeFresh(s3, B(size), 0, o);
    EventHandled(start, run, 3, s3, B(size), TOKEN_B, 0, o);
  }

  /** An hour later the batch removes one of the two; the other's overhead is what is missing. */
  lemma TightThird(s: State, size: nat)
    requires 0 < size < MAX_REQUEST_BYTES - 1024 && Inv(s) && TwoLeft(s.records)
    ensures Tight(size).Validate() && Inv(Purge(s, HOUR))
    ensures Publish(s, C(size + 1).event, Some(size + 1), HOUR, Tight(size)).reply == Failed(Full)
    ensures Publish(Purge(s, HOUR), C(size + 1).event, Some(size + 1), HOUR, Tight(size)).reply == Accepted
  {
    hide Inv, Publishable, Options.Validate, Publish, Backlog, Purge, Tally, Active, Identities;
    var o, data := Tight(size), C(size + 1);
    TightValid(size);
    IdealSweep(s, "cc", HOUR, o);
    PublishDecides(s, data.event, Some(data.size), HOUR, o);
    PublishDecides(Purge(s, HOUR), data.event, Some(data.size), HOUR, o);
    TightFigures(s, size);
  }

  lemma TightFigures(s: State, size: nat)
    requires Inv(s) && TwoLeft(s.records)
    ensures Backlog(s, "cc", HOUR, Tight(size)) == 1 && Purge(s, HOUR).records == map[]
    ensures Active(s.records) == Active(map[]) == Identities(map[]) == Tally(map[], LogicalBytes) == 0
  {
    hide Inv, Tally;
    var due := DueIn(s.records, Completed, HOUR);
    assert due == {"a", "b"};
    assert |{"a", "b"}| == 2;
    assert OnlyCompletions(s.records);
    CompletionsOnly(s);
    NoTally();
  }

  lemma NoTally()
    ensures forall g: Gauge :: Tally(map[], g) == 0
  {
  }

  lemma AcceptedNotCrowded(s: State, step: Step)
    requires Inv(s) && Possible(step) && (step.call.PublishCall? ==> Respond(s, step).reply == Accepted)
    ensures !CrowdedStep(s, step)
  {
    if step.call.PublishCall? && Publishable(step.call.event, step.call.encoded, step.options) {
      hide Inv, Purge, Backlog, Crowded, Publishable, Sweep, Admission;
      PublishAnswersIdeally(s, step.call.event, step.call.encoded, step.now, step.options);
    }
  }

  lemma TightNotCrowded(start: State, size: nat, i: nat)
    requires 0 < size < MAX_REQUEST_BYTES - 1024 && Inv(start) && start.records == map[] && PossibleRun(TightRun(size))
    requires i < 6 && |TightRun(size)| == 7
    ensures !CrowdedStep(After(start, TightRun(size)[..i]), TightRun(size)[i])
  {
    hide Inv, Possible, After, Respond, CrowdedStep;
    TightFirst(start, size);
    TightSecond(start, size);
    AcceptedNotCrowded(After(start, TightRun(size)[..i]), TightRun(size)[i]);
  }

  lemma TightIdeal(start: State, size: nat)
    requires 0 < size < MAX_REQUEST_BYTES - 1024 && Inv(start) && start.records == map[] && PossibleRun(TightRun(size))
    ensures |TightRun(size)| == 7
    ensures ReplyAt(start, TightRun(size), 6) == Failed(Full) && IdealReplyAt(start, TightRun(size), 6) == Accepted
  {
    hide Inv, Possible, After, Respond, CrowdedStep, IdealAfter, Purge, TightRun, OrderedRun, TwoLeft,
         Options.Validate, Publishable;
    TightValid(size);
    TightSecond(start, size);
    var run := TightRun(size);
    var prior := run[..6];
    forall i | 0 <= i < |prior| ensures !CrowdedStep(After(start, prior[..i]), prior[i]) {
      assert prior[..i] == run[..i];
      TightNotCrowded(start, size, i);
    }
    PriorOrdered(run, 6);
    RefinesIdeal(start, prior);
    TightTimes(size);
    IdealCatchesUp(start, prior, HOUR);
    TightThird(After(start, prior), size);
    TightCalls(size);
    LastAnswers(start, run, 6, C(size + 1), HOUR, Tight(size));
  }

  lemma PriorOrdered(run: seq<Step>, n: nat)
    requires OrderedRun(run) && n <= |run|
    ensures OrderedRun(run[..n])
  {
  }

  lemma TightTimes(size: nat)
    ensures |TightRun(size)| == 7 && TightRun(size)[..6][5].now == 0
  {
  }

  /** The answers to a publish at step `n`, the broker's and the ideal one's. */
  lemma LastAnswers(start: State, run: seq<Step>, n: nat, data: Payload, now: int, o: Options)
    requires Inv(start) && PossibleRun(run) && n < |run| && run[n] == PublishStep(data, now, o) && o.Validate()
    ensures ReplyAt(start, run, n) == Publish(After(start, run[..n]), data.event, Some(data.size), now, o).reply
    ensures IdealReplyAt(start, run, n)
         == Publish(Purge(IdealAfter(start, run[..n]), now), data.event, Some(data.size), now, o).reply
  {
    hide Inv, After, IdealAfter, Purge, Publish, Possible, Options.Validate;
  }

  /** For every event size the options allow, from an empty database and with fresh tokens: the
      completion a batch left behind makes the broker refuse an event that an ideal broker takes. */
  lemma {:induction false} LeftoversCanRefuse(size: nat)
    requires 0 < size < MAX_REQUEST_BYTES - 1024
    ensures var run := TightRun(size);
            |run| == 7 && Inv(EMPTY) && PossibleRun(run) && OrderedRun(run) && FreshTokens(run)
    ensures ReplyAt(EMPTY, TightRun(size), 6) == Failed(Full) && IdealReplyAt(EMPTY, TightRun(size), 6) == Accepted
  {
    hide Inv, FreshTokens, OrderedRun, TightRun, ReplyAt, IdealReplyAt, Possible;
    EmptyInv();
    TightValid(size);
    TightIdeal(EMPTY, size);
  }

  // ---------------------------------------------------------------- an id accepted again

  /** Room for everything in these runs. */
  function Ample(size: nat): Options {
    Options("db", 10, 10, 1, size, 10 * (size + ACTIVE_OVERHEAD), MILLISECOND, HOUR, 1, 1, 1)
  }

  function Again(size: nat): Payload { Payload(Sample("a", "GPU_TEMP"), size) }

  /** An event is published, delivered and acknowledged; an hour later its id comes with other content. */
  function AgainRun(size: nat): seq<Step> {
    Calls(A(size), TOKEN_A, 0, Ample(size)) + [PublishStep(Again(size), HOUR, Ample(size))]
  }

  lemma AmpleValid(size: nat)
    requires 0 < size <= MAX_REQUEST_BYTES - 1024
    ensures Ample(size).Validate() && ValidReceipt("a", TOKEN_A) && ValidReceipt("a", TOKEN_B)
    ensures Publishable(A(size).event, Some(size), Ample(size))
            && Publishable(Again(size).event, Some(size), Ample(size))
  {
  }

  lemma WelcomeEmpty(s: State, size: nat)
    requires 0 < size <= MAX_REQUEST_BYTES - 1024 && Inv(s) && s.records == map[]
    ensures Welcome(s, A(size), 0, Ample(size)) && Swept(s, A(size), 0, Ample(size)) == s
  {
    hide Inv, Publishable, Options.Validate;
    AmpleValid(size);
    WelcomeFresh(s, A(size), 0, Ample(size));
  }

  /** An expired completion makes room under its own id. */
  lemma WelcomeAgain(s: State, size: nat, r: Record)
    requires 0 < size <= MAX_REQUEST_BYTES - 1024 && Inv(s)
    requires s.records == map["a" := r] && r.phase == Completed && r.due == HOUR
    ensures Welcome(s, Again(size), HOUR, Ample(size)) && Swept(s, Again(size), HOUR, Ample(size)).records == map[]
  {
    hide Inv, Publishable, Sweep, Active, Identities, Tally, Backlog;
    var o, data := Ample(size), Again(size);
    AmpleValid(size);
    assert DueIn(s.records, Completed, HOUR) == {"a"};
    var gone := SweepEffect(s, "a", HOUR, o);
    var s1 := Swept(s, data, HOUR, o);
    assert s1.records == map[];
    ReplayInv(s, Sweep(s, "a", HOUR, o.cleanupBatch));
    CompletionsOnly(s1);
  }

  /** An id is accepted again, with other content, at the instant its completion expires. */
  lemma {:induction false} AcceptedWithOtherContent(start: State, size: nat)
    requires 0 < size <= MAX_REQUEST_BYTES - 1024 && Inv(start) && start.records == map[]
    ensures A(size).event.eventId == Again(size).event.eventId && A(size) != Again(size)
    ensures var run := AgainRun(size);
            && |run| == 4 && PossibleRun(run) && OrderedRun(run) && FreshTokens(run)
            && AcceptedBy(run[0], ReplyAt(start, run, 0)) == Some(A(size))
            && AcceptedBy(run[3], ReplyAt(start, run, 3)) == Some(Again(size))
  {
    var run, o := AgainRun(size), Ample(size);
    AmpleValid(size);
    AgainCalls(size);
    HandledIs(start, A(size), TOKEN_A, 0, o);
    hide Inv, Possible, After, Handled, Publishable, Options.Validate, ReplyAt, ValidReceipt, AgainRun, Welcome,
         Swept, Respond;
    assert run[..0] == [];
    AfterNothing(start);
    WelcomeEmpty(start, size);
    EventHandled(start, run, 0, start, A(size), TOKEN_A, 0, o);
    var s3 := After(start, run[..3]);
    WelcomeAgain(s3, size, Completion(A(size), TOKEN_A, start.sequence + 1, HOUR));
    PublishTakes(s3, Again(size), HOUR, o);
    StepTaken(start, run, 3, s3, Accepted, Admitted(Swept(s3, Again(size), HOUR, o), Again(size), HOUR));
  }

  lemma AgainCalls(size: nat)
    requires Ample(size).Validate()
    ensures var run, o := AgainRun(size), Ample(size);
            && |run| == 4 && PossibleRun(run) && OrderedRun(run) && FreshTokens(run)
            && run[0..3] == Calls(A(size), TOKEN_A, 0, o) && run[3] == PublishStep(Again(size), HOUR, o)
  {
    hide Options.Validate, Ample;
  }
}
