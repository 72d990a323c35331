/** One delivery in the hands of a collector: validate, commit to the database, and only
    then acknowledge; every call retried with bounded backoff until the deadline. */
module Collector {
  import opened Telemetry
  import opened Broker
  import Postgres
  import Transactions

  const LEASE_MARGIN := 250 * MILLISECOND

  // ---------------------------------------------------------------- backoff

  function Backoff(d: nat, max: nat): nat {
    if d >= max / 2 then max else d * 2
  }

  /** The delay before retry number `n`. */
  function Delay(n: nat, min: nat, max: nat): nat {
    if n == 0 then min else Backoff(Delay(n - 1, min, max), max)
  }

  function Doubled(n: nat, d: nat): nat {
    if n == 0 then d else 2 * Doubled(n - 1, d)
  }

  /** The delays double from `min` on until doubling comes within one unit of `max`, and are `max`
      from then on. */
  lemma {:induction false} DelayBounds(n: nat, min: nat, max: nat)
    requires 0 < min <= max
    ensures min <= Delay(n, min, max) <= max
    ensures Delay(n, min, max) == Doubled(n, min) || (Delay(n, min, max) == max && max <= Doubled(n, min) + 1)
    ensures n > 0 ==> Delay(n - 1, min, max) <= Delay(n, min, max)
  {
    if n > 0 {
      DelayBounds(n - 1, min, max);
    }
  }

  // ---------------------------------------------------------------- the work on one delivery

  datatype Call =
    | PersistCall(event: Event)
    | AckCall(id: string, token: string)
    | NackCall(nack: NackRequest)

  datatype CallReply = Ok | Retryable | Final

  datatype Exchange = Exchange(call: Call, reply: CallReply)

  /** What a worker does next for its delivery. */
  datatype Work =
    | Persisting(delivery: Delivery)
    | Acking(delivery: Delivery)
    | Nacking(delivery: Delivery, nack: NackRequest)
    | Idle

  predicate Calls(w: Work, c: Call) {
    match w
    case Persisting(d) => c == PersistCall(d.data.event)
    case Acking(d) => c == AckCall(d.Id(), d.token)
    case Nacking(_, n) => c == NackCall(n)
    case Idle => false
  }

  /** What a worker does after a reply. Database errors are always retried, receipts only
      when the error may be temporary. */
  function Next(w: Work, reply: CallReply): Work {
    match w
    case Persisting(d) => if reply == Ok then Acking(d) else w
    case Idle => Idle
    case _ => if reply == Retryable then w else Idle
  }

  function Quarantining(d: Delivery, problem: string): NackRequest {
    var reason := "invalid event: " + problem;
    NackRequest(d.Id(), d.token, true, 0,
                if |reason| > Transactions.MAX_REASON_BYTES then reason[..Transactions.MAX_REASON_BYTES] else reason)
  }

  /** The NACK puts this delivery into quarantine, in a form the broker takes, and gives as much of
      the problem as a reason has room for. */
  predicate Condemns(n: NackRequest, d: Delivery, problem: string) {
    && n.permanent && n.eventId == d.Id() && n.token == d.token
    && n.reason <= "invalid event: " + problem
    && (n.reason == "invalid event: " + problem || |n.reason| == Transactions.MAX_REASON_BYTES)
    && (Transactions.ValidReceipt(d.Id(), d.token) ==> Transactions.ValidNack(n))
  }

  /** Where work on a delivery starts; `problem` is what validation found wrong. */
  function Start(d: Delivery, problem: string): Work {
    if Postgres.Validate(d.data.event) then Persisting(d) else Nacking(d, Quarantining(d, problem))
  }

  /** The work left after a trace of calls, provided each call is the one due. */
  function WorkAfter(w: Work, trace: seq<Exchange>): Option<Work> {
    if trace == [] then Some(w)
    else
      var before := WorkAfter(w, trace[..|trace| - 1]);
      var last := trace[|trace| - 1];
      if before.Some? && Calls(before.value, last.call) then Some(Next(before.value, last.reply)) else None
  }

  // ---------------------------------------------------------------- the loops

  /** What the outside world does during one turn of a retry loop: the time the deadline is
      checked, whether shutdown cancelled the work, the reply, and the random part of the pause. */
  datatype Turn = Turn(at: int, cancelled: bool, reply: CallReply, interrupted: bool, jitter: nat)

  datatype Config = Config(workTimeout: int, retryMin: nat, retryMax: nat)
  {
    predicate Validate() {
      0 < workTimeout <= 60 * SECOND && 0 < retryMin <= retryMax <= 10 * SECOND
    }
  }

  /** Every call of `trace` was made at its turn, before the deadline. */
  ghost predicate InTime(turns: seq<Turn>, deadline: int) {
    forall i :: 0 <= i < |turns| ==> turns[i].at < deadline && !turns[i].cancelled
  }

  lemma WorkAppend(w: Work, trace: seq<Exchange>, e: Exchange)
    requires WorkAfter(w, trace).Some? && Calls(WorkAfter(w, trace).value, e.call)
    ensures WorkAfter(w, trace + [e]) == Some(Next(WorkAfter(w, trace).value, e.reply))
  {
  }

  /** Each pause is at least half the delay of its retry, and at most all of it. */
  ghost predicate Paced(pauses: seq<nat>, config: Config) {
    forall i :: 0 <= i < |pauses| ==>
      Delay(i, config.retryMin, config.retryMax) / 2 <= pauses[i] <= Delay(i, config.retryMin, config.retryMax)
  }

  /** The trace is one call over and over, with the replies of the turns. */
  ghost predicate Repeats(trace: seq<Exchange>, c: Call, turns: seq<Turn>) {
    |trace| <= |turns| && forall i :: 0 <= i < |trace| ==> trace[i] == Exchange(c, turns[i].reply)
  }

  /** There is a reason not to make another call: the deadline, shutdown, or an interrupted pause. */
  predicate OutOfTime(turns: seq<Turn>, made: nat, deadline: int) {
    || made >= |turns| || turns[made].at >= deadline || turns[made].cancelled
    || (made > 0 && turns[made - 1].interrupted)
  }

  /** Retries one call until it succeeds, fails for good, or the deadline passes. `turns` is
      what will happen; when it runs out the deadline has passed. */
  method Retry(w: Work, c: Call, config: Config, turns: seq<Turn>, deadline: int, receipt: bool)
    returns (ok: bool, trace: seq<Exchange>, pauses: seq<nat>)
    requires config.Validate() && Calls(w, c) && (receipt <==> !w.Persisting?)
    ensures Repeats(trace, c, turns) && InTime(turns[..|trace|], deadline)
    ensures WorkAfter(w, trace) == Some(if trace == [] then w else Next(w, trace[|trace| - 1].reply))
    ensures ok <==> trace != [] && trace[|trace| - 1].reply == Ok
    ensures !ok ==> OutOfTime(turns, |trace|, deadline) || (receipt && trace != [] && trace[|trace| - 1].reply == Final)
    ensures Paced(pauses, config) && |pauses| <= |trace| <= |pauses| + 1
  {
    hide WorkAfter, Config.Validate;
    NoWork(w);
    var delay := config.retryMin;
    ok, trace, pauses := false, [], [];
    for n := 0 to |turns|
      invariant |trace| == |pauses| == n && !ok
      invariant delay == Delay(n, config.retryMin, config.retryMax)
      invariant Repeats(trace, c, turns) && InTime(turns[..n], deadline) && Paced(pauses, config)
      invariant n > 0 ==> trace[n - 1].reply != Ok && Next(w, trace[n - 1].reply) == w
      invariant WorkAfter(w, trace) == Some(w)
    {
      var turn := turns[n];
      if turn.at >= deadline || turn.cancelled {
        return;
      }
      assert turns[..n + 1] == turns[..n] + [turn];
      WorkAppend(w, trace, Exchange(c, turn.reply));
      trace := trace + [Exchange(c, turn.reply)];
      if turn.reply == Ok {
        ok := true;
        return;
      }
      if receipt && turn.reply != Retryable {
        return;
      }
      pauses := pauses + [delay / 2 + turn.jitter % (delay / 2 + 1)];
      if turn.interrupted {
        return;
      }
      delay := Backoff(delay, config.retryMax);
    }
  }

  lemma NoWork(w: Work)
    ensures WorkAfter(w, []) == Some(w)
  {
  }

  /** The time by which all work on a delivery must have begun its last call: the earlier of the end
      of the work time and the end of the lease less a margin. */
  function Deadline(started: int, d: Delivery, config: Config): (deadline: int)
    ensures deadline <= started + config.workTimeout && deadline + LEASE_MARGIN <= d.expires
    ensures deadline == started + config.workTimeout || deadline + LEASE_MARGIN == d.expires
  {
    var timeout, expiry := started + config.workTimeout, d.expires - LEASE_MARGIN;
    if expiry < timeout then expiry else timeout
  }

  /** Handles one leased delivery. It makes calls only while the lease and the work time last, and
      gives up only for want of time or when a receipt is refused for good. */
  method Process(d: Delivery, config: Config, problem: string, started: int, turns: seq<Turn>)
    returns (ok: bool, trace: seq<Exchange>, ghost commits: nat)
    requires config.Validate()
    ensures WorkAfter(Start(d, problem), trace).Some? && Disciplined(d, problem, trace, commits)
    ensures ok <==> trace != [] && trace[|trace| - 1].reply == Ok && !trace[|trace| - 1].call.PersistCall?
    ensures |trace| <= |turns| && forall i :: 0 <= i < |trace| ==>
              && trace[i].reply == turns[i].reply && !turns[i].cancelled
              && turns[i].at < started + config.workTimeout && turns[i].at + LEASE_MARGIN < d.expires
    ensures !ok ==>
              || OutOfTime(turns, |trace|, Deadline(started, d, config))
              || (trace != [] && trace[|trace| - 1].reply == Final && !trace[|trace| - 1].call.PersistCall?)
  {
    hide Disciplined, Paced, Deadline, Quarantining, Postgres.Validate;
    var deadline := Deadline(started, d, config);
    var pauses, acks;
    if !Postgres.Validate(d.data.event) {
      var n := Quarantining(d, problem);
      ok, trace, pauses := Retry(Nacking(d, n), NackCall(n), config, turns, deadline, true);
      commits := CommitBeforeAck(d, problem, trace);
      return;
    }
    ok, trace, pauses := Retry(Persisting(d), PersistCall(d.data.event), config, turns, deadline, false);
    if !ok {
      commits := CommitBeforeAck(d, problem, trace);
      return;
    }
    ok, acks, pauses := Retry(Acking(d), AckCall(d.Id(), d.token), config, turns[|trace|..], deadline, true);
    WorkConcat(Persisting(d), trace, acks);
    assert turns[..|trace| + |acks|] == turns[..|trace|] + turns[|trace|..][..|acks|];
    trace := trace + acks;
    commits := CommitBeforeAck(d, problem, trace);
  }

  lemma {:induction false} WorkConcat(w: Work, a: seq<Exchange>, b: seq<Exchange>)
    requires WorkAfter(w, a).Some?
    ensures WorkAfter(w, a + b) == WorkAfter(WorkAfter(w, a).value, b)
  {
    if b == [] {
      assert a + b == a;
    } else {
      WorkConcat(w, a, b[..|b| - 1]);
      assert (a + b)[..|a + b| - 1] == a + b[..|b| - 1];
    }
  }

  // ---------------------------------------------------------------- what every trace looks like

  /** The trace is some failed commits, and after a successful one only ACKs of this delivery;
      or, for an invalid event, only one NACK over and over. Receipts before the last were retryable. */
  ghost predicate Disciplined(d: Delivery, problem: string, trace: seq<Exchange>, commits: nat) {
    && commits <= |trace|
    && (forall i :: 0 <= i < commits ==>
          && Postgres.Validate(d.data.event) && trace[i].call == PersistCall(d.data.event)
          && (trace[i].reply == Ok ==> i == commits - 1))
    && (forall i :: commits <= i < |trace| ==>
          && (if Postgres.Validate(d.data.event) then trace[i].call == AckCall(d.Id(), d.token)
              else trace[i].call == NackCall(Quarantining(d, problem)) && Condemns(trace[i].call.nack, d, problem))
          && (i < |trace| - 1 ==> trace[i].reply == Retryable))
    && (commits < |trace| && Postgres.Validate(d.data.event) ==> commits > 0 && trace[commits - 1].reply == Ok)
  }

  /** Commit before ACK: every trace of work on a delivery is disciplined. */
  lemma {:induction false} CommitBeforeAck(d: Delivery, problem: string, trace: seq<Exchange>) returns (commits: nat)
    requires WorkAfter(Start(d, problem), trace).Some?
    ensures Disciplined(d, problem, trace, commits)
    ensures WorkAfter(Start(d, problem), trace).value.Acking? ==> commits > 0 && trace[commits - 1].reply == Ok
    ensures match WorkAfter(Start(d, problem), trace).value
            case Persisting(e) =>
              && e == d && Postgres.Validate(d.data.event) && commits == |trace|
              && forall i :: 0 <= i < |trace| ==> trace[i].reply != Ok
            case Acking(e) =>
              && e == d && Postgres.Validate(d.data.event)
              && forall i :: commits <= i < |trace| ==> trace[i].reply == Retryable
            case Nacking(e, n) =>
              && !Postgres.Validate(d.data.event) && n == Quarantining(d, problem) && commits == 0
              && forall i :: 0 <= i < |trace| ==> trace[i].reply == Retryable
            case Idle => true
  {
    hide Postgres.Validate;
    if trace == [] {
      commits := 0;
    } else {
      var prior, last := trace[..|trace| - 1], trace[|trace| - 1];
      commits := CommitBeforeAck(d, problem, prior);
      assert forall i :: 0 <= i < |prior| ==> trace[i] == prior[i];
      if last.call.PersistCall? {
        commits := commits + 1;
      }
    }
  }
}
