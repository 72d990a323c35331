/** The broker as a set of records, the atomic changes its transactions commit, and
    the invariant every change keeps. Index buckets and running counters are derived
    from the records here; module Durable maintains them incrementally. */
module Broker {
  import opened Telemetry

  const ACTIVE_OVERHEAD := 4096
  const COMPLETED_OVERHEAD := 1024
  const TOKEN_BYTES := 32

  /** An index key: when the entry is due, then the admission sequence number. */
  datatype Key = Key(due: int, sequence: nat)

  predicate Before(a: Key, b: Key) {
    a.due < b.due || (a.due == b.due && a.sequence < b.sequence)
  }

  datatype Phase = Ready | Leased | Quarantined | Completed

  datatype NackRequest = NackRequest(
    eventId: string, token: string, permanent: bool, delayMillis: int, reason: string)

  datatype Record = Record(
    event: Option<Payload>,
    hash: Payload,
    phase: Phase,
    sequence: nat,
    attempt: nat,
    due: int,
    token: string,
    lastNackToken: string,
    lastNack: Option<NackRequest>,
    reason: string)

  function KeyOf(r: Record): Key {
    Key(r.due, r.sequence)
  }

  type Records = map<string, Record>

  /** The records, the record bucket's sequence counter and the cumulative counters. */
  datatype State = State(
    records: Records,
    sequence: nat,
    accepted: int,
    acked: int,
    deliveries: int,
    redeliveries: int)

  const EMPTY := State(map[], 0, 0, 0, 0, 0)

  datatype Delivery = Delivery(data: Payload, token: string, expires: int, attempt: nat)
  {
    function Id(): string { data.event.eventId }
  }

  /** One atomic change of the broker's state. Every transaction commits a list of these. */
  datatype Change =
    | Admit(data: Payload)
    | Deliver(delivery: Delivery)
    | Release(released: string)                             // a lease expired
    | Complete(acked: string, receipt: string, until: int)
    | Requeue(nack: NackRequest, retryAt: int)
    | Quarantine(poison: NackRequest)
    | Forget(forgotten: string)                             // a completion expired

  // ---------------------------------------------------------------- which record comes first

  predicate InPhase(records: Records, p: Phase, id: string) {
    id in records && records[id].phase == p
  }

  /** `id` has the smallest key of its phase. */
  ghost predicate IsFirst(records: Records, p: Phase, id: string) {
    && InPhase(records, p, id)
    && forall j :: InPhase(records, p, j) ==> !Before(KeyOf(records[j]), KeyOf(records[id]))
  }

  ghost predicate LeastOf(records: Records, ids: set<string>, m: string)
    requires ids <= records.Keys
  {
    m in ids && forall j :: j in ids ==> !Before(KeyOf(records[j]), KeyOf(records[m]))
  }

  lemma LeastExists(records: Records, ids: set<string>) returns (m: string)
    requires ids != {} && ids <= records.Keys
    ensures LeastOf(records, ids, m)
  {
    var x :| x in ids;
    m := x;
    if ids != {x} {
      var least := LeastExists(records, ids - {x});
      m := if Before(KeyOf(records[x]), KeyOf(records[least])) then x else least;
    }
  }

  /** The first record of a phase, when it is due. */
  ghost function DueFirst(records: Records, p: Phase, now: int): (first: Option<string>)
    ensures first.Some? ==> IsFirst(records, p, first.value) && records[first.value].due <= now
  {
    if id :| IsFirst(records, p, id) && records[id].due <= now then Some(id)
    else None
  }

  /** Looking at the first record is enough: nothing behind it is due earlier. */
  lemma NoneDue(records: Records, p: Phase, now: int)
    ensures DueFirst(records, p, now).None? <==> forall id :: InPhase(records, p, id) ==> now < records[id].due
  {
    var ids := set id | id in records && records[id].phase == p;
    if ids != {} {
      var m := LeastExists(records, ids);
      assert forall j :: InPhase(records, p, j) ==> j in ids;
      assert IsFirst(records, p, m);
    } else {
      assert forall id :: InPhase(records, p, id) ==> id in ids;
    }
  }

  // ---------------------------------------------------------------- committing a change

  /** `token` is the unexpired lease on `id`. */
  predicate HoldsLease(s: State, id: string, token: string, now: int) {
    && InPhase(s.records, Leased, id)
    && s.records[id].token == token && now < s.records[id].due
  }

  /** When a change may be committed at time `now`. */
  ghost predicate Enabled(s: State, c: Change, now: int) {
    match c
    case Admit(data) =>
      data.event.eventId !in s.records
    case Deliver(d) =>
      && IsFirst(s.records, Ready, d.Id())
      && var r := s.records[d.Id()];
         && r.due <= now && r.event == Some(d.data) && d.attempt == r.attempt + 1
         && |d.token| == TOKEN_BYTES && now < d.expires
    case Release(id) =>
      IsFirst(s.records, Leased, id) && s.records[id].due <= now
    case Complete(id, token, until) =>
      HoldsLease(s, id, token, now) && |token| == TOKEN_BYTES && now < until
    case Requeue(n, retryAt) =>
      HoldsLease(s, n.eventId, n.token, now) && |n.token| == TOKEN_BYTES && now <= retryAt
    case Quarantine(n) =>
      HoldsLease(s, n.eventId, n.token, now) && |n.token| == TOKEN_BYTES
    case Forget(id) =>
      InPhase(s.records, Completed, id) && s.records[id].due <= now
  }

  /** The one record a change is about. */
  function Subject(c: Change): string {
    match c
    case Admit(data) => data.event.eventId
    case Deliver(d) => d.Id()
    case Release(id) => id
    case Complete(id, _, _) => id
    case Requeue(n, _) => n.eventId
    case Quarantine(n) => n.eventId
    case Forget(id) => id
  }

  /** What a change leaves of its subject's record. */
  function Rewrite(s: State, c: Change, now: int): Option<Record>
    requires c.Admit? || Subject(c) in s.records
  {
    match c
    case Admit(data) =>
      Some(Record(Some(data), data, Ready, s.sequence + 1, 0, now, "", "", None, ""))
    case Deliver(d) =>
      var r := s.records[d.Id()];
      Some(r.(phase := Leased, token := d.token, due := d.expires, attempt := r.attempt + 1,
              lastNackToken := "", lastNack := None, reason := ""))
    case Release(id) =>
      Some(s.records[id].(phase := Ready, token := "", due := now))
    case Complete(id, _, until) =>
      Some(s.records[id].(event := None, phase := Completed, due := until))
    case Requeue(n, retryAt) =>
      Some(Nacked(s.records[n.eventId], n).(phase := Ready, due := retryAt))
    case Quarantine(n) =>
      Some(Nacked(s.records[n.eventId], n).(phase := Quarantined, due := 0))
    case Forget(id) =>
      None
  }

  function Nacked(r: Record, n: NackRequest): Record {
    r.(lastNackToken := n.token, lastNack := Some(n), token := "", reason := n.reason)
  }

  function Commit(s: State, c: Change, now: int): State
    requires c.Admit? || Subject(c) in s.records
  {
    var records := match Rewrite(s, c, now)
      case Some(r) => s.records[Subject(c) := r]
      case None => s.records - {Subject(c)};
    match c
    case Admit(_) => s.(records := records, sequence := s.sequence + 1, accepted := s.accepted + 1)
    case Deliver(d) => s.(records := records, deliveries := s.deliveries + 1,
                          redeliveries := s.redeliveries + if d.attempt > 1 then 1 else 0)
    case Complete(_, _, _) => s.(records := records, acked := s.acked + 1)
    case _ => s.(records := records)
  }

  // ---------------------------------------------------------------- the invariant of records

  /** What a record holds in each phase. A NACK stays on record only until the next delivery. */
  predicate WellFormed(id: string, r: Record) {
    && r.hash.event.eventId == id
    && r.event == (if r.phase == Completed then None else Some(r.hash))
    && (r.phase == Leased || r.phase == Completed ==> |r.token| == TOKEN_BYTES && r.lastNack == None)
    && (r.phase == Ready || r.phase == Quarantined ==> r.token == "")
    && (r.phase == Quarantined ==> r.lastNack.Some?)
    && (r.phase != Ready ==> r.attempt > 0)
    && match r.lastNack {
         case None => r.lastNackToken == "" && r.reason == ""
         case Some(n) =>
           && r.lastNackToken == n.token && r.reason == n.reason
           && |n.token| == TOKEN_BYTES && n.eventId == id && r.attempt > 0
       }
  }

  ghost predicate Sequenced(records: Records, last: nat) {
    && (forall id :: id in records ==> 0 < records[id].sequence <= last)
    && (forall i, j :: i in records && j in records && i != j ==> records[i].sequence != records[j].sequence)
  }

  /** What is counted over the records. */
  datatype Gauge = Count(phase: Phase) | LogicalBytes | Undelivered

  function Weight(g: Gauge, r: Record): nat {
    match g
    case Count(p) => if r.phase == p then 1 else 0
    case LogicalBytes => if r.phase == Completed then COMPLETED_OVERHEAD else r.hash.size + ACTIVE_OVERHEAD
    case Undelivered => if r.attempt == 0 then 1 else 0
  }

  ghost function Tally(records: Records, g: Gauge): nat {
    if records == map[] then 0
    else
      var id :| id in records;
      Weight(g, records[id]) + Tally(records - {id}, g)
  }

  lemma {:induction false} TallyDrop(records: Records, id: string, g: Gauge)
    requires id in records
    ensures Tally(records, g) == Weight(g, records[id]) + Tally(records - {id}, g)
    decreases records
  {
    var x :| x in records && Tally(records, g) == Weight(g, records[x]) + Tally(records - {x}, g);
    if x != id {
      TallyDrop(records - {x}, id, g);
      TallyDrop(records - {id}, x, g);
      assert records - {x} - {id} == records - {id} - {x};
    }
  }

  lemma TallyPut(records: Records, id: string, r: Record, g: Gauge)
    ensures Tally(records[id := r], g)
         == Tally(records, g) - (if id in records then Weight(g, records[id]) else 0) + Weight(g, r)
  {
    TallyDrop(records[id := r], id, g);
    assert records[id := r] - {id} == records - {id};
    if id in records {
      TallyDrop(records, id, g);
    } else {
      assert records - {id} == records;
    }
  }

  ghost function Active(records: Records): nat {
    Tally(records, Count(Ready)) + Tally(records, Count(Leased)) + Tally(records, Count(Quarantined))
  }

  ghost function Identities(records: Records): nat {
    Active(records) + Tally(records, Count(Completed))
  }

  /** Every accepted event is still held or was acknowledged, and every event not yet
      delivered is one that was accepted and never delivered a first time. */
  ghost predicate Conserved(s: State) {
    && s.accepted == s.sequence
    && s.accepted == Active(s.records) + s.acked
    && s.accepted - (s.deliveries - s.redeliveries) == Tally(s.records, Undelivered)
  }

  ghost predicate Inv(s: State) {
    && (forall id :: id in s.records ==> WellFormed(id, s.records[id]))
    && Sequenced(s.records, s.sequence)
    && Conserved(s)
  }

  lemma RecordWellFormed(s: State, id: string)
    requires Inv(s) && id in s.records
    ensures WellFormed(id, s.records[id])
  {
  }

  lemma EmptyInv()
    ensures Inv(EMPTY)
  {
  }

  /** Only an admission adds an active event, only an ACK takes one away. */
  lemma ActiveCommit(s: State, c: Change, now: int)
    requires Inv(s) && Enabled(s, c, now)
    ensures Active(Commit(s, c, now).records)
         == Active(s.records) + if c.Admit? then 1 else if c.Complete? then -1 else 0
  {
    if !c.Admit? {
      PhaseBefore(s, c, now);
    }
    hide Tally, Inv, Enabled, Commit;
    TallyCommit(s, c, now, Count(Ready));
    TallyCommit(s, c, now, Count(Leased));
    TallyCommit(s, c, now, Count(Quarantined));
  }

  /** Only an admission adds an undelivered event, only a first delivery takes one away. */
  lemma UndeliveredCommit(s: State, c: Change, now: int)
    requires Inv(s) && Enabled(s, c, now)
    ensures Tally(Commit(s, c, now).records, Undelivered)
         == Tally(s.records, Undelivered)
            + if c.Admit? then 1 else if c.Deliver? && c.delivery.attempt == 1 then -1 else 0
  {
    if !c.Admit? {
      PhaseBefore(s, c, now);
    }
    hide Tally, Inv, Enabled, Commit;
    TallyCommit(s, c, now, Undelivered);
  }

  lemma ConservedCommit(s: State, c: Change, now: int)
    requires Inv(s) && Enabled(s, c, now)
    ensures Conserved(Commit(s, c, now))
  {
    if !c.Admit? {
      PhaseBefore(s, c, now);
    }
    assert Conserved(s);
    hide Tally, Active, Inv, Enabled, Rewrite;
    ActiveCommit(s, c, now);
    UndeliveredCommit(s, c, now);
  }

  /** The phase a change takes its subject out of; only a delivery finds an event undelivered. */
  lemma PhaseBefore(s: State, c: Change, now: int)
    requires Inv(s) && Enabled(s, c, now) && !c.Admit?
    ensures Subject(c) in s.records
    ensures var r := s.records[Subject(c)];
            && r.phase == (if c.Deliver? then Ready else if c.Forget? then Completed else Leased)
            && (c.Deliver? ==> c.delivery.attempt == r.attempt + 1)
            && (!c.Deliver? ==> r.attempt > 0)
  {
  }

  /** A change moves a count by what its subject weighs before and after. */
  lemma TallyCommit(s: State, c: Change, now: int, g: Gauge)
    requires Enabled(s, c, now)
    ensures Tally(Commit(s, c, now).records, g)
         == Tally(s.records, g) - (if c.Admit? then 0 else Weight(g, s.records[Subject(c)]))
            + match Rewrite(s, c, now) { case Some(r) => Weight(g, r) case None => 0 }
  {
    hide Tally, Weight;
    match Rewrite(s, c, now)
    case None => TallyDrop(s.records, Subject(c), g);
    case Some(r) => TallyPut(s.records, Subject(c), r, g);
  }

  lemma RewriteWellFormed(s: State, c: Change, now: int)
    requires Inv(s) && Enabled(s, c, now)
    ensures match Rewrite(s, c, now)
            case None => true
            case Some(r) =>
              && WellFormed(Subject(c), r)
              && r.sequence == if c.Admit? then s.sequence + 1 else s.records[Subject(c)].sequence
  {
    if !c.Admit? {
      assert WellFormed(Subject(c), s.records[Subject(c)]);
    }
  }

  /** Every change keeps the invariant. */
  lemma InvCommit(s: State, c: Change, now: int)
    requires Inv(s) && Enabled(s, c, now)
    ensures Inv(Commit(s, c, now))
  {
    ConservedCommit(s, c, now);
    RewriteWellFormed(s, c, now);
    var id, s' := Subject(c), Commit(s, c, now);
    forall j | j in s'.records ensures WellFormed(j, s'.records[j]) {
      if j != id { assert j in s.records; }
    }
    SequencedCommit(s, c, now);
  }

  lemma SequencedCommit(s: State, c: Change, now: int)
    requires Inv(s) && Enabled(s, c, now)
    ensures Sequenced(Commit(s, c, now).records, Commit(s, c, now).sequence)
  {
    RewriteWellFormed(s, c, now);
    match Rewrite(s, c, now)
    case None =>
    case Some(r) =>
      SequencedPut(s.records, s.sequence, Subject(c), r);
  }

  lemma SequencedPut(records: Records, last: nat, id: string, r: Record)
    requires Sequenced(records, last)
    requires r.sequence == last + 1 || (id in records && r.sequence == records[id].sequence)
    ensures Sequenced(records[id := r], if r.sequence > last then r.sequence else last)
  {
  }

  // ---------------------------------------------------------------- histories

  /** A committed change and the time its transaction read. */
  datatype Entry = Entry(change: Change, now: int)
  type History = seq<Entry>

  /** Each change of the history is enabled when its turn comes. */
  ghost predicate Lawful(s: State, h: History)
    decreases |h|, 0
  {
    h == [] ||
    var prior, last := h[..|h| - 1], h[|h| - 1];
    Lawful(s, prior) && Enabled(Replay(s, prior), last.change, last.now)
  }

  ghost function Replay(s: State, h: History): State
    requires Lawful(s, h)
    decreases |h|, 1
  {
    if h == [] then s
    else
      var prior, last := h[..|h| - 1], h[|h| - 1];
      Commit(Replay(s, prior), last.change, last.now)
  }

  lemma {:induction false} ReplayInv(s: State, h: History)
    requires Inv(s) && Lawful(s, h)
    ensures Inv(Replay(s, h))
  {
    if h != [] {
      var prior, last := h[..|h| - 1], h[|h| - 1];
      ReplayInv(s, prior);
      InvCommit(Replay(s, prior), last.change, last.now);
    }
  }

  /** Two histories, one after the other, are one history. */
  lemma {:induction false} ReplayConcat(s: State, a: History, b: History)
    requires Lawful(s, a) && Lawful(Replay(s, a), b)
    ensures Lawful(s, a + b) && Replay(s, a + b) == Replay(Replay(s, a), b)
  {
    if b == [] {
      assert a + b == a;
    } else {
      var prior := b[..|b| - 1];
      ReplayConcat(s, a, prior);
      assert (a + b)[..|a + b| - 1] == a + prior;
    }
  }

  /** A lawful history can be cut anywhere. */
  lemma {:induction false} LawfulSplit(s: State, h: History, i: nat)
    requires Lawful(s, h) && i <= |h|
    ensures Lawful(s, h[..i]) && Lawful(Replay(s, h[..i]), h[i..])
    ensures Replay(s, h) == Replay(Replay(s, h[..i]), h[i..])
    decreases |h|
  {
    if i == |h| {
      assert h[..i] == h && h[i..] == [];
    } else {
      var prior := h[..|h| - 1];
      LawfulSplit(s, prior, i);
      assert prior[..i] == h[..i] && h[i..][..|h| - i - 1] == prior[i..];
    }
  }

  lemma LawfulOne(s: State, c: Change, now: int)
    requires Enabled(s, c, now)
    ensures Lawful(s, [Entry(c, now)]) && Replay(s, [Entry(c, now)]) == Commit(s, c, now)
  {
  }
}
