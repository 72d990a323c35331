/** Broker, database and any number of collector workers together, with lost replies,
    crashes, slow workers whose messages arrive late or again, expiring leases and a broker
    reopened at will: no accepted event is ever lost. */
module Pipeline {
  import opened Telemetry
  import opened Broker
  import opened Transactions
  import opened Histories
  import opened Postgres
  import Collector
  import Receipts
  import Retention
  import Settlement

  datatype AckMessage = AckMessage(id: string, token: string)

  /** The broker's database, the SQL tables, what each busy worker is doing, and every message
      ever sent. `issued` and `accepted` record what was delivered under each token and what was
      ever accepted; nothing reads them. */
  datatype World = World(
    broker: State,
    tables: Tables,
    workers: map<nat, Collector.Work>,
    persists: set<Event>,
    acks: set<AckMessage>,
    nacks: set<NackRequest>,
    issued: map<string, Payload>,
    accepted: set<Payload>)

  const START := World(EMPTY, NO_TABLES, map[], {}, {}, {}, map[], {})

  datatype Action =
    | Serve(step: Step)                             // a publish, a cleanup, or a poll whose reply is lost
    | Take(worker: nat, step: Step, problem: string) // a poll whose reply reaches an idle worker
    | Send(worker: nat)                             // a worker sends its call, for the first time or again
    | CommitRow(event: Event, at: Instant)          // the database commits a transaction once begun
    | Receive(step: Step)                           // the broker receives an ACK or NACK once sent
    | Hear(worker: nat, reply: Collector.CallReply) // a worker hears an answer, or none in time
    | Abandon(worker: nat)                          // a worker crashes or runs out of time

  // ---------------------------------------------------------------- steps

  ghost predicate Can(w: World, a: Action)
    requires Inv(w.broker)
  {
    match a
    case Serve(step) =>
      Possible(step) && !step.call.AckCall? && !step.call.NackCall? && FreshFor(w, step)
    case Take(i, step, _) =>
      Possible(step) && step.call.LeaseCall? && FreshFor(w, step) && i !in w.workers
    case Send(i) =>
      i in w.workers
    case CommitRow(e, _) =>
      e in w.persists
    case Receive(step) =>
      && Possible(step)
      && match step.call {
           case AckCall(id, token) => AckMessage(id, token) in w.acks
           case NackCall(n) => n in w.nacks
           case _ => false
         }
    case Hear(i, reply) =>
      i in w.workers && (w.workers[i].Persisting? && reply == Collector.Ok ==>
                         w.workers[i].delivery.Id() in w.tables.telemetry)
    case Abandon(i) =>
      i in w.workers
  }

  /** The token a lease attempt draws was never drawn for a delivery before. */
  predicate FreshFor(w: World, step: Step) {
    DrawnBy(step).Some? ==> DrawnBy(step).value !in w.issued
  }

  function AcceptedAfter(step: Step, reply: Reply, accepted: set<Payload>): set<Payload> {
    match AcceptedBy(step, reply)
    case Some(data) => accepted + {data}
    case None => accepted
  }

  function IssuedAfter(reply: Reply, issued: map<string, Payload>): map<string, Payload> {
    if reply.Delivered? then issued[reply.delivery.token := reply.delivery.data] else issued
  }

  /** The broker's part of a step. */
  ghost function Served(w: World, step: Step): World
    requires Inv(w.broker) && Possible(step)
  {
    var v := Respond(w.broker, step);
    w.(broker := Replay(w.broker, v.journal),
       issued := IssuedAfter(v.reply, w.issued),
       accepted := AcceptedAfter(step, v.reply, w.accepted))
  }

  function Resting(workers: map<nat, Collector.Work>, i: nat, work: Collector.Work): map<nat, Collector.Work> {
    if work.Idle? then workers - {i} else workers[i := work]
  }

  ghost function Do(less: Collation, w: World, a: Action): World
    requires Inv(w.broker) && Can(w, a)
  {
    match a
    case Serve(step) => Served(w, step)
    case Take(i, step, problem) =>
      var reply, w' := Respond(w.broker, step).reply, Served(w, step);
      if reply.Delivered? then w'.(workers := w.workers[i := Collector.Start(reply.delivery, problem)]) else w'
    case Send(i) =>
      (match w.workers[i]
       case Persisting(d) => w.(persists := w.persists + {d.data.event})
       case Acking(d) => w.(acks := w.acks + {AckMessage(d.Id(), d.token)})
       case Nacking(_, n) => w.(nacks := w.nacks + {n})
       case Idle => w)
    case CommitRow(e, at) => w.(tables := Persisted(less, w.tables, e, at))
    case Receive(step) => Served(w, step)
    case Hear(i, reply) => w.(workers := Resting(w.workers, i, Collector.Next(w.workers[i], reply)))
    case Abandon(i) => w.(workers := w.workers - {i})
  }

  // ---------------------------------------------------------------- the invariant

  /** Each accepted id is held by the broker unfinished, or has a row. */
  ghost predicate Kept(records: Records, accepted: set<Payload>, rows: set<string>) {
    forall p :: p in accepted ==>
      var id := p.event.eventId; (id in records && records[id].phase != Completed) || id in rows
  }

  /** Every record is that of something accepted. */
  ghost predicate Genuine(records: Records, accepted: set<Payload>) {
    forall id :: id in records ==> records[id].hash in accepted
  }

  /** The event is one that was accepted. */
  ghost predicate WasAccepted(accepted: set<Payload>, e: Event) {
    exists p :: p in accepted && p.event == e
  }

  /** Events are valid and tokens have their length. */
  ghost predicate Formed(accepted: set<Payload>, issued: map<string, Payload>) {
    && (forall p :: p in accepted ==> p.event.Validate())
    && (forall t :: t in issued ==> issued[t] in accepted && |t| == TOKEN_BYTES)
  }

  /** What is delivered, being persisted or in a row is something accepted. */
  ghost predicate Sourced(w: World) {
    && Formed(w.accepted, w.issued)
    && (forall e :: e in w.persists ==> WasAccepted(w.accepted, e))
    && (forall id :: id in w.tables.telemetry ==> WasAccepted(w.accepted, w.tables.telemetry[id].event))
  }

  /** Whatever is completed has its row. */
  ghost predicate DoneHaveRows(records: Records, rows: set<string>) {
    forall id :: InPhase(records, Completed, id) ==> id in rows
  }

  /** Whatever is quarantined is invalid. */
  ghost predicate PoisonOnly(records: Records) {
    forall id :: InPhase(records, Quarantined, id) ==> !Validate(records[id].hash.event)
  }

  /** Whatever is leased is what its token delivered. */
  ghost predicate LeasesIssued(records: Records, issued: map<string, Payload>) {
    forall id :: InPhase(records, Leased, id) ==>
      && records[id].token in issued
      && issued[records[id].token] == records[id].hash
  }

  ghost predicate Safe(records: Records, accepted: set<Payload>, rows: set<string>, issued: map<string, Payload>) {
    && Kept(records, accepted, rows) && Genuine(records, accepted)
    && DoneHaveRows(records, rows) && PoisonOnly(records) && LeasesIssued(records, issued)
  }

  /** A message or a worker's work refers to what its token delivered. */
  predicate About(issued: map<string, Payload>, id: string, token: string) {
    token in issued && issued[token].event.eventId == id
  }

  predicate GoodAck(rows: set<string>, issued: map<string, Payload>, m: AckMessage) {
    About(issued, m.id, m.token) && ValidReceipt(m.id, m.token) && m.id in rows
  }

  predicate GoodNack(issued: map<string, Payload>, n: NackRequest) {
    About(issued, n.eventId, n.token) && ValidNack(n) && !Validate(issued[n.token].event) && n.permanent
  }

  predicate GoodWork(rows: set<string>, issued: map<string, Payload>, work: Collector.Work) {
    match work
    case Persisting(d) =>
      d.token in issued && issued[d.token] == d.data && ValidReceipt(d.Id(), d.token) && Validate(d.data.event)
    case Acking(d) => About(issued, d.Id(), d.token) && ValidReceipt(d.Id(), d.token) && d.Id() in rows
    case Nacking(_, n) => GoodNack(issued, n)
    case Idle => false
  }

  ghost predicate Good(less: Collation, w: World) {
    && Inv(w.broker)
    && Safe(w.broker.records, w.accepted, w.tables.telemetry.Keys, w.issued)
    && (forall m :: m in w.acks ==> GoodAck(w.tables.telemetry.Keys, w.issued, m))
    && (forall n :: n in w.nacks ==> GoodNack(w.issued, n))
    && (forall i :: i in w.workers ==> GoodWork(w.tables.telemetry.Keys, w.issued, w.workers[i]))
    && Consistent(less, w.tables) && Sourced(w)
  }

  // ---------------------------------------------------------------- the broker keeps it

  /** What makes a receipt's change safe. */
  predicate Justified(c: Change, rows: set<string>, issued: map<string, Payload>) {
    match c
    case Complete(id, _, _) => id in rows
    case Quarantine(n) => GoodNack(issued, n)
    case Deliver(d) => d.token !in issued
    case _ => true
  }

  lemma KeptCommit(s: State, c: Change, now: int, accepted: set<Payload>, rows: set<string>,
                   issued: map<string, Payload>)
    requires Enabled(s, c, now) && Justified(c, rows, issued) && Kept(s.records, accepted, rows)
             && DoneHaveRows(s.records, rows)
    ensures var records' := Commit(s, c, now).records;
            && Kept(records', accepted + (if c.Admit? then {c.data} else {}), rows)
            && DoneHaveRows(records', rows)
  {
    hide Validate;
    var records', id := Commit(s, c, now).records, Subject(c);
    assert c.Forget? || c.Complete? || (id in records' && records'[id].phase != Completed);
    assert forall j :: j != id && j in s.records ==> j in records' && records'[j] == s.records[j];
  }

  lemma PoisonCommit(s: State, c: Change, now: int, rows: set<string>, issued: map<string, Payload>)
    requires Inv(s) && Enabled(s, c, now) && Justified(c, rows, issued) && PoisonOnly(s.records)
             && LeasesIssued(s.records, issued)
    ensures PoisonOnly(Commit(s, c, now).records)
  {
    hide Validate, Inv;
    var records', id := Commit(s, c, now).records, Subject(c);
    forall j | InPhase(records', Quarantined, j) ensures !Validate(records'[j].hash.event) {
      if j != id {
        assert InPhase(s.records, Quarantined, j);
      } else {
        assert c.Quarantine? && issued[c.poison.token] == s.records[id].hash;
      }
    }
  }

  /** A record leased after a change was leased before it, or was just delivered. */
  lemma LeaseAfter(s: State, c: Change, now: int, j: string)
    requires Inv(s) && Enabled(s, c, now) && InPhase(Commit(s, c, now).records, Leased, j)
    ensures var r := Commit(s, c, now).records[j];
            if c.Deliver? && j == c.delivery.Id() then r.token == c.delivery.token && r.hash == c.delivery.data
            else InPhase(s.records, Leased, j) && r == s.records[j]
  {
    if c.Deliver? {
      RecordWellFormed(s, c.delivery.Id());
    }
    hide Inv;
  }

  lemma LeasesCommit(s: State, c: Change, now: int, rows: set<string>, issued: map<string, Payload>)
    requires Inv(s) && Enabled(s, c, now) && Justified(c, rows, issued) && LeasesIssued(s.records, issued)
    ensures LeasesIssued(Commit(s, c, now).records,
                         if c.Deliver? then issued[c.delivery.token := c.delivery.data] else issued)
  {
    assert c.Admit? || Subject(c) in s.records;
    hide Inv, Enabled, Commit, GoodNack;
    forall j | InPhase(Commit(s, c, now).records, Leased, j)
      ensures var r, issued' := Commit(s, c, now).records[j],
              if c.Deliver? then issued[c.delivery.token := c.delivery.data] else issued;
              r.token in issued' && issued'[r.token] == r.hash
    {
      LeaseAfter(s, c, now, j);
    }
  }

  lemma GenuineCommit(s: State, c: Change, now: int, accepted: set<Payload>)
    requires Enabled(s, c, now) && Genuine(s.records, accepted)
    ensures Genuine(Commit(s, c, now).records, accepted + (if c.Admit? then {c.data} else {}))
  {
    hide Before;
  }

  lemma SafeCommit(s: State, c: Change, now: int, accepted: set<Payload>, rows: set<string>,
                   issued: map<string, Payload>)
    requires Inv(s) && Enabled(s, c, now) && Safe(s.records, accepted, rows, issued) && Justified(c, rows, issued)
    ensures Safe(Commit(s, c, now).records,
                 accepted + (if c.Admit? then {c.data} else {}), rows,
                 if c.Deliver? then issued[c.delivery.token := c.delivery.data] else issued)
  {
    assert c.Admit? || Subject(c) in s.records;
    hide Inv, Enabled, Commit, Justified, Kept, Genuine, DoneHaveRows, PoisonOnly, LeasesIssued;
    GenuineCommit(s, c, now, accepted);
    KeptCommit(s, c, now, accepted, rows, issued);
    PoisonCommit(s, c, now, rows, issued);
    LeasesCommit(s, c, now, rows, issued);
  }

  lemma {:induction false} SafeExpiry(s: State, h: History, accepted: set<Payload>, rows: set<string>,
                                      issued: map<string, Payload>)
    requires Inv(s) && Lawful(s, h) && Safe(s.records, accepted, rows, issued)
    requires forall i :: 0 <= i < |h| ==> h[i].change.Release? || h[i].change.Forget?
    ensures Safe(Replay(s, h).records, accepted, rows, issued)
  {
    hide Inv, Enabled, Safe, Commit;
    if h != [] {
      var n := |h| - 1;
      SafeExpiry(s, h[..n], accepted, rows, issued);
      ReplayInv(s, h[..n]);
      SafeCommit(Replay(s, h[..n]), h[n].change, h[n].now, accepted, rows, issued);
      assert accepted + {} == accepted;
    }
  }

  /** What makes a call's own change safe. */
  predicate JustifiedCall(call: Transactions.Call, rows: set<string>, issued: map<string, Payload>) {
    match call
    case AckCall(id, _) => id in rows
    case NackCall(n) => GoodNack(issued, n)
    case LeaseCall(token) => token.Some? ==> token.value !in issued
    case _ => true
  }

  lemma OwnJustified(step: Step, reply: Reply, own: Change, rows: set<string>, issued: map<string, Payload>)
    requires OwnChange(step, reply, own) && JustifiedCall(step.call, rows, issued)
    ensures Justified(own, rows, issued)
    ensures AcceptedBy(step, reply) == if own.Admit? then Some(own.data) else None
    ensures own.Deliver? <==> reply.Delivered? && step.call.LeaseCall?
    ensures own.Deliver? ==> own.delivery == reply.delivery
  {
  }

  lemma JournalSafe(s: State, step: Step, accepted: set<Payload>, rows: set<string>, issued: map<string, Payload>)
    requires Inv(s) && Possible(step) && Safe(s.records, accepted, rows, issued)
             && JustifiedCall(step.call, rows, issued)
    ensures var v := Respond(s, step);
            Safe(Replay(s, v.journal).records, AcceptedAfter(step, v.reply, accepted), rows,
                 IssuedAfter(v.reply, issued))
  {
    hide Inv, Enabled, Safe, Commit, Respond, Possible, JustifiedCall, Justified;
    var v := Respond(s, step);
    AcceptsOnlyPublishes(s, step);
    var expired := JournalShape(s, step);
    SafeExpiry(s, expired, accepted, rows, issued);
    if v.journal != expired {
      assert v.journal[..|v.journal| - 1] == expired;
      ReplayInv(s, expired);
      var own := v.journal[|expired|];
      OwnJustified(step, v.reply, own.change, rows, issued);
      hide OwnChange;
      SafeCommit(Replay(s, expired), own.change, own.now, accepted, rows, issued);
      assert accepted + {} == accepted;
    }
  }

  /** A served step keeps everything safe if its call is justified. */
  lemma ServedSafe(w: World, step: Step)
    requires Inv(w.broker) && Possible(step)
    requires Safe(w.broker.records, w.accepted, w.tables.telemetry.Keys, w.issued)
    requires JustifiedCall(step.call, w.tables.telemetry.Keys, w.issued)
    ensures var w' := Served(w, step);
            Inv(w'.broker) && Safe(w'.broker.records, w'.accepted, w.tables.telemetry.Keys, w'.issued)
  {
    hide Inv, Safe, Respond, Possible, Lawful, Replay, JustifiedCall;
    ReplayInv(w.broker, Respond(w.broker, step).journal);
    JournalSafe(w.broker, step, w.accepted, w.tables.telemetry.Keys, w.issued);
  }

  lemma AcceptsOnlyPublishes(s: State, step: Step)
    requires Inv(s) && Possible(step)
    ensures Respond(s, step).reply == Accepted ==> step.call.PublishCall? && Respond(s, step).journal != []
    ensures Respond(s, step).reply.Delivered? ==>
             && step.call.LeaseCall?
             && step.call.token == Some(Respond(s, step).reply.delivery.token)
  {
    var expired := JournalShape(s, step);
  }

  // ---------------------------------------------------------------- every action keeps it

  /** More tokens and more rows leave messages and work as good as they were. */
  lemma StaysGood(w: World, w': World)
    requires w'.acks == w.acks && w'.nacks == w.nacks && w'.workers == w.workers
    requires w.tables.telemetry.Keys <= w'.tables.telemetry.Keys
    requires forall t :: t in w.issued ==> t in w'.issued && w'.issued[t] == w.issued[t]
    requires forall m :: m in w.acks ==> GoodAck(w.tables.telemetry.Keys, w.issued, m)
    requires forall n :: n in w.nacks ==> GoodNack(w.issued, n)
    requires forall i :: i in w.workers ==> GoodWork(w.tables.telemetry.Keys, w.issued, w.workers[i])
    ensures forall m :: m in w.acks ==> GoodAck(w'.tables.telemetry.Keys, w'.issued, m)
    ensures forall n :: n in w.nacks ==> GoodNack(w'.issued, n)
    ensures forall i :: i in w.workers ==> GoodWork(w'.tables.telemetry.Keys, w'.issued, w.workers[i])
  {
  }

  /** Only what was accepted is delivered. */
  lemma DeliversAccepted(s: State, step: Step, accepted: set<Payload>, rows: set<string>, issued: map<string, Payload>)
    requires Inv(s) && Possible(step) && Safe(s.records, accepted, rows, issued) && Respond(s, step).reply.Delivered?
    ensures Respond(s, step).reply.delivery.data in accepted
  {
    hide Inv, Respond, Possible, Safe;
    var v := Respond(s, step);
    var expired := JournalShape(s, step);
    assert v.journal[..|v.journal| - 1] == expired;
    SafeExpiry(s, expired, accepted, rows, issued);
    ReplayInv(s, expired);
    var s1, id := Replay(s, expired), v.reply.delivery.Id();
    assert Enabled(s1, Deliver(v.reply.delivery), step.now);
    RecordWellFormed(s1, id);
    SafeGenuine(s1.records, accepted, rows, issued);
  }

  lemma SafeGenuine(records: Records, accepted: set<Payload>, rows: set<string>, issued: map<string, Payload>)
    requires Safe(records, accepted, rows, issued)
    ensures Genuine(records, accepted)
  {
  }

  lemma SourcedMore(w: World, w': World)
    requires Sourced(w) && w.accepted <= w'.accepted && w'.persists == w.persists && w'.tables == w.tables
    requires Formed(w'.accepted, w'.issued)
    ensures Sourced(w')
  {
    hide Sourced, Formed;
    assert forall e :: WasAccepted(w.accepted, e) ==> WasAccepted(w'.accepted, e);
    SourcedIs(w);
    SourcedIs(w');
  }

  lemma SourcedIs(w: World)
    ensures Sourced(w) <==>
              && Formed(w.accepted, w.issued)
              && (forall e :: e in w.persists ==> WasAccepted(w.accepted, e))
              && (forall id :: id in w.tables.telemetry ==> WasAccepted(w.accepted, w.tables.telemetry[id].event))
  {
  }

  lemma SourcedServed(w: World, step: Step)
    requires Inv(w.broker) && Possible(step) && Sourced(w)
    requires Safe(w.broker.records, w.accepted, w.tables.telemetry.Keys, w.issued)
    ensures Sourced(Served(w, step))
  {
    hide Inv, Possible, Respond, Safe, WasAccepted, Formed;
    FormedServed(w, step);
    SourcedMore(w, Served(w, step));
  }

  lemma FormedServed(w: World, step: Step)
    requires Inv(w.broker) && Possible(step) && Formed(w.accepted, w.issued)
    requires Safe(w.broker.records, w.accepted, w.tables.telemetry.Keys, w.issued)
    ensures Formed(Served(w, step).accepted, Served(w, step).issued)
  {
    hide Inv, Respond, Safe, Event.Validate;
    var v := Respond(w.broker, step);
    AcceptsOnlyPublishes(w.broker, step);
    if v.reply == Accepted {
      AcceptsValid(w.broker, step);
    }
    if v.reply.Delivered? {
      DeliversAccepted(w.broker, step, w.accepted, w.tables.telemetry.Keys, w.issued);
    }
  }

  lemma AcceptsValid(s: State, step: Step)
    requires Inv(s) && Possible(step) && Respond(s, step).reply == Accepted && step.call.PublishCall?
    ensures step.call.event.Validate()
  {
    hide Inv, Sweep, Admission, Lawful, Replay, Event.Validate;
  }

  /** A served step issues a new token at most, and touches nothing but the broker. */
  lemma ServedApart(w: World, step: Step)
    requires Inv(w.broker) && Possible(step) && JustifiedCall(step.call, w.tables.telemetry.Keys, w.issued)
    ensures var w' := Served(w, step);
            && w'.tables == w.tables && w'.acks == w.acks && w'.nacks == w.nacks && w'.workers == w.workers
            && forall t :: t in w.issued ==> t in w'.issued && w'.issued[t] == w.issued[t]
  {
    hide Inv, Possible, Respond, GoodNack;
    AcceptsOnlyPublishes(w.broker, step);
  }

  lemma ServeGood(less: Collation, w: World, step: Step)
    requires Good(less, w) && Possible(step) && JustifiedCall(step.call, w.tables.telemetry.Keys, w.issued)
    ensures Good(less, Served(w, step))
  {
    hide Inv, Safe, Consistent, Possible, GoodAck, GoodNack, GoodWork, Sourced, Served, JustifiedCall;
    ServedSafe(w, step);
    ServedApart(w, step);
    SourcedServed(w, step);
    StaysGood(w, Served(w, step));
  }

  lemma TakeGood(less: Collation, w: World, i: nat, step: Step, problem: string)
    requires Good(less, w) && Can(w, Take(i, step, problem))
    ensures Good(less, Do(less, w, Take(i, step, problem)))
  {
    hide Inv, Safe, Consistent, Possible, Respond, GoodAck, GoodWork, GoodNack, Collector.Start, WasAccepted;
    ServeGood(less, w, step);
    var reply, w' := Respond(w.broker, step).reply, Served(w, step);
    if reply.Delivered? {
      ReceiptFits(w', reply.delivery);
      StartsGood(w'.tables.telemetry.Keys, w'.issued, reply.delivery, problem);
    }
  }

  lemma StartsGood(rows: set<string>, issued: map<string, Payload>, d: Delivery, problem: string)
    requires d.token in issued && issued[d.token] == d.data && ValidReceipt(d.Id(), d.token)
    ensures GoodWork(rows, issued, Collector.Start(d, problem))
  {
    hide Validate;
  }

  /** What was delivered can be acknowledged: its id and token have the form of a receipt. */
  lemma ReceiptFits(w: World, d: Delivery)
    requires Sourced(w) && d.token in w.issued && w.issued[d.token] == d.data
    ensures ValidReceipt(d.Id(), d.token)
  {
    assert d.data.event.Validate();
  }

  lemma SendGood(less: Collation, w: World, i: nat)
    requires Good(less, w) && Can(w, Send(i))
    ensures Good(less, Do(less, w, Send(i)))
  {
    hide Inv, Safe, Consistent, GoodAck, GoodNack, GoodWork;
    if w.workers[i].Persisting? {
      PersistsAccepted(w, i);
    }
    hide WasAccepted;
    MessageGood(w.tables.telemetry.Keys, w.issued, w.workers[i]);
  }

  lemma PersistsAccepted(w: World, i: nat)
    requires Sourced(w) && i in w.workers && w.workers[i].Persisting?
    requires GoodWork(w.tables.telemetry.Keys, w.issued, w.workers[i])
    ensures WasAccepted(w.accepted, w.workers[i].delivery.data.event)
  {
    assert w.issued[w.workers[i].delivery.token] in w.accepted;
  }

  lemma MessageGood(rows: set<string>, issued: map<string, Payload>, work: Collector.Work)
    requires GoodWork(rows, issued, work)
    ensures work.Acking? ==> GoodAck(rows, issued, AckMessage(work.delivery.Id(), work.delivery.token))
    ensures work.Nacking? ==> GoodNack(issued, work.nack)
  {
  }

  lemma NextGood(rows: set<string>, issued: map<string, Payload>, work: Collector.Work, reply: Collector.CallReply)
    requires GoodWork(rows, issued, work)
    requires work.Persisting? && reply == Collector.Ok ==> work.delivery.Id() in rows
    ensures Collector.Next(work, reply).Idle? || GoodWork(rows, issued, Collector.Next(work, reply))
  {
  }

  lemma CommitGood(less: Collation, w: World, e: Event, at: Instant)
    requires TotalOrder(less) && Good(less, w) && Can(w, CommitRow(e, at))
    ensures Good(less, Do(less, w, CommitRow(e, at)))
  {
    hide Inv, Consistent, Validate, TotalOrder, GoodAck, GoodNack, GoodWork, Safe, WasAccepted;
    PersistConsistent(less, w.tables, e, at);
    var tables' := Persisted(less, w.tables, e, at);
    assert w.tables.telemetry.Keys <= tables'.telemetry.Keys;
    SafeMoreRows(w.broker.records, w.accepted, w.tables.telemetry.Keys, tables'.telemetry.Keys, w.issued);
    assert Sourced(w.(tables := tables'));
    hide Persisted, Sourced;
    StaysGood(w, w.(tables := tables'));
  }

  lemma SafeMoreRows(records: Records, accepted: set<Payload>, rows: set<string>, rows': set<string>,
                     issued: map<string, Payload>)
    requires rows <= rows' && Safe(records, accepted, rows, issued)
    ensures Safe(records, accepted, rows', issued)
  {
  }

  lemma HearGood(less: Collation, w: World, i: nat, reply: Collector.CallReply)
    requires Good(less, w) && Can(w, Hear(i, reply))
    ensures Good(less, Do(less, w, Hear(i, reply)))
  {
    hide Inv, Safe, Consistent, GoodAck, GoodNack, GoodWork, Collector.Next, WasAccepted;
    NextGood(w.tables.telemetry.Keys, w.issued, w.workers[i], reply);
  }

  lemma ReceiveGood(less: Collation, w: World, step: Step)
    requires Good(less, w) && Can(w, Receive(step))
    ensures Good(less, Do(less, w, Receive(step)))
  {
    if step.call.AckCall? {
      assert GoodAck(w.tables.telemetry.Keys, w.issued, AckMessage(step.call.id, step.call.receipt));
    }
    hide Inv, Consistent, Possible, Respond, Safe, GoodNack, GoodWork, Sourced;
    ServeGood(less, w, step);
  }

  lemma AbandonGood(less: Collation, w: World, i: nat)
    requires Good(less, w) && Can(w, Abandon(i))
    ensures Good(less, Do(less, w, Abandon(i)))
  {
    hide Inv, Safe, Consistent, GoodAck, GoodNack, GoodWork, WasAccepted;
  }

  lemma {:induction false} ActionGood(less: Collation, w: World, a: Action)
    requires TotalOrder(less) && Good(less, w) && Can(w, a)
    ensures Good(less, Do(less, w, a))
  {
    hide Inv;
    match a
    case Serve(step) => hide Good; ServeGood(less, w, step);
    case Take(i, step, problem) => hide Good; TakeGood(less, w, i, step, problem);
    case Send(i) => hide Good; SendGood(less, w, i);
    case CommitRow(e, at) => hide Good; CommitGood(less, w, e, at);
    case Receive(step) => hide Good; ReceiveGood(less, w, step);
    case Hear(i, reply) => hide Good; HearGood(less, w, i, reply);
    case Abandon(i) => hide Good; AbandonGood(less, w, i);
  }

  // ---------------------------------------------------------------- every reachable world

  /** Each action of the sequence can be taken when its turn comes. */
  ghost predicate Reachable(less: Collation, actions: seq<Action>)
    decreases |actions|, 0
  {
    actions == [] ||
    var n := |actions| - 1;
    Reachable(less, actions[..n]) && Inv(WorldAfter(less, actions[..n]).broker)
        && Can(WorldAfter(less, actions[..n]), actions[n])
  }

  ghost function WorldAfter(less: Collation, actions: seq<Action>): World
    requires Reachable(less, actions)
    decreases |actions|, 1
  {
    if actions == [] then START
    else
      var n := |actions| - 1;
      Do(less, WorldAfter(less, actions[..n]), actions[n])
  }

  lemma {:induction false} ReachableGood(less: Collation, actions: seq<Action>)
    requires TotalOrder(less) && Reachable(less, actions)
    ensures Good(less, WorldAfter(less, actions))
  {
    hide TotalOrder, Good, Inv, Can, Do;
    if actions == [] {
      StartGood(less);
    } else {
      var n := |actions| - 1;
      ReachableGood(less, actions[..n]);
      ActionGood(less, WorldAfter(less, actions[..n]), actions[n]);
    }
  }

  lemma StartGood(less: Collation)
    ensures Good(less, START)
  {
    EmptyInv();
    hide Inv, Consistent;
    NothingConsistent(less);
  }

  /** Nothing else was ever accepted under the id of `p`. */
  ghost predicate Sole(accepted: set<Payload>, p: Payload) {
    forall q :: q in accepted && q.event.eventId == p.event.eventId ==> q == p
  }

  /** The event has its row, and the row is this event's. */
  predicate HasRow(tables: Tables, e: Event) {
    e.eventId in tables.telemetry && tables.telemetry[e.eventId].event == e
  }

  /** Each accepted id is ready, leased or quarantined, or has a row. */
  ghost predicate IdsKept(w: World) {
    forall p :: p in w.accepted ==>
      var id := p.event.eventId;
      || InPhase(w.broker.records, Ready, id) || InPhase(w.broker.records, Leased, id)
      || InPhase(w.broker.records, Quarantined, id) || id in w.tables.telemetry
  }

  /** Each accepted event that shares its id with no other is itself pending or in its row. */
  ghost predicate EventsKept(w: World) {
    forall p :: p in w.accepted && Sole(w.accepted, p) ==>
      Retention.Pending(w.broker.records, p) || HasRow(w.tables, p.event)
  }

  /** Whatever is completed has a row, its own event's when nothing else was accepted under its id;
      whatever is quarantined is invalid. */
  ghost predicate RecordsSettled(w: World) {
    && (forall id :: InPhase(w.broker.records, Completed, id) ==>
          && id in w.tables.telemetry
          && (Sole(w.accepted, w.broker.records[id].hash) ==> HasRow(w.tables, w.broker.records[id].hash.event)))
    && (forall id :: InPhase(w.broker.records, Quarantined, id) ==> !Validate(w.broker.records[id].hash.event))
  }

  /** No loss, end to end, in every reachable world: every accepted event, unless another was
      accepted under its id, is held unfinished by the broker or is in its row; every row holds an
      event that was accepted; no id is ever lost; and the GPU metadata fits the rows. */
  lemma {:induction false} NothingIsLost(less: Collation, actions: seq<Action>)
    requires TotalOrder(less) && Reachable(less, actions)
    ensures var w := WorldAfter(less, actions);
            && EventsKept(w) && IdsKept(w) && RecordsSettled(w) && Consistent(less, w.tables)
            && forall id :: id in w.tables.telemetry ==> WasAccepted(w.accepted, w.tables.telemetry[id].event)
  {
    hide TotalOrder, EventsKept, IdsKept, RecordsSettled, Reachable, WorldAfter, Inv, Consistent, Safe, WasAccepted,
         GoodWork, GoodAck, GoodNack;
    ReachableGood(less, actions);
    GoodKeeps(less, WorldAfter(less, actions));
  }

  lemma GoodKeeps(less: Collation, w: World)
    requires Good(less, w)
    ensures EventsKept(w) && IdsKept(w) && RecordsSettled(w)
  {
    hide Inv, Validate, GoodWork, GoodAck, GoodNack;
    forall p | p in w.accepted && Sole(w.accepted, p)
      ensures Retention.Pending(w.broker.records, p) || HasRow(w.tables, p.event)
    {
      var id := p.event.eventId;
      if id in w.broker.records && w.broker.records[id].phase != Completed {
        HashOf(less, w, id);
      } else {
        RowIsSole(less, w, p);
      }
    }
    forall id | InPhase(w.broker.records, Completed, id) && Sole(w.accepted, w.broker.records[id].hash)
      ensures HasRow(w.tables, w.broker.records[id].hash.event)
    {
      HashOf(less, w, id);
      RowIsSole(less, w, w.broker.records[id].hash);
    }
  }

  lemma HashOf(less: Collation, w: World, id: string)
    requires Good(less, w) && id in w.broker.records
    ensures w.broker.records[id].hash in w.accepted && w.broker.records[id].hash.event.eventId == id
  {
    RecordWellFormed(w.broker, id);
    hide Inv, Validate;
  }

  /** A row under an id that only one event was accepted under is that event's. */
  lemma RowIsSole(less: Collation, w: World, p: Payload)
    requires Good(less, w) && Sole(w.accepted, p) && p.event.eventId in w.tables.telemetry
    ensures HasRow(w.tables, p.event)
  {
    hide Inv, Validate, GoodWork, GoodAck, GoodNack, Safe;
    RowsUnderOwnId(less, w.tables, p.event.eventId);
    var e := w.tables.telemetry[p.event.eventId].event;
    assert WasAccepted(w.accepted, e);
    var q :| q in w.accepted && q.event == e;
  }

  lemma RowsUnderOwnId(less: Collation, t: Tables, id: string)
    requires Consistent(less, t) && id in t.telemetry
    ensures t.telemetry[id].event.eventId == id
  {
  }

  /** The ACK is for an event delivered under its token, and a row of that id is committed: that
      event's own row, when nothing else was accepted under the id. */
  ghost predicate AckAfterCommit(w: World, m: AckMessage) {
    && m.token in w.issued && w.issued[m.token].event.eventId == m.id && m.id in w.tables.telemetry
    && (Sole(w.accepted, w.issued[m.token]) ==> HasRow(w.tables, w.issued[m.token].event))
  }

  /** Commit before ACK, in every reachable world: no ACK was ever sent, by any worker, for an
      event without a row, nor a NACK for a valid one. */
  lemma {:induction false} NoAckBeforeCommit(less: Collation, actions: seq<Action>)
    requires TotalOrder(less) && Reachable(less, actions)
    ensures var w := WorldAfter(less, actions);
            && (forall m :: m in w.acks ==> AckAfterCommit(w, m))
            && (forall n :: n in w.nacks ==> n.token in w.issued && !Validate(w.issued[n.token].event))
  {
    hide Inv, Consistent, Validate, TotalOrder, Safe, GoodWork, Reachable, WorldAfter, WasAccepted, Sole, HasRow;
    ReachableGood(less, actions);
    var w := WorldAfter(less, actions);
    forall m | m in w.acks ensures AckAfterCommit(w, m) {
      assert GoodAck(w.tables.telemetry.Keys, w.issued, m);
      if Sole(w.accepted, w.issued[m.token]) {
        RowIsSole(less, w, w.issued[m.token]);
      }
    }
  }

  // ---------------------------------------------------------------- what a message does

  /** The message's token is on the lease of its event, and the lease has not expired. */
  predicate StillHeld(s: State, call: Transactions.Call, now: int) {
    match call
    case AckCall(id, token) => HoldsLease(s, id, token, now)
    case NackCall(n) => HoldsLease(s, n.eventId, n.token, now)
    case _ => false
  }

  /** The broker takes the receipt exactly when its lease is still held and, for a NACK, quarantine
      has room; the event is then completed or quarantined. */
  ghost predicate TakesEffect(s: State, step: Step)
    requires Inv(s) && Possible(step)
  {
    var v := Respond(s, step);
    var records' := Replay(s, v.journal).records;
    match step.call
    case AckCall(id, _) =>
      && (v.reply == Done <==> StillHeld(s, step.call, step.now))
      && (v.reply == Done ==> InPhase(records', Completed, id))
    case NackCall(n) =>
      && (v.reply == Done <==> StillHeld(s, step.call, step.now)
                               && Tally(s.records, Count(Quarantined)) < step.options.quarantineCapacity)
      && (v.reply == Done ==> InPhase(records', Quarantined, n.eventId))
    case _ => false
  }

  /** Each message ever sent does its work if it comes in time: in every reachable world, an ACK the
      broker receives completes its event if and only if the lease is still held, and a NACK
      quarantines its event if and only if, besides, quarantine has room. */
  lemma MessagesTakeEffect(less: Collation, actions: seq<Action>, step: Step)
    requires TotalOrder(less) && Reachable(less, actions) && Inv(WorldAfter(less, actions).broker)
    requires Can(WorldAfter(less, actions), Receive(step))
    ensures Possible(step) && TakesEffect(WorldAfter(less, actions).broker, step)
  {
    hide Inv, Possible, Reachable, WorldAfter, TotalOrder, Consistent, Safe, GoodWork, Sourced, TakesEffect,
         Validate, ValidReceipt, ValidNack;
    ReachableGood(less, actions);
    var w := WorldAfter(less, actions);
    match step.call
    case AckCall(id, token) =>
      assert GoodAck(w.tables.telemetry.Keys, w.issued, AckMessage(id, token));
      AckTakesEffect(w.broker, step);
    case NackCall(n) =>
      assert GoodNack(w.issued, n);
      NackTakesEffect(w.broker, step);
    case _ =>
  }

  lemma AckTakesEffect(s: State, step: Step)
    requires Inv(s) && Possible(step) && step.call.AckCall? && ValidReceipt(step.call.id, step.call.receipt)
    ensures TakesEffect(s, step)
  {
    hide Inv, Lawful, Replay, Ack;
    Settlement.AckDecides(s, step.call.id, step.call.receipt, step.now, step.options);
    if Respond(s, step).reply == Done {
      Receipts.AckCompletes(s, step);
    }
  }

  lemma NackTakesEffect(s: State, step: Step)
    requires Inv(s) && Possible(step) && step.call.NackCall? && ValidNack(step.call.nack) && step.call.nack.permanent
    ensures TakesEffect(s, step)
  {
    hide Inv, Lawful, Replay, Nack, Tally;
    Settlement.NackDecides(s, step.call.nack, step.now, step.options);
    if Respond(s, step).reply == Done {
      Receipts.NackRecords(s, step);
    }
  }
}
