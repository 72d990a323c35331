/** The pipeline run in which an accepted event is acknowledged and is in no row: its id had been
    accepted, committed and acknowledged before, with other content. */
module LostRow {
  import opened Telemetry
  import opened Broker
  import opened Transactions
  import opened Postgres
  import opened Pipeline
  import opened Counterexamples
  import Collector
  import Retention

  // ---------------------------------------------------------------- one event through the pipeline

  /** An event is published, leased by worker 0, committed and acknowledged; every message arrives. */
  function Round(data: Payload, token: string, now: int, o: Options): seq<Action> {
    [Serve(PublishStep(data, now, o)), Take(0, LeaseStep(token, now, o), ""),
     Action.Send(0), CommitRow(data.event, now), Hear(0, Collector.Ok),
     Action.Send(0), Receive(AckStep(data, token, now, o)), Hear(0, Collector.Ok)]
  }

  /** What the round leaves, if the publish sweeps the broker to `s`. */
  function RoundLeaves(less: Collation, w: World, s: State, data: Payload, token: string, now: int, o: Options): World {
    World(Handled(s, data, token, now, o), Persisted(less, w.tables, data.event, now), map[],
          w.persists + {data.event}, w.acks + {AckMessage(data.event.eventId, token)}, w.nacks,
          w.issued[token := data], w.accepted + {data})
  }

  lemma Extend(less: Collation, actions: seq<Action>, a: Action)
    requires Reachable(less, actions) && Inv(WorldAfter(less, actions).broker) && Can(WorldAfter(less, actions), a)
    ensures Reachable(less, actions + [a])
    ensures WorldAfter(less, actions + [a]) == Do(less, WorldAfter(less, actions), a)
  {
    hide Can, Inv, Do;
    assert (actions + [a])[..|actions|] == actions;
  }

  /** From world `w` action `a` can be taken and leads to `w'`. */
  ghost predicate Leads(less: Collation, w: World, a: Action, w': World) {
    Inv(w.broker) && Can(w, a) && Do(less, w, a) == w'
  }

  /** The actions lead from `w` through the worlds of `path`. */
  ghost predicate Path(less: Collation, w: World, actions: seq<Action>, path: seq<World>) {
    && |path| == |actions|
    && forall i :: 0 <= i < |actions| ==> Leads(less, WorldBefore(w, path, i), actions[i], path[i])
  }

  function WorldBefore(w: World, path: seq<World>, i: nat): World
    requires i <= |path|
  {
    if i == 0 then w else path[i - 1]
  }

  lemma PathPrefix(less: Collation, w: World, actions: seq<Action>, path: seq<World>, n: nat)
    requires Path(less, w, actions, path) && n < |actions|
    ensures Path(less, w, actions[..n], path[..n]) && Leads(less, WorldBefore(w, path, n), actions[n], path[n])
  {
    hide Leads;
    forall i | 0 <= i < n ensures Leads(less, WorldBefore(w, path[..n], i), actions[..n][i], path[..n][i]) {
      assert Leads(less, WorldBefore(w, path, i), actions[i], path[i]);
    }
  }

  lemma {:induction false} FollowPath(less: Collation, before: seq<Action>, actions: seq<Action>, path: seq<World>)
    requires Reachable(less, before) && Path(less, WorldAfter(less, before), actions, path)
    ensures Reachable(less, before + actions)
    ensures actions != [] ==> WorldAfter(less, before + actions) == path[|path| - 1]
    decreases |actions|
  {
    hide Reachable, WorldAfter, Leads;
    if actions == [] {
      assert before + actions == before;
    } else {
      var n := |actions| - 1;
      PathPrefix(less, WorldAfter(less, before), actions, path, n);
      FollowPath(less, before, actions[..n], path[..n]);
      if n == 0 {
        assert before + actions[..n] == before;
      }
      LeadsOn(less, before + actions[..n], actions[n], path[n]);
      assert before + actions[..n] + [actions[n]] == before + actions;
    }
  }

  lemma LeadsOn(less: Collation, actions: seq<Action>, a: Action, w': World)
    requires Reachable(less, actions) && Leads(less, WorldAfter(less, actions), a, w')
    ensures Reachable(less, actions + [a]) && WorldAfter(less, actions + [a]) == w'
  {
    hide Reachable, WorldAfter, Can, Do, Inv;
    Extend(less, actions, a);
  }

  // ---------------------------------------------------------------- the steps of a round

  lemma PublishLeads(less: Collation, w: World, s: State, data: Payload, now: int, o: Options)
    requires Takes(w.broker, PublishStep(data, now, o), Accepted, s)
    ensures Leads(less, w, Serve(PublishStep(data, now, o)), w.(broker := s, accepted := w.accepted + {data}))
  {
    hide Inv, Respond, Possible;
  }

  lemma LeaseLeads(less: Collation, w: World, s: State, d: Delivery, step: Step)
    requires Takes(w.broker, step, Delivered(d), s) && step.call == LeaseCall(Some(d.token))
    requires 0 !in w.workers && d.token !in w.issued && Validate(d.data.event)
    ensures Leads(less, w, Take(0, step, ""),
                  w.(broker := s, issued := w.issued[d.token := d.data],
                     workers := w.workers[0 := Collector.Persisting(d)]))
  {
    hide Inv, Respond, Possible, Validate;
  }

  lemma PersistLeads(less: Collation, w: World, d: Delivery)
    requires Inv(w.broker) && 0 in w.workers && w.workers[0] == Collector.Persisting(d)
    ensures Leads(less, w, Action.Send(0), w.(persists := w.persists + {d.data.event}))
  {
    hide Inv;
  }

  lemma RowLeads(less: Collation, w: World, e: Event, at: Instant)
    requires Inv(w.broker) && e in w.persists
    ensures Leads(less, w, CommitRow(e, at), w.(tables := Persisted(less, w.tables, e, at)))
  {
    hide Inv;
  }

  lemma CommittedLeads(less: Collation, w: World, d: Delivery)
    requires Inv(w.broker) && 0 in w.workers && w.workers[0] == Collector.Persisting(d) && d.Id() in w.tables.telemetry
    ensures Leads(less, w, Hear(0, Collector.Ok), w.(workers := w.workers[0 := Collector.Acking(d)]))
  {
    hide Inv;
  }

  lemma AckSentLeads(less: Collation, w: World, d: Delivery)
    requires Inv(w.broker) && 0 in w.workers && w.workers[0] == Collector.Acking(d)
    ensures Leads(less, w, Action.Send(0), w.(acks := w.acks + {AckMessage(d.Id(), d.token)}))
  {
    hide Inv;
  }

  lemma AckReceivedLeads(less: Collation, w: World, s: State, step: Step)
    requires Takes(w.broker, step, Done, s) && step.call.AckCall?
             && AckMessage(step.call.id, step.call.receipt) in w.acks
    ensures Leads(less, w, Receive(step), w.(broker := s))
  {
    hide Inv, Respond, Possible;
  }

  lemma AckedLeads(less: Collation, w: World, d: Delivery)
    requires Inv(w.broker) && w.workers == map[0 := Collector.Acking(d)]
    ensures Leads(less, w, Hear(0, Collector.Ok), w.(workers := map[]))
  {
    hide Inv;
    assert w.workers - {0} == map[];
  }

  /** An event there is room for, with a token never issued, goes through the whole pipeline. */
  lemma RoundLeads(less: Collation, before: seq<Action>, w: World, data: Payload, token: string, now: int, o: Options)
    requires Reachable(less, before) && WorldAfter(less, before) == w && w.workers == map[] && token !in w.issued
    requires Welcome(w.broker, data, now, o) && o.Validate() && ValidReceipt(data.event.eventId, token)
             && Validate(data.event)
    ensures Reachable(less, before + Round(data, token, now, o))
    ensures WorldAfter(less, before + Round(data, token, now, o))
         == RoundLeaves(less, w, Swept(w.broker, data, now, o), data, token, now, o)
  {
    hide Welcome, Inv, Takes, Leads, Swept, Admitted, Handed, Handled, Options.Validate, Validate, ValidReceipt,
         Reachable, WorldAfter, Can, Do;
    Handling(w.broker, data, token, now, o);
    var s, d, id := Swept(w.broker, data, now, o), LeaseOf(data, token, now, o), data.event.eventId;
    TakesInv(w.broker, PublishStep(data, now, o), Accepted, Admitted(s, data, now));
    TakesInv(Admitted(s, data, now), LeaseStep(token, now, o), Delivered(d), Handed(s, data, token, now, o));
    TakesInv(Handed(s, data, token, now, o), AckStep(data, token, now, o), Done, Handled(s, data, token, now, o));
    var w1 := w.(broker := Admitted(s, data, now), accepted := w.accepted + {data});
    PublishLeads(less, w, Admitted(s, data, now), data, now, o);
    var w2 := w1.(broker := Handed(s, data, token, now, o), issued := w1.issued[token := data],
                  workers := w1.workers[0 := Collector.Persisting(d)]);
    LeaseLeads(less, w1, Handed(s, data, token, now, o), d, LeaseStep(token, now, o));
    var w3 := w2.(persists := w2.persists + {data.event});
    PersistLeads(less, w2, d);
    var w4 := w3.(tables := Persisted(less, w3.tables, data.event, now));
    RowLeads(less, w3, data.event, now);
    var w5 := w4.(workers := w4.workers[0 := Collector.Acking(d)]);
    CommittedLeads(less, w4, d);
    var w6 := w5.(acks := w5.acks + {AckMessage(id, token)});
    AckSentLeads(less, w5, d);
    var w7 := w6.(broker := Handled(s, data, token, now, o));
    AckReceivedLeads(less, w6, Handled(s, data, token, now, o), AckStep(data, token, now, o));
    var w8 := w7.(workers := map[]);
    AckedLeads(less, w7, d);
    FollowPath(less, before, Round(data, token, now, o), [w1, w2, w3, w4, w5, w6, w7, w8]);
  }

  lemma TakesInv(s: State, step: Step, reply: Reply, s': State)
    requires Takes(s, step, reply, s')
    ensures Inv(s) && Inv(s')
  {
  }

  // ---------------------------------------------------------------- two events under one id

  lemma SamplesValid(size: nat)
    ensures Validate(A(size).event) && Validate(Again(size).event) && TOKEN_A != TOKEN_B
  {
    assert TOKEN_A[0] != TOKEN_B[0];
  }

  /** The first event is committed, completed and nothing else. */
  ghost predicate FirstDone(w: World, size: nat) {
    && w.workers == map[] && w.issued.Keys == {TOKEN_A} && HasRow(w.tables, A(size).event)
    && w.accepted == {A(size)} && Inv(w.broker)
    && w.broker.records == map["a" := Completion(A(size), TOKEN_A, 1, HOUR)]
  }

  predicate Untouched(w: World) {
    && w.broker.records == map[] && w.broker.sequence == 0 && w.tables == NO_TABLES
    && w.workers == map[] && w.issued == map[] && w.accepted == {}
  }

  /** The first round leaves a completion and the row of the first event. */
  lemma FirstRoundFrom(less: Collation, before: seq<Action>, w: World, size: nat)
    requires 0 < size <= MAX_REQUEST_BYTES - 1024 && Inv(w.broker) && Untouched(w)
    requires Reachable(less, before) && WorldAfter(less, before) == w
    ensures var actions := before + Round(A(size), TOKEN_A, 0, Ample(size));
            Reachable(less, actions) && FirstDone(WorldAfter(less, actions), size)
  {
    hide Inv, Options.Validate, Validate, Welcome, Swept, Handled, Reachable, WorldAfter, Round, ValidReceipt,
         Publishable, Persisted, Completion;
    var o := Ample(size);
    AmpleValid(size);
    SamplesValid(size);
    SampleRow(less, size);
    WelcomeEmpty(w.broker, size);
    RoundLeads(less, before, w, A(size), TOKEN_A, 0, o);
    HandledIs(w.broker, A(size), TOKEN_A, 0, o);
    HandledInv(w.broker, A(size), TOKEN_A, 0, o);
  }

  lemma FirstRound(less: Collation, size: nat)
    requires 0 < size <= MAX_REQUEST_BYTES - 1024
    ensures var actions := Round(A(size), TOKEN_A, 0, Ample(size));
            Reachable(less, actions) && FirstDone(WorldAfter(less, actions), size)
  {
    hide Inv, Reachable, WorldAfter, Round, FirstDone;
    EmptyInv();
    StartReachable(less);
    FirstRoundFrom(less, [], START, size);
    assert [] + Round(A(size), TOKEN_A, 0, Ample(size)) == Round(A(size), TOKEN_A, 0, Ample(size));
  }

  lemma SampleRow(less: Collation, size: nat)
    ensures HasRow(Persisted(less, NO_TABLES, A(size).event, 0), A(size).event) && A(size).event.eventId == "a"
  {
  }

  lemma HandledInv(s: State, data: Payload, token: string, now: int, o: Options)
    requires o.Validate() && Welcome(s, data, now, o) && ValidReceipt(data.event.eventId, token)
    ensures Inv(Handled(Swept(s, data, now, o), data, token, now, o))
  {
    hide Inv, Welcome, Swept, Handled, Handed, Admitted, Respond, Possible;
    Handling(s, data, token, now, o);
  }

  lemma StartReachable(less: Collation)
    ensures Reachable(less, []) && WorldAfter(less, []) == START
  {
  }

  /** The ACK is of this event's delivery. */
  predicate Acknowledges(w: World, m: AckMessage, p: Payload) {
    m.id == p.event.eventId && m.token in w.issued && w.issued[m.token] == p
  }

  /** An accepted, acknowledged event that neither the broker nor any row holds. */
  ghost predicate Lost(w: World, p: Payload) {
    && p in w.accepted && (exists m :: m in w.acks && Acknowledges(w, m, p))
    && !Retention.Pending(w.broker.records, p) && !HasRow(w.tables, p.event)
  }

  /** It happens: a reachable world, with every event valid, in which an accepted and acknowledged
      event is lost, its id being used for the second time. */
  lemma SecondEventIsLost(less: Collation, size: nat)
    requires 0 < size <= MAX_REQUEST_BYTES - 1024
    ensures var actions := Round(A(size), TOKEN_A, 0, Ample(size)) + Round(Again(size), TOKEN_B, HOUR, Ample(size));
            && Validate(A(size).event) && Validate(Again(size).event)
            && Reachable(less, actions) && Lost(WorldAfter(less, actions), Again(size))
  {
    var o := Ample(size);
    var first, second := Round(A(size), TOKEN_A, 0, o), Round(Again(size), TOKEN_B, HOUR, o);
    hide Inv, Options.Validate, Validate, Welcome, Swept, Handled, Reachable, WorldAfter, Round, ValidReceipt;
    FirstRound(less, size);
    AmpleValid(size);
    SamplesValid(size);
    var w := WorldAfter(less, first);
    WelcomeAgain(w.broker, size, Completion(A(size), TOKEN_A, 1, HOUR));
    RoundLeads(less, first, w, Again(size), TOKEN_B, HOUR, o);
    HandledIs(Swept(w.broker, Again(size), HOUR, o), Again(size), TOKEN_B, HOUR, o);
    var w' := WorldAfter(less, first + second);
    assert AckMessage("a", TOKEN_B) in w'.acks && Acknowledges(w', AckMessage("a", TOKEN_B), Again(size));
  }
}
