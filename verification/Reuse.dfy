/** What becomes of an accepted event whose id was, or may yet be, accepted with other content:
    the row under its id at the moment of acceptance decides it for good. */
module Reuse {
  import opened Telemetry
  import opened Broker
  import opened Transactions
  import opened Histories
  import opened Postgres
  import opened Pipeline
  import opened Retention
  import Collector

  /** The id of `p` has a row, and it holds another event. */
  predicate Foreign(w: World, p: Payload) {
    p.event.eventId in w.tables.telemetry && w.tables.telemetry[p.event.eventId].event != p.event
  }

  /** `p` is in its row, or is pending with no row yet and nothing else accepted under its id. */
  ghost predicate Owned(w: World, p: Payload) {
    || HasRow(w.tables, p.event)
    || (p.event.eventId !in w.tables.telemetry && Pending(w.broker.records, p) && Sole(w.accepted, p))
  }

  // ---------------------------------------------------------------- acceptance

  /** Nothing is accepted under an id the broker holds unfinished. */
  lemma NotOverPending(s: State, step: Step, held: Payload)
    requires Inv(s) && Possible(step) && Pending(s.records, held)
    ensures !Accepts(step, Respond(s, step).reply, held.event.eventId)
  {
    hide Inv, Possible, Pending;
    if Accepts(step, Respond(s, step).reply, held.event.eventId) {
      AcceptedPublishable(s, step);
      PublishFinds(s, step, held, 0);
    }
  }

  lemma AcceptedPublishable(s: State, step: Step)
    requires Inv(s) && Possible(step) && step.call.PublishCall? && Respond(s, step).reply == Accepted
    ensures Publishable(step.call.event, step.call.encoded, step.options)
  {
    hide Inv, Event.Validate;
  }

  /** Where an acceptance leaves the event. */
  lemma AcceptDecides(less: Collation, w: World, step: Step, p: Payload)
    requires Good(less, w) && Can(w, Serve(step))
    requires AcceptedBy(step, Respond(w.broker, step).reply) == Some(p)
    ensures if Foreign(w, p) then Foreign(Served(w, step), p) else Owned(Served(w, step), p)
  {
    hide Inv, Possible, Respond, Consistent, GoodAck, GoodNack, GoodWork, Pending;
    if p.event.eventId !in w.tables.telemetry {
      AcceptLeavesPending(w.broker, step, p);
      forall q | q in w.accepted ensures q.event.eventId != p.event.eventId {
        if q.event.eventId == p.event.eventId {
          HeldUnfinished(less, w, q);
          NotOverPending(w.broker, step, w.broker.records[q.event.eventId].hash);
        }
      }
    }
  }

  /** An accepted id without a row is pending. */
  lemma HeldUnfinished(less: Collation, w: World, q: Payload)
    requires Good(less, w) && q in w.accepted && q.event.eventId !in w.tables.telemetry
    ensures q.event.eventId in w.broker.records
    ensures var held := w.broker.records[q.event.eventId].hash;
            Pending(w.broker.records, held) && held.event.eventId == q.event.eventId
  {
    hide GoodAck, GoodNack, GoodWork, Consistent, Sourced;
    assert Kept(w.broker.records, w.accepted, w.tables.telemetry.Keys);
    RecordWellFormed(w.broker, q.event.eventId);
  }

  // ---------------------------------------------------------------- ever after

  lemma ServedKeepsOwned(less: Collation, w: World, step: Step, p: Payload)
    requires Good(less, w) && Possible(step) && Owned(w, p)
    requires step.call.AckCall? ==> step.call.id in w.tables.telemetry
    ensures Owned(Served(w, step), p)
  {
    hide Inv, Possible, Respond, Consistent, GoodAck, GoodNack, GoodWork, Pending, Safe;
    if !HasRow(w.tables, p.event) {
      PendingStep(w.broker, step, p);
      NotOverPending(w.broker, step, p);
    }
  }

  lemma CommitKeepsOwned(less: Collation, w: World, e: Event, at: Instant, p: Payload)
    requires Good(less, w) && Can(w, CommitRow(e, at)) && Owned(w, p)
    ensures Owned(w.(tables := Persisted(less, w.tables, e, at)), p)
  {
    hide Inv, Consistent, GoodAck, GoodNack, GoodWork, Pending, Safe;
    if e.eventId == p.event.eventId && !HasRow(w.tables, p.event) {
      assert WasAccepted(w.accepted, e);
      var q :| q in w.accepted && q.event == e;
    }
  }

  lemma OwnedStep(less: Collation, w: World, a: Action, p: Payload)
    requires Good(less, w) && Can(w, a) && Owned(w, p)
    ensures Owned(Do(less, w, a), p)
  {
    hide Inv, Good, Owned, Do, Can;
    match a
    case Serve(_) => ServeKeepsOwned(less, w, a, p);
    case Take(_, _, _) => TakeKeepsOwned(less, w, a, p);
    case Receive(step) => ReceiveKeepsOwned(less, w, step, p);
    case CommitRow(_, _) => RowKeepsOwned(less, w, a, p);
    case _ => QuietKeepsOwned(less, w, a, p);
  }

  lemma ServeKeepsOwned(less: Collation, w: World, a: Action, p: Payload)
    requires Good(less, w) && Can(w, a) && Owned(w, p) && a.Serve?
    ensures Owned(Do(less, w, a), p)
  {
    hide Good, Owned, Inv, Possible;
    ServedKeepsOwned(less, w, a.step, p);
  }

  lemma RowKeepsOwned(less: Collation, w: World, a: Action, p: Payload)
    requires Good(less, w) && Can(w, a) && Owned(w, p) && a.CommitRow?
    ensures Owned(Do(less, w, a), p)
  {
    hide Good, Owned, Inv, Can;
    CommitKeepsOwned(less, w, a.event, a.at, p);
  }

  lemma QuietKeepsOwned(less: Collation, w: World, a: Action, p: Payload)
    requires Good(less, w) && Can(w, a) && Owned(w, p) && (a.Send? || a.Hear? || a.Abandon?)
    ensures Owned(Do(less, w, a), p)
  {
    hide Good, Inv, Pending, Sole, HasRow;
  }

  lemma TakeKeepsOwned(less: Collation, w: World, a: Action, p: Payload)
    requires Good(less, w) && Can(w, a) && Owned(w, p) && a.Take?
    ensures Owned(Do(less, w, a), p)
  {
    ServedKeepsOwned(less, w, a.step, p);
    hide Good, Inv, Possible, Respond, Pending;
  }

  lemma ReceiveKeepsOwned(less: Collation, w: World, step: Step, p: Payload)
    requires Good(less, w) && Can(w, Receive(step)) && Owned(w, p)
    ensures Owned(Do(less, w, Receive(step)), p)
  {
    hide Inv, Possible, Respond, Consistent, Safe, GoodNack, GoodWork, Pending, Owned;
    if step.call.AckCall? {
      assert GoodAck(w.tables.telemetry.Keys, w.issued, AckMessage(step.call.id, step.call.receipt));
    }
    ServedKeepsOwned(less, w, step, p);
  }

  lemma ForeignStep(less: Collation, w: World, a: Action, p: Payload)
    requires Inv(w.broker) && Can(w, a) && Foreign(w, p)
    ensures Foreign(Do(less, w, a), p)
  {
    hide Inv, Possible, Respond;
  }

  // ---------------------------------------------------------------- runs of the pipeline

  lemma {:induction false} PrefixReachable(less: Collation, actions: seq<Action>, n: nat)
    requires Reachable(less, actions) && n <= |actions|
    ensures Reachable(less, actions[..n])
    decreases |actions|
  {
    hide Can, Inv;
    if n == |actions| {
      assert actions[..n] == actions;
    } else {
      var prior := actions[..|actions| - 1];
      PrefixReachable(less, prior, n);
      assert prior[..n] == actions[..n];
    }
  }

  /** The world before action `n`. */
  ghost function WorldAt(less: Collation, actions: seq<Action>, n: nat): World
    requires Reachable(less, actions) && n <= |actions|
  {
    PrefixReachable(less, actions, n);
    WorldAfter(less, actions[..n])
  }

  lemma WorldNext(less: Collation, actions: seq<Action>, n: nat)
    requires Reachable(less, actions) && n < |actions|
    ensures var w := WorldAt(less, actions, n);
            Inv(w.broker) && Can(w, actions[n]) && WorldAt(less, actions, n + 1) == Do(less, w, actions[n])
  {
    hide Can, Inv, Do;
    PrefixReachable(less, actions, n + 1);
    assert actions[..n + 1][..n] == actions[..n];
  }

  lemma GoodAt(less: Collation, actions: seq<Action>, n: nat)
    requires TotalOrder(less) && Reachable(less, actions) && n <= |actions|
    ensures Good(less, WorldAt(less, actions, n))
  {
    hide TotalOrder, Good, Reachable, WorldAfter;
    PrefixReachable(less, actions, n);
    ReachableGood(less, actions[..n]);
  }

  lemma {:induction false} DecidedForGood(less: Collation, actions: seq<Action>, n: nat, m: nat, p: Payload)
    requires TotalOrder(less) && Reachable(less, actions) && n <= m <= |actions|
    ensures Owned(WorldAt(less, actions, n), p) ==> Owned(WorldAt(less, actions, m), p)
    ensures Foreign(WorldAt(less, actions, n), p) ==> Foreign(WorldAt(less, actions, m), p)
  {
    hide TotalOrder, Reachable, WorldAt, Good, Owned, Foreign, Can, Inv, Do;
    if n < m {
      DecidedForGood(less, actions, n, m - 1, p);
      GoodAt(less, actions, m - 1);
      WorldNext(less, actions, m - 1);
      var w := WorldAt(less, actions, m - 1);
      if Owned(w, p) {
        OwnedStep(less, w, actions[m - 1], p);
      }
      if Foreign(w, p) {
        ForeignStep(less, w, actions[m - 1], p);
      }
    }
  }

  /** Action `n` served a publish that accepted `p`. */
  ghost predicate AcceptsInRun(less: Collation, actions: seq<Action>, n: nat, p: Payload)
    requires Reachable(less, actions) && n < |actions|
  {
    WorldNext(less, actions, n);
    && actions[n].Serve?
    && AcceptedBy(actions[n].step, Respond(WorldAt(less, actions, n).broker, actions[n].step).reply) == Some(p)
  }

  /** No loss, exactly: let `p` be accepted, and let the run go on in any way. If its id has no row
      then, or its own, `p` is for ever pending or in its row. If its id has the row of another
      event, `p` never gets one, and is lost in every world where the broker does not hold it. */
  lemma {:induction false} FirstRowDecides(less: Collation, actions: seq<Action>, n: nat, m: nat, p: Payload)
    requires TotalOrder(less) && Reachable(less, actions) && n < m <= |actions| && AcceptsInRun(less, actions, n, p)
    ensures var w := WorldAt(less, actions, m);
            && (HasRow(w.tables, p.event) ==> !Foreign(WorldAt(less, actions, n), p))
            && (Pending(w.broker.records, p) || HasRow(w.tables, p.event)
                <==> Pending(w.broker.records, p) || !Foreign(WorldAt(less, actions, n), p))
  {
    hide TotalOrder, Reachable, WorldAt, Good, Can, Inv, Do, Respond, Pending;
    GoodAt(less, actions, n);
    WorldNext(less, actions, n);
    Accepting(less, actions, n, p);
    DecidedForGood(less, actions, n + 1, m, p);
  }

  lemma Accepting(less: Collation, actions: seq<Action>, n: nat, p: Payload)
    requires Reachable(less, actions) && n < |actions| && AcceptsInRun(less, actions, n, p)
    requires Good(less, WorldAt(less, actions, n))
    ensures if Foreign(WorldAt(less, actions, n), p) then Foreign(WorldAt(less, actions, n + 1), p)
            else Owned(WorldAt(less, actions, n + 1), p)
  {
    hide Reachable, WorldAt, Good, Can, Inv, Respond, Owned, Foreign, Possible;
    WorldNext(less, actions, n);
    AcceptDecides(less, WorldAt(less, actions, n), actions[n].step, p);
  }
}
