/** From the streamer to the database: a producer that gives each event its own id has every
    accepted event pending or in its row. */
module EndToEnd {
  import opened Telemetry
  import opened Broker
  import opened Transactions
  import opened Histories
  import opened Postgres
  import opened Pipeline
  import Retention
  import Streamer

  /** The action is a publish of `e`, whose JSON text has length `encoded`. */
  predicate Publishes(a: Action, e: Event, encoded: Option<nat>) {
    a.Serve? && a.step.call == PublishCall(e, encoded)
  }

  /** Publishes under one id carry one content. */
  ghost predicate OneContent(actions: seq<Action>) {
    forall i, j :: 0 <= i < |actions| && 0 <= j < |actions| && IsPublish(actions[i]) && IsPublish(actions[j])
      && actions[i].step.call.event.eventId == actions[j].step.call.event.eventId
      ==> actions[i].step.call == actions[j].step.call
  }

  predicate IsPublish(a: Action) {
    a.Serve? && a.step.call.PublishCall?
  }

  /** The payload was published by one of the actions. */
  ghost predicate Published(actions: seq<Action>, p: Payload) {
    exists i :: 0 <= i < |actions| && Publishes(actions[i], p.event, Some(p.size))
  }

  lemma AcceptedNow(less: Collation, w: World, a: Action, p: Payload)
    requires Inv(w.broker) && Can(w, a) && p in Do(less, w, a).accepted && p !in w.accepted
    ensures Publishes(a, p.event, Some(p.size))
  {
    hide Inv, Possible, Respond;
  }

  /** Only what was published is ever accepted. */
  lemma {:induction false} AcceptedWasPublished(less: Collation, actions: seq<Action>, p: Payload)
    requires Reachable(less, actions) && p in WorldAfter(less, actions).accepted
    ensures Published(actions, p)
  {
    hide Inv, Can, Do, Publishes;
    if actions != [] {
      var n := |actions| - 1;
      if p in WorldAfter(less, actions[..n]).accepted {
        AcceptedWasPublished(less, actions[..n], p);
        var i :| 0 <= i < n && Publishes(actions[..n][i], p.event, Some(p.size));
        assert actions[i] == actions[..n][i];
      } else {
        AcceptedNow(less, WorldAfter(less, actions[..n]), actions[n], p);
      }
    }
  }

  lemma PublishedAlone(actions: seq<Action>, p: Payload, q: Payload)
    requires OneContent(actions) && Published(actions, p) && Published(actions, q) && p.event.eventId == q.event.eventId
    ensures p == q
  {
    var i :| 0 <= i < |actions| && Publishes(actions[i], p.event, Some(p.size));
    var j :| 0 <= j < |actions| && Publishes(actions[j], q.event, Some(q.size));
    assert actions[i].step.call == actions[j].step.call;
  }

  /** With one content per id, every accepted event is pending or in its row, in every reachable
      world. */
  lemma EveryEventIsKept(less: Collation, actions: seq<Action>)
    requires TotalOrder(less) && Reachable(less, actions) && OneContent(actions)
    ensures var w := WorldAfter(less, actions);
            forall p :: p in w.accepted ==> Retention.Pending(w.broker.records, p) || HasRow(w.tables, p.event)
  {
    hide TotalOrder, Reachable, WorldAfter, Published, OneContent, IdsKept, RecordsSettled, Consistent, WasAccepted;
    NothingIsLost(less, actions);
    var w := WorldAfter(less, actions);
    forall p | p in w.accepted ensures Sole(w.accepted, p) {
      AcceptedWasPublished(less, actions, p);
      forall q | q in w.accepted && q.event.eventId == p.event.eventId ensures q == p {
        AcceptedWasPublished(less, actions, q);
        PublishedAlone(actions, p, q);
      }
    }
  }

  // ---------------------------------------------------------------- a streamer in front

  lemma {:induction false} CallOfOffer(offers: seq<Streamer.Offer>, e: Event) returns (i: nat)
    requires e in Streamer.Calls(offers)
    ensures i < |offers| && offers[i].event == e
  {
    var n := |offers| - 1;
    if e in Streamer.Calls(offers[..n]) {
      i := CallOfOffer(offers[..n], e);
    } else {
      i := n;
    }
  }

  /** Every publish that reached the broker is one of the calls of a streamer's run; `encode` is
      the length of an event's JSON text. */
  ghost predicate StreamedBy(actions: seq<Action>, calls: seq<Event>, encode: Event -> Option<nat>) {
    forall i :: 0 <= i < |actions| && IsPublish(actions[i]) ==>
      && actions[i].step.call.event in calls
      && actions[i].step.call.encoded == encode(actions[i].step.call.event)
  }

  lemma StreamedOnce(actions: seq<Action>, calls: seq<Event>, offers: seq<Streamer.Offer>, encode: Event -> Option<nat>)
    requires StreamedBy(actions, calls, encode) && calls == Streamer.Calls(offers)
    requires forall i, j :: 0 <= i < j < |offers| ==> offers[i].event.eventId != offers[j].event.eventId
    ensures OneContent(actions)
  {
    forall i, j | 0 <= i < |actions| && 0 <= j < |actions| && IsPublish(actions[i]) && IsPublish(actions[j])
                  && actions[i].step.call.event.eventId == actions[j].step.call.event.eventId
      ensures actions[i].step.call == actions[j].step.call
    {
      var a := CallOfOffer(offers, actions[i].step.call.event);
      var b := CallOfOffer(offers, actions[j].step.call.event);
    }
  }

  /** End to end: when what is published are the calls of one run of the streamer, retried, lost
      and repeated in any way, then whatever the broker accepted is pending or in its row. The
      contract of the run supplies that the calls are those of offers with distinct ids. */
  lemma StreamedEventsAreKept(less: Collation, actions: seq<Action>, calls: seq<Event>,
                              offers: seq<Streamer.Offer>, encode: Event -> Option<nat>)
    requires TotalOrder(less) && Reachable(less, actions)
    requires StreamedBy(actions, calls, encode) && calls == Streamer.Calls(offers)
    requires forall i, j :: 0 <= i < j < |offers| ==> offers[i].event.eventId != offers[j].event.eventId
    ensures var w := WorldAfter(less, actions);
            forall p :: p in w.accepted ==> Retention.Pending(w.broker.records, p) || HasRow(w.tables, p.event)
  {
    hide *;
    StreamedOnce(actions, calls, offers, encode);
    EveryEventIsKept(less, actions);
  }
}
