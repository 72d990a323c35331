/** What an observer of the broker's answers sees over a run, and how it relates to the
    history the run committed. */
module Histories {
  import opened Telemetry
  import opened Broker
  import opened Transactions

  // ---------------------------------------------------------------- picking entries

  /** The values `f` finds in a history, in order. */
  ghost function Pick<T>(h: History, f: Entry -> Option<T>): seq<T> {
    if h == [] then []
    else
      var last := f(h[|h| - 1]);
      Pick(h[..|h| - 1], f) + if last.Some? then [last.value] else []
  }

  lemma {:induction false} PickConcat<T>(a: History, b: History, f: Entry -> Option<T>)
    ensures Pick(a + b, f) == Pick(a, f) + Pick(b, f)
  {
    if b == [] {
      assert a + b == a;
    } else {
      var prior := b[..|b| - 1];
      PickConcat(a, prior, f);
      assert (a + b)[..|a + b| - 1] == a + prior;
    }
  }

  lemma {:induction false} PickNothing<T>(h: History, f: Entry -> Option<T>)
    requires forall i :: 0 <= i < |h| ==> f(h[i]) == None
    ensures Pick(h, f) == []
  {
    if h != [] {
      PickNothing(h[..|h| - 1], f);
    }
  }

  lemma PickOne<T>(h: History, e: Entry, f: Entry -> Option<T>)
    ensures Pick(h + [e], f) == Pick(h, f) + match f(e) { case Some(v) => [v] case None => [] }
  {
  }

  function AdmittedIn(e: Entry): Option<Payload> {
    if e.change.Admit? then Some(e.change.data) else None
  }

  function DeliveredIn(e: Entry): Option<Delivery> {
    if e.change.Deliver? then Some(e.change.delivery) else None
  }

  function FirstDeliveredIn(e: Entry): Option<Payload> {
    if e.change.Deliver? && e.change.delivery.attempt == 1 then Some(e.change.delivery.data) else None
  }

  function TokenIn(e: Entry): Option<string> {
    if e.change.Deliver? then Some(e.change.delivery.token) else None
  }

  /** The token of a receipt that changed state. */
  function ReceiptIn(e: Entry): Option<string> {
    match e.change
    case Complete(_, token, _) => Some(token)
    case Requeue(n, _) => Some(n.token)
    case Quarantine(n) => Some(n.token)
    case _ => None
  }

  // ---------------------------------------------------------------- observing a run

  /** The values `f` finds in the calls of a run and their answers, in order. */
  ghost function Observed<T>(s: State, run: seq<Step>, f: (Step, Reply) -> Option<T>): seq<T>
    requires Inv(s) && PossibleRun(run)
  {
    if run == [] then []
    else
      var n := |run| - 1;
      var last := f(run[n], ReplyAt(s, run, n));
      Observed(s, run[..n], f) + if last.Some? then [last.value] else []
  }

  /** An event the broker accepted. */
  function AcceptedBy(step: Step, reply: Reply): Option<Payload> {
    if reply == Accepted && step.call.PublishCall? && step.call.encoded.Some? then
      Some(Payload(step.call.event, step.call.encoded.value))
    else None
  }

  function DeliveredBy(step: Step, reply: Reply): Option<Delivery> {
    if reply.Delivered? then Some(reply.delivery) else None
  }

  /** An event delivered for the first time. */
  function FirstDeliveredBy(step: Step, reply: Reply): Option<Payload> {
    if reply.Delivered? && reply.delivery.attempt == 1 then Some(reply.delivery.data) else None
  }

  function TokenBy(step: Step, reply: Reply): Option<string> {
    if reply.Delivered? then Some(reply.delivery.token) else None
  }

  /** The token of an ACK or NACK that succeeded and was not a repetition. */
  function ReceiptBy(step: Step, reply: Reply): Option<string> {
    if reply == Done && step.call.AckCall? then Some(step.call.receipt)
    else if reply == Done && step.call.NackCall? then Some(step.call.nack.token)
    else None
  }

  /** The random token a step drew, used or not. */
  function DrawnBy(step: Step): Option<string> {
    if step.call.LeaseCall? then step.call.token else None
  }

  /** `step`'s answer tells an observer what its transaction committed, for one pair of views. */
  ghost predicate Tells<T>(s: State, step: Step, f: Entry -> Option<T>, g: (Step, Reply) -> Option<T>)
    requires Inv(s) && Possible(step)
  {
    var v := Respond(s, step);
    Pick(v.journal, f) == match g(step, v.reply) { case Some(x) => [x] case None => [] }
  }

  /** The shape of a journal: expiries, then at most the operation's own change. */
  lemma JournalShape(s: State, step: Step) returns (expired: History)
    requires Inv(s) && Possible(step)
    ensures forall i :: 0 <= i < |expired| ==>
             && expired[i].now == step.now
             && (expired[i].change.Release? || expired[i].change.Forget?)
    ensures var v := Respond(s, step);
            || v.journal == expired
            || (|v.journal| == |expired| + 1 && v.journal[..|expired|] == expired
                && v.journal[|expired|].now == step.now
                && OwnChange(step, v.reply, v.journal[|expired|].change))
    ensures var v := Respond(s, step);
            v.journal == expired <==> Silent(step, v.reply)
  {
    hide Inv, Lawful, Replay, Commit, Tally, ReleaseDue, ForgetDue, Sweep, Event.Validate;
    var v := Respond(s, step);
    match step.call
    case PublishCall(e, encoded) =>
      expired := if v.reply.Failed? then [] else Sweep(s, e.eventId, step.now, step.options.cleanupBatch);
    case LeaseCall(token) =>
      expired := if v.reply.Delivered? then ReleaseDue(s, step.now, step.options.cleanupBatch) else [];
    case CleanupCall => expired := v.journal;
    case _ => expired := [];
  }

  /** The call changed nothing on its own account. */
  predicate Silent(step: Step, reply: Reply) {
    reply in {Duplicate, Empty} || reply.Failed? || (step.call.CleanupCall? && reply == Done)
  }

  /** The change a successful call makes on its own account. */
  predicate OwnChange(step: Step, reply: Reply, c: Change) {
    match step.call
    case PublishCall(e, encoded) => reply == Accepted && encoded.Some? && c == Admit(Payload(e, encoded.value))
    case LeaseCall(token) =>
      && reply.Delivered? && c == Deliver(reply.delivery) && token == Some(reply.delivery.token)
      && reply.delivery.expires == step.now + step.options.leaseDuration
    case AckCall(id, token) => reply == Done && c == Complete(id, token, step.now + step.options.completionTtl)
    case NackCall(n) => reply == Done && c == if n.permanent then Quarantine(n)
                                              else Requeue(n, step.now + n.delayMillis * MILLISECOND)
    case _ => false
  }

  /** A view of entries and a view of answers that agree on every own change and ignore expiry. */
  ghost predicate Matching<T(!new)>(f: Entry -> Option<T>, g: (Step, Reply) -> Option<T>) {
    && (forall e: Entry :: e.change.Release? || e.change.Forget? ==> f(e) == None)
    && (forall step: Step, reply: Reply, c: Change ::
          OwnChange(step, reply, c) ==> f(Entry(c, step.now)) == g(step, reply))
    && (forall step: Step, reply: Reply ::
          Silent(step, reply) ==> g(step, reply) == None)
  }

  lemma JournalTells<T(!new)>(s: State, step: Step, f: Entry -> Option<T>, g: (Step, Reply) -> Option<T>)
    requires Inv(s) && Possible(step) && Matching(f, g)
    ensures Tells(s, step, f, g)
  {
    hide Inv, Possible, Respond, OwnChange, Silent, Pick;
    var v := Respond(s, step);
    var expired := JournalShape(s, step);
    PickNothing(expired, f);
    if v.journal != expired {
      var own := v.journal[|expired|];
      assert v.journal == expired + [own];
      PickOne(expired, own, f);
      assert own == Entry(own.change, step.now);
    }
  }

  /** What an observer collects from the answers is what the history holds. */
  lemma {:induction false} ObservedIsCommitted<T(!new)>(
    s: State, run: seq<Step>, f: Entry -> Option<T>, g: (Step, Reply) -> Option<T>)
    requires Inv(s) && PossibleRun(run) && Matching(f, g)
    ensures Observed(s, run, g) == Pick(HistoryOf(s, run), f)
  {
    if run != [] {
      var n := |run| - 1;
      var prior := run[..n];
      ObservedIsCommitted(s, prior, f, g);
      JournalTells(After(s, prior), run[n], f, g);
      PickConcat(HistoryOf(s, prior), Respond(After(s, prior), run[n]).journal, f);
    }
  }

  lemma AcceptanceMatches()
    ensures Matching(AdmittedIn, AcceptedBy)
  {
  }

  lemma DeliveryMatches()
    ensures Matching(DeliveredIn, DeliveredBy) && Matching(FirstDeliveredIn, FirstDeliveredBy)
  {
  }

  lemma TokenMatches()
    ensures Matching(TokenIn, TokenBy)
  {
  }

  lemma ReceiptMatches()
    ensures Matching(ReceiptIn, ReceiptBy)
  {
  }

  // ---------------------------------------------------------------- clocks and tokens

  /** The clock never goes back. */
  ghost predicate Ordered(h: History) {
    forall i, j :: 0 <= i < j < |h| ==> h[i].now <= h[j].now
  }

  ghost predicate OrderedRun(run: seq<Step>) {
    forall i, j :: 0 <= i < j < |run| ==> run[i].now <= run[j].now
  }

  ghost predicate Distinct<T>(s: seq<T>) {
    forall i, j :: 0 <= i < j < |s| ==> s[i] != s[j]
  }

  /** The random source never repeats a token. */
  ghost predicate FreshTokens(run: seq<Step>) {
    forall i, j :: 0 <= i < j < |run| && DrawnBy(run[i]).Some? ==> DrawnBy(run[i]) != DrawnBy(run[j])
  }

  lemma {:induction false} HistoryOrdered(s: State, run: seq<Step>)
    requires Inv(s) && PossibleRun(run) && OrderedRun(run)
    ensures Ordered(HistoryOf(s, run))
    ensures forall k :: 0 <= k < |HistoryOf(s, run)| ==> run != [] && HistoryOf(s, run)[k].now <= run[|run| - 1].now
  {
    hide Inv, Lawful, Replay, Respond, Possible;
    if run != [] {
      var n := |run| - 1;
      HistoryOrdered(s, run[..n]);
      var _ := JournalShape(After(s, run[..n]), run[n]);
    }
  }

  ghost predicate DrawnIn(run: seq<Step>, token: string) {
    exists i :: 0 <= i < |run| && DrawnBy(run[i]) == Some(token)
  }

  lemma DeliveryDraws(s: State, step: Step)
    requires Inv(s) && Possible(step) && Respond(s, step).reply.Delivered?
    ensures DrawnBy(step) == Some(Respond(s, step).reply.delivery.token)
  {
    var _ := JournalShape(s, step);
  }

  /** Delivered tokens are tokens that were drawn, so no two deliveries share one. */
  lemma {:induction false} TokensFresh(s: State, run: seq<Step>)
    requires Inv(s) && PossibleRun(run) && FreshTokens(run)
    ensures Distinct(Observed(s, run, TokenBy))
    ensures forall t :: t in Observed(s, run, TokenBy) ==> DrawnIn(run, t)
  {
    hide Inv, Lawful, Replay, Respond, Possible, HistoryOf;
    if run != [] {
      var n := |run| - 1;
      var prior := run[..n];
      TokensFresh(s, prior);
      var reply := ReplyAt(s, run, n);
      if reply.Delivered? {
        DeliveryDraws(After(s, prior), run[n]);
      }
      forall t | t in Observed(s, prior, TokenBy) ensures DrawnIn(run, t) && TokenBy(run[n], reply) != Some(t) {
        var i :| 0 <= i < |prior| && DrawnBy(prior[i]) == Some(t);
        assert run[i] == prior[i];
      }
    }
  }

  lemma IssuedTokensFresh(s: State, run: seq<Step>)
    requires Inv(s) && PossibleRun(run) && FreshTokens(run)
    ensures Distinct(Pick(HistoryOf(s, run), TokenIn))
  {
    TokensFresh(s, run);
    TokenMatches();
    ObservedIsCommitted(s, run, TokenIn, TokenBy);
  }
}
