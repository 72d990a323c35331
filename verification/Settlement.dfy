/** When a receipt takes effect: an ACK or a retry NACK always does, from the delivery until its
    lease expires, unless an earlier receipt for that delivery did; only a permanent NACK can
    meet a limit. */
module Settlement {
  import opened Telemetry
  import opened Broker
  import opened Transactions
  import opened Histories
  import Fencing

  // ---------------------------------------------------------------- one receipt

  /** Every answer of an ACK, exactly. No limit and no count of attempts comes into it. */
  lemma AckDecides(s: State, id: string, token: string, now: int, o: Options)
    requires o.Validate()
    ensures var reply := Ack(s, id, token, now, o).reply;
            && (reply == Failed(Invalid) <==> !ValidReceipt(id, token))
            && (reply == Done <==>
                  && ValidReceipt(id, token) && InPhase(s.records, Leased, id)
                  && s.records[id].token == token && now < s.records[id].due)
            && (reply == Duplicate <==>
                  && ValidReceipt(id, token) && InPhase(s.records, Completed, id)
                  && s.records[id].token == token && now < s.records[id].due)
            && reply in {Failed(Invalid), Failed(StaleLease), Done, Duplicate}
  {
    hide Lawful, Replay, Commit;
  }

  /** Room in quarantine, for a NACK that wants it. */
  ghost predicate HasRoom(s: State, n: NackRequest, o: Options) {
    n.permanent ==> Tally(s.records, Count(Quarantined)) < o.quarantineCapacity
  }

  /** Every answer of a NACK, exactly: only a permanent one can be refused for want of room. */
  lemma NackDecides(s: State, n: NackRequest, now: int, o: Options)
    requires Inv(s)
    ensures var reply, id := Nack(s, n, now, o).reply, n.eventId;
            var held := InPhase(s.records, Leased, id) && s.records[id].token == n.token && now < s.records[id].due;
            && (reply == Failed(Invalid) <==> !ValidNack(n))
            && (reply == Done <==> ValidNack(n) && held && HasRoom(s, n, o))
            && (reply == Failed(Full) <==> ValidNack(n) && held && !HasRoom(s, n, o))
            && (reply == Duplicate <==> ValidNack(n) && id in s.records && s.records[id].lastNack == Some(n))
            && (reply == Failed(Conflict) <==>
                  && ValidNack(n) && id in s.records && s.records[id].lastNack.Some?
                  && s.records[id].lastNack != Some(n) && s.records[id].lastNackToken == n.token)
            && reply in {Failed(Invalid), Failed(StaleLease), Failed(Full), Failed(Conflict), Done, Duplicate}
  {
    if n.eventId in s.records {
      RecordWellFormed(s, n.eventId);
    }
    hide Inv, Lawful, Replay, Commit, Tally;
  }

  // ---------------------------------------------------------------- over a run

  /** The call is a receipt for the delivery. */
  predicate Settles(call: Call, d: Delivery) {
    match call
    case AckCall(id, token) => id == d.Id() && token == d.token
    case NackCall(n) => n.eventId == d.Id() && n.token == d.token
    case _ => false
  }

  /** Step `c` settled the delivery. */
  ghost predicate SettledAt(s: State, run: seq<Step>, d: Delivery, c: nat)
    requires Inv(s) && PossibleRun(run) && c < |run|
  {
    Settles(run[c].call, d) && ReplyAt(s, run, c) == Done
  }

  /** Some step between `a` and `b` settled the delivery. */
  ghost predicate SettledBetween(s: State, run: seq<Step>, d: Delivery, a: nat, b: nat)
    requires Inv(s) && PossibleRun(run) && b <= |run|
  {
    exists c: nat :: a < c < b && SettledAt(s, run, d, c)
  }

  predicate LeasedTo(records: Records, d: Delivery) {
    InPhase(records, Leased, d.Id()) && records[d.Id()].token == d.token
  }

  /** The delivery's token is on its record's lease only while the delivery is open, and as long as
      it is open and not expired. */
  predicate Tracked(records: Records, d: Delivery, open: bool, clock: int) {
    && (LeasedTo(records, d) ==> open && records[d.Id()].due == d.expires)
    && (open ==> d.expires <= clock || LeasedTo(records, d))
  }

  function SettledIn(c: Change): (receipt: Option<(string, string)>) {
    match c
    case Complete(id, token, _) => Some((id, token))
    case Requeue(n, _) => Some((n.eventId, n.token))
    case Quarantine(n) => Some((n.eventId, n.token))
    case _ => None
  }

  lemma TrackCommit(s: State, c: Change, now: int, d: Delivery, open: bool, clock: int)
    requires Enabled(s, c, now) && clock <= now && Tracked(s.records, d, open, clock)
    requires c.Deliver? ==> c.delivery.token != d.token
    ensures Tracked(Commit(s, c, now).records, d, open && SettledIn(c) != Some((d.Id(), d.token)), now)
  {
    hide Before;
  }

  lemma {:induction false} TrackExpiry(s: State, h: History, now: int, d: Delivery, open: bool, clock: int)
    requires Lawful(s, h) && clock <= now && Tracked(s.records, d, open, clock)
    requires forall i :: 0 <= i < |h| ==> h[i].now == now && (h[i].change.Release? || h[i].change.Forget?)
    ensures Tracked(Replay(s, h).records, d, open, now)
  {
    hide Enabled, Commit;
    if h != [] {
      var n := |h| - 1;
      TrackExpiry(s, h[..n], now, d, open, clock);
      TrackCommit(Replay(s, h[..n]), h[n].change, now, d, open, now);
    }
  }

  lemma OwnSettles(step: Step, reply: Reply, c: Change, d: Delivery)
    requires OwnChange(step, reply, c)
    ensures SettledIn(c) == Some((d.Id(), d.token)) <==> Settles(step.call, d) && reply == Done
    ensures c.Deliver? ==> DrawnBy(step) == Some(c.delivery.token)
  {
  }

  lemma SilentSettlesNothing(s: State, step: Step, d: Delivery)
    requires Inv(s) && Possible(step) && Silent(step, Respond(s, step).reply)
    ensures !(Settles(step.call, d) && Respond(s, step).reply == Done)
  {
    hide Inv, Possible, Respond;
  }

  lemma TrackStep(s: State, step: Step, d: Delivery, open: bool, clock: int)
    requires Inv(s) && Possible(step) && clock <= step.now && Tracked(s.records, d, open, clock)
    requires DrawnBy(step) != Some(d.token)
    ensures var v := Respond(s, step);
            Tracked(Replay(s, v.journal).records, d, open && !(Settles(step.call, d) && v.reply == Done), step.now)
  {
    hide Inv, Possible, Respond, Tracked, Enabled, Commit, OwnChange, SettledIn, Settles, Silent;
    var v := Respond(s, step);
    var expired := JournalShape(s, step);
    TrackExpiry(s, expired, step.now, d, open, clock);
    if v.journal == expired {
      SilentSettlesNothing(s, step, d);
    } else {
      assert v.journal[..|v.journal| - 1] == expired;
      var own := v.journal[|expired|];
      OwnSettles(step, v.reply, own.change, d);
      TrackCommit(Replay(s, expired), own.change, step.now, d, open, step.now);
    }
  }

  lemma DeliveryTracked(s: State, run: seq<Step>, a: nat)
    requires Inv(s) && PossibleRun(run) && a < |run| && ReplyAt(s, run, a).Delivered?
    ensures Tracked(After(s, run[..a + 1]).records, ReplyAt(s, run, a).delivery, true, run[a].now)
  {
    hide Inv, Possible, After, ReplyAt;
    Fencing.DeliveryHeld(s, run, a);
  }

  lemma {:induction false} TrackedAt(s: State, run: seq<Step>, a: nat, b: nat, d: Delivery)
    requires Inv(s) && PossibleRun(run) && OrderedRun(run) && a < b <= |run|
    requires ReplyAt(s, run, a) == Delivered(d) && forall i :: a < i < b ==> DrawnBy(run[i]) != Some(d.token)
    ensures Tracked(After(s, run[..b]).records, d, !SettledBetween(s, run, d, a, b), run[b - 1].now)
  {
    hide Inv, Possible, After, Respond, Tracked, Settles, DrawnBy, HistoryOf, Lawful, Replay;
    if b == a + 1 {
      DeliveryTracked(s, run, a);
    } else {
      TrackedAt(s, run, a, b - 1, d);
      AfterStep(s, run, b - 1);
      assert run[..b - 1 + 1] == run[..b];
      TrackStep(After(s, run[..b - 1]), run[b - 1], d, !SettledBetween(s, run, d, a, b - 1), run[b - 2].now);
      assert SettledAt(s, run, d, b - 1) ==> SettledBetween(s, run, d, a, b);
    }
  }

  /** The tokens drawn after a delivery are others. */
  lemma DrawnOnce(s: State, run: seq<Step>, a: nat)
    requires Inv(s) && PossibleRun(run) && FreshTokens(run) && a < |run| && ReplyAt(s, run, a).Delivered?
    ensures forall i :: a < i < |run| ==> DrawnBy(run[i]) != Some(ReplyAt(s, run, a).delivery.token)
  {
    hide Inv, Possible, After, Respond, DrawnBy;
    DeliveryDraws(After(s, run[..a]), run[a]);
  }

  /** What a receipt for the delivery is answered, when its lease is tracked. */
  lemma TrackedDecides(s: State, step: Step, d: Delivery, open: bool, clock: int)
    requires Inv(s) && Possible(step) && Settles(step.call, d) && clock <= step.now
    requires Tracked(s.records, d, open, clock)
    requires if step.call.AckCall? then ValidReceipt(d.Id(), d.token) else ValidNack(step.call.nack)
    ensures Respond(s, step).reply == Done
       <==> open && step.now < d.expires && (step.call.NackCall? ==> HasRoom(s, step.call.nack, step.options))
  {
    hide Inv, HasRoom, ValidReceipt, ValidNack, Ack, Nack;
    match step.call
    case AckCall(id, token) => AckDecides(s, id, token, step.now, step.options);
    case NackCall(n) => NackDecides(s, n, step.now, step.options);
    case _ =>
  }

  /** Receipts are taken, exactly: over any run whose clock never goes back and whose tokens never
      repeat, a receipt for a delivery takes effect if and only if the delivery's lease has not
      expired and no earlier receipt settled it; and, if it is a permanent NACK, there is room in
      quarantine. An ACK or a retry NACK is never refused for anything else, whatever the attempt,
      the fill of the broker or the limits it was reopened with. */
  lemma ReceiptsTakeEffectExactly(s: State, run: seq<Step>, a: nat, b: nat, d: Delivery)
    requires Inv(s) && PossibleRun(run) && OrderedRun(run) && FreshTokens(run) && a < b < |run|
    requires ReplyAt(s, run, a) == Delivered(d) && Settles(run[b].call, d)
    requires if run[b].call.AckCall? then ValidReceipt(d.Id(), d.token) else ValidNack(run[b].call.nack)
    ensures ReplyAt(s, run, b) == Done
       <==> && run[b].now < d.expires && !SettledBetween(s, run, d, a, b)
            && (run[b].call.NackCall? ==> HasRoom(After(s, run[..b]), run[b].call.nack, run[b].options))
  {
    hide Inv, Possible, After, Respond, Tracked, Settles, DrawnBy, ValidNack, ValidReceipt, HasRoom, SettledBetween,
         FreshTokens;
    DrawnOnce(s, run, a);
    TrackedAt(s, run, a, b, d);
    TrackedDecides(After(s, run[..b]), run[b], d, !SettledBetween(s, run, d, a, b), run[b - 1].now);
  }
}
