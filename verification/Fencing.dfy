/** Tokens fence deliveries: each is good for at most one receipt, and no two valid
    leases of one event overlap. */
module Fencing {
  import opened Telemetry
  import opened Broker
  import opened Transactions
  import opened Histories
  import Retention

  // ---------------------------------------------------------------- a token is spent once

  /** A record that carries a token: its lease's, or that of the ACK that completed it. */
  predicate Live(records: Records, id: string) {
    InPhase(records, Leased, id) || InPhase(records, Completed, id)
  }

  /** Live tokens are distinct and issued; those of leases are not spent, those of completions are. */
  ghost predicate Fenced(records: Records, issued: seq<string>, spent: seq<string>) {
    && (forall id :: InPhase(records, Leased, id) ==> records[id].token in issued && records[id].token !in spent)
    && (forall id :: InPhase(records, Completed, id) ==> records[id].token in spent)
    && (forall i, j :: Live(records, i) && Live(records, j) && i != j ==> records[i].token != records[j].token)
    && (forall t :: t in spent ==> t in issued)
    && Distinct(spent)
  }

  /** Every token in `after`, except that of `id`, is one of `before` and in the same phase. */
  ghost predicate LiveWithin(after: Records, before: Records, id: string) {
    forall j :: Live(after, j) && j != id ==>
      Live(before, j) && after[j].phase == before[j].phase && after[j].token == before[j].token
  }

  lemma FencedIssue(before: Records, after: Records, id: string, issued: seq<string>, spent: seq<string>)
    requires Fenced(before, issued, spent) && LiveWithin(after, before, id)
    requires InPhase(after, Leased, id) && after[id].token !in issued
    ensures Fenced(after, issued + [after[id].token], spent)
  {
  }

  lemma FencedSpend(before: Records, after: Records, id: string, issued: seq<string>, spent: seq<string>)
    requires Fenced(before, issued, spent) && LiveWithin(after, before, id)
    requires InPhase(before, Leased, id) && !InPhase(after, Leased, id)
    requires Live(after, id) ==> after[id].token == before[id].token
    ensures Fenced(after, issued, spent + [before[id].token])
  {
  }

  lemma FencedKeep(before: Records, after: Records, id: string, issued: seq<string>, spent: seq<string>)
    requires Fenced(before, issued, spent) && LiveWithin(after, before, id) && !Live(after, id)
    ensures Fenced(after, issued, spent)
  {
  }

  lemma FencedCommit(s: State, e: Entry, issued: seq<string>, spent: seq<string>)
    requires Fenced(s.records, issued, spent) && Enabled(s, e.change, e.now)
    requires e.change.Deliver? ==> e.change.delivery.token !in issued
    ensures Fenced(Commit(s, e.change, e.now).records,
                   issued + match TokenIn(e) { case Some(t) => [t] case None => [] },
                   spent + match ReceiptIn(e) { case Some(t) => [t] case None => [] })
  {
    hide Fenced;
    var after, id := Commit(s, e.change, e.now).records, Subject(e.change);
    assert issued + [] == issued && spent + [] == spent;
    match e.change
    case Deliver(_) => FencedIssue(s.records, after, id, issued, spent);
    case Complete(_, _, _) => FencedSpend(s.records, after, id, issued, spent);
    case Requeue(_, _) => FencedSpend(s.records, after, id, issued, spent);
    case Quarantine(_) => FencedSpend(s.records, after, id, issued, spent);
    case _ => FencedKeep(s.records, after, id, issued, spent);
  }

  lemma {:induction false} HistoryFenced(h: History)
    requires Lawful(EMPTY, h) && Distinct(Pick(h, TokenIn))
    ensures Fenced(Replay(EMPTY, h).records, Pick(h, TokenIn), Pick(h, ReceiptIn))
  {
    hide Enabled, Commit, Fenced;
    if h == [] {
      NothingFenced();
    } else {
      var n := |h| - 1;
      var issued := Pick(h[..n], TokenIn);
      assert Pick(h, TokenIn) == issued + match TokenIn(h[n]) { case Some(t) => [t] case None => [] };
      assert forall i :: 0 <= i < |issued| ==> issued[i] == Pick(h, TokenIn)[i];
      HistoryFenced(h[..n]);
      if h[n].change.Deliver? {
        assert Pick(h, TokenIn)[|issued|] == h[n].change.delivery.token;
      }
      FencedCommit(Replay(EMPTY, h[..n]), h[n], issued, Pick(h[..n], ReceiptIn));
    }
  }

  lemma NothingFenced()
    ensures Fenced(map[], [], [])
  {
  }

  /** Fencing: with tokens that never repeat, and whatever the clock does, no token
      causes two receipts that change state, be they ACKs or NACKs. */
  lemma {:induction false} TokensSpentOnce(run: seq<Step>)
    requires PossibleRun(run) && FreshTokens(run)
    ensures Inv(EMPTY) && Distinct(Observed(EMPTY, run, ReceiptBy))
  {
    EmptyInv();
    hide Inv, Matching, Lawful, Replay, HistoryOf, Respond, Observed;
    ReceiptMatches();
    ObservedIsCommitted(EMPTY, run, ReceiptIn, ReceiptBy);
    IssuedTokensFresh(EMPTY, run);
    HistoryFenced(HistoryOf(EMPTY, run));
  }

  /** Live tokens are pairwise distinct, and no lease's is among the spent ones. */
  ghost predicate TokensApart(records: Records, spent: seq<string>) {
    && (forall i, j :: Live(records, i) && Live(records, j) && i != j ==> records[i].token != records[j].token)
    && (forall id :: InPhase(records, Leased, id) ==> records[id].token !in spent)
  }

  /** In every state a run reaches, no two leases or completions carry the same token, and no
      lease carries one that was spent. */
  lemma {:induction false} LiveTokensDistinct(run: seq<Step>)
    requires PossibleRun(run) && FreshTokens(run)
    ensures Inv(EMPTY) && TokensApart(After(EMPTY, run).records, Observed(EMPTY, run, ReceiptBy))
  {
    EmptyInv();
    hide Inv, Matching, Lawful, Replay, HistoryOf, Respond, Observed, Pick, Possible, FreshTokens;
    ReceiptMatches();
    ObservedIsCommitted(EMPTY, run, ReceiptIn, ReceiptBy);
    IssuedTokensFresh(EMPTY, run);
    HistoryFenced(HistoryOf(EMPTY, run));
  }

  // ---------------------------------------------------------------- leases do not overlap

  /** What has become of a delivery since it was made. */
  datatype Fate = Held | Lapsed | Returned | Finished(until: int) | Shelved

  function FateAfter(d: Delivery, fate: Fate, c: Change): Fate {
    if !fate.Held? || Subject(c) != d.Id() then fate
    else
      match c
      case Release(_) => Lapsed
      case Complete(_, _, until) => Finished(until)
      case Requeue(_, _) => Returned
      case Quarantine(_) => Shelved
      case _ => fate
  }

  ghost function FateOver(d: Delivery, fate: Fate, h: History): Fate {
    if h == [] then fate
    else FateAfter(d, FateOver(d, fate, h[..|h| - 1]), h[|h| - 1].change)
  }

  /** What a fate says about the records at time `clock`. */
  predicate FateHolds(s: State, d: Delivery, fate: Fate, clock: int) {
    match fate
    case Held => InPhase(s.records, Leased, d.Id()) && s.records[d.Id()].token == d.token
        && s.records[d.Id()].due == d.expires
    case Lapsed => d.expires <= clock
    case Returned => true
    case Finished(until) => until <= clock || (InPhase(s.records, Completed, d.Id()) && s.records[d.Id()].due == until)
    case Shelved => InPhase(s.records, Quarantined, d.Id())
  }

  lemma FateCommit(s: State, d: Delivery, fate: Fate, clock: int, c: Change, now: int)
    requires Enabled(s, c, now) && FateHolds(s, d, fate, clock) && clock <= now
    ensures FateHolds(Commit(s, c, now), d, FateAfter(d, fate, c), now)
  {
  }

  lemma {:induction false} FateReplay(s: State, d: Delivery, fate: Fate, clock: int, h: History, now: int)
    requires Lawful(s, h) && FateHolds(s, d, fate, clock) && clock <= now
    requires forall i :: 0 <= i < |h| ==> h[i].now == now
    ensures FateHolds(Replay(s, h), d, FateOver(d, fate, h), now)
  {
    hide Enabled, Commit;
    if h != [] {
      var n := |h| - 1;
      FateReplay(s, d, fate, clock, h[..n], now);
      FateCommit(Replay(s, h[..n]), d, FateOver(d, fate, h[..n]), now, h[n].change, now);
    }
  }

  /** Expiry alone can only let a held lease lapse. */
  lemma {:induction false} FateOfExpiry(s: State, d: Delivery, fate: Fate, h: History)
    requires forall i :: 0 <= i < |h| ==> h[i].change.Release? || h[i].change.Forget?
    ensures FateOver(d, fate, h) == fate || FateOver(d, fate, h) == Lapsed
  {
    if h != [] {
      FateOfExpiry(s, d, fate, h[..|h| - 1]);
    }
  }

  /** Step `c` was a retry NACK with this delivery's token, and it took effect. */
  ghost predicate ReturnedAt(s: State, run: seq<Step>, d: Delivery, c: nat)
    requires Inv(s) && PossibleRun(run) && c < |run|
  {
    && run[c].call.NackCall? && !run[c].call.nack.permanent && run[c].call.nack.eventId == d.Id()
    && run[c].call.nack.token == d.token && ReplyAt(s, run, c) == Done
  }

  /** Step `c` was the ACK of this delivery, it took effect, and is remembered until `until`. */
  ghost predicate FinishedAt(s: State, run: seq<Step>, d: Delivery, c: nat, until: int)
    requires Inv(s) && PossibleRun(run) && c < |run|
  {
    && run[c].call == AckCall(d.Id(), d.token) && ReplyAt(s, run, c) == Done
    && until == run[c].now + run[c].options.completionTtl
  }

  /** A fate other than a lapse is owed to a receipt at a step of the run after step `a`. */
  ghost predicate Explained(s: State, run: seq<Step>, a: nat, b: nat, d: Delivery, fate: Fate)
    requires Inv(s) && PossibleRun(run) && b <= |run|
  {
    match fate
    case Returned => exists c: nat :: a < c < b && ReturnedAt(s, run, d, c)
    case Finished(until) => exists c: nat :: a < c < b && FinishedAt(s, run, d, c, until)
    case _ => true
  }

  lemma ExplainedStep(s: State, run: seq<Step>, a: nat, b: nat, d: Delivery, fate: Fate, own: Change)
    requires Inv(s) && PossibleRun(run) && a < b < |run|
    requires Explained(s, run, a, b, d, fate)
    requires OwnChange(run[b], ReplyAt(s, run, b), own)
    requires ReceiptIn(Entry(own, run[b].now)) in {None, Some(d.token)}
    ensures Explained(s, run, a, b + 1, d, FateAfter(d, fate, own))
  {
    hide Inv, ReplyAt, Possible;
    var after := FateAfter(d, fate, own);
    if after != fate {
      match after
      case Returned => assert ReturnedAt(s, run, d, b);
      case Finished(until) => assert FinishedAt(s, run, d, b, until);
      case _ =>
    } else {
      ExplainedLater(s, run, a, b, d, fate);
    }
  }

  lemma LapseExplained(s: State, run: seq<Step>, a: nat, b: nat, d: Delivery)
    requires Inv(s) && PossibleRun(run) && b <= |run|
    ensures Explained(s, run, a, b, d, Lapsed)
  {
  }

  lemma ExplainedLater(s: State, run: seq<Step>, a: nat, b: nat, d: Delivery, fate: Fate)
    requires Inv(s) && PossibleRun(run) && a < b < |run| && Explained(s, run, a, b, d, fate)
    ensures Explained(s, run, a, b + 1, d, fate)
  {
    hide Inv, ReplyAt, Possible, ReturnedAt, FinishedAt;
    match fate
    case Returned =>
      var c: nat :| a < c < b && ReturnedAt(s, run, d, c);
    case Finished(until) =>
      var c: nat :| a < c < b && FinishedAt(s, run, d, c, until);
    case _ =>
  }

  /** One step's effect on the fate of an earlier delivery. */
  lemma FateStep(s: State, run: seq<Step>, a: nat, b: nat, d: Delivery, fate: Fate, clock: int) returns (after: Fate)
    requires Inv(s) && PossibleRun(run) && a < b < |run| && clock <= run[b].now
    requires FateHolds(After(s, run[..b]), d, fate, clock) && Explained(s, run, a, b, d, fate)
    ensures FateHolds(After(s, run[..b + 1]), d, after, run[b].now) && Explained(s, run, a, b + 1, d, after)
  {
    hide Inv, Lawful, Replay, HistoryOf, Respond, Possible, FateHolds, After, Explained, OwnChange;
    var before, step := After(s, run[..b]), run[b];
    AfterStep(s, run, b);
    var journal := Respond(before, step).journal;
    var expired := JournalShape(before, step);
    FateOfExpiry(before, d, fate, expired);
    FateReplay(before, d, fate, clock, journal, step.now);
    var mid := FateOver(d, fate, expired);
    LapseExplained(s, run, a, b, d);
    after := FateOver(d, fate, journal);
    if journal == expired {
      ExplainedLater(s, run, a, b, d, mid);
    } else {
      assert journal[..|journal| - 1] == expired;
      var own := journal[|expired|];
      if FateAfter(d, mid, own.change) != mid {
        OwnReceipt(before, step, d, fate, clock, expired);
        ExplainedStep(s, run, a, b, d, mid, own.change);
      } else {
        ExplainedLater(s, run, a, b, d, mid);
      }
    }
  }

  /** A receipt that settles a held lease carries the lease's own token. */
  lemma OwnReceipt(s: State, step: Step, d: Delivery, fate: Fate, clock: int, expired: History)
    requires Inv(s) && Possible(step) && clock <= step.now && FateHolds(s, d, fate, clock)
    requires var journal := Respond(s, step).journal;
             && |journal| == |expired| + 1 && journal[..|expired|] == expired
             && (forall i :: 0 <= i < |journal| ==> journal[i].now == step.now)
             && FateOver(d, fate, expired).Held?
             && FateAfter(d, Held, journal[|expired|].change) != Held
    ensures ReceiptIn(Respond(s, step).journal[|expired|]) in {None, Some(d.token)}
  {
    var journal := Respond(s, step).journal;
    assert journal[..|journal| - 1] == expired;
    assert Lawful(s, journal);
    FateReplay(s, d, fate, clock, expired, step.now);
  }

  /** Follows a delivery made at step `a` up to step `b`. */
  lemma {:induction false} FateAtStep(s: State, run: seq<Step>, a: nat, b: nat) returns (fate: Fate)
    requires Inv(s) && PossibleRun(run) && OrderedRun(run) && a < b <= |run|
    requires ReplyAt(s, run, a).Delivered?
    ensures var d := ReplyAt(s, run, a).delivery;
            FateHolds(After(s, run[..b]), d, fate, run[b - 1].now) && Explained(s, run, a, b, d, fate)
  {
    hide Inv, FateHolds, ReplyAt, After, Possible, HistoryOf, Respond;
    var d := ReplyAt(s, run, a).delivery;
    if b == a + 1 {
      fate := Held;
      DeliveryHeld(s, run, a);
    } else {
      hide Explained;
      fate := FateAtStep(s, run, a, b - 1);
      fate := FateStep(s, run, a, b - 1, d, fate, run[b - 2].now);
    }
  }

  lemma DeliveryHeld(s: State, run: seq<Step>, a: nat)
    requires Inv(s) && PossibleRun(run) && a < |run| && ReplyAt(s, run, a).Delivered?
    ensures FateHolds(After(s, run[..a + 1]), ReplyAt(s, run, a).delivery, Held, run[a].now)
  {
    AfterStep(s, run, a);
    hide Inv, HistoryOf, Respond, Possible, After, Enabled, FateHolds, Commit;
    var before := After(s, run[..a]);
    var journal := Respond(before, run[a]).journal;
    var expired := JournalShape(before, run[a]);
    assert journal[..|journal| - 1] == expired;
    DeliverHolds(Replay(before, expired), ReplyAt(s, run, a).delivery, run[a].now);
  }

  lemma DeliverHolds(s: State, d: Delivery, now: int)
    requires Enabled(s, Deliver(d), now)
    ensures FateHolds(Commit(s, Deliver(d), now), d, Held, now)
  {
  }

  /** The delivery was ACKed at step `c`, and at step `e`, once that completion had expired, its
      id was accepted afresh. */
  ghost predicate Renewed(s: State, run: seq<Step>, d: Delivery, c: nat, e: nat)
    requires Inv(s) && PossibleRun(run) && c < |run| && e < |run|
  {
    FinishedAt(s, run, d, c, Retention.Until(run[c])) && Retention.AcceptedAfresh(s, run, d.Id(), c, e)
  }

  /** No overlap: with a clock that never goes back, an event is delivered again only after the
      earlier lease expired, was NACKed for retry, or was ACKed, forgotten and accepted afresh. */
  lemma LeasesDoNotOverlap(s: State, run: seq<Step>, a: nat, b: nat)
    requires Inv(s) && PossibleRun(run) && OrderedRun(run) && a < b < |run|
    requires ReplyAt(s, run, a).Delivered? && ReplyAt(s, run, b).Delivered?
    requires ReplyAt(s, run, a).delivery.Id() == ReplyAt(s, run, b).delivery.Id()
    ensures var d := ReplyAt(s, run, a).delivery;
            || d.expires <= run[b].now
            || (exists c: nat :: a < c < b && ReturnedAt(s, run, d, c))
            || (exists c: nat, e: nat :: a < c < e < b && Renewed(s, run, d, c, e))
  {
    hide Inv, Possible, After, Respond, HistoryOf, ReplyAt, ReturnedAt, FateHolds;
    var d := ReplyAt(s, run, a).delivery;
    var fate := FateAtStep(s, run, a, b);
    var again := DeliveredAgain(s, run, b, d, fate, run[b - 1].now);
    match fate
    case Finished(until) =>
      var c: nat :| a < c < b && FinishedAt(s, run, d, c, until);
      Retention.DeliveredAfresh(s, run, d.Id(), c, b);
      var e: nat :| c < e < b && Retention.AcceptedAfresh(s, run, d.Id(), c, e);
      assert Renewed(s, run, d, c, e);
    case _ =>
  }

  lemma DeliveredAgain(s: State, run: seq<Step>, b: nat, d: Delivery, fate: Fate, clock: int) returns (mid: Fate)
    requires Inv(s) && PossibleRun(run) && b < |run| && clock <= run[b].now
    requires FateHolds(After(s, run[..b]), d, fate, clock)
    requires ReplyAt(s, run, b).Delivered? && ReplyAt(s, run, b).delivery.Id() == d.Id()
    ensures mid == fate || mid == Lapsed
    ensures match mid
            case Lapsed => d.expires <= run[b].now
            case Returned => true
            case Finished(until) => until <= run[b].now
            case _ => false
  {
    hide Inv, Possible, After, Respond, FateHolds;
    mid := DeliveredNotHeld(After(s, run[..b]), run[b], d, fate, clock);
  }

  /** When an event is delivered again, its earlier delivery is not held any more. */
  lemma DeliveredNotHeld(s: State, step: Step, d: Delivery, fate: Fate, clock: int) returns (mid: Fate)
    requires Inv(s) && Possible(step) && clock <= step.now && FateHolds(s, d, fate, clock)
    requires Respond(s, step).reply.Delivered? && Respond(s, step).reply.delivery.Id() == d.Id()
    ensures mid == fate || mid == Lapsed
    ensures match mid
            case Lapsed => d.expires <= step.now
            case Returned => true
            case Finished(until) => until <= step.now
            case _ => false
  {
    var journal := Respond(s, step).journal;
    var expired := JournalShape(s, step);
    assert journal[..|journal| - 1] == expired;
    FateOfExpiry(s, d, fate, expired);
    FateReplay(s, d, fate, clock, expired, step.now);
    mid := FateOver(d, fate, expired);
    assert Lawful(s, journal);
  }
}
