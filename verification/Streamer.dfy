/** The streamer: reads rows, gives each one its identity, and publishes it until the broker
    confirms it or the run ends. */
module Streamer {
  import opened Telemetry
  import opened Source
  import Collector

  const MINUTE: int := 60 * SECOND

  // ---------------------------------------------------------------- event identity

  function Digit(n: nat): char
    requires n < 10
  {
    "0123456789"[n]
  }

  function Decimal(n: nat): string {
    if n < 10 then [Digit(n)] else Decimal(n / 10) + [Digit(n % 10)]
  }

  function EventId(producer: string, replay: nat, row: nat): string {
    producer + ":" + Decimal(replay) + ":" + Decimal(row)
  }

  /** The number a text of digits stands for. */
  function Value(s: string): int {
    if s == "" then 0 else Value(s[..|s| - 1]) * 10 + (s[|s| - 1] as int - '0' as int)
  }

  lemma {:induction false} DecimalReads(n: nat)
    ensures Value(Decimal(n)) == n && ':' !in Decimal(n)
  {
    DigitReads(n % 10);
    if n < 10 {
      assert Decimal(n)[..0] == "";
    } else {
      DecimalReads(n / 10);
      assert Decimal(n)[..|Decimal(n)| - 1] == Decimal(n / 10);
    }
  }

  lemma DigitReads(n: nat)
    requires n < 10
    ensures Digit(n) as int - '0' as int == n && Digit(n) != ':'
  {
  }

  /** An event id is the producer, the replay and the row, apart by colons, in this order. */
  lemma EventIdReads(producer: string, replay: nat, row: nat) returns (x: string, y: string)
    ensures EventId(producer, replay, row) == producer + ":" + x + ":" + y
    ensures ':' !in x && ':' !in y && Value(x) == replay && Value(y) == row
  {
    hide Decimal, Value;
    x, y := Decimal(replay), Decimal(row);
    DecimalReads(replay);
    DecimalReads(row);
  }

  /** Where a colon-free prefix ends is determined by the text. */
  lemma CutAtColon(a: string, b: string, c: string, d: string)
    requires ':' !in a && ':' !in c && a + ":" + b == c + ":" + d
    ensures a == c && b == d
  {
    var s := a + ":" + b;
    assert s[|a|] == ':' && s[|c|] == ':';
    assert forall i :: 0 <= i < |a| ==> s[i] == a[i];
    assert forall i :: 0 <= i < |c| ==> s[i] == c[i];
    assert s[..|a|] == a && s[..|c|] == c;
    assert s[|a| + 1..] == b && s[|c| + 1..] == d;
  }

  /** Rows of one producer at different positions have different event ids. */
  lemma EventIdInjective(producer: string, replay: nat, row: nat, replay': nat, row': nat)
    requires EventId(producer, replay, row) == EventId(producer, replay', row')
    ensures replay == replay' && row == row'
  {
    hide EventId, Value;
    var x, y := EventIdReads(producer, replay, row);
    var x', y' := EventIdReads(producer, replay', row');
    var s := EventId(producer, replay, row);
    assert s[|producer| + 1..] == x + ":" + y && s[|producer| + 1..] == x' + ":" + y';
    CutAtColon(x, y, x', y');
  }

  // ---------------------------------------------------------------- publishing one event

  datatype Options = Options(rate: Float, count: nat, shutdownTimeout: int, retryMin: int, retryMax: int,
                             producerId: string)
  {
    predicate Validate() {
      && rate.Finite? && 0.001 <= rate.value <= 1000000.0
      && 0 < shutdownTimeout && 0 < retryMin <= retryMax <= MINUTE
    }
  }

  datatype Reply = Accepted | Retryable | Final

  /** One try: the reply, whether the shutdown time had run out by then, the random part of
      the pause after a failure, and whether the pause was cut short. */
  datatype Attempt = Attempt(reply: Reply, expired: bool, jitter: nat, interrupted: bool)

  datatype Sent = Confirmed | Refused | Interrupted

  /** The backoff before retry number `n`. */
  function Pace(n: nat, min: nat, max: nat): nat {
    if n == 0 then min
    else
      var before := Pace(n - 1, min, max);
      if before >= max then before else if before * 2 > max then max else before * 2
  }

  /** The backoff is the minimum doubled as often as there were retries, capped. */
  lemma {:induction false} PaceDoubles(n: nat, min: nat, max: nat)
    requires 0 < min <= max
    ensures var doubled := Collector.Doubled(n, min);
            Pace(n, min, max) == if doubled < max then doubled else max
  {
    if n > 0 {
      PaceDoubles(n - 1, min, max);
    }
  }

  /** A pause waits at least half its backoff, and at most all of it. */
  predicate Within(pause: int, backoff: int) {
    backoff / 2 <= pause <= backoff
  }

  /** Half a backoff and a random part of the other half. */
  function Jittered(backoff: int, jitter: nat): (pause: int)
    requires backoff > 0
    ensures Within(pause, backoff)
  {
    backoff / 2 + jitter % (backoff / 2 + 1)
  }

  /** Each pause is within the backoff of its retry. */
  ghost predicate Paced(pauses: seq<int>, min: nat, max: nat) {
    forall i :: 0 <= i < |pauses| ==> Within(pauses[i], Pace(i, min, max))
  }

  lemma PacedNext(pauses: seq<int>, min: nat, max: nat, pause: int)
    requires Paced(pauses, min, max) && Within(pause, Pace(|pauses|, min, max))
    ensures Paced(pauses + [pause], min, max)
  {
    hide Pace, Within;
  }

  lemma PaceStep(n: nat, min: nat, max: nat)
    requires min <= Pace(n, min, max) <= max
    ensures Pace(n + 1, min, max) == if Pace(n, min, max) * 2 > max then max else Pace(n, min, max) * 2
  {
  }

  lemma PaceStarts(min: nat, max: nat)
    ensures Pace(0, min, max) == min
  {
  }

  function Repeat(e: Event, n: nat): seq<Event> {
    seq(n, _ => e)
  }

  /** Publishes one event, pausing between tries. After the last attempt given, the pause is
      cut short by the end of the shutdown time. */
  method Send(e: Event, o: Options, first: Attempt, later: seq<Attempt>)
    returns (sent: Sent, calls: seq<Event>, retries: nat, pauses: seq<int>)
    requires o.Validate()
    ensures calls == Repeat(e, |calls|) && 1 <= |calls| <= |later| + 1
    ensures retries == if sent.Interrupted? then |calls| else |calls| - 1
    ensures sent.Confirmed? <==> ([first] + later)[|calls| - 1].reply == Accepted
    ensures sent.Refused? ==> var last := ([first] + later)[|calls| - 1]; last.reply == Final || last.expired
    ensures sent.Interrupted? ==>
              var last := ([first] + later)[|calls| - 1];
              last.reply == Retryable && !last.expired && (last.interrupted || |calls| == |later| + 1)
    ensures forall i :: 0 <= i < |calls| - 1 ==>
              var attempt := ([first] + later)[i];
              attempt.reply == Retryable && !attempt.expired && !attempt.interrupted
    ensures |pauses| == retries && Paced(pauses, o.retryMin, o.retryMax)
  {
    hide Pace, Within, Jittered;
    PaceStarts(o.retryMin, o.retryMax);
    var attempts := [first] + later;
    var backoff := o.retryMin;
    calls, retries, pauses := [], 0, [];
    while true
      invariant retries == |calls| == |pauses| <= |later| && calls == Repeat(e, |calls|)
      invariant o.retryMin <= backoff <= o.retryMax && backoff == Pace(|pauses|, o.retryMin, o.retryMax)
      invariant forall i :: 0 <= i < |calls| ==>
                 && attempts[i].reply == Retryable && !attempts[i].expired
                 && !attempts[i].interrupted
      invariant Paced(pauses, o.retryMin, o.retryMax)
      decreases |later| - |calls|
    {
      var attempt := attempts[|calls|];
      calls := calls + [e];
      if attempt.reply == Accepted {
        return Confirmed, calls, retries, pauses;
      }
      if attempt.reply != Retryable || attempt.expired {
        return Refused, calls, retries, pauses;
      }
      retries := retries + 1;
      var pause := Jittered(backoff, attempt.jitter);
      PacedNext(pauses, o.retryMin, o.retryMax, pause);
      PaceStep(|pauses|, o.retryMin, o.retryMax);
      pauses := pauses + [pause];
      if attempt.interrupted || |calls| > |later| {
        return Interrupted, calls, retries, pauses;
      }
      if backoff < o.retryMax {
        backoff := backoff * 2;
        if backoff > o.retryMax {
          backoff := o.retryMax;
        }
      }
    }
  }

  // ---------------------------------------------------------------- the run

  datatype Stats = Stats(accepted: nat, invalidRows: nat, retries: nat, unconfirmed: nat)

  /** What the outside world does during one turn of the main loop: a stop seen at its start,
      while waiting for the rate, before each reading of the source or after it, and the clock. */
  datatype Round = Round(stopped: bool, interrupted: bool, cancelled: bool, cancelledAgain: bool, stoppedAfter: bool,
                         at: Instant, first: Attempt, later: seq<Attempt>)
  {
    /** A stop is seen somewhere in the round before its event is made. */
    predicate Halts() {
      stopped || interrupted || cancelled || cancelledAgain || stoppedAfter
    }
  }

  datatype End = Counted | Stopped | SourceFailed | InvalidEvent | Unconfirmed(sent: Sent) | BadOptions | Running

  /** An event and how many times it was given to the publisher. */
  datatype Offer = Offer(event: Event, tries: nat)

  function Calls(offers: seq<Offer>): seq<Event> {
    if offers == [] then []
    else Calls(offers[..|offers| - 1]) + Repeat(offers[|offers| - 1].event, offers[|offers| - 1].tries)
  }

  function Identified(producer: string, replay: nat, row: nat, m: Measurement, at: Instant): Event {
    Event(SCHEMA_VERSION, EventId(producer, replay, row), producer, replay, row, at - at % 1000, m)
  }

  /** The event is the row's, under the row's identity. */
  predicate Carries(e: Event, read: Read, producer: string) {
    && read.reading.Good? && e.measurement == read.reading.measurement
    && e.replayIndex == read.replay && e.rowIndex == read.row && e.producerId == producer
    && e.eventId == EventId(producer, read.replay, read.row)
    && e.schemaVersion == SCHEMA_VERSION
  }

  /** The event carries the whole microsecond the clock was in. */
  predicate Stamped(e: Event, at: Instant) {
    e.processedAt % 1000 == 0 && e.processedAt <= at < e.processedAt + 1000
  }

  ghost predicate StampedIn(e: Event, rounds: seq<Round>) {
    exists round :: round in rounds && Stamped(e, round.at)
  }

  ghost predicate AllCarry(offers: seq<Offer>, rows: seq<Read>, producer: string) {
    |offers| <= |rows| && forall i :: 0 <= i < |offers| ==>
      && Carries(offers[i].event, rows[i], producer)
      && offers[i].tries > 0
  }

  ghost predicate Increasing(rows: seq<Read>, last: Read) {
    && (forall i, j :: 0 <= i < j < |rows| ==> Later(rows[i], rows[j]))
    && (forall i :: 0 <= i < |rows| ==> !Later(last, rows[i]))
  }

  lemma IdsDistinct(offers: seq<Offer>, rows: seq<Read>, producer: string, last: Read)
    requires AllCarry(offers, rows, producer) && Increasing(rows, last)
    ensures forall i, j :: 0 <= i < j < |offers| ==> offers[i].event.eventId != offers[j].event.eventId
  {
    forall i, j | 0 <= i < j < |offers| ensures offers[i].event.eventId != offers[j].event.eventId {
      if offers[i].event.eventId == offers[j].event.eventId {
        assert Later(rows[i], rows[j]);
        EventIdInjective(producer, rows[i].replay, rows[i].row, rows[j].replay, rows[j].row);
      }
    }
  }

  /** What a run has published and read so far adds up. */
  ghost predicate Books(stats: Stats, calls: seq<Event>, offers: seq<Offer>, rows: seq<Read>, producer: string,
                        last: Read) {
    && calls == Calls(offers) && AllCarry(offers, rows, producer) && Increasing(rows, last)
    && |offers| == stats.accepted + stats.unconfirmed
  }

  lemma BooksOpen(producer: string, last: Read)
    ensures Books(Stats(0, 0, 0, 0), [], [], [], producer, last)
  {
  }

  /** The books stay right when the source moves on, whether or not a valid row comes with it. */
  lemma BooksFetch(stats: Stats, calls: seq<Event>, offers: seq<Offer>, rows: seq<Read>, producer: string,
                   last: Read, read: Option<Read>, last': Read)
    requires Books(stats, calls, offers, rows, producer, last)
    requires last' == last || Later(last, last')
    requires read.Some? ==> Later(last, read.value) && !Later(last', read.value)
    ensures Books(stats, calls, offers, Grown(rows, read), producer, last')
  {
  }

  lemma BooksSkip(stats: Stats, calls: seq<Event>, offers: seq<Offer>, rows: seq<Read>, producer: string, last: Read)
    requires Books(stats, calls, offers, rows, producer, last)
    ensures Books(stats.(invalidRows := stats.invalidRows + 1), calls, offers, rows, producer, last)
  {
  }

  lemma BooksSend(stats: Stats, calls: seq<Event>, offers: seq<Offer>, rows: seq<Read>, producer: string,
                  last: Read, e: Event, read: Read, tries: nat, confirmed: bool, retries: nat)
    requires Books(stats, calls, offers, rows, producer, last)
    requires |rows| == |offers| + 1 && rows[|offers|] == read && tries > 0
    requires Carries(e, read, producer) && stats.unconfirmed == 0
    ensures Books(Settled(stats, confirmed, retries), calls + Repeat(e, tries), offers + [Offer(e, tries)], rows,
                  producer, last)
  {
  }

  lemma BooksClose(stats: Stats, calls: seq<Event>, offers: seq<Offer>, rows: seq<Read>, producer: string, last: Read)
    requires Books(stats, calls, offers, rows, producer, last)
    ensures calls == Calls(offers) && AllCarry(offers, rows, producer) && |offers| == stats.accepted + stats.unconfirmed
    ensures forall i, j :: 0 <= i < j < |offers| ==> offers[i].event.eventId != offers[j].event.eventId
  {
    IdsDistinct(offers, rows, producer, last);
  }

  function Grown(rows: seq<Read>, read: Option<Read>): seq<Read> {
    if read.Some? && read.value.reading.Good? then rows + [read.value] else rows
  }

  lemma GoodsGrow(log: seq<Read>, read: Option<Read>)
    ensures Goods(log + if read.Some? then [read.value] else []) == Grown(Goods(log), read)
  {
    if read.Some? {
      GoodsNext(log, read.value);
    } else {
      assert log + [] == log;
    }
  }

  lemma GrownConcat(a: seq<Read>, b: seq<Read>, read: Option<Read>)
    ensures Grown(a + b, read) == a + Grown(b, read)
  {
  }

  /** The source broke, or has no valid row at all. */
  ghost predicate Failed(source: CSV, read: Option<Read>)
    reads source
  {
    if read.Some? then read.value.reading.Broken? else !SomeGood(source.Contents())
  }

  datatype Fetched = Stop | Fail | Skip | Got(measurement: Measurement, replay: nat, row: nat)

  /** One reading of the source, with the stops before and after it. */
  method Fetch(source: CSV, round: Round) returns (fetched: Fetched, ghost read: Option<Read>)
    requires source.Valid()
    modifies source
    ensures source.Valid()
    ensures source.log == old(source.log) + if read.Some? then [read.value] else []
    ensures read.Some? ==>
             && read.value.replay == source.replay && read.value.row == source.row
             && Later(old(source.At()), read.value)
    ensures source.At() == old(source.At()) || Later(old(source.At()), source.At())
    ensures match fetched
            case Stop => round.Halts()
            case Fail => Failed(source, read)
            case Skip => read.Some? && read.value.reading.Bad?
            case Got(m, replay, row) => read == Some(Read(replay, row, Good(m)))
  {
    read := None;
    if round.stopped || round.interrupted {
      return Stop, read;
    }
    ghost var before := source.log;
    var outcome, turns := source.Next(round.cancelled, round.cancelledAgain);
    if !outcome.NoValidRecords? && !outcome.Cancelled? {
      read := Some(source.log[|before|]);
    }
    if round.stoppedAfter || outcome.Cancelled? {
      return Stop, read;
    }
    match outcome
    case Row(m, replay, row) => return Got(m, replay, row), read;
    case InvalidRow(_, _) => return Skip, read;
    case _ => return Fail, read;
  }

  /** What one turn of the main loop comes to: the end of the run, an invalid row skipped, or a
      row's event sent. */
  datatype Turn = Over(end: End) | Skipped | Published(event: Event, sent: Sent)

  /** The row makes no valid event, for some reading of the clock. */
  ghost predicate Unfit(producer: string, read: Option<Read>) {
    && read.Some? && read.value.reading.Good?
    && exists at :: !Identified(producer, read.value.replay, read.value.row, read.value.reading.measurement,
                                at).Validate()
  }

  method TakeTurn(options: Options, producer: string, source: CSV, round: Round)
    returns (turn: Turn, calls: seq<Event>, retries: nat, ghost read: Option<Read>)
    requires source.Valid() && options.Validate()
    modifies source
    ensures source.Valid()
    ensures source.log == old(source.log) + if read.Some? then [read.value] else []
    ensures read.Some? ==> Later(old(source.At()), read.value) && !Later(source.At(), read.value)
    ensures source.At() == old(source.At()) || Later(old(source.At()), source.At())
    ensures match turn
            case Over(end) =>
              && calls == [] && retries == 0
              && (|| (end.Stopped? && round.Halts())
                  || (end.SourceFailed? && Failed(source, read))
                  || (end.InvalidEvent? && read.Some? && read.value.reading.Good? && Unfit(producer, read)))
            case Skipped => calls == [] && retries == 0 && read.Some? && read.value.reading.Bad?
            case Published(e, sent) =>
              && read.Some? && read.value.reading.Good? && e.Validate() && Carries(e, read.value, producer)
              && Stamped(e, round.at)
              && calls == Repeat(e, |calls|) && calls != []
              && retries == if sent.Interrupted? then |calls| else |calls| - 1
  {
    hide CSV.Valid, Event.Validate, Options.Validate, Repeat, EventId;
    calls, retries := [], 0;
    var fetched;
    fetched, read := Fetch(source, round);
    match fetched
    case Stop => turn := Over(Stopped);
    case Fail => turn := Over(SourceFailed);
    case Skip => turn := Skipped;
    case Got(m, replay, row) =>
      var e := Identified(producer, replay, row, m, round.at);
      if !e.Validate() {
        assert !Identified(producer, read.value.replay, read.value.row, read.value.reading.measurement,
                           round.at).Validate();
        turn := Over(InvalidEvent);
      } else {
        var sent, pauses;
        sent, calls, retries, pauses := Send(e, options, round.first, round.later);
        turn := Published(e, sent);
      }
  }

  /** The accounts of a run that made `calls` calls for `offers` events out of `rows` valid rows. */
  predicate Accounts(stats: Stats, end: End, calls: nat, offers: nat, rows: nat, count: nat) {
    && (offers == rows || (offers + 1 == rows && (end.Stopped? || end.InvalidEvent?)))
    && offers == stats.accepted + stats.unconfirmed
    && stats.unconfirmed == (if end.Unconfirmed? then 1 else 0)
    && (end.Unconfirmed? ==> end.sent != Confirmed)
    && offers + stats.retries == calls + (if end == Unconfirmed(Interrupted) then 1 else 0)
    && (count > 0 ==> stats.accepted <= count)
    && (end.Counted? ==> count > 0 && stats.accepted == count)
  }

  method Loop(options: Options, producer: string, source: CSV, rounds: seq<Round>)
    returns (stats: Stats, end: End, calls: seq<Event>, ghost offers: seq<Offer>, ghost rows: seq<Read>)
    requires source.Valid() && options.Validate()
    modifies source
    ensures source.Valid() && !end.BadOptions?
    ensures Goods(source.log) == Goods(old(source.log)) + rows
    ensures Books(stats, calls, offers, rows, producer, source.At())
    ensures forall i :: 0 <= i < |offers| ==> StampedIn(offers[i].event, rounds)
    ensures Accounts(stats, end, |calls|, |offers|, |rows|, options.count)
    ensures end.Stopped? ==> exists round :: round in rounds && round.Halts()
    ensures end.SourceFailed? ==>
              !SomeGood(source.Contents()) || (source.log != [] && source.log[|source.log| - 1].reading.Broken?)
    ensures end.InvalidEvent? ==> rows != [] && Unfit(producer, Some(rows[|rows| - 1]))
    ensures !end.Stopped? && !end.SourceFailed? ==> |source.log| == |old(source.log)| + |rows| + stats.invalidRows
    ensures end.Running? && options.count > 0 && old(source.log) == [] ==>
            WithinPasses(|rounds|, options.count, |source.records|)
  {
    hide Books, Goods, Calls, AllCarry, CSV.Valid, Event.Validate, Options.Validate, Repeat, Increasing, Carries,
         Later, WithinPasses, StampedIn;
    hide Grown, Unfit, SomeGood, Round.Halts;
    stats, calls, offers, rows := Stats(0, 0, 0, 0), [], [], [];
    BooksOpen(producer, source.At());
    var n := 0;
    end := Counted;
    while options.count == 0 || stats.accepted < options.count
      invariant source.Valid() && n <= |rounds| && |source.log| == |old(source.log)| + n
      invariant Goods(source.log) == Goods(old(source.log)) + rows
      invariant Books(stats, calls, offers, rows, producer, source.At())
      invariant |rows| == |offers| == stats.accepted && stats.unconfirmed == 0
                && stats.accepted + stats.invalidRows == n
      invariant forall i :: 0 <= i < |offers| ==> StampedIn(offers[i].event, rounds)
      invariant |offers| + stats.retries == |calls|
      invariant options.count > 0 ==> stats.accepted <= options.count
      invariant end == Counted
      decreases |rounds| - n
    {
      if n == |rounds| {
        RunEnds(source, rows, old(source.log), options.count);
        end := Running;
        break;
      }
      ghost var log, last := source.log, source.At();
      var turn, tries, retries, read := TakeTurn(options, producer, source, rounds[n]);
      n := n + 1;
      GoodsGrow(log, read);
      GrownConcat(Goods(old(source.log)), rows, read);
      BooksFetch(stats, calls, offers, rows, producer, last, read, source.At());
      GrownSize(rows, read);
      rows := Grown(rows, read);
      if turn.Over? {
        assert turn.end.InvalidEvent? ==> read == Some(rows[|rows| - 1]);
        end := turn.end;
        break;
      } else if turn.Skipped? {
        BooksSkip(stats, calls, offers, rows, producer, source.At());
        stats := stats.(invalidRows := stats.invalidRows + 1);
      } else {
        BooksSend(stats, calls, offers, rows, producer, source.At(), turn.event, read.value, |tries|,
                  turn.sent == Confirmed, retries);
        StampIn(turn.event, rounds, n - 1);
        calls, offers := calls + tries, offers + [Offer(turn.event, |tries|)];
        stats := Settled(stats, turn.sent == Confirmed, retries);
        if turn.sent != Confirmed {
          end := Unconfirmed(turn.sent);
          break;
        }
      }
    }
  }

  lemma StampIn(e: Event, rounds: seq<Round>, n: nat)
    requires n < |rounds| && Stamped(e, rounds[n].at)
    ensures StampedIn(e, rounds)
  {
    assert rounds[n] in rounds;
  }

  /** Runs until enough events are confirmed, a stop, or a failure. `rounds` is what will happen;
      `Running` means that it ran out first. `rows` are the valid rows this run has read. */
  method Run(options: Options, freshId: string, source: CSV, rounds: seq<Round>)
    returns (stats: Stats, end: End, calls: seq<Event>, ghost offers: seq<Offer>, ghost rows: seq<Read>)
    requires source.Valid()
    modifies source
    ensures source.Valid()
    ensures end.BadOptions? <==> !options.Validate()
    ensures end.BadOptions? ==> calls == [] && source.log == old(source.log) && stats == Stats(0, 0, 0, 0)
    // what was published, in which order, and how often
    ensures calls == Calls(offers) && Goods(source.log) == Goods(old(source.log)) + rows
    ensures AllCarry(offers, rows, if options.producerId == "" then freshId else options.producerId)
    ensures forall i, j :: 0 <= i < j < |offers| ==> offers[i].event.eventId != offers[j].event.eventId
    ensures forall i :: 0 <= i < |offers| ==> StampedIn(offers[i].event, rounds)
    // the accounts
    ensures Accounts(stats, end, |calls|, |offers|, |rows|, options.count) || end.BadOptions?
    ensures end.Stopped? ==> exists round :: round in rounds && round.Halts()
    ensures end.SourceFailed? ==>
              !SomeGood(source.Contents()) || (source.log != [] && source.log[|source.log| - 1].reading.Broken?)
    ensures end.InvalidEvent? ==>
              rows != [] && Unfit(if options.producerId == "" then freshId else options.producerId,
                                  Some(rows[|rows| - 1]))
    ensures !end.Stopped? && !end.SourceFailed? ==> |source.log| == |old(source.log)| + |rows| + stats.invalidRows
    // a run with a count ends
    ensures end.Running? && options.count > 0 && old(source.log) == [] ==>
            WithinPasses(|rounds|, options.count, |source.records|)
  {
    hide Books, Goods, Calls, AllCarry, CSV.Valid, Options.Validate, WithinPasses, Unfit, SomeGood, Accounts, StampedIn,
         Round.Halts;
    stats, end, calls, offers, rows := Stats(0, 0, 0, 0), BadOptions, [], [], [];
    NothingRun(source.log, if options.producerId == "" then freshId else options.producerId);
    if !options.Validate() {
      return;
    }
    var producer := if options.producerId == "" then freshId else options.producerId;
    stats, end, calls, offers, rows := Loop(options, producer, source, rounds);
    BooksClose(stats, calls, offers, rows, producer, source.At());
  }

  lemma NothingRun(log: seq<Read>, producer: string)
    ensures Calls([]) == [] && AllCarry([], [], producer) && Goods(log) == Goods(log) + []
  {
  }

  /** At most `count` passes over a file of `size` records. */
  predicate WithinPasses(done: nat, count: nat, size: nat) {
    done <= count * size
  }

  lemma GrownSize(rows: seq<Read>, read: Option<Read>)
    ensures |Grown(rows, read)| == |rows| + if read.Some? && read.value.reading.Good? then 1 else 0
    ensures read.Some? && read.value.reading.Good? ==> Grown(rows, read)[|rows|] == read.value
  {
  }

  function Settled(stats: Stats, confirmed: bool, retries: nat): Stats {
    if confirmed then stats.(accepted := stats.accepted + 1, retries := stats.retries + retries)
    else stats.(unconfirmed := 1, retries := stats.retries + retries)
  }

  lemma RunEnds(source: CSV, rows: seq<Read>, log: seq<Read>, count: nat)
    requires source.Valid() && Goods(source.log) == Goods(log) + rows
    ensures log == [] && |rows| < count ==> WithinPasses(|source.log|, count, |source.records|)
  {
    StreamIsDense(source.Contents(), source.replay, source.row);
    if log == [] && |rows| < count {
      assert Goods(source.log) == rows;
      Times(|rows|, count - 1, |source.records|);
    }
  }
}
