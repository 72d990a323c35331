/** The PostgreSQL sink: each event is inserted once, and the metadata of its GPU is merged
    in the same transaction. What the tables end up holding does not depend on the order
    or the repetition of deliveries. */
module Postgres {
  import opened Telemetry

  /** Text a PostgreSQL column can hold. */
  predicate IsText(v: string) {
    '\0' !in v
  }

  predicate HasFourDigitYear(t: Instant) {
    ZERO_TIME <= t < YEAR_10000
  }

  /** The events the sink accepts. */
  predicate Validate(e: Event) {
    var m := e.measurement;
    && e.Validate()
    && IsText(e.eventId) && IsText(e.producerId) && IsText(m.gpuUuid) && IsText(m.metricName)
    && IsText(m.localGpuId) && IsText(m.device) && IsText(m.modelName) && IsText(m.hostname)
    && IsText(m.container) && IsText(m.pod) && IsText(m.namespace) && IsText(m.labelsRaw)
    && HasFourDigitYear(e.processedAt) && HasFourDigitYear(m.sourceTimestamp)
  }

  datatype Row = Row(event: Event, ingestedAt: Instant)

  datatype Metadata = Metadata(hostname: string, localGpuId: string, device: string, modelName: string)

  datatype Gpu = Gpu(metadata: Metadata, firstSeen: Instant, lastSeen: Instant, lastEventId: string)

  datatype Tables = Tables(telemetry: map<string, Row>, gpus: map<string, Gpu>)

  const NO_TABLES := Tables(map[], map[])

  // ---------------------------------------------------------------- the order of rows

  /** The database's text order: any strict total order. */
  type Collation = (string, string) -> bool

  ghost predicate TotalOrder(less: Collation) {
    && (forall a :: !less(a, a))
    && (forall a, b, c :: less(a, b) && less(b, c) ==> less(a, c))
    && (forall a, b :: a != b ==> less(a, b) || less(b, a))
  }

  /** (at, id) comes before (at', id'). */
  predicate Earlier(less: Collation, at: Instant, id: string, at': Instant, id': string) {
    at < at' || (at == at' && less(id, id'))
  }

  // ---------------------------------------------------------------- one event

  function MetadataOf(e: Event): Metadata {
    Metadata(e.measurement.hostname, e.measurement.localGpuId, e.measurement.device, e.measurement.modelName)
  }

  function NewGpu(e: Event): Gpu {
    Gpu(MetadataOf(e), e.processedAt, e.processedAt, e.eventId)
  }

  /** The metadata row of a GPU after one more of its events. */
  function Merged(less: Collation, g: Gpu, e: Event): Gpu {
    var latest := Earlier(less, g.lastSeen, g.lastEventId, e.processedAt, e.eventId);
    Gpu(if latest then MetadataOf(e) else g.metadata,
        if e.processedAt < g.firstSeen then e.processedAt else g.firstSeen,
        if g.lastSeen < e.processedAt then e.processedAt else g.lastSeen,
        if latest then e.eventId else g.lastEventId)
  }

  /** The tables after a committed transaction for `e` at database time `at`. */
  function Persisted(less: Collation, t: Tables, e: Event, at: Instant): Tables {
    if e.eventId in t.telemetry then t
    else
      var u := e.measurement.gpuUuid;
      Tables(t.telemetry[e.eventId := Row(e, at)],
             t.gpus[u := if u in t.gpus then Merged(less, t.gpus[u], e) else NewGpu(e)])
  }

  // ---------------------------------------------------------------- the store

  /** How a transaction can end: committed and confirmed, committed but the reply lost, or
      failed at one of its statements. */
  datatype Outcome = Confirmed | Unconfirmed | FailedInsert | FailedUpsert | FailedCommit

  class Store {
    var telemetry: map<string, Row>
    var gpus: map<string, Gpu>
    const less: Collation

    constructor (less: Collation)
      ensures Contents() == NO_TABLES && this.less == less
    {
      telemetry, gpus, this.less := map[], map[], less;
    }

    function Contents(): Tables
      reads this
    {
      Tables(telemetry, gpus)
    }

    /** Returns without an error only after the commit; a failed statement rolls both back. */
    method Persist(e: Event, at: Instant, outcome: Outcome) returns (ok: bool)
      modifies this
      ensures ok <==> Validate(e) && outcome == Confirmed
      ensures Contents() == if Validate(e) && outcome in {Confirmed, Unconfirmed}
                            then Persisted(less, old(Contents()), e, at) else old(Contents())
      ensures ok ==> e.eventId in telemetry
      ensures e.eventId in old(telemetry) ==> Contents() == old(Contents())
    {
      if !Validate(e) {
        return false;
      }
      var begun := Contents();
      if outcome == FailedInsert {
        return false;
      }
      var affected := 0;
      if e.eventId !in telemetry {
        telemetry := telemetry[e.eventId := Row(e, at)];
        affected := 1;
      }
      if affected == 1 {
        if outcome == FailedUpsert {
          telemetry, gpus := begun.telemetry, begun.gpus;
          return false;
        }
        var u, excluded := e.measurement.gpuUuid, NewGpu(e);
        if u in gpus {
          var g := gpus[u];
          var latest := Earlier(less, g.lastSeen, g.lastEventId, excluded.lastSeen, excluded.lastEventId);
          var merged := g.(firstSeen := if excluded.firstSeen < g.firstSeen then excluded.firstSeen else g.firstSeen,
                           lastSeen := if g.lastSeen < excluded.lastSeen then excluded.lastSeen else g.lastSeen);
          if latest {
            merged := merged.(metadata := excluded.metadata, lastEventId := excluded.lastEventId);
          }
          gpus := gpus[u := merged];
        } else {
          gpus := gpus[u := excluded];
        }
      }
      if outcome == FailedCommit || outcome == FailedUpsert {
        telemetry, gpus := begun.telemetry, begun.gpus;
        return false;
      }
      return outcome == Confirmed;
    }
  }

  // ---------------------------------------------------------------- what the metadata means

  predicate OfGpu(t: Tables, u: string, id: string) {
    id in t.telemetry && t.telemetry[id].event.measurement.gpuUuid == u
  }

  /** `at` is when the earliest row of GPU `u` was processed. */
  ghost predicate FirstAt(t: Tables, u: string, at: Instant) {
    && (forall id :: OfGpu(t, u, id) ==> at <= t.telemetry[id].event.processedAt)
    && (exists id :: OfGpu(t, u, id) && at == t.telemetry[id].event.processedAt)
  }

  /** `id` is the greatest row of GPU `u` in (processed_at, event_id) order. */
  ghost predicate Last(less: Collation, t: Tables, u: string, id: string) {
    && OfGpu(t, u, id)
    && forall j :: OfGpu(t, u, j) ==>
         !Earlier(less, t.telemetry[id].event.processedAt, id, t.telemetry[j].event.processedAt, j)
  }

  /** The metadata row of GPU `u` says when its earliest row was processed, and is described
      by its greatest row. */
  ghost predicate Describes(less: Collation, t: Tables, u: string, g: Gpu) {
    && FirstAt(t, u, g.firstSeen)
    && Last(less, t, u, g.lastEventId)
    && g.lastSeen == t.telemetry[g.lastEventId].event.processedAt
    && g.metadata == MetadataOf(t.telemetry[g.lastEventId].event)
  }

  /** Exactly the GPUs that have telemetry are listed, each described as it should be. */
  ghost predicate Consistent(less: Collation, t: Tables) {
    && (forall id :: id in t.telemetry ==>
          t.telemetry[id].event.eventId == id && t.telemetry[id].event.measurement.gpuUuid in t.gpus)
    && (forall u :: u in t.gpus ==> Describes(less, t, u, t.gpus[u]))
  }

  lemma OtherGpuDescribed(less: Collation, t: Tables, e: Event, at: Instant, u: string, g: Gpu)
    requires Describes(less, t, u, g) && e.eventId !in t.telemetry && e.measurement.gpuUuid != u
    ensures Describes(less, Persisted(less, t, e, at), u, g)
  {
    var t' := Persisted(less, t, e, at);
    assert forall id :: OfGpu(t', u, id) <==> OfGpu(t, u, id);
  }

  lemma NewGpuDescribed(less: Collation, t: Tables, e: Event, at: Instant)
    requires TotalOrder(less) && Consistent(less, t)
    requires e.eventId !in t.telemetry && e.measurement.gpuUuid !in t.gpus
    ensures Describes(less, Persisted(less, t, e, at), e.measurement.gpuUuid, NewGpu(e))
  {
  }

  lemma MergedFirst(less: Collation, t: Tables, e: Event, at: Instant, first: Instant)
    requires e.eventId !in t.telemetry && FirstAt(t, e.measurement.gpuUuid, first)
    ensures FirstAt(Persisted(less, t, e, at), e.measurement.gpuUuid,
                    if e.processedAt < first then e.processedAt else first)
  {
    var t', u := Persisted(less, t, e, at), e.measurement.gpuUuid;
    var id :| OfGpu(t, u, id) && first == t.telemetry[id].event.processedAt;
    assert OfGpu(t', u, id) && OfGpu(t', u, e.eventId);
    assert forall j :: OfGpu(t', u, j) ==> j == e.eventId || OfGpu(t, u, j);
  }

  lemma MergedLast(less: Collation, t: Tables, e: Event, at: Instant, last: string)
    requires TotalOrder(less) && e.eventId !in t.telemetry && Last(less, t, e.measurement.gpuUuid, last)
    ensures Last(less, Persisted(less, t, e, at), e.measurement.gpuUuid,
                 if Earlier(less, t.telemetry[last].event.processedAt, last, e.processedAt, e.eventId)
                 then e.eventId else last)
  {
  }

  lemma MergedDescribed(less: Collation, t: Tables, e: Event, at: Instant)
    requires TotalOrder(less) && Consistent(less, t)
    requires e.eventId !in t.telemetry && e.measurement.gpuUuid in t.gpus
    ensures var u := e.measurement.gpuUuid;
            Describes(less, Persisted(less, t, e, at), u, Merged(less, t.gpus[u], e))
  {
    var u := e.measurement.gpuUuid;
    assert Describes(less, t, u, t.gpus[u]);
    assert t.gpus[u].lastEventId != e.eventId;
    hide TotalOrder, Consistent, FirstAt;
    MergedFirst(less, t, e, at, t.gpus[u].firstSeen);
    MergedLast(less, t, e, at, t.gpus[u].lastEventId);
  }

  /** Persisting keeps the tables consistent. */
  lemma PersistConsistent(less: Collation, t: Tables, e: Event, at: Instant)
    requires TotalOrder(less) && Consistent(less, t)
    ensures Consistent(less, Persisted(less, t, e, at))
  {
    if e.eventId !in t.telemetry {
      var t', u := Persisted(less, t, e, at), e.measurement.gpuUuid;
      if u in t.gpus {
        MergedDescribed(less, t, e, at);
      } else {
        NewGpuDescribed(less, t, e, at);
      }
      forall v | v in t'.gpus ensures Describes(less, t', v, t'.gpus[v]) {
        if v != u {
          OtherGpuDescribed(less, t, e, at, v, t.gpus[v]);
        }
      }
    }
  }

  // ---------------------------------------------------------------- convergence

  /** A delivery of an event to the sink, and the database time it would be stored at. */
  datatype Arrival = Arrival(event: Event, at: Instant)

  /** The tables after a sequence of deliveries to empty tables; invalid events are refused. */
  function AfterArrivals(less: Collation, arrivals: seq<Arrival>): Tables {
    if arrivals == [] then NO_TABLES
    else
      var t, last := AfterArrivals(less, arrivals[..|arrivals| - 1]), arrivals[|arrivals| - 1];
      if Validate(last.event) then Persisted(less, t, last.event, last.at) else t
  }

  /** A valid delivery of an event under `id`. */
  predicate Brings(a: Arrival, id: string) {
    a.event.eventId == id && Validate(a.event)
  }

  /** Delivery `i` is the first valid one under `id`. */
  ghost predicate FirstOf(arrivals: seq<Arrival>, id: string, i: nat) {
    i < |arrivals| && Brings(arrivals[i], id) && forall j :: 0 <= j < i ==> !Brings(arrivals[j], id)
  }

  /** A row is written once and for all by the first valid delivery under its id: it holds that
      delivery's event and the database time it was committed at. Without one there is no row. */
  lemma {:induction false} FirstArrivalStays(less: Collation, arrivals: seq<Arrival>, id: string)
    returns (first: Option<nat>)
    ensures var rows := AfterArrivals(less, arrivals).telemetry;
            match first
            case Some(i) => FirstOf(arrivals, id, i) && id in rows && rows[id] == Row(arrivals[i].event, arrivals[i].at)
            case None => id !in rows && forall i :: 0 <= i < |arrivals| ==> !Brings(arrivals[i], id)
  {
    hide Validate;
    first := None;
    if arrivals != [] {
      var n := |arrivals| - 1;
      first := FirstArrivalStays(less, arrivals[..n], id);
      assert forall i :: 0 <= i < n ==> arrivals[..n][i] == arrivals[i];
      if first.None? && Brings(arrivals[n], id) {
        first := Some(n);
      }
    }
  }

  function EventsOf(arrivals: seq<Arrival>): set<Event> {
    set i | 0 <= i < |arrivals| :: arrivals[i].event
  }

  /** Producers never reuse an id with other content. */
  ghost predicate OneContentPerId(events: set<Event>) {
    forall d, e :: d in events && e in events && d.eventId == e.eventId ==> d == e
  }

  /** The same rows, whatever time each was ingested. */
  ghost predicate SameRows(a: Tables, b: Tables) {
    && a.telemetry.Keys == b.telemetry.Keys
    && forall id :: id in a.telemetry ==> a.telemetry[id].event == b.telemetry[id].event
  }

  lemma {:induction false} ArrivalsConsistent(less: Collation, arrivals: seq<Arrival>)
    requires TotalOrder(less)
    ensures Consistent(less, AfterArrivals(less, arrivals))
  {
    hide Consistent, Persisted;
    if arrivals == [] {
      NothingConsistent(less);
    } else {
      var t, last := AfterArrivals(less, arrivals[..|arrivals| - 1]), arrivals[|arrivals| - 1];
      ArrivalsConsistent(less, arrivals[..|arrivals| - 1]);
      PersistConsistent(less, t, last.event, last.at);
    }
  }

  lemma NothingConsistent(less: Collation)
    ensures Consistent(less, NO_TABLES)
  {
  }

  /** The telemetry table holds exactly the valid events among `events`. */
  ghost predicate HoldsExactly(telemetry: map<string, Row>, events: set<Event>) {
    && (forall e :: e in events && Validate(e) ==> e.eventId in telemetry && telemetry[e.eventId].event == e)
    && (forall id :: id in telemetry ==>
          telemetry[id].event in events && Validate(telemetry[id].event) && telemetry[id].event.eventId == id)
  }

  lemma EventsGrow(arrivals: seq<Arrival>)
    requires arrivals != []
    ensures EventsOf(arrivals) == EventsOf(arrivals[..|arrivals| - 1]) + {arrivals[|arrivals| - 1].event}
  {
  }

  lemma HoldsOneMore(less: Collation, t: Tables, events: set<Event>, last: Arrival)
    requires HoldsExactly(t.telemetry, events) && OneContentPerId(events + {last.event})
    ensures var t' := if Validate(last.event) then Persisted(less, t, last.event, last.at) else t;
            HoldsExactly(t'.telemetry, events + {last.event})
  {
    hide Validate;
    var id := last.event.eventId;
    if id in t.telemetry {
      assert t.telemetry[id].event in events + {last.event};
      assert t.telemetry[id].event == last.event;
    }
  }

  lemma {:induction false} RowsAreEvents(less: Collation, arrivals: seq<Arrival>)
    requires OneContentPerId(EventsOf(arrivals))
    ensures HoldsExactly(AfterArrivals(less, arrivals).telemetry, EventsOf(arrivals))
  {
    hide Validate, EventsOf;
    if arrivals == [] {
      assert EventsOf([]) == {} by { NoEvents(); }
    } else {
      var n := |arrivals| - 1;
      EventsGrow(arrivals);
      RowsAreEvents(less, arrivals[..n]);
      HoldsOneMore(less, AfterArrivals(less, arrivals[..n]), EventsOf(arrivals[..n]), arrivals[n]);
    }
  }

  lemma NoEvents()
    ensures EventsOf([]) == {}
  {
  }

  lemma SameEventsSameRows(a: map<string, Row>, b: map<string, Row>, events: set<Event>)
    requires HoldsExactly(a, events) && HoldsExactly(b, events)
    ensures a.Keys == b.Keys && forall id :: id in a ==> a[id].event == b[id].event
  {
  }

  /** Two consistent databases with the same rows describe every GPU alike. */
  lemma MetadataDetermined(less: Collation, a: Tables, b: Tables)
    requires TotalOrder(less) && Consistent(less, a) && Consistent(less, b) && SameRows(a, b)
    ensures a.gpus == b.gpus
  {
    assert forall u, id :: OfGpu(a, u, id) <==> OfGpu(b, u, id);
    forall u ensures u in a.gpus <==> u in b.gpus {
      if u in a.gpus {
        assert Describes(less, a, u, a.gpus[u]);
        assert OfGpu(b, u, a.gpus[u].lastEventId);
      }
      if u in b.gpus {
        assert Describes(less, b, u, b.gpus[u]);
        assert OfGpu(a, u, b.gpus[u].lastEventId);
      }
    }
    forall u | u in a.gpus ensures a.gpus[u] == b.gpus[u] {
      SameDescription(less, a, b, u, a.gpus[u], b.gpus[u]);
    }
  }

  lemma SameDescription(less: Collation, a: Tables, b: Tables, u: string, g: Gpu, h: Gpu)
    requires TotalOrder(less) && SameRows(a, b) && Describes(less, a, u, g) && Describes(less, b, u, h)
    ensures g == h
  {
  }

  /** Convergence: any two sequences of deliveries of the same events, in any order and with
      any repetition, leave the same telemetry (ingestion times apart) and the same GPUs. */
  lemma {:induction false} DeliveriesConverge(less: Collation, a: seq<Arrival>, b: seq<Arrival>)
    requires TotalOrder(less) && EventsOf(a) == EventsOf(b) && OneContentPerId(EventsOf(a))
    ensures SameRows(AfterArrivals(less, a), AfterArrivals(less, b))
    ensures AfterArrivals(less, a).gpus == AfterArrivals(less, b).gpus
  {
    hide Validate, EventsOf, AfterArrivals, TotalOrder, HoldsExactly;
    RowsAreEvents(less, a);
    RowsAreEvents(less, b);
    SameEventsSameRows(AfterArrivals(less, a).telemetry, AfterArrivals(less, b).telemetry, EventsOf(a));
    ArrivalsConsistent(less, a);
    ArrivalsConsistent(less, b);
    MetadataDetermined(less, AfterArrivals(less, a), AfterArrivals(less, b));
  }
}
