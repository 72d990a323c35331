/** Reading one GPU's telemetry: the exact rows of a nanosecond range out of a table that
    stores microseconds, answered whole or not at all within a byte budget. */
module Query {
  import opened Telemetry
  import opened Postgres

  const MICROSECOND: int := 1000

  // ---------------------------------------------------------------- the range

  function Floor(t: Instant): Instant {
    t - t % MICROSECOND
  }

  function Ceil(t: Instant): Instant {
    var v := Floor(t);
    if v < t then v + MICROSECOND else v
  }

  predicate InRange(t: Instant, start: Option<Instant>, end: Option<Instant>) {
    (start.Some? ==> start.value <= t) && (end.Some? ==> t <= end.value)
  }

  function Lower(start: Option<Instant>): Option<Instant> {
    if start.Some? then Some(Ceil(start.value)) else None
  }

  function Upper(end: Option<Instant>): Option<Instant> {
    if end.Some? then Some(Floor(end.value)) else None
  }

  /** The rounded bounds never let in an instant outside the range, and lose none that is a
      whole microsecond. */
  lemma RoundedRange(t: Instant, start: Option<Instant>, end: Option<Instant>)
    ensures InRange(t, Lower(start), Upper(end)) ==> InRange(t, start, end)
    ensures t % MICROSECOND == 0 ==> (InRange(t, Lower(start), Upper(end)) <==> InRange(t, start, end))
  {
  }

  // ---------------------------------------------------------------- the rows

  /** The rows of GPU `u` within the bounds. */
  predicate Selected(t: Tables, u: string, start: Option<Instant>, end: Option<Instant>, id: string) {
    OfGpu(t, u, id) && InRange(t.telemetry[id].event.processedAt, start, end)
  }

  predicate Precedes(less: Collation, t: Tables, a: string, b: string) {
    && a in t.telemetry && b in t.telemetry
    && Earlier(less, t.telemetry[a].event.processedAt, a, t.telemetry[b].event.processedAt, b)
  }

  lemma PrecedesTransitive(less: Collation, t: Tables, a: string, b: string, c: string)
    requires TotalOrder(less) && Precedes(less, t, a, b) && Precedes(less, t, b, c)
    ensures Precedes(less, t, a, c)
  {
  }

  /** The answer to the database query: the selected rows by (processed_at, event_id). */
  ghost predicate Answers(less: Collation, t: Tables, u: string, start: Option<Instant>, end: Option<Instant>,
                          ids: seq<string>) {
    && (forall id :: id in ids <==> Selected(t, u, start, end, id))
    && (forall i, j :: 0 <= i < j < |ids| ==> Precedes(less, t, ids[i], ids[j]))
  }

  ghost predicate Ordered(less: Collation, t: Tables, ids: seq<string>) {
    && (forall id :: id in ids ==> id in t.telemetry)
    && forall i, j :: 0 <= i < j < |ids| ==> Precedes(less, t, ids[i], ids[j])
  }

  lemma SameEmptiness(a: seq<string>, b: seq<string>)
    requires forall id :: id in a <==> id in b
    ensures a == [] <==> b == []
  {
    if a != [] {
      assert a[0] in a;
    }
    if b != [] {
      assert b[0] in b;
    }
  }

  /** There is only one way to put the same rows in order. */
  lemma {:induction false} OrderUnique(less: Collation, t: Tables, a: seq<string>, b: seq<string>)
    requires TotalOrder(less) && Ordered(less, t, a) && Ordered(less, t, b)
    requires forall id :: id in a <==> id in b
    ensures a == b
  {
    SameEmptiness(a, b);
    if a != [] {
      assert a[0] in b;
      assert b[0] in a;
      assert a[0] == b[0];
      forall id ensures id in a[1..] <==> id in b[1..] {
        assert id in a <==> id == a[0] || id in a[1..];
        assert id in b <==> id == b[0] || id in b[1..];
      }
      OrderUnique(less, t, a[1..], b[1..]);
    }
  }

  /** The database can always answer. */
  lemma AnswerExists(less: Collation, t: Tables, u: string, start: Option<Instant>, end: Option<Instant>)
    returns (ids: seq<string>)
    requires TotalOrder(less)
    ensures Answers(less, t, u, start, end, ids)
  {
    var chosen := set id | id in t.telemetry && Selected(t, u, start, end, id);
    ids := Sort(less, t, chosen);
  }

  lemma {:induction false} Sort(less: Collation, t: Tables, chosen: set<string>) returns (ids: seq<string>)
    requires TotalOrder(less) && chosen <= t.telemetry.Keys
    ensures Ordered(less, t, ids) && forall id :: id in ids <==> id in chosen
  {
    if chosen == {} {
      ids := [];
    } else {
      var last := Greatest(less, t, chosen);
      var before := Sort(less, t, chosen - {last});
      ids := before + [last];
    }
  }

  lemma {:induction false} Greatest(less: Collation, t: Tables, chosen: set<string>) returns (m: string)
    requires TotalOrder(less) && chosen != {} && chosen <= t.telemetry.Keys
    ensures m in chosen && forall id :: id in chosen && id != m ==> Precedes(less, t, id, m)
  {
    var x :| x in chosen;
    m := x;
    if chosen != {x} {
      var g := Greatest(less, t, chosen - {x});
      m := if Precedes(less, t, x, g) then g else x;
      if m == x {
        forall id | id in chosen && id != x && id != g ensures Precedes(less, t, id, x) {
          PrecedesTransitive(less, t, id, g, x);
        }
      }
    }
  }

  // ---------------------------------------------------------------- the response

  datatype Datapoint = Datapoint(
    eventId: string, gpuUuid: string, metricName: string, value: Float, processedAt: Instant,
    sourceTimestamp: Instant, ingestedAt: Instant, labelsRaw: string, container: string, pod: string, namespace: string)

  function DatapointOf(r: Row): Datapoint {
    var m := r.event.measurement;
    Datapoint(r.event.eventId, m.gpuUuid, m.metricName, m.value, r.event.processedAt, m.sourceTimestamp,
              r.ingestedAt, m.labelsRaw, m.container, m.pod, m.namespace)
  }

  /** The datapoint says in each field what the row says in that of the same name. */
  predicate Shows(p: Datapoint, r: Row) {
    var m := r.event.measurement;
    && p.eventId == r.event.eventId && p.processedAt == r.event.processedAt && p.ingestedAt == r.ingestedAt
    && p.gpuUuid == m.gpuUuid && p.metricName == m.metricName && p.value == m.value
    && p.sourceTimestamp == m.sourceTimestamp && p.labelsRaw == m.labelsRaw
    && p.container == m.container && p.pod == m.pod && p.namespace == m.namespace
  }

  /** The elements of a JSON array, each ended by the encoder's newline. */
  function Joined(texts: seq<string>): string {
    if texts == [] then ""
    else
      var n := |texts| - 1;
      Joined(texts[..n]) + (if n == 0 then "" else ",") + texts[n] + "\n"
  }

  function Framed(texts: seq<string>): string {
    "[" + Joined(texts) + "]"
  }

  lemma JoinedNext(texts: seq<string>, n: nat)
    requires n < |texts|
    ensures Joined(texts[..n + 1]) == Joined(texts[..n]) + (if n == 0 then "" else ",") + texts[n] + "\n"
  {
    assert texts[..n + 1][..n] == texts[..n];
  }

  lemma {:induction false} JoinedGrows(texts: seq<string>, n: nat)
    requires n <= |texts|
    ensures |Joined(texts[..n])| <= |Joined(texts)|
    decreases |texts| - n
  {
    if n == |texts| {
      assert texts[..n] == texts;
    } else {
      JoinedNext(texts, n);
      JoinedGrows(texts, n + 1);
    }
  }

  class LimitedWriter {
    var out: string
    var left: int

    constructor (budget: int)
      ensures out == "" && left == budget
    {
      out, left := "", budget;
    }

    /** Writes all of the bytes or none. */
    method Write(b: string) returns (ok: bool)
      modifies this
      ensures ok <==> |b| <= old(left)
      ensures out == old(out) + (if ok then b else "")
      ensures left == old(left) - (if ok then |b| else 0)
    {
      if |b| > left {
        return false;
      }
      out, left := out + b, left - |b|;
      return true;
    }
  }

  /** What stands in a response's way besides the query itself: shutdown, no free slot, and how
      often the query's time is looked at before it is up. The first look is that of the question
      whether the GPU exists, then there is one at each row and one at the end. */
  datatype Conditions = Conditions(shuttingDown: bool, busy: bool, timeout: Option<nat>)
  {
    predicate Expired(looks: nat) {
      timeout.Some? && timeout.value <= looks
    }
  }

  datatype Response = Response(status: int, body: string)

  function Points(t: Tables, ids: seq<string>): (points: seq<Datapoint>)
    requires forall id :: id in ids ==> id in t.telemetry
    ensures |points| == |ids| && forall i :: 0 <= i < |ids| ==> Shows(points[i], t.telemetry[ids[i]])
  {
    seq(|ids|, i requires 0 <= i < |ids| => DatapointOf(t.telemetry[ids[i]]))
  }

  function Texts(points: seq<Datapoint>, encode: Datapoint -> string): (texts: seq<string>)
    ensures |texts| == |points|
  {
    seq(|points|, i requires 0 <= i < |points| => encode(points[i]))
  }

  /** Hands the rows over one by one, until one finds the time up or the budget spent. */
  method Emit(w: LimitedWriter, t: Tables, ids: seq<string>, encode: Datapoint -> string, conditions: Conditions)
    returns (ok: bool)
    requires forall id :: id in ids ==> id in t.telemetry
    requires w.left >= 0
    modifies w
    ensures ok <==> |Joined(Texts(Points(t, ids), encode))| <= old(w.left) && (ids == [] || !conditions.Expired(|ids|))
    ensures ok ==>
             && w.out == old(w.out) + Joined(Texts(Points(t, ids), encode))
             && w.left == old(w.left) - |Joined(Texts(Points(t, ids), encode))|
  {
    hide Joined;
    ghost var texts := Texts(Points(t, ids), encode);
    NothingJoined(texts);
    var first := true;
    for n := 0 to |ids|
      invariant first == (n == 0) && (n > 0 ==> !conditions.Expired(n))
      invariant w.out == old(w.out) + Joined(texts[..n]) && w.left == old(w.left) - |Joined(texts[..n])| && w.left >= 0
    {
      JoinedNext(texts, n);
      JoinedGrows(texts, n + 1);
      if conditions.Expired(n + 1) {
        return false;
      }
      if !first {
        var comma := w.Write(",");
        if !comma {
          return false;
        }
      }
      first := false;
      var written := w.Write(encode(DatapointOf(t.telemetry[ids[n]])) + "\n");
      if !written {
        return false;
      }
    }
    assert texts[..|ids|] == texts;
    return true;
  }

  lemma NothingJoined(texts: seq<string>)
    ensures Joined(texts[..0]) == ""
  {
  }

  /** Answers a request for the telemetry of GPU `u`. `select` is the database's answer to the
      query for given bounds, `rows` what it was for this request, `points` what is sent of them. */
  method SendTelemetry(less: Collation, t: Tables, u: string, start: Option<Instant>, end: Option<Instant>,
                       select: (Option<Instant>, Option<Instant>) -> seq<string>, encode: Datapoint -> string,
                       budget: int, conditions: Conditions)
    returns (response: Response, ghost rows: seq<string>, ghost points: seq<Datapoint>)
    requires forall lo, hi :: Answers(less, t, u, lo, hi, select(lo, hi))
    requires forall id :: id in t.telemetry ==> t.telemetry[id].event.processedAt % MICROSECOND == 0
    ensures Answers(less, t, u, start, end, rows)
    ensures |points| == |rows| && forall i :: 0 <= i < |rows| ==>
              rows[i] in t.telemetry && Shows(points[i], t.telemetry[rows[i]])
    ensures response.status in {200, 404, 503}
    ensures response.status == 404 <==>
              && !conditions.shuttingDown && !conditions.busy && 1 <= budget
              && !conditions.Expired(0) && u !in t.gpus
    ensures response.status == 200 <==>
              && !conditions.shuttingDown && !conditions.busy && u in t.gpus && !conditions.Expired(|rows| + 1)
              && |Framed(Texts(points, encode))| <= budget
    ensures response.body == if response.status == 200 then Framed(Texts(points, encode)) else ""
  {
    hide Joined, InRange, Lower, Upper, Shows;
    rows := select(Lower(start), Upper(end));
    RoundedAnswer(less, t, u, start, end, rows);
    points := Points(t, rows);
    if conditions.shuttingDown || conditions.busy {
      return Response(503, ""), rows, points;
    }
    var w := new LimitedWriter(budget);
    var ok := w.Write("[");
    if !ok {
      return Response(503, ""), rows, points;
    }
    if conditions.Expired(0) {
      return Response(503, ""), rows, points;
    }
    if u !in t.gpus {
      return Response(404, ""), rows, points;
    }
    var ids := select(Lower(start), Upper(end));
    ok := Emit(w, t, ids, encode, conditions);
    if !ok {
      return Response(503, ""), rows, points;
    }
    if conditions.Expired(|ids| + 1) {
      return Response(503, ""), rows, points;
    }
    ok := w.Write("]");
    if !ok {
      return Response(503, ""), rows, points;
    }
    response := Response(200, w.out);
  }

  lemma RoundedAnswer(less: Collation, t: Tables, u: string, start: Option<Instant>, end: Option<Instant>,
                      ids: seq<string>)
    requires forall id :: id in t.telemetry ==> t.telemetry[id].event.processedAt % MICROSECOND == 0
    requires Answers(less, t, u, Lower(start), Upper(end), ids)
    ensures Answers(less, t, u, start, end, ids)
  {
    hide InRange, Lower, Upper;
    forall id ensures id in ids <==> Selected(t, u, start, end, id) {
      if id in t.telemetry {
        RoundedRange(t.telemetry[id].event.processedAt, start, end);
      }
    }
  }

  /** Every row the sink commits was processed at a whole microsecond. */
  lemma PersistedWhole(less: Collation, t: Tables, e: Event, at: Instant)
    requires Validate(e)
    requires forall id :: id in t.telemetry ==> t.telemetry[id].event.processedAt % MICROSECOND == 0
    ensures forall id :: id in Persisted(less, t, e, at).telemetry ==>
              Persisted(less, t, e, at).telemetry[id].event.processedAt % MICROSECOND == 0
  {
  }
}
