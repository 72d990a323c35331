/** The volatile queue: a fixed ring, a map of ids seen, and a list of tombstones that keeps
    the ids of received events known until they expire. */
module MemoryQueue {
  import opened Telemetry

  const MAX_EVENT_BYTES := 65536 - 1024

  datatype Tombstone = Tombstone(id: string, expires: int)
  datatype SeenEntry = SeenEntry(hash: Payload, expires: int)

  datatype Reply = Accepted | Duplicate | Invalid | Conflict | Full | DedupFull

  // ---------------------------------------------------------------- tombstones

  /** What is left of the tombstones once the expired ones in front are popped. */
  function Pop(expired: seq<Tombstone>, now: int): seq<Tombstone> {
    if expired == [] || now < expired[0].expires then expired else Pop(expired[1..], now)
  }

  lemma {:induction false} PopIsSuffix(expired: seq<Tombstone>, now: int)
    ensures var rest := Pop(expired, now);
            && |rest| <= |expired| && rest == expired[|expired| - |rest|..]
            && (rest != [] ==> now < rest[0].expires)
            && forall i :: 0 <= i < |expired| - |rest| ==> expired[i].expires <= now
  {
    if expired != [] && expired[0].expires <= now {
      PopIsSuffix(expired[1..], now);
    }
  }

  lemma PopStep(expired: seq<Tombstone>, now: int)
    ensures Pop(expired, now) == if expired == [] || now < expired[0].expires then expired else Pop(expired[1..], now)
  {
  }

  /** What is left once every expired tombstone is removed. */
  function Unexpired(expired: seq<Tombstone>, now: int): seq<Tombstone> {
    if expired == [] then []
    else (if now < expired[0].expires then [expired[0]] else []) + Unexpired(expired[1..], now)
  }

  ghost predicate Sorted(expired: seq<Tombstone>) {
    forall i, j :: 0 <= i < j < |expired| ==> expired[i].expires <= expired[j].expires
  }

  /** Popping from the front removes every expired tombstone, as long as they were added in
      order of expiry, which a clock that never goes back ensures. */
  lemma {:induction false} PopIsComplete(expired: seq<Tombstone>, now: int)
    requires Sorted(expired)
    ensures Pop(expired, now) == Unexpired(expired, now)
  {
    if expired != [] {
      PopIsComplete(expired[1..], now);
      if now < expired[0].expires {
        AllUnexpired(expired, now);
      }
    }
  }

  lemma {:induction false} AllUnexpired(expired: seq<Tombstone>, now: int)
    requires forall i :: 0 <= i < |expired| ==> now < expired[i].expires
    ensures Unexpired(expired, now) == expired
  {
    if expired != [] {
      AllUnexpired(expired[1..], now);
      assert [expired[0]] + expired[1..] == expired;
    }
  }

  /** The tombstones are in order of expiry, none later than `latest`. */
  ghost predicate Timely(expired: seq<Tombstone>, latest: int) {
    Sorted(expired) && forall i :: 0 <= i < |expired| ==> expired[i].expires <= latest
  }

  /** What happens to the tombstones: a publish pops, a receive buries. */
  datatype Touch = Popped(now: int) | Buried(id: string, now: int)

  function Touched(expired: seq<Tombstone>, touch: Touch, ttl: int): seq<Tombstone> {
    match touch
    case Popped(now) => Pop(expired, now)
    case Buried(id, now) => expired + [Tombstone(id, now + ttl)]
  }

  function Tombstones(touches: seq<Touch>, ttl: int): seq<Tombstone> {
    if touches == [] then []
    else
      Touched(Tombstones(touches[..|touches| - 1], ttl), touches[|touches| - 1], ttl)
  }

  lemma TouchesNext(touches: seq<Touch>, touch: Touch, ttl: int)
    ensures Tombstones(touches + [touch], ttl) == Touched(Tombstones(touches, ttl), touch, ttl)
  {
    assert (touches + [touch])[..|touches|] == touches;
  }

  ghost predicate ClockForward(touches: seq<Touch>, now: int) {
    && (forall i, j :: 0 <= i < j < |touches| ==> touches[i].now <= touches[j].now)
    && (forall i :: 0 <= i < |touches| ==> touches[i].now <= now)
  }

  /** A pop or a burial at the latest time so far keeps the tombstones in order. */
  lemma TouchedTimely(expired: seq<Tombstone>, touch: Touch, ttl: int)
    requires Timely(expired, touch.now + ttl)
    ensures Timely(Touched(expired, touch, ttl), touch.now + ttl)
  {
    PopIsSuffix(expired, touch.now);
    hide Pop;
  }

  lemma TimelyLater(expired: seq<Tombstone>, earlier: int, later: int)
    requires Timely(expired, earlier) && earlier <= later
    ensures Timely(expired, later) && Sorted(expired)
  {
  }

  lemma NoTombstones(latest: int)
    ensures Timely([], latest)
  {
  }

  /** Over any run whose clock never goes back, an id is known after a pop exactly when one of
      its tombstones has not expired: the deduplication window is exact. */
  lemma {:induction false} WindowIsExact(touches: seq<Touch>, ttl: int, now: int)
    requires ClockForward(touches, now)
    ensures Timely(Tombstones(touches, ttl), now + ttl)
    ensures Pop(Tombstones(touches, ttl), now) == Unexpired(Tombstones(touches, ttl), now)
  {
    hide Timely, Sorted, Touched, Pop, Unexpired;
    NoTombstones(now + ttl);
    if touches != [] {
      var prior, last := touches[..|touches| - 1], touches[|touches| - 1];
      WindowIsExact(prior, ttl, last.now);
      TouchedTimely(Tombstones(prior, ttl), last, ttl);
      TimelyLater(Tombstones(touches, ttl), last.now + ttl, now + ttl);
    }
    TimelyLater(Tombstones(touches, ttl), now + ttl, now + ttl);
    PopIsComplete(Tombstones(touches, ttl), now);
  }

  // ---------------------------------------------------------------- ids

  ghost predicate DistinctEvents(events: seq<Event>) {
    forall i, j :: 0 <= i < j < |events| ==> events[i].eventId != events[j].eventId
  }

  ghost predicate DistinctTombstones(expired: seq<Tombstone>) {
    forall i, j :: 0 <= i < j < |expired| ==> expired[i].id != expired[j].id
  }

  function QueuedIds(events: seq<Event>): set<string> {
    set i | 0 <= i < |events| :: events[i].eventId
  }

  function BuriedIds(expired: seq<Tombstone>): set<string> {
    set i | 0 <= i < |expired| :: expired[i].id
  }

  /** The ids known are those queued and those buried, no id twice. */
  ghost predicate Known(seen: map<string, SeenEntry>, queued: seq<Event>, expired: seq<Tombstone>) {
    && DistinctEvents(queued) && DistinctTombstones(expired)
    && QueuedIds(queued) !! BuriedIds(expired)
    && seen.Keys == QueuedIds(queued) + BuriedIds(expired)
    && (forall i :: 0 <= i < |queued| ==> queued[i].eventId in seen && seen[queued[i].eventId].hash.event == queued[i])
    && (forall i :: 0 <= i < |expired| ==> expired[i].id in seen && seen[expired[i].id].expires == expired[i].expires)
    && (forall id :: id in seen ==> seen[id].hash.event.eventId == id)
  }

  lemma KnownPop(seen: map<string, SeenEntry>, queued: seq<Event>, expired: seq<Tombstone>)
    requires Known(seen, queued, expired) && expired != []
    ensures Known(seen - {expired[0].id}, queued, expired[1..])
  {
  }

  lemma KnownAdd(seen: map<string, SeenEntry>, queued: seq<Event>, expired: seq<Tombstone>, e: Event, entry: SeenEntry)
    requires Known(seen, queued, expired) && e.eventId !in seen && entry.hash.event == e
    ensures Known(seen[e.eventId := entry], queued + [e], expired)
  {
    var queued' := queued + [e];
    assert QueuedIds(queued') == QueuedIds(queued) + {e.eventId} by {
      forall id | id in QueuedIds(queued) ensures id in QueuedIds(queued') {
        var i :| 0 <= i < |queued| && queued[i].eventId == id;
        assert queued'[i].eventId == id;
      }
      assert queued'[|queued|].eventId == e.eventId;
    }
    forall i | 0 <= i < |queued| ensures queued[i].eventId != e.eventId {
      assert queued[i].eventId in seen;
    }
    forall i | 0 <= i < |expired| ensures expired[i].id != e.eventId {
      assert expired[i].id in seen;
    }
  }

  lemma KnownBury(seen: map<string, SeenEntry>, queued: seq<Event>, expired: seq<Tombstone>, expires: int)
    requires Known(seen, queued, expired) && queued != []
    ensures var id := queued[0].eventId;
            Known(seen[id := seen[id].(expires := expires)], queued[1..], expired + [Tombstone(id, expires)])
  {
    var e, rest, expired' := queued[0], queued[1..], expired + [Tombstone(queued[0].eventId, expires)];
    assert QueuedIds(queued) == QueuedIds(rest) + {e.eventId} by {
      forall id | id in QueuedIds(queued) ensures id in QueuedIds(rest) + {e.eventId} {
        var i :| 0 <= i < |queued| && queued[i].eventId == id;
        if i > 0 { assert rest[i - 1].eventId == id; }
      }
      assert queued[0].eventId == e.eventId;
    }
    assert BuriedIds(expired') == BuriedIds(expired) + {e.eventId} by {
      forall id | id in BuriedIds(expired) ensures id in BuriedIds(expired') {
        var i :| 0 <= i < |expired| && expired[i].id == id;
        assert expired'[i].id == id;
      }
      assert expired'[|expired|].id == e.eventId;
    }
    assert e.eventId in QueuedIds(queued);
    forall i | 0 <= i < |expired| ensures expired[i].id != e.eventId {
      assert expired[i].id in BuriedIds(expired);
    }
  }

  /** The ids known are as many as the events queued and the tombstones together. */
  lemma KnownCount(seen: map<string, SeenEntry>, queued: seq<Event>, expired: seq<Tombstone>)
    requires Known(seen, queued, expired)
    ensures |seen| == |queued| + |expired|
  {
    QueuedCount(queued);
    BuriedCount(expired);
    assert |seen| == |seen.Keys|;
  }

  lemma QueuedCount(queued: seq<Event>)
    requires DistinctEvents(queued)
    ensures |QueuedIds(queued)| == |queued|
  {
    var ids := seq(|queued|, i requires 0 <= i < |queued| => queued[i].eventId);
    DistinctCount(ids);
    forall id ensures id in QueuedIds(queued) <==> id in ids {
      if i :| 0 <= i < |queued| && queued[i].eventId == id {
        assert ids[i] == id;
      }
    }
    assert QueuedIds(queued) == set id | id in ids;
  }

  lemma BuriedCount(expired: seq<Tombstone>)
    requires DistinctTombstones(expired)
    ensures |BuriedIds(expired)| == |expired|
  {
    var ids := seq(|expired|, i requires 0 <= i < |expired| => expired[i].id);
    DistinctCount(ids);
    forall id ensures id in BuriedIds(expired) <==> id in ids {
      if i :| 0 <= i < |expired| && expired[i].id == id {
        assert ids[i] == id;
      }
    }
    assert BuriedIds(expired) == set id | id in ids;
  }

  lemma {:induction false} DistinctCount(ids: seq<string>)
    requires forall i, j :: 0 <= i < j < |ids| ==> ids[i] != ids[j]
    ensures |set id | id in ids| == |ids|
  {
    if ids != [] {
      var n := |ids| - 1;
      DistinctCount(ids[..n]);
      assert (set id | id in ids) == (set id | id in ids[..n]) + {ids[n]};
    }
  }

  // ---------------------------------------------------------------- the ring

  /** Where the `i`-th queued event is. */
  function Slot(length: nat, head: nat, i: nat): (slot: nat)
    requires head < length && i <= length
    ensures slot < length
  {
    if head + i < length then head + i else head + i - length
  }

  lemma SlotWraps(length: nat, head: nat, i: nat)
    requires head < length && i <= length
    ensures (head + i) % length == Slot(length, head, i)
  {
    var x := head + i;
    Quotient(length, x / length, x % length);
  }

  lemma Quotient(n: nat, q: int, r: nat)
    requires r < n && 0 <= n * q + r < 2 * n
    ensures q == 0 || q == 1
  {
  }

  /** From `head` on, wrapping around, the cells hold `queued`. */
  ghost predicate Holds(cells: seq<Option<Event>>, head: nat, queued: seq<Event>) {
    && head < |cells| && |queued| <= |cells|
    && forall i :: 0 <= i < |queued| ==> cells[Slot(|cells|, head, i)] == Some(queued[i])
  }

  lemma HoldsPush(cells: seq<Option<Event>>, head: nat, queued: seq<Event>, e: Event)
    requires Holds(cells, head, queued) && |queued| < |cells|
    ensures Holds(cells[Slot(|cells|, head, |queued|) := Some(e)], head, queued + [e])
  {
  }

  lemma HoldsPop(cells: seq<Option<Event>>, head: nat, queued: seq<Event>)
    requires Holds(cells, head, queued) && queued != []
    ensures cells[head] == Some(queued[0])
    ensures Holds(cells[head := None], Slot(|cells|, head, 1), queued[1..])
  {
  }

  // ---------------------------------------------------------------- the queue

  /** The id of a tombstone that has not expired. */
  ghost predicate InWindow(expired: seq<Tombstone>, id: string, now: int) {
    exists i :: 0 <= i < |expired| && expired[i].id == id && now < expired[i].expires
  }

  lemma {:induction false} UnexpiredIds(expired: seq<Tombstone>, now: int, id: string)
    ensures id in BuriedIds(Unexpired(expired, now)) <==> InWindow(expired, id, now)
  {
    if expired != [] {
      var rest := expired[1..];
      UnexpiredIds(rest, now, id);
      assert [] + Unexpired(rest, now) == Unexpired(rest, now);
      WindowOfRest(expired, now, id);
      BuriedPlus(expired[0], Unexpired(rest, now), id);
    }
  }

  lemma WindowOfRest(expired: seq<Tombstone>, now: int, id: string)
    requires expired != []
    ensures InWindow(expired, id, now) <==>
              (expired[0].id == id && now < expired[0].expires) || InWindow(expired[1..], id, now)
  {
    if i :| 0 <= i < |expired[1..]| && expired[1..][i].id == id && now < expired[1..][i].expires {
      assert expired[i + 1] == expired[1..][i];
    }
    if i :| 0 <= i < |expired| && expired[i].id == id && now < expired[i].expires && i > 0 {
      assert expired[1..][i - 1] == expired[i];
    }
  }

  lemma BuriedPlus(t: Tombstone, rest: seq<Tombstone>, id: string)
    ensures id in BuriedIds([t] + rest) <==> t.id == id || id in BuriedIds(rest)
  {
    var all := [t] + rest;
    assert all[0] == t;
    if id in BuriedIds(rest) {
      var i :| 0 <= i < |rest| && rest[i].id == id;
      assert all[i + 1].id == id;
    }
  }

  /** Exactly the ids queued and those with an unexpired tombstone are known. */
  ghost predicate WindowKnown(seen: map<string, SeenEntry>, queued: seq<Event>, buried: seq<Tombstone>, now: int) {
    forall id :: id in seen <==> id in QueuedIds(queued) || InWindow(buried, id, now)
  }

  lemma KnownInWindow(seen: map<string, SeenEntry>, queued: seq<Event>, touches: seq<Touch>, ttl: int, now: int)
    requires ClockForward(touches, now) && Known(seen, queued, Pop(Tombstones(touches, ttl), now))
    ensures WindowKnown(seen, queued, Tombstones(touches, ttl), now)
  {
    hide Tombstones, ClockForward, InWindow;
    WindowIsExact(touches, ttl, now);
    KnownKeys(seen, queued, Pop(Tombstones(touches, ttl), now));
    hide Known, BuriedIds, QueuedIds;
    forall id ensures id in seen <==> id in QueuedIds(queued) || InWindow(Tombstones(touches, ttl), id, now) {
      UnexpiredIds(Tombstones(touches, ttl), now, id);
    }
  }

  // ---------------------------------------------------------------- what was accepted

  function Events(log: seq<Payload>): (events: seq<Event>)
    ensures |events| == |log|
  {
    seq(|log|, i requires 0 <= i < |log| => log[i].event)
  }

  /** What was accepted last under an id. */
  function LastUnder(log: seq<Payload>, id: string): Option<Payload> {
    if log == [] then None
    else if log[|log| - 1].event.eventId == id then Some(log[|log| - 1])
    else LastUnder(log[..|log| - 1], id)
  }

  /** What is remembered of a known id is what was accepted last under it. */
  ghost predicate Remembers(seen: map<string, SeenEntry>, log: seq<Payload>) {
    forall id :: id in seen ==> LastUnder(log, id) == Some(seen[id].hash)
  }

  /** What was accepted is what was received and then what is queued, and is what is remembered. */
  ghost predicate Logged(accepted: seq<Payload>, received: seq<Event>, queued: seq<Event>,
                         seen: map<string, SeenEntry>) {
    Events(accepted) == received + queued && Remembers(seen, accepted)
  }

  lemma LoggedMore(accepted: seq<Payload>, received: seq<Event>, queued: seq<Event>, seen: map<string, SeenEntry>,
                   data: Payload)
    requires Logged(accepted, received, queued, seen)
    ensures Logged(accepted + [data], received, queued + [data.event], seen[data.event.eventId := SeenEntry(data, 0)])
  {
    assert (accepted + [data])[..|accepted|] == accepted;
    assert Events(accepted + [data]) == Events(accepted) + [data.event];
  }

  /** The order of receiving is the order of accepting; expiry times do not matter. */
  lemma LoggedReceived(accepted: seq<Payload>, received: seq<Event>, queued: seq<Event>, seen: map<string, SeenEntry>,
                       expires: int)
    requires Logged(accepted, received, queued, seen) && queued != [] && queued[0].eventId in seen
    ensures var id := queued[0].eventId;
            Logged(accepted, received + [queued[0]], queued[1..], seen[id := seen[id].(expires := expires)])
  {
    assert received + queued == received + [queued[0]] + queued[1..];
  }

  lemma LoggedLess(accepted: seq<Payload>, received: seq<Event>, queued: seq<Event>, seen: map<string, SeenEntry>,
                   id: string)
    requires Logged(accepted, received, queued, seen)
    ensures Logged(accepted, received, queued, seen - {id})
  {
  }

  lemma LoggedNothing()
    ensures Logged([], [], [], map[])
  {
  }

  lemma LoggedOne(accepted: seq<Payload>, received: seq<Event>, queued: seq<Event>, seen: map<string, SeenEntry>,
                  id: string)
    requires Logged(accepted, received, queued, seen) && id in seen
    ensures LastUnder(accepted, id) == Some(seen[id].hash)
  {
  }

  /** How the queue answers about a payload whose id is `known`, with `last` accepted last under it,
      when `queued` events and `ids` ids take up room. */
  predicate Decided(reply: Reply, data: Payload, known: bool, last: Option<Payload>, queued: nat, ids: nat,
                    capacity: nat, dedupCapacity: nat) {
    && (reply == Duplicate <==> known && last == Some(data))
    && (reply == Conflict <==> known && last != Some(data))
    && (reply == Full <==> !known && queued == capacity)
    && (reply == DedupFull <==> !known && queued < capacity && ids == dedupCapacity)
    && (reply == Accepted <==> !known && queued < capacity && ids < dedupCapacity)
  }

  lemma DecidedKnown(reply: Reply, data: Payload, known: bool, last: Option<Payload>, queued: nat, ids: nat,
                     capacity: nat, dedupCapacity: nat)
    requires Decided(reply, data, known, last, queued, ids, capacity, dedupCapacity)
    ensures reply in {Duplicate, Conflict} <==> known
  {
  }

  /** Queueing an event makes its id known. */
  lemma WindowAdd(seen: map<string, SeenEntry>, queued: seq<Event>, buried: seq<Tombstone>, now: int, data: Payload)
    ensures WindowKnown(seen, queued, buried, now) ==>
              WindowKnown(seen[data.event.eventId := SeenEntry(data, 0)], queued + [data.event], buried, now)
  {
    hide InWindow;
    var queued' := queued + [data.event];
    forall id ensures id in QueuedIds(queued') <==> id in QueuedIds(queued) || id == data.event.eventId {
      if id in QueuedIds(queued) {
        var i :| 0 <= i < |queued| && queued[i].eventId == id;
        assert queued'[i].eventId == id;
      }
      assert queued'[|queued|].eventId == data.event.eventId;
    }
    hide QueuedIds;
  }

  class Memory {
    const ring: array<Option<Event>>
    const dedupCapacity: nat
    const ttl: int
    var head: nat
    var size: nat
    var seen: map<string, SeenEntry>
    var expired: seq<Tombstone>
    var accepted: nat
    var duplicates: nat
    var received: nat
    /** The events queued, oldest first. */
    ghost var queued: seq<Event>
    /** Everything ever accepted, and every event ever received, in order. */
    ghost var acceptedLog: seq<Payload>
    ghost var receivedLog: seq<Event>
    /** Every pop and every burial of tombstones, in order. */
    ghost var touches: seq<Touch>

    /** Ring, map, tombstones and counters agree. */
    ghost predicate Sound()
      reads this, ring
    {
      && 0 < ring.Length <= dedupCapacity && 0 < ttl
      && size == |queued| && Holds(ring[..], head, queued)
      && Known(seen, queued, expired) && |seen| <= dedupCapacity
      && Logged(acceptedLog, receivedLog, queued, seen)
      && accepted == |acceptedLog| && received == |receivedLog|
    }

    ghost predicate Valid()
      reads this, ring
    {
      Sound() && expired == Tombstones(touches, ttl)
    }

    constructor (capacity: nat, dedupCapacity: nat, ttl: int)
      requires 0 < capacity <= dedupCapacity && 0 < ttl
      ensures Valid() && queued == [] && expired == [] && seen == map[] && acceptedLog == [] && touches == []
      ensures ring.Length == capacity && this.dedupCapacity == dedupCapacity && this.ttl == ttl && fresh(ring)
    {
      LoggedNothing();
      ring := new Option<Event>[capacity](_ => None);
      head, size, accepted, duplicates, received := 0, 0, 0, 0, 0;
      this.dedupCapacity, this.ttl, seen, expired := dedupCapacity, ttl, map[], [];
      queued, acceptedLog, receivedLog, touches := [], [], [], [];
    }

    /** Forgets the expired tombstones in front. */
    method PopExpired(now: int)
      requires Sound()
      modifies this`expired, this`seen
      ensures Sound()
      ensures expired == Pop(old(expired), now)
      ensures seen.Keys <= old(seen.Keys) && forall id :: id in seen ==> seen[id] == old(seen[id])
    {
      hide Known, Holds, Pop, Logged;
      while expired != []
        invariant Sound()
        invariant Pop(expired, now) == Pop(old(expired), now)
        invariant seen.Keys <= old(seen.Keys) && forall id :: id in seen ==> seen[id] == old(seen[id])
        decreases |expired|
      {
        var front := expired[0];
        PopStep(expired, now);
        if now < front.expires {
          break;
        }
        KnownPop(seen, queued, expired);
        KnownSmaller(seen, expired[0].id);
        LoggedLess(acceptedLog, receivedLog, queued, seen, front.id);
        seen := seen - {front.id};
        expired := expired[1..];
      }
      PopStep(expired, now);
    }

    /** Writes an event into the first free cell. */
    method Append(e: Event)
      requires size < ring.Length && size == |queued| && Holds(ring[..], head, queued)
      modifies this`size, this`queued, ring
      ensures size == old(size) + 1 && queued == old(queued) + [e] && Holds(ring[..], head, queued)
    {
      hide Holds;
      HoldsHead(ring[..], head, queued);
      HoldsPush(ring[..], head, queued, e);
      ghost var cells, slot := ring[..], Slot(ring.Length, head, size);
      SlotWraps(ring.Length, head, size);
      ring[(head + size) % ring.Length] := Some(e);
      assert ring[..] == cells[slot := Some(e)];
      size := size + 1;
      queued := queued + [e];
    }

    /** Clears the oldest event's cell and moves the head past it. */
    method Advance() returns (e: Event)
      requires 0 < size == |queued| && Holds(ring[..], head, queued)
      modifies this`head, this`size, this`queued, ring
      ensures e == old(queued)[0] && size == old(size) - 1 && queued == old(queued)[1..]
              && Holds(ring[..], head, queued)
    {
      hide Holds;
      HoldsHead(ring[..], head, queued);
      HoldsPop(ring[..], head, queued);
      ghost var cells := ring[..];
      e := ring[head].value;
      ring[head] := None;
      assert ring[..] == cells[head := None];
      SlotWraps(ring.Length, head, 1);
      head := (head + 1) % ring.Length;
      size := size - 1;
      queued := queued[1..];
    }

    /** Queues an event whose id is not known, when there is room for both. */
    method Admit(data: Payload)
      requires Valid() && data.event.eventId !in seen && |queued| < ring.Length && |seen| < dedupCapacity
      modifies this`size, this`queued, this`seen, this`accepted, this`acceptedLog, ring
      ensures Valid()
      ensures queued == old(queued) + [data.event] && acceptedLog == old(acceptedLog) + [data]
      ensures seen == old(seen)[data.event.eventId := SeenEntry(data, 0)]
    {
      hide Known, Holds, Logged;
      LoggedMore(acceptedLog, receivedLog, queued, seen, data);
      KnownAdd(seen, queued, expired, data.event, SeenEntry(data, 0));
      Added(seen, data.event.eventId, SeenEntry(data, 0));
      Append(data.event);
      seen := seen[data.event.eventId := SeenEntry(data, 0)];
      accepted := accepted + 1;
      acceptedLog := acceptedLog + [data];
    }

    /** Pops the expired tombstones, which leaves exactly the window. */
    method Refresh(now: int)
      requires Valid()
      modifies this`expired, this`seen, this`touches
      ensures Valid() && expired == Pop(old(expired), now) && touches == old(touches) + [Popped(now)]
      ensures seen.Keys <= old(seen.Keys) && forall id :: id in seen ==> seen[id] == old(seen)[id]
      ensures Known(seen, queued, expired)
      ensures ClockForward(old(touches), now) ==>
                && WindowKnown(seen, queued, old(expired), now)
                && forall id :: id in seen <==> id in QueuedIds(queued) || InWindow(old(expired), id, now)
    {
      hide Known, Holds, QueuedIds, BuriedIds, Pop, Tombstones, InWindow, ClockForward, Logged;
      PopExpired(now);
      TouchesNext(touches, Popped(now), ttl);
      touches := touches + [Popped(now)];
      if ClockForward(old(touches), now) {
        KnownInWindow(seen, queued, old(touches), ttl, now);
      }
    }

    /** Answers for an event once expired tombstones are popped. */
    method Decide(data: Payload) returns (reply: Reply)
      requires Valid()
      modifies this`size, this`queued, this`seen, this`accepted, this`duplicates, this`acceptedLog, ring
      ensures Valid()
      ensures reply != Invalid
      ensures Decided(reply, data, data.event.eventId in old(seen), LastUnder(old(acceptedLog), data.event.eventId),
                      |old(queued)|, |old(queued)| + |expired|, ring.Length, dedupCapacity)
      ensures queued == if reply == Accepted then old(queued) + [data.event] else old(queued)
      ensures acceptedLog == if reply == Accepted then old(acceptedLog) + [data] else old(acceptedLog)
      ensures seen == if reply == Accepted then old(seen)[data.event.eventId := SeenEntry(data, 0)] else old(seen)
      ensures duplicates == old(duplicates) + if reply == Duplicate then 1 else 0
    {
      hide Known, Holds, QueuedIds, BuriedIds, Pop, Tombstones, Logged, LastUnder;
      HoldsHead(ring[..], head, queued);
      KnownCount(seen, queued, expired);
      if data.event.eventId in seen {
        LoggedOne(acceptedLog, receivedLog, queued, seen, data.event.eventId);
        if seen[data.event.eventId].hash != data {
          return Conflict;
        }
        duplicates := duplicates + 1;
        return Duplicate;
      }
      if size == ring.Length {
        return Full;
      }
      if |seen| == dedupCapacity {
        return DedupFull;
      }
      Admit(data);
      return Accepted;
    }

    /** Accepts an event unless its id is known or there is no room; `encoded` is the length of
        its JSON text, or None when it has none. */
    method Publish(e: Event, encoded: Option<nat>, now: int) returns (reply: Reply)
      requires Valid()
      modifies this, ring
      ensures Valid()
      ensures reply == Invalid <==> !e.Validate() || encoded.None? || encoded.value > MAX_EVENT_BYTES
      ensures expired == if reply == Invalid then old(expired) else Pop(old(expired), now)
      ensures reply == Invalid ==> seen == old(seen)
      ensures reply != Invalid ==>
                var known := e.eventId in QueuedIds(old(queued)) || e.eventId in BuriedIds(expired);
                Decided(reply, Payload(e, encoded.value), known, LastUnder(old(acceptedLog), e.eventId),
                        |old(queued)|, |old(queued)| + |expired|, ring.Length, dedupCapacity)
      ensures queued == if reply == Accepted then old(queued) + [e] else old(queued)
      ensures acceptedLog == old(acceptedLog) + if reply == Accepted then [Payload(e, encoded.value)] else []
      ensures reply == Accepted ==> e.eventId in seen && seen[e.eventId].hash == Payload(e, encoded.value)
      ensures forall id :: id in seen && !(reply == Accepted && id == e.eventId) ==>
               && id in old(seen)
               && seen[id] == old(seen)[id]
      ensures receivedLog == old(receivedLog)
      ensures duplicates == old(duplicates) + if reply == Duplicate then 1 else 0
      ensures touches == old(touches) + if reply == Invalid then [] else [Popped(now)]
      ensures reply != Invalid && ClockForward(old(touches), now) ==>
                && WindowKnown(seen, queued, old(expired), now)
                && (reply in {Duplicate, Conflict} <==>
                      e.eventId in QueuedIds(old(queued)) || InWindow(old(expired), e.eventId, now))
    {
      hide Known, Holds, QueuedIds, BuriedIds, Pop, Event.Validate, Tombstones, InWindow, ClockForward, Decided;
      hide WindowKnown, Logged, LastUnder;
      if !e.Validate() || encoded.None? || encoded.value > MAX_EVENT_BYTES {
        return Invalid;
      }
      var hash := Payload(e, encoded.value);
      Refresh(now);
      KnownKeys(seen, queued, expired);
      WindowAdd(seen, queued, old(expired), now, hash);
      reply := Decide(hash);
      DecidedKnown(reply, hash, e.eventId in QueuedIds(old(queued)) || e.eventId in BuriedIds(expired),
                   LastUnder(old(acceptedLog), e.eventId), |old(queued)|, |old(queued)| + |expired|, ring.Length,
                   dedupCapacity);
    }

    /** Remembers a received id for `ttl`. */
    method Bury(id: string, now: int)
      requires id in seen && expired == Tombstones(touches, ttl)
      modifies this`seen, this`expired, this`touches
      ensures expired == Tombstones(touches, ttl)
      ensures seen == old(seen)[id := old(seen)[id].(expires := now + ttl)] && |seen| == |old(seen)|
      ensures expired == old(expired) + [Tombstone(id, now + ttl)] && touches == old(touches) + [Buried(id, now)]
    {
      hide Tombstones;
      TouchesNext(touches, Buried(id, now), ttl);
      var entry := seen[id].(expires := now + ttl);
      Kept(seen, id, entry);
      seen := seen[id := entry];
      expired := expired + [Tombstone(id, entry.expires)];
      touches := touches + [Buried(id, now)];
    }

    /** Takes the oldest event out and buries its id for `ttl`. */
    method Receive(now: int) returns (e: Option<Event>)
      requires Valid()
      modifies this, ring
      ensures Valid()
      ensures acceptedLog == old(acceptedLog) && duplicates == old(duplicates)
      ensures old(queued) == [] ==>
                && e == None && queued == [] && expired == old(expired) && seen == old(seen)
                && receivedLog == old(receivedLog) && touches == old(touches)
      ensures old(queued) != [] ==>
                && e == Some(old(queued)[0]) && queued == old(queued)[1..]
                && expired == old(expired) + [Tombstone(e.value.eventId, now + ttl)]
                && receivedLog == old(receivedLog) + [e.value]
                && touches == old(touches) + [Buried(e.value.eventId, now)]
                && e.value.eventId in old(seen)
                && seen == old(seen)[e.value.eventId := old(seen)[e.value.eventId].(expires := now + ttl)]
    {
      hide Known, Holds, Pop, Tombstones, Logged;
      if size == 0 {
        return None;
      }
      KnownBury(seen, queued, expired, now + ttl);
      KnownQueued(seen, queued, expired, 0);
      LoggedReceived(acceptedLog, receivedLog, queued, seen, now + ttl);
      var oldest := Advance();
      received := received + 1;
      Bury(oldest.eventId, now);
      receivedLog := receivedLog + [oldest];
      return Some(oldest);
    }

    /** What the queue reports about itself. */
    method Report()
      returns (depth: nat, capacity: nat, dedupEntries: nat,
               acceptedCount: nat, duplicateCount: nat, receivedCount: nat)
      requires Valid()
      ensures depth == |queued| && capacity == ring.Length && dedupEntries == |queued| + |expired|
      ensures acceptedCount == receivedCount + depth && receivedCount == |receivedLog|
      ensures duplicateCount == duplicates
    {
      KnownCount(seen, queued, expired);
      return size, ring.Length, |seen|, accepted, duplicates, received;
    }
  }

  lemma HoldsHead(cells: seq<Option<Event>>, head: nat, queued: seq<Event>)
    requires Holds(cells, head, queued)
    ensures head < |cells| && |queued| <= |cells|
  {
  }

  lemma Added(seen: map<string, SeenEntry>, id: string, entry: SeenEntry)
    requires id !in seen
    ensures |seen[id := entry]| == |seen| + 1
  {
  }

  lemma Kept(seen: map<string, SeenEntry>, id: string, entry: SeenEntry)
    requires id in seen
    ensures |seen[id := entry]| == |seen|
  {
  }

  lemma KnownSmaller(seen: map<string, SeenEntry>, id: string)
    ensures |seen - {id}| <= |seen|
  {
  }

  lemma KnownKeys(seen: map<string, SeenEntry>, queued: seq<Event>, expired: seq<Tombstone>)
    requires Known(seen, queued, expired)
    ensures forall id :: id in seen <==> id in QueuedIds(queued) || id in BuriedIds(expired)
  {
  }

  lemma KnownQueued(seen: map<string, SeenEntry>, queued: seq<Event>, expired: seq<Tombstone>, i: nat)
    requires Known(seen, queued, expired) && i < |queued|
    ensures queued[i].eventId in seen
  {
  }
}
