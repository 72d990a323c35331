/** The three ordered index buckets and the running counters, and what it means for
    them to agree with the records. */
module Indexes {
  import opened Telemetry
  import opened Broker

  /** An ordered bucket of event ids. */
  type Bucket = map<Key, string>

  // ---------------------------------------------------------------- the first key of a bucket

  ghost predicate IsLeast(keys: set<Key>, k: Key) {
    k in keys && forall j :: j in keys ==> !Before(j, k)
  }

  lemma LeastKey(keys: set<Key>) returns (k: Key)
    requires keys != {}
    ensures IsLeast(keys, k)
  {
    var x :| x in keys;
    k := x;
    if keys != {x} {
      var least := LeastKey(keys - {x});
      k := if Before(x, least) then x else least;
    }
    assert forall j :: j in keys ==> j == x || j in keys - {x};
  }

  /** The bucket's first key, unless even that one is not due yet. */
  method FirstDue(b: Bucket, now: int) returns (k: Option<Key>)
    ensures k.Some? ==> IsLeast(b.Keys, k.value) && k.value.due <= now
    ensures k.None? ==> forall j :: j in b ==> now < j.due
  {
    if b.Keys == {} {
      return None;
    }
    ghost var least := LeastKey(b.Keys);
    var first :| first in b.Keys && forall j :: j in b.Keys ==> !Before(j, first);
    if first.due > now {
      forall j | j in b ensures now < j.due { assert !Before(j, first); }
      return None;
    }
    return Some(first);
  }

  // ---------------------------------------------------------------- buckets agree with records

  /** Every key of the bucket is the own key of a record in that phase. */
  ghost predicate ListsOnly(records: Records, b: Bucket, p: Phase) {
    forall k :: k in b ==> InPhase(records, p, b[k]) && KeyOf(records[b[k]]) == k
  }

  /** Every record in that phase is found under its own key. */
  ghost predicate ListsAll(records: Records, b: Bucket, p: Phase) {
    forall id :: InPhase(records, p, id) ==> KeyOf(records[id]) in b && b[KeyOf(records[id])] == id
  }

  ghost predicate Lists(records: Records, b: Bucket, p: Phase) {
    ListsOnly(records, b, p) && ListsAll(records, b, p)
  }

  /** The first key of an agreeing bucket names the first record of the phase. */
  lemma FirstAgrees(records: Records, last: nat, b: Bucket, p: Phase, now: int, k: Option<Key>)
    requires Lists(records, b, p) && Sequenced(records, last)
    requires k.Some? ==> IsLeast(b.Keys, k.value) && k.value.due <= now
    requires k.None? ==> forall j :: j in b ==> now < j.due
    ensures DueFirst(records, p, now) == if k.Some? then Some(b[k.value]) else None
  {
  }

  /** The bucket of phase `p` after record `id` became `r`. */
  function Relist(records: Records, b: Bucket, p: Phase, id: string, r: Record): Bucket {
    var left := Delist(records, b, p, id);
    if r.phase == p then left[KeyOf(r) := id] else left
  }

  /** The bucket of phase `p` after record `id` is gone. */
  function Delist(records: Records, b: Bucket, p: Phase, id: string): Bucket {
    if InPhase(records, p, id) then b - {KeyOf(records[id])} else b
  }

  lemma DelistLists(records: Records, b: Bucket, p: Phase, id: string)
    requires Lists(records, b, p)
    ensures Lists(records - {id}, Delist(records, b, p, id), p)
  {
  }

  lemma RelistLists(records: Records, b: Bucket, p: Phase, id: string, r: Record)
    requires Lists(records, b, p)
    requires forall j :: j in records && j != id ==> records[j].sequence != r.sequence
    ensures Lists(records[id := r], Relist(records, b, p, id, r), p)
  {
  }

  // ---------------------------------------------------------------- counters agree with records

  datatype Stats = Stats(
    ready: int,
    leased: int,
    quarantined: int,
    completed: int,
    logicalBytes: int,
    accepted: int,
    acked: int,
    deliveries: int,
    redeliveries: int)

  const NO_STATS := Stats(0, 0, 0, 0, 0, 0, 0, 0, 0)

  ghost predicate Counts(records: Records, st: Stats) {
    && st.ready == Tally(records, Count(Ready))
    && st.leased == Tally(records, Count(Leased))
    && st.quarantined == Tally(records, Count(Quarantined))
    && st.completed == Tally(records, Count(Completed))
    && st.logicalBytes == Tally(records, LogicalBytes)
  }

  /** The counters after record `id` became `r`. */
  function Recount(records: Records, st: Stats, id: string, r: Record): Stats {
    var gone := Discount(records, st, id);
    gone.(ready := gone.ready + Weight(Count(Ready), r),
          leased := gone.leased + Weight(Count(Leased), r),
          quarantined := gone.quarantined + Weight(Count(Quarantined), r),
          completed := gone.completed + Weight(Count(Completed), r),
          logicalBytes := gone.logicalBytes + Weight(LogicalBytes, r))
  }

  /** The counters after record `id` is gone. */
  function Discount(records: Records, st: Stats, id: string): Stats {
    if id !in records then st
    else
      var r := records[id];
      st.(ready := st.ready - Weight(Count(Ready), r),
          leased := st.leased - Weight(Count(Leased), r),
          quarantined := st.quarantined - Weight(Count(Quarantined), r),
          completed := st.completed - Weight(Count(Completed), r),
          logicalBytes := st.logicalBytes - Weight(LogicalBytes, r))
  }

  lemma RecountCounts(records: Records, st: Stats, id: string, r: Record)
    requires Counts(records, st)
    ensures Counts(records[id := r], Recount(records, st, id, r))
  {
    TallyPut(records, id, r, Count(Ready));
    TallyPut(records, id, r, Count(Leased));
    TallyPut(records, id, r, Count(Quarantined));
    TallyPut(records, id, r, Count(Completed));
    TallyPut(records, id, r, LogicalBytes);
  }

  lemma DiscountCounts(records: Records, st: Stats, id: string)
    requires Counts(records, st) && id in records
    ensures Counts(records - {id}, Discount(records, st, id))
  {
    TallyDrop(records, id, Count(Ready));
    TallyDrop(records, id, Count(Leased));
    TallyDrop(records, id, Count(Quarantined));
    TallyDrop(records, id, Count(Completed));
    TallyDrop(records, id, LogicalBytes);
  }

  // ---------------------------------------------------------------- the whole file

  /** What one database file holds. */
  datatype File = File(
    records: Records,
    ready: Bucket,
    leases: Bucket,
    completions: Bucket,
    sequence: nat,
    stats: Stats)

  /** The broker state a file stands for. */
  function View(f: File): State {
    State(f.records, f.sequence, f.stats.accepted, f.stats.acked, f.stats.deliveries, f.stats.redeliveries)
  }

  /** Records, indexes and counters agree, and the records satisfy the broker's invariant. */
  ghost predicate Agree(f: File) {
    && Inv(View(f))
    && Lists(f.records, f.ready, Ready)
    && Lists(f.records, f.leases, Leased)
    && Lists(f.records, f.completions, Completed)
    && Counts(f.records, f.stats)
  }

  /** The file after the same change, with its indexes and counters brought up to date. */
  ghost function Refile(f: File, c: Change, now: int): File
    requires c.Admit? || Subject(c) in f.records
  {
    var id, s' := Subject(c), Commit(View(f), c, now);
    var f' := match Rewrite(View(f), c, now)
      case Some(r) =>
        File(s'.records, Relist(f.records, f.ready, Ready, id, r), Relist(f.records, f.leases, Leased, id, r),
             Relist(f.records, f.completions, Completed, id, r), s'.sequence, Recount(f.records, f.stats, id, r))
      case None =>
        File(s'.records, Delist(f.records, f.ready, Ready, id), Delist(f.records, f.leases, Leased, id),
             Delist(f.records, f.completions, Completed, id), s'.sequence, Discount(f.records, f.stats, id));
    f'.(stats := f'.stats.(accepted := s'.accepted, acked := s'.acked,
                           deliveries := s'.deliveries, redeliveries := s'.redeliveries))
  }

  lemma RefileLists(f: File, c: Change, now: int)
    requires Agree(f) && Enabled(View(f), c, now)
    ensures var f' := Refile(f, c, now);
            && Lists(f'.records, f'.ready, Ready)
            && Lists(f'.records, f'.leases, Leased)
            && Lists(f'.records, f'.completions, Completed)
  {
    RewriteWellFormed(View(f), c, now);
    var id := Subject(c);
    match Rewrite(View(f), c, now)
    case Some(r) =>
      RelistLists(f.records, f.ready, Ready, id, r);
      RelistLists(f.records, f.leases, Leased, id, r);
      RelistLists(f.records, f.completions, Completed, id, r);
    case None =>
      DelistLists(f.records, f.ready, Ready, id);
      DelistLists(f.records, f.leases, Leased, id);
      DelistLists(f.records, f.completions, Completed, id);
  }

  lemma RefileCounts(f: File, c: Change, now: int)
    requires Agree(f) && Enabled(View(f), c, now)
    ensures var f' := Refile(f, c, now);
            View(f') == Commit(View(f), c, now) && Counts(f'.records, f'.stats)
  {
    var id := Subject(c);
    match Rewrite(View(f), c, now)
    case Some(r) => RecountCounts(f.records, f.stats, id, r);
    case None => DiscountCounts(f.records, f.stats, id);
  }

  /** Every change keeps records, indexes and counters in agreement. */
  lemma AgreeCommit(f: File, c: Change, now: int)
    requires Agree(f) && Enabled(View(f), c, now)
    ensures Agree(Refile(f, c, now)) && View(Refile(f, c, now)) == Commit(View(f), c, now)
  {
    InvCommit(View(f), c, now);
    RefileLists(f, c, now);
    RefileCounts(f, c, now);
  }
}
