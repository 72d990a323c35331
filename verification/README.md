# GPU telemetry pipeline: a verified model

GPU readings travel from a CSV file through a streamer, a durable message broker and a
pool of collectors into PostgreSQL, from where an API reads them back. This project models
the parts of that pipeline whose correctness is not visible in any one function, and proves
what they promise together: no accepted event is lost, but by a reused id; no acknowledgement
overtakes its commit; and every bound, order and deduplication window is the one the design
states.

`dafny verify dfyconfig.toml` checks everything.

## How the model is built

**The durable broker** (`Telemetry`, `Broker`, `Transactions`, `Indexes`, `DurableBroker`).
Class `DurableBroker.Durable` has the buckets of the database file as fields: the records,
the three ordered indexes (ready, leases, completions), the sequence counter and the running
statistics. Its methods put and delete keys and step the counters as the Go code does, one
transaction per method, restored on error. Beside it stands a specification on values: each
operation, given the state, the clock and its arguments, yields a reply and a *journal*, the
list of atomic changes its transaction commits (`Admit`, `Deliver`, `Release`, `Complete`,
`Requeue`, `Quarantine`, `Forget`). `Broker.Enabled` says when a change may happen,
`Broker.Commit` what it does. Every method is proved to give the specified reply and to leave
exactly the state its journal leads to, with indexes and counters in agreement.

**Whole runs** (`Histories`, `Fifo`, `Fencing`, `Expiry`, `Leasing`, `Receipts`, `Settlement`,
`Retention`, `Bounds`, `Ideal`, `Acceptance`, `IndexKey`). A run is any list of calls, each
with its own clock reading and its own options (the broker may be reopened with other limits
between any two calls) and possibly a storage failure. `Histories` relates what clients see in
the replies to what the journals committed, so the run theorems speak of replies. A clock that
never goes back is assumed only where a theorem says so (`OrderedRun`). For each call there is
also a theorem that lists every answer with the exact condition for it: `Ideal.PublishDecides`,
`Leasing.LeaseComplete`, `Settlement.AckDecides` and `Settlement.NackDecides`.

**The pipeline** (`Postgres`, `Collector`, `Pipeline`, `Reuse`, `EndToEnd`).
`Postgres.Store.Persist` is the two-table transaction; `Collector.Process` and `Retry` are the
collector's loops, driven by a script of what the outside world does. `Pipeline` puts the
broker, the tables, any number of workers and the messages between them into one step system.
Messages may be lost, repeated or late, workers may crash or be slow, leases expire, the broker
restarts.

**The edges** (`MemoryQueue`, `Source`, `Streamer`, `Query`). The ring buffer of the volatile
queue; the replaying CSV source and the publishing loop over it; the exact time range and the
budgeted array response.

**Witnesses** (`Counterexamples`, `LostRow`). Runs from an empty database, with fresh tokens and
realistic events, that meet each exception below.

## Results that differ from the expectation

* *Publish is not quite an ideal broker.* The code is close to a broker that forgets
  completions the instant they expire, but completions that a bounded batch leaves behind
  still count against the byte budget and the identity limit.
  `Counterexamples.LeftoversCanRefuse` gives, for every event size, a run from an empty database
  in which the broker refuses an event the ideal one takes. `Ideal.PublishAnswersIdeally` gives
  the exact condition, `Crowded`, in numbers a caller can read off the state before the call
  (`Backlog` counts the expired completions beyond a batch), and `Ideal.RefinesExactly` proves
  step-by-step equality of answers over a run if and only if it has no such publish. Duplicates
  and conflicts are always answered ideally.
* *Index keys order negative due times after positive ones.* `IndexKey.KeyOrder` states the
  condition as an equivalence, and `IndexKey.ReachableKeysFaithful` shows that clocks between
  1970 and one year short of the last representable nanosecond never leave it.
* *An event id may be accepted again, and its second event can be lost.* An id is remembered
  until its event was ACKed and the retention of that completion has run out, neither longer nor
  shorter (`Retention.DeduplicatesExactly`); `Counterexamples.AcceptedWithOtherContent` is a run
  in which it then comes with other content. The sink keeps the first row of an id, so
  `Pipeline.NothingIsLost` keeps every accepted event whose id no other event was accepted
  under (`EndToEnd.StreamedEventsAreKept`: all of them behind the streamer),
  `LostRow.SecondEventIsLost` is a reachable world in which an accepted and acknowledged
  event is in no row, and `Reuse.FirstRowDecides` is the exact condition: an accepted event
  is pending or in its row for ever if its id has no row, or its own, when it is accepted;
  and if the id has another event's row then, it never gets one. Convergence of the database
  likewise assumes one content per id.

## Model

| member | source | states |
|---|---|---|
| Indexes.FirstDue | internal/queue/durable.go:241-247 | looking only at the first key of an ordered bucket decides whether anything in it is due, and finds the least key when something is |
| Broker.NoneDue | internal/queue/durable.go:241-247 | the first record of a phase is not due exactly when no record of that phase is |
| Indexes.FirstAgrees | internal/queue/durable.go:241-247 | the first due key of an agreeing bucket names the unique (due, sequence)-least record of its phase |
| Indexes.AgreeCommit | internal/queue/durable.go:199-250 | every change keeps the three buckets in bijection with the records of their phase under the records' own keys, and the counters equal to counts and sums over the records |
| Broker.InvCommit | internal/queue/durable.go:255-580 | every change keeps the record invariant: one layout per phase, leased and completed records carry no NACK data, distinct positive sequence numbers, conservation |
| Broker.ConservedCommit | internal/queue/durable.go:399-461 | every change keeps accepted = ready + leased + quarantined + acked and accepted - (deliveries - redeliveries) = records never delivered |
| Broker.TallyDrop | internal/queue/durable.go:288-308 | a count or sum over the records does not depend on the order of counting |
| Broker.ReplayInv | internal/queue/durable.go:199-218 | the invariant holds after every lawful history |
| Broker.LawfulSplit | internal/queue/durable.go:199-218 | a lawful history is lawful up to any point and from there on, and composes back to the same state |
| DurableBroker.Durable.constructor | internal/queue/durable.go:106-141 | a new database is empty, with agreeing indexes and counters |
| DurableBroker.Durable.Reopen | internal/queue/durable.go:53-58 | reopening changes the limits and nothing else, and is refused exactly for invalid limits |
| DurableBroker.Durable.ExpireLeases | internal/queue/durable.go:526-553 | the bounded loop over the lease index equals the specified releases and keeps agreement |
| DurableBroker.Durable.RemoveCompleted | internal/queue/durable.go:554-564 | removal of one expired completion from record, index and counters is one Forget |
| DurableBroker.Durable.ExpireCompleted | internal/queue/durable.go:565-581 | the bounded loop over the completion index equals the specified removals and keeps agreement |
| DurableBroker.Durable.PublishContext | internal/queue/durable.go:255-315 | the reply and the state are those of the specification, whose answers `Ideal.PublishDecides` lists; a refusal leaves every bucket and counter as it was, the expiries of its transaction included |
| DurableBroker.Durable.LeaseNow | internal/queue/durable.go:365-420 | the reply and the state are those of the specification, whose answers `Leasing.LeaseComplete` lists; an attempt that delivers nothing leaves everything as it was |
| DurableBroker.Durable.AckLease | internal/queue/durable.go:427-468 | the reply and the state are those of the specification, whose answers `Settlement.AckDecides` lists; only an effective ACK changes anything |
| DurableBroker.Durable.NackLease | internal/queue/durable.go:469-525 | the reply and the state are those of the specification, whose answers `Settlement.NackDecides` lists; only an effective NACK changes anything |
| DurableBroker.Durable.CleanupPass | internal/queue/durable.go:582-603 | the pass commits exactly when a lease or completion was due at the probe, and then the specified expiry |
| Histories.JournalShape | internal/queue/durable.go:255-603 | what any operation commits is expiries and then at most the one change its reply announces |
| Histories.ObservedIsCommitted | internal/queue/durable.go:204-217 | over any run, what clients learn from replies is exactly what was committed, in order |
| Fifo.FirstDeliveriesAreFifo | internal/queue/durable.go:295-404 | with a clock that never goes back, the events delivered for the first time are a prefix of the events accepted, whatever NACK delays, lease expiries and redeliveries happen in between |
| Fifo.NextInLine | internal/queue/durable.go:295-305 | the first ready record never delivered before is the earliest accepted event still waiting |
| Fencing.TokensSpentOnce | internal/queue/durable.go:365-520 | over any run, whatever the clock does, one token causes at most one receipt that changes state |
| Fencing.LiveTokensDistinct | internal/queue/durable.go:379-456 | in every state a run with fresh tokens reaches, no two leases or completions carry the same token and no lease carries one that was spent |
| Fencing.LeasesDoNotOverlap | internal/queue/durable.go:365-553 | with a clock that never goes back, an event is delivered again only after its lease expired, was NACKed, or was ACKed, the completion expired and the id was accepted afresh |
| Fencing.FateCommit | internal/queue/durable.go:427-553 | one change ends a held lease only by its own ACK, its own NACK or its expiry |
| Expiry.ReleaseEffect | internal/queue/durable.go:526-553 | bounded lease expiry resets exactly the min(n, due) earliest due leases |
| Expiry.ForgetEffect | internal/queue/durable.go:565-581 | bounded completion expiry removes exactly the min(n, expired) earliest expired completions |
| Expiry.CleanupEffect | internal/queue/durable.go:582-603 | one pass handles exactly the earliest batch of each kind and leaves every other record as it was |
| Expiry.PassesDrain | internal/queue/durable.go:582-603 | p passes at one instant leave max(0, n - p * batch) due entries of each kind |
| Leasing.LeaseComplete | internal/queue/durable.go:328-420 | a lease attempt delivers if and only if a ready record or a lease is due and a token could be drawn, fails for want of a token if and only if something is due, and is empty otherwise; it hands out the (due, sequence)-first record with its content, one attempt more and the configured expiry; and an empty answer rolls back no expiry |
| Leasing.DueAfterExpiry | internal/queue/durable.go:526-553 | after bounded lease expiry something ready is due exactly if a ready record or a lease was due before |
| Leasing.OnlyDeliveriesOvertake | internal/queue/durable.go:241-553 | no change puts a record ahead of a ready record that is overdue; only a delivery removes one |
| Leasing.RankFalls | internal/queue/durable.go:365-412 | while an overdue record waits, its rank falls by exactly the number of deliveries |
| Leasing.NoStarvation | internal/queue/durable.go:365-412 | an overdue ready record is delivered within rank + 1 lease attempts, whatever else the run does |
| Leasing.LeasesComeBack | internal/queue/durable.go:526-553 | an overdue lease with p leases ahead of it is over within one lease attempt per batch of them and one more |
| Leasing.NoLeaseStarvation | internal/queue/durable.go:365-553 | an overdue lease is delivered again within p / batch + 1 attempts and then as many later ones as there are ready records ahead of it, and one more |
| Leasing.OnlyReleasesAdvance | internal/queue/durable.go:526-553 | no change puts a lease ahead of an overdue one; only a release takes one away |
| Receipts.NackIsLast | internal/queue/durable.go:390-505 | a record carries a NACK exactly when that NACK was the last thing that happened to its event |
| Receipts.AttemptsAreDeliveries | internal/queue/durable.go:386-404 | the attempts on a record are the deliveries of its event since it was accepted, so none exactly when it was never delivered |
| Receipts.AckRepeats | internal/queue/durable.go:427-468 | a repeated ACK reports a duplicate until the completion expires and a stale lease afterwards, and changes nothing |
| Receipts.NackRepeats | internal/queue/durable.go:469-505 | until the event is delivered again a repeated NACK reports a duplicate, a different one with the same token a conflict, and neither changes anything |
| Receipts.RetryWaits | internal/queue/durable.go:511-518 | after a retry NACK the next delivery comes no earlier than the delay asked for |
| Receipts.QuarantineIsFinal | internal/queue/durable.go:507-510 | after a permanent NACK the event is never delivered again and stays quarantined |
| Settlement.AckDecides | internal/queue/durable.go:427-468 | every answer of an ACK with its exact condition: done for an unexpired lease under the token, duplicate for an unexpired completion under it, invalid for its form, stale otherwise; no limit and no number of attempts matters |
| Settlement.NackDecides | internal/queue/durable.go:469-525 | every answer of a NACK with its exact condition: done for an unexpired lease under the token, unless it is permanent and quarantine has no room, which alone is answered full; duplicate and conflict for a NACK on record |
| Settlement.ReceiptsTakeEffectExactly | internal/queue/durable.go:365-525 | over any run with fresh tokens and a clock that never goes back, a receipt for a delivery takes effect if and only if the lease has not expired, no earlier receipt settled that delivery and, for a permanent NACK, quarantine has room |
| Retention.Deduplicates | internal/queue/durable.go:267-287 | with a clock that never goes back, publishing an accepted id again answers duplicate for the same content and conflict for other content, unless its event was ACKed in between and that completion's retention has run out |
| Retention.DeduplicatesExactly | internal/queue/durable.go:267-287 | over any run on a new database with a clock that never goes back, a publishable event is answered duplicate or conflict if and only if its id was accepted before and the retention of that acceptance has not run out |
| Retention.PendingExactly | internal/queue/durable.go:255-525 | over any run on a new database the broker holds an event unfinished, with its content, if and only if a step accepted it and no later step ACKed its id |
| Retention.DeliveredAfresh | internal/queue/durable.go:365-456 | an ACKed event is delivered again only after its id was accepted again, once the completion had expired |
| Retention.PendingStep | internal/queue/durable.go:427-463 | one step leaves a pending event pending with its content, or was its effective ACK and leaves its completion |
| Bounds.OnlyAdmissionGrows | internal/queue/durable.go:288-514 | only an admission takes an identity or a place and only a permanent NACK fills the quarantine; completing an event takes no new identity and frees bytes, so ACK needs no capacity check |
| Bounds.StepContained | internal/queue/durable.go:288-514 | no step takes active events, identities, quarantine or logical bytes above its limit, and one already above never grows |
| Bounds.RunContained | internal/queue/durable.go:106-160 | the same over whole runs with reopening under any limits |
| Bounds.NeverOverLimit | internal/queue/durable.go:288-294 | a database used only within given limits never exceeds them |
| Bounds.RunsBalance | internal/queue/durable.go:306-461 | over any run the counters are the numbers of accepted replies, effective ACKs and deliveries; as many accepted events as were not ACKed are ready, leased or quarantined; as many as were never delivered are ready without an attempt |
| Bounds.QuarantineCounted | internal/queue/durable.go:496-510 | over any run quarantine holds as many events as permanent NACKs took effect |
| Ideal.PublishAnswersIdeally | internal/queue/durable.go:267-310 | publish answers as a broker with instant expiry exactly when the leftover completions are not what is missing; duplicates and conflicts always |
| Counterexamples.LeftoversCanRefuse | internal/queue/durable.go:288-294 | for every event size the options allow, a run from an empty database with fresh tokens in which leftovers make the broker refuse an event the ideal broker takes |
| Counterexamples.AcceptedWithOtherContent | internal/queue/durable.go:271-280 | a run in which an id is accepted a second time, with other content, at the instant its completion expires |
| Ideal.DedupFullIsHonest | internal/queue/durable.go:292-294 | while identities are within their limit, the identity refusal is given only when no completion has expired |
| Ideal.StepsAlike | internal/queue/durable.go:255-603 | every operation answers and acts as on the purged state, crowded publishes excepted |
| Ideal.RefinesIdeal | internal/queue/durable.go:255-603 | over any run without a crowded publish and with a clock that never goes back, every reply is the ideal broker's |
| Ideal.RefinesExactly | internal/queue/durable.go:255-603 | over any run with a clock that never goes back, every reply is the ideal broker's if and only if no publish is crowded |
| Ideal.SweepEffect | internal/queue/durable.go:267-280 | a publish first removes only expired completions, always including the one under its own id, and leaves exactly the backlog: those beyond a batch, but for its own when the batch does not reach it |
| Ideal.RankDecides | internal/queue/durable.go:565-581 | an expired completion is in the batch exactly when fewer than a batch expire before it |
| Ideal.PublishDecides | internal/queue/durable.go:255-310 | every answer of a publish with its exact condition: duplicate or conflict for an id held or unexpired, by content; full for want of a place or of bytes, then full of ids, counting the completions left behind; invalid for its form; accepted otherwise, for no other reason refused |
| Acceptance.AcceptedExactly | internal/queue/durable.go:255-310 | over any run on a new database with a clock that never goes back, a publish is accepted if and only if its event is publishable, its id is not retained, the events accepted and not ACKed are fewer than the capacity, they and the ACKs still remembered and the completions left behind are fewer than the identities allowed, and the bytes fit |
| Acceptance.LastingCounted | internal/queue/durable.go:427-463 | over a run the completions on record that expire after a time are as many as the effective ACKs whose retention lasts beyond it |
| IndexKey.KeyRoundTrip | internal/queue/durable.go:235-246 | a 16-byte key decodes to its due time and sequence number |
| IndexKey.KeyOrder | internal/queue/durable.go:235-246 | byte order of keys is (due, sequence) order exactly when both due times have the same sign |
| IndexKey.LexIsNumeric | internal/queue/durable.go:235-240 | byte-lexicographic order of equally long big-endian numbers is numeric order |
| IndexKey.DuesFit | internal/queue/durable.go:53-57 | under validated durations and clocks a year short of the maximum, no due time overflows 64 bits in any run |
| IndexKey.ReachableKeysFaithful | internal/queue/durable.go:235-247 | in every reachable state the byte order of any two keys is the broker's order and the due time reads back |
| Postgres.Store.constructor | migrations/001_initial.sql:1-24 | the store starts with empty tables |
| Postgres.Store.Persist | internal/storage/postgres/store.go:79-118 | success exactly for a valid event whose commit was confirmed; a failed statement leaves both tables as they were, a lost confirmation does not; a duplicate changes nothing |
| Postgres.PersistConsistent | internal/storage/postgres/store.go:96-116 | persisting keeps: GPUs listed are exactly those with telemetry, first_seen is the minimum, last_seen the maximum, the metadata that of the greatest (processed_at, event_id) |
| Postgres.RowsAreEvents | internal/storage/postgres/store.go:96-102 | after any deliveries the telemetry table holds exactly the valid events among them |
| Postgres.FirstArrivalStays | internal/storage/postgres/store.go:96-102 | a row holds the event of the first valid delivery under its id and the database time it was committed at, whatever comes later; without such a delivery there is no row |
| Postgres.MetadataDetermined | internal/storage/postgres/store.go:103-116 | the rows determine the GPU table |
| Postgres.DeliveriesConverge | internal/storage/postgres/store.go:96-116 | deliveries of the same events in any order and with any repetition leave the same rows (ingestion times apart) and the same GPU table |
| Collector.DelayBounds | internal/collector/collector.go:37-42 | the delay before retry n is the minimum doubled n times, or the maximum once doubling comes within one unit of it; it never falls |
| Collector.Deadline | internal/collector/collector.go:50-53 | the deadline is the earlier of the end of the work time and 250 ms before the lease expires |
| Collector.Retry | internal/collector/collector.go:71-90 | one call is repeated, never after the deadline or cancellation; it ends in success, a final receipt error or for want of time; pauses are within half and all of the delay |
| Collector.Process | internal/collector/collector.go:49-70 | every call is made before the end of the work time and more than 250 ms before the lease expires; the trace is commits, then ACKs, or one NACK the broker can take over and over; it succeeds exactly when the last call is a receipt that succeeded, and gives up only for want of time or on a final receipt error |
| Collector.CommitBeforeAck | internal/collector/collector.go:49-70 | every trace is failed commits, at most one successful commit, then only ACKs of this delivery with its token; or, for an invalid event, one fixed NACK over and over, permanent, with the delivery's id and token and in a form the broker takes |
| Collector.WorkConcat | internal/collector/collector.go:60-69 | the work after two traces in a row is the work after the second, started where the first left off |
| Pipeline.ActionGood | internal/collector/collector.go:49-90 | every action of broker, database, network or worker keeps the pipeline invariant: records, deliveries, persist messages and rows are of accepted events, completed ids have rows, only invalid events are quarantined |
| Pipeline.NothingIsLost | internal/queue/durable.go:255-603 | in every reachable world each accepted event that shares its id with no other is pending with its content or is in its row; every row holds an accepted event; each id ever accepted is held or has a row; completed ids have rows; quarantined events are invalid |
| Pipeline.NoAckBeforeCommit | internal/collector/collector.go:60-69 | in every reachable world an ACK was only ever sent for what was delivered under its token, with a row of that id committed, the event's own if no other was accepted under the id; and no NACK for a valid event |
| Pipeline.MessagesTakeEffect | internal/collector/collector.go:54-69 | in every reachable world an ACK that reaches the broker completes its event exactly if the lease is still held, and a NACK quarantines its event exactly if, besides, quarantine has room |
| Reuse.FirstRowDecides | internal/storage/postgres/store.go:96-102 | whatever happens after an event is accepted, it is pending or in its row exactly when it is pending or its id had no other event's row at the acceptance |
| Reuse.OwnedStep | internal/storage/postgres/store.go:96-102 | an event in its row, or pending with the id to itself and no row yet, stays so through every action |
| LostRow.SecondEventIsLost | internal/storage/postgres/store.go:96-102 | a reachable world in which an accepted, valid, acknowledged event is neither held nor in any row |
| EndToEnd.AcceptedWasPublished | internal/queue/durable.go:295-310 | in every reachable world only published payloads were accepted |
| EndToEnd.EveryEventIsKept | internal/storage/postgres/store.go:96-102 | in every reachable world whose publishes carry one content per id, every accepted event is pending or in its row |
| EndToEnd.StreamedEventsAreKept | internal/streamer/run.go:133-140 | when the publishes are the calls of a streamer's run, whose offers have distinct ids, every accepted event is pending or in its row |
| MemoryQueue.Memory.constructor | internal/queue/memory.go:52-57 | a new queue is empty and valid |
| MemoryQueue.Memory.Publish | internal/queue/memory.go:59-102 | for an id queued or buried the answer is duplicate exactly if the same content was accepted last under it, conflict otherwise; for another id full, then full of ids, exactly when ring or ids are used up, and else the event joins the end of the queue; if the clock never went back, buried means unexpired; nothing else changes but popped tombstones |
| MemoryQueue.Memory.Receive | internal/queue/memory.go:104-120 | the oldest queued event comes out, is remembered until the ttl is over, and accepted events stay received events followed by queued events |
| MemoryQueue.Memory.Refresh | internal/queue/memory.go:75-83 | if the clock never went back, exactly the ids queued and those with an unexpired tombstone are known after popping |
| MemoryQueue.Memory.Decide | internal/queue/memory.go:85-102 | every answer with its exact condition, against what was accepted last under the id, and what each leaves |
| MemoryQueue.Memory.Bury | internal/queue/memory.go:115-118 | a received id keeps its content and is remembered for the ttl |
| MemoryQueue.Memory.PopExpired | internal/queue/memory.go:75-83 | popping keeps ring, map and tombstones in agreement |
| MemoryQueue.Memory.Append | internal/queue/memory.go:97-98 | writing at head + size modulo the length appends to the queue |
| MemoryQueue.Memory.Advance | internal/queue/memory.go:110-113 | clearing the head cell and moving on removes the front of the queue |
| MemoryQueue.Memory.Admit | internal/queue/memory.go:97-101 | admission appends the event and remembers its content |
| MemoryQueue.Memory.Report | internal/queue/memory.go:122-126 | the statistics: accepted is received plus depth, and the ids known are those queued and those buried |
| MemoryQueue.KnownCount | internal/queue/memory.go:91-96 | the ids known are the disjoint union of queued ids and tombstone ids |
| MemoryQueue.PopIsComplete | internal/queue/memory.go:75-83 | on tombstones in order of expiry, popping the front removes exactly the expired ones |
| MemoryQueue.WindowIsExact | internal/queue/memory.go:75-83 | over any run whose clock never goes back, tombstones stay in order and popping removes exactly the expired ones |
| Source.CSV.Open | internal/streamer/csv.go:40-60 | a file opens at its start, and is refused exactly for a repeated or a missing header |
| Source.CSV.Reset | internal/streamer/csv.go:62-84 | reading the header finds exactly the column of each name, and fails exactly for a repeated or a missing one |
| Source.CSV.Next | internal/streamer/csv.go:88-133 | what has been read is always the file over and over, each record with its pass and place; each call reads at most twice; positions never go back; the empty-replay error is given exactly at the end of a file without a valid row |
| Source.LayoutFinds | internal/streamer/csv.go:71-83 | the column map holds exactly the header's names, each at a column of that name |
| Source.DecodesExactly | internal/streamer/csv.go:114-133 | a record decodes to the measurement that says of each column what the record holds under that column's name, exactly if it is as wide as the header and that measurement is valid and not too large |
| Source.ColumnsMayMove | internal/streamer/csv.go:114-132 | records with the same fields under the same names mean the same, wherever the columns are |
| Source.StreamIncreases | internal/streamer/csv.go:94-108 | positions strictly increase in (replay, row) along the stream |
| Source.StreamIsDense | internal/streamer/csv.go:96-106 | reads never exceed the file size times one more than the valid rows read |
| Streamer.EventIdInjective | internal/streamer/run.go:133-133 | one producer's event ids are equal only for equal positions |
| Streamer.EventIdReads | internal/streamer/run.go:133-133 | an event id is the producer, a numeral that reads as the replay and one that reads as the row, apart by colons |
| Streamer.Send | internal/streamer/run.go:138-165 | every retry resends the same event; it stops exactly at acceptance, a final error, the end of the shutdown time or an interrupted pause; each pause is within half and all of its backoff |
| Streamer.PaceDoubles | internal/streamer/run.go:157-164 | the backoff before retry n is the minimum doubled n times, capped at the maximum |
| Streamer.Fetch | internal/streamer/run.go:111-132 | one reading of the source with the stops around it yields the next record or a stop and loses nothing else |
| Streamer.TakeTurn | internal/streamer/run.go:110-165 | a turn reads at most one record and publishes only a valid event carrying that record under its replay and row, stamped with the whole microsecond of the clock |
| Streamer.Loop | internal/streamer/run.go:110-167 | the loop keeps the books of events offered, calls made and rows read |
| Streamer.Run | internal/streamer/run.go:55-167 | the events offered are the valid rows in order, under their positions, with distinct ids and the whole microsecond of a clock reading, none skipped but a last one when stopped; accepted + unconfirmed events were offered, at most one unconfirmed; as long as each publish is retried finitely often, a run with a count takes no more readings than count passes over the file |
| Query.RoundedRange | internal/storage/postgres/read.go:62-74 | ceiling the lower and flooring the upper bound lets in no instant outside the nanosecond range and loses no whole microsecond inside it |
| Query.OrderUnique | internal/storage/postgres/read.go:75-75 | the rows of a query have one order by (processed_at, event_id) |
| Query.AnswerExists | internal/storage/postgres/read.go:75-75 | the query always has an answer |
| Query.PersistedWhole | internal/storage/postgres/store.go:79-118 | every committed row was processed at a whole microsecond |
| Query.LimitedWriter.constructor | internal/api/api.go:144-147 | a writer starts with the whole budget |
| Query.LimitedWriter.Write | internal/api/api.go:144-156 | a write happens whole or not at all, exactly when it fits what is left |
| Query.Emit | internal/api/api.go:189-203 | the rows are written joined by commas, and all of them exactly when they fit and time is not up |
| Query.SendTelemetry | internal/api/api.go:160-232 | 200 exactly when the GPU exists, time is not up and the whole framed array fits the budget; the body is then every row of the exact nanosecond range in order, each datapoint saying field by field what its row says; 404 exactly for an unknown GPU asked for in time; otherwise 503 with no row |

## Left out

- SHA-256 is taken as injective (a payload stands for its own hash), the JSON round trip as the identity with the text length as a parameter, and random tokens as parameters that a theorem may assume never repeat.
- bbolt and PostgreSQL are atomic transactions that roll back on error; fsync, file locking, file size and pool behaviour are not modelled. The database's text order is any strict total order.
- Index buckets are maps compared by (due, sequence); that the byte keys give this order is proved in `IndexKey` for clocks from 1970 on, and a clock before 1970 is covered only by `IndexKey.KeyOrder`.
- Sequence numbers, attempts and statistics are unbounded integers; their 64-bit wrap-around is not modelled.
- Text is a sequence of characters: invalid UTF-8 cannot occur, and lengths in bytes are lengths in characters.
- Goroutines, the gate and notify channels, tickers, the polling loop of `Lease` and the shutdown watchers: each committed transaction is one atomic step, and cancellation is an input.
- HTTP transport, status mapping, request parsing (including the timestamp syntax of the range parameters), configuration, observability and the command-line programs.
- `Collector.Run`, its worker pool and its drain deadline: `Pipeline` allows any number of workers, crashing and restarting at any point.
- The diagnostic consumer, which ACKs without persisting: `Pipeline` assumes that collectors are the only consumers.
- Source timestamps are stored with nanoseconds here; PostgreSQL keeps microseconds of them.
- The GPU list query and its response, which share `Query.LimitedWriter` and the framing with the telemetry query.
- The rate limit of the streamer appears only as a wait that a stop may interrupt; the interval is not computed.
- The CSV file does not change while it is open, and the syntax of CSV, RFC 3339 and numbers is a parameter.
- The database's answer to the telemetry query is a parameter required to be right for its bounds; `Query.AnswerExists` and `Query.OrderUnique` show that there is exactly one.
- The console, deployment, scripts and migrations other than the two tables.
- Query.SendTelemetry: does not model errors of the temporary file or of the transfer after the status is sent, because they are outside the process.
