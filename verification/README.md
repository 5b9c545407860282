# Verification of the Salesforce archiver

A Dafny model of the parts of the archiver on which its promises rest, with proofs
that the promises hold over whole runs:

- **Stream archiving** (`Topic`, `Grouping`, `Lease*`, `Protocol*`, `Fencing`, `World`,
  `Subscriber`). A step system of one replayable topic server, one fenced checkpoint
  store, one append-only archive and any number of collectors. Every step is one
  atomic action of one party; events are published, the window is trimmed, leases
  expire, writes store without reporting it, and commits apply without reporting it
  or arrive late, between any two of them. The subscriber is a class with the
  program's fields and loops, run in a world that changes around it; each of its
  external calls is a step of the protocol, so the theorems about runs hold of it.
  The Redis scripts and the in-memory store are classes proved equal to one fenced
  cell, and the cell's operations are proved to be the protocol's steps.
- **Polling** (`EventLog*`, `Collector`, `CustomQuery*`, `Paging`). Watermark, overlap,
  markers, attempt counters, quarantine and tombstones, chunked writes and page
  cursors, over any history of failing calls, crashes and forgotten cache entries.
- **Flattening** (`Flatten*`, `Flattener`, `Calendar`, `Numerals`). The schema parser,
  resolution of names, the conversion of decoded Avro values with every choice the
  program leaves open, and the exact test, on the schema alone, for whether two
  values can flatten alike.
- **Archive and verifier** (`Paths*`, `Encode`, `Sorting`, `Verify*`, `Verifier`,
  `Reconcile`, `LedgerOrder`). Object keys, writer and scanner, the verifier's report
  for any completion order of its workers, and what the order of a ledger's files
  shows.
- **Cache** (`MemoryCache`). The expiring cache against a plain timed table.

Which calls fail is an input; JSON, compression, hashing
and clocks are parameters.

## What turned out not to hold

- The mock topic server reads a subscriber's demand once for the batch and again for the
  keepalive. A request that arrives in between lets a keepalive move the cursor over
  an undelivered event, and the collector then commits it unseen
  (`ProtocolRace.RacedKeepaliveLoses` is such a run). Likewise a live cursor overtaken
  by retention skips the trimmed events (`ProtocolRace.TrimmedWindowLoses`).
  `Topic.Sound` is the exact condition for a round, and
  `ProtocolTheorems.NoLossWhenSound` the exact condition for a run, to jump over
  nothing. Every jump over an unarchived event for the holder of the lease can end so:
  the holder and its server need only go on (`ProtocolLoss.UnsoundRoundLoses`), and
  nothing else is lost that way (`ProtocolLoss.RoundLosesExactly`).
- The stored checkpoint can move back: a commit that was not reported, was retried and
  gone beyond, and arrives late while its sender still holds the lease, is accepted
  (`ProtocolRace.LateCommitMovesBack`). It happens exactly so
  (`ProtocolTheorems.CheckpointNeverMovesBack`), and loses nothing: what the
  highest checkpoint ever stored covered stays archived (`ProtocolTheorems.NoLoss`).
- Flattening drops a union's wrapper, so branches can be confused: a string and an enum
  symbol flatten alike (`FlattenSchemas.StringBesideEnumCollides`), a string and a
  record never do. `FlattenSchemas.SchemaInjective` is the exact condition on a
  schema, decided by a search of bounded length; `UnionInjective` and
  `LeafUnionInjective` are its readings for one union.
- A reference that two declared names match by their last components may be taken for
  either at every call. Parsed schemas show that the same event may then keep or lose a
  field without an error (`FlattenEvents.AmbiguityLosesAField`), or flatten or fail
  (`AmbiguityFails`). `FlattenOutcomes.OutcomesExactly` is the exact condition on a
  schema under which nothing depends on the choice, decided by a search of bounded
  length; clear references are enough for it (`ClearIsOneReading`), but not needed
  (`FlattenEvents.HarmlessAmbiguity`).
- A key component that needed no sanitising can equal the hashed form of one that did.
  `Paths.SanitizedAlike` lists every way two values can share a component, and
  `Paths.EveryHashHasAnAlias` gives such a value for every one that is hashed.
- The verifier's example rows depend on the order of the expected rows exactly when more
  than ten occurrences are unseen and they are not all the same identifier
  (`LedgerOrder.OrderMatters`); for the orders the files of a ledger allow,
  `LedgerOrder.FileOrderMatters` is exact and `LedgerOrder.TwoFilesDiffer` a ledger that
  shows it. Nothing else in the report depends on that order.

## Model

| member | source | states |
|---|---|---|
| `ProtocolTheorems.NoLoss` | internal/integration/stream/subscriber.go:130-131 | Over every run of any number of collectors with crashes, lease expiry, reconnects, writes and commits that fail or are not reported, and commits that arrive late, every event after the start of the session that made the first commit and up to the stored checkpoint, and even up to the highest one ever stored, is in the archive as published, unless the server itself jumped over it |
| `ProtocolTheorems.NoLossWhenSound` | internal/integration/stream/subscriber.go:314-489 | A run jumps over nothing if and only if every server round in it is free of the two races of the delivery loop; then the archive holds every event up to the highest checkpoint |
| `ProtocolBase.BaseIsAnOpening` | internal/mocksf/pubsub.go:214-237 | The base of every run is where some session was opened without a stored position: at EARLIEST just before the oldest event retained at that moment, otherwise at the newest event published by then |
| `ProtocolTheorems.SoundRunSkips` | internal/mocksf/pubsub.go:298-347 | The set of events the server jumped over stays empty exactly on the runs whose every round is sound |
| `ProtocolRace.RacedKeepaliveLoses` | internal/mocksf/pubsub.go:337-347 | A concrete run in which a fetch request arrives between the two readings of demand: the collector commits an event that was never sent and is not in the archive |
| `ProtocolRace.TrimmedWindowLoses` | internal/mocksf/pubsub.go:305-321 | A concrete run in which retention trims an event past a live cursor: the collector commits the next event, and the trimmed one was never sent and is not in the archive |
| `ProtocolLoss.UnsoundRoundLoses` | internal/mocksf/pubsub.go:298-347 | From any reachable state, when a round jumps over an unarchived event for the holder of the lease, steps of that holder and its server alone lead to a checkpoint that covers the event while it is not in the archive |
| `ProtocolLoss.RoundLosesExactly` | internal/mocksf/pubsub.go:298-347 | An event not yet archived or jumped over can be lost by going on after a round, without a later jump over it, if and only if that round jumps over it |
| `ProtocolLoss.GoOn` | internal/integration/stream/subscriber.go:391-488 | A holder that is left alone works off all that is under way and ends up waiting with nothing buffered, on the wire or asked for, unless a commit covers the missing event first |
| `ProtocolRace.LateCommitMovesBack` | internal/checkpoint/redis.go:20-26 | A concrete run whose last step, the late arrival of a retried commit, moves the checkpoint from 2 back to 1 |
| `ProtocolTheorems.NothingInvented` | internal/integration/stream/subscriber.go:588-644 | Everything in the archive was published, at that position and with that type |
| `ProtocolTheorems.CheckpointNeverMovesBack` | internal/checkpoint/redis.go:20-26 | From any reachable state on, no step of a run moves the stored checkpoint backwards if and only if no overtaken commit of the lease's holder arrives late in it; then the checkpoint ends no lower than it stood |
| `ProtocolTheorems.StepGoesBack` | internal/checkpoint/redis.go:20-26 | One step moves the checkpoint back exactly when it is the arrival of a commit below it whose sender holds the lease; a collector's own attempt never does |
| `ProtocolTheorems.RunGrows` | internal/checkpoint/redis.go:20-26 | No run takes anything out of the log or the archive or lowers the highest checkpoint, and the base is fixed by the first commit |
| `ProtocolTheorems.RunAtPeak` | internal/checkpoint/redis.go:20-26 | While no overtaken commit arrives the stored checkpoint is the highest ever stored |
| `ProtocolTheorems.FencedForGood` | internal/integration/stream/subscriber.go:684-715 | An owner that has lost the lease never gets it back, and neither its later steps nor any commit of its own that arrives late changes the checkpoint |
| `ProtocolTheorems.BoundedRearchiving` | internal/integration/stream/subscriber.go:429-453 | Once every collector resumes from a stored checkpoint, and while the server jumps over nothing, anything archived from then on lies at most MaxEvents beyond the highest checkpoint stored, through all crashes, stale holders and late commits; without overtaken commits that is the stored checkpoint |
| `ProtocolTheorems.DemandConserved` | internal/integration/stream/subscriber.go:480-486 | In every reachable session client pending equals what the server owes plus events and requests in flight; every request asks for 1 to Appetite (at most 100) events, and a waiting client has more than half its appetite outstanding |
| `ProtocolTheorems.BufferExact` | internal/integration/stream/subscriber.go:428-453 | In every reachable session without jumps, buffer, response in hand and wire together are exactly the run of events from the committed position to the server's cursor |
| `ProtocolTheorems.ClosingBufferExact` | internal/integration/stream/subscriber.go:361-375 | Whatever ends a session, what is left to flush is exactly the run of events after the committed position, at most MaxEvents of them |
| `ProtocolTheorems.GrantedByTopic` | internal/integration/stream/subscriber.go:329-338 | The position the protocol grants a session is the one the topic server resolves from the first fetch request |
| `ProtocolCommits.StepInv` | internal/integration/stream/subscriber.go:170-489 | Every step of every party, late commits included, keeps the protocol's invariant |
| `ProtocolInvariant.CollectorStays` | internal/integration/stream/subscriber.go:130-157 | A collector that does nothing stays in order whatever the others do, as long as a lease it still has was never away |
| `Protocol.Normalised` | internal/integration/stream/subscriber.go:98-108 | The bounds a collector runs with, given any option values: what is outside them becomes the default |
| `Surroundings.World.Take` | internal/integration/stream/subscriber.go:170-263 | One step of the protocol: the state stays reachable and only grows |
| `Surroundings.World.Interfere` | internal/integration/stream/subscriber.go:275-306 | Anything others, the environment and the server do between two actions leaves the collector's own affairs alone |
| `Surroundings.World.Commit` | internal/checkpoint/redis.go:113-126 | A call that works stores the position exactly for the holder of the lease; one that fails may have reached the store all the same, or may reach it later |
| `Surroundings.World.Write` | internal/archive/encode.go:166-196 | A call that works has archived the group; one that fails may have archived it, and changes nothing of the collector |
| `Surroundings.World.Subscribe` | internal/integration/stream/subscriber.go:329-341 | A session is refused exactly when its stored position has been trimmed away or was never published |
| `Surroundings.World.Load` | internal/integration/stream/subscriber.go:195-210 | Loading hands out the stored checkpoint; without one a collector that may not start so stops |
| `Subscribing.Subscriber.WriteWithRetry` | internal/integration/stream/subscriber.go:646-671 | Success means the whole group is archived; it gives up, fatally, only after as many failing attempts as configured, or fewer when interrupted |
| `Subscribing.Subscriber.Commit` | internal/integration/stream/subscriber.go:684-715 | Success sets the committed position; only a lost lease or an exhausted or interrupted budget of failing attempts is fatal, and leaves it |
| `Subscribing.Subscriber.Flush` | internal/integration/stream/subscriber.go:588-644 | A successful flush has archived every buffered record, committed the last position and emptied the buffer; only a failing call or a lost lease stops it |
| `Subscribing.Subscriber.HandleEvent` | internal/integration/stream/subscriber.go:429-453 | One event: a missing schema ends the session with the buffer kept, an undecodable event is fatal, a full buffer is flushed, and nothing else happens |
| `Subscribing.Subscriber.HandleEvents` | internal/integration/stream/subscriber.go:428-454 | The events of a response in order, each counted off the demand; the committed position and what waits are the specified progress |
| `Subscribing.WholeBatches` | internal/integration/stream/subscriber.go:449-453 | That progress commits whole batches of MaxEvents: what waits is the remainder, and the committed position is the last one before it |
| `Subscribing.Subscriber.Pin` | internal/integration/stream/subscriber.go:456-464 | While nothing is committed, what waits is flushed at once |
| `Subscribing.Subscriber.Keep` | internal/integration/stream/subscriber.go:466-478 | The stored checkpoint moves to the newest replay ID exactly on an empty response with nothing buffered and demand outstanding; if its commit fails the session is over, cleanly exactly when a shutdown is under way |
| `Subscribing.Subscriber.TopUp` | internal/integration/stream/subscriber.go:480-486 | At half the appetite or less the demand is filled up, unless that call fails; afterwards more than half is outstanding |
| `Subscribing.Subscriber.HandleResponse` | internal/integration/stream/subscriber.go:428-487 | One response worked off: the exact progress and demand, and a committed position once there was an event; without failing calls only a lost lease ends the session |
| `Subscribing.Subscriber.CloseSession` | internal/integration/stream/subscriber.go:361-375 | The deferred flush: everything buffered is archived and committed, unless a call fails or the lease is lost |
| `Subscribing.Subscriber.ClassifyStreamError` | internal/integration/stream/subscriber.go:531-562 | A rejected replay ID is fatal, other errors change nothing, and when a rejection is counted or the count starts afresh |
| `Subscribing.GivesUpExactly` | internal/integration/stream/subscriber.go:531-575 | Over any mixture of failed logins, sessions left and streams broken, with data or without: a collector gives up at the first rejected replay ID, or the first failed login or rejection that makes five since the last session with data, and nowhere else |
| `Subscribing.CountIsInARow` | internal/integration/stream/subscriber.go:569-575 | Its count is the number of failed logins and rejections since the last session with data, a rejection after data counting only if the login fails too |
| `Subscribing.RejectionsGiveUp` | internal/integration/stream/subscriber.go:569-575 | Sessions rejected before any data are retried, and given up at exactly the fifth in a row, whether or not the login works |
| `Subscribing.Subscriber.HandleBrokenStream` | internal/integration/stream/subscriber.go:407-410 | The buffer is kept for every error that is neither a rejection nor about the replay ID, and dropped exactly when the error is fatal |
| `Subscribing.Subscriber.Turn` | internal/integration/stream/subscriber.go:391-488 | One turn of the select loop, and what it means for buffer and count: lost lease, shutdown, silence, flush timer, response or broken stream |
| `Subscribing.Subscriber.FollowStream` | internal/integration/stream/subscriber.go:329-489 | One stream followed to its end: the count of failures is the one its mishap leads to; it is fatal when that says so, and otherwise only for a failing call or a lost lease |
| `Subscribing.Subscriber.Session` | internal/integration/stream/subscriber.go:314-489 | A failed login is counted, a stream that cannot be opened is tried again, and a session that does not end for good leaves an empty buffer and a collector that can reconnect |
| `Subscribing.Subscriber.FollowSessions` | internal/integration/stream/subscriber.go:221-263 | Session after session, and none after a mishap that leaves no hope |
| `Subscribing.Subscriber.Run` | internal/integration/stream/subscriber.go:172-263 | On every way out the lease is given up, the archive covers base to checkpoint, and no session followed a mishap at which the collector has to give up |
| `Grouping.GroupByKind` | internal/integration/stream/subscriber.go:597-605 | The groups of a flush are the types in order of first appearance, each with its own records |
| `Grouping.KindsAppear` | internal/integration/stream/subscriber.go:597-605 | The types stand in the order of their first records |
| `Grouping.GroupsPartition` | internal/integration/stream/subscriber.go:608-627 | The groups together hold every record of the batch exactly once |
| `Grouping.GroupKeepsOrder` | internal/integration/stream/subscriber.go:600-605 | Each group is the batch read at increasing positions |
| `Topic.ReplayRoundTrip` | internal/mocksf/pubsub.go:100-111 | A sequence number survives its replay ID |
| `Topic.ReplayInjective` | internal/mocksf/pubsub.go:106-111 | Exactly the eight-byte strings are replay IDs, and each is the ID of one number |
| `Topic.Respond` | internal/mocksf/pubsub.go:298-351 | A round conserves demand, never sends more than was asked for, and sends ascending events between the cursors |
| `Topic.StartOwes` | internal/mocksf/pubsub.go:214-237 | A subscription at EARLIEST is owed every retained event, at LATEST none published so far, and after a replay ID those that follow it, exactly if none of them is gone and it was published |
| `Topic.RoundSendsAll` | internal/mocksf/pubsub.go:305-321 | A round sends the oldest undelivered retained events, as many as demand and batch size allow |
| `Topic.LaterOnlyCounts` | internal/mocksf/pubsub.go:346-349 | Demand that arrives before the third reading changes the reported remainder and nothing else |
| `Topic.RespondGapFree` | internal/mocksf/pubsub.go:305-347 | A round jumps over nothing if and only if it is free of the two races |
| `Topic.FreshDemandIsSound` | internal/mocksf/pubsub.go:337-345 | With demand read once and an intact window a keepalive moves the cursor over nothing |
| `Topic.RacedKeepaliveLosesAnEvent` | internal/mocksf/pubsub.go:340-345 | One event, demand 0 at the batch and 5 at the keepalive: the event is jumped over |
| `Topic.Log.Publish` | internal/mocksf/pubsub.go:114-149 | Numbers stay contiguous through publishing and trimming, and the window holds the newest events with their identifiers and payloads; an event that cannot be encoded ends the call with those before it published and nothing trimmed |
| `Topic.Log.Resolve` | internal/mocksf/pubsub.go:214-237 | The first request is resolved to a cursor, or rejected outside the retained window |
| `Topic.Log.Collect` | internal/mocksf/pubsub.go:305-321 | A batch is the next retained events after the cursor with their identifiers |
| `Topic.RoundAccounts` | internal/mocksf/pubsub.go:282-357 | Each event between start and cursor is sent once or jumped over, after every round |
| `Topic.Subscription.Round` | internal/mocksf/pubsub.go:282-357 | A round of the delivery loop on the live topic: nothing twice, nothing beyond demand, a jump exactly when the round is not sound |
| `Topic.DeliveredExactly` | internal/mocksf/pubsub.go:298-347 | Without jumps the batches of a subscription concatenate to exactly start to cursor |
| `Lease.LostStays` | internal/checkpoint/redis.go:20-26 | Who does not hold the lease does not hold it later without acquiring |
| `Lease.FencedOwner` | internal/checkpoint/redis.go:113-141 | For any interleaving of timed operations, a lapsed owner's commits, renewals and clears report a lost lease and its operations change nothing |
| `Lease.TakeoverFences` | internal/checkpoint/redis.go:61-81 | Once another owner has been let in, nothing the one before still has under way succeeds or changes the cell |
| `Lease.ReplayFenced` | internal/checkpoint/redis.go:20-33 | A replay ID changes only by a commit or clear of the holder, to exactly what was asked |
| `LeaseHistory.HeldExactly` | internal/checkpoint/redis.go:61-152 | Over any timed history of either store, an owner holds the lease if and only if its last successful acquire, renewal or commit still lasts and it has not released since |
| `LeaseHistory.LetInExactly` | internal/checkpoint/redis.go:61-81 | Acquire lets an owner in exactly when nobody's last claim lasts; the memory store also lets the holder in again, and Redis refuses terms under a second |
| `LeaseHistory.KeepAlive` | internal/checkpoint/redis.go:113-137 | Acquired once and renewed or committed within every term, the lease stays: at every later operation the owner holds it until at least a term after its last claim, its own claims succeed and nobody else is let in |
| `LeaseHistory.StoredExactly` | internal/checkpoint/redis.go:113-152 | The stored replay ID is the one of the last successful commit unless a clear came after it; expiry, takeover and release leave it alone |
| `Lease.RedisLease.TryAcquire` | internal/checkpoint/redis.go:61-81 | SET NX on the two keys is the cell's acquire; other keys are untouched |
| `Lease.RedisLease.Commit` | internal/checkpoint/redis.go:113-126 | The commit script on the two keys is the cell's commit |
| `Lease.RedisLease.Renew` | internal/checkpoint/redis.go:128-137 | The renew script is the cell's renew |
| `Lease.RedisLease.Release` | internal/checkpoint/redis.go:139-141 | The release script is the cell's release |
| `Lease.RedisLease.Clear` | internal/checkpoint/redis.go:143-152 | The clear script is the cell's clear |
| `Lease.MemoryLease.TryAcquire` | internal/checkpoint/memory.go:71-81 | Acquire under the lock is the cell's acquire, re-entrant for its owner |
| `Lease.MemoryLease.Commit` | internal/checkpoint/memory.go:114-140 | With every combination of injected faults: a fault before leaves the cell alone, a fault after only hides the success |
| `Lease.MemoryLease.Renew` | internal/checkpoint/memory.go:142-151 | Renew is the cell's renew |
| `Lease.MemoryLease.Release` | internal/checkpoint/memory.go:153-161 | Release is the cell's release |
| `Lease.MemoryLease.Clear` | internal/checkpoint/memory.go:163-172 | Clear is the cell's clear |
| `Fencing.HistorySimulated` | internal/checkpoint/redis.go:61-152 | Every history of collectors working against either store, with its own clock, expiry, byte replay IDs and late commits, is a run of the protocol |
| `Fencing.StoredReplayIdIsCovered` | internal/checkpoint/redis.go:20-26 | Over every such history the bytes the store really holds are the replay ID of a position up to which, from the base on, every event is archived or was jumped over |
| `Fencing.EventSimulated` | internal/checkpoint/redis.go:14-40 | Each store operation, and each passing of time, is one protocol step or none |
| `Fencing.AcquireIsAStep` | internal/checkpoint/memory.go:71-86 | Either store lets a waiting collector in exactly when the protocol does; re-entrancy makes no difference |
| `Fencing.CommitIsAStep` | internal/checkpoint/redis.go:20-26 | A commit that reaches either store is the protocol's commit step, and succeeds exactly for the holder |
| `Fencing.ArrivalIsAStep` | internal/checkpoint/redis.go:20-26 | So is one that arrives late: the store accepts it exactly while its sender holds the lease |
| `EventLogProofs.WatermarkSafety` | internal/integration/eventlog/collector.go:89-103 | From the first stored watermark on, over any history of polls, crashes and forgotten cache entries, every file visible within the overlap of its CreatedDate is archived or still no older than watermark minus overlap |
| `EventLogProofs.PollKeepsSafe` | internal/integration/eventlog/collector.go:156-209 | One poll keeps that, however it ends |
| `EventLogProofs.SafeFromTheStart` | internal/integration/eventlog/collector.go:97-102 | The same over every history that begins with an empty cache |
| `EventLogProofs.StaysListable` | internal/integration/eventlog/collector.go:80-95 | So an unarchived file is on every later listing that can see it |
| `EventLogProofs.SuccessArchivesEverything` | internal/integration/eventlog/collector.go:179-203 | A poll that succeeds has archived every file the watermark answers for |
| `EventLogProofs.WatermarkAdvances` | internal/integration/eventlog/collector.go:198-203 | The watermark never goes back, stays on whole milliseconds and never passes the poll's window |
| `EventLogProgress.PollProgresses` | internal/integration/eventlog/collector.go:189-204 | A poll that reads, lists and saves, and that finishes or stops at a file, stores the millisecond floor of the greatest of the old watermark and the dates of the files it passed; it stores something as soon as one was passed |
| `EventLogProgress.OtherwiseNothingStored` | internal/integration/eventlog/collector.go:179-204 | Any other poll leaves the watermark as it was |
| `EventLogProgress.StaysStored` | internal/integration/eventlog/collector.go:125-131 | Over any history a stored watermark is never lost |
| `EventLogProgress.NothingMissed` | internal/integration/eventlog/collector.go:89-103 | After any history, and any pause, a file the watermark answers for is on the next complete listing that can see it, or was archived before |
| `EventLogProgress.ListedExactly` | internal/integration/eventlog/collector.go:80-103 | A listing is exactly the visible files from the overlap before the watermark, or the initial interval before the clock, to the end, in whole seconds |
| `EventLogProgress.FetchedOnce` | internal/integration/eventlog/collector.go:137-154 | After a walk that passed everything and stored its markers, walking the same listing again fetches and changes nothing |
| `EventLogProofs.StopNeverPasses` | internal/integration/eventlog/collector.go:187-194 | A poll that stops at a file never moves the watermark past it; a crash or an unreadable date does not move it |
| `EventLogProofs.WalkPasses` | internal/integration/eventlog/collector.go:179-201 | The walk over a listing: all passed files are durable, and the mark is the newest of their dates |
| `EventLogProofs.PoisonPassedOnlyWhenDue` | internal/integration/eventlog/quarantine.go:47-87 | A malformed file is passed only after that many real parse failures and with a quarantine object, a refused one only after that many permanent refusals and with a tombstone, and a transient failure changes nothing |
| `EventLogProofs.QuarantinedOnTime` | internal/integration/eventlog/quarantine.go:47-87 | With a working cache a file that keeps failing to parse is passed at exactly the configured attempt, with a quarantine object and its counter gone |
| `EventLogProofs.RefusedOnTime` | internal/integration/eventlog/quarantine.go:142-206 | With a working cache a file whose downloads fail in any mixture is passed with a tombstone at exactly the permanent refusal the configuration names; other failures neither count nor reset the count |
| `EventLogProgress.PassedExactly` | internal/integration/eventlog/quarantine.go:47-206 | What one file leaves behind and exactly when it is passed, for every download and status: 400, 404 and 410 alone are permanent |
| `EventLogProgress.CountedExactly` | internal/integration/eventlog/quarantine.go:47-206 | Each counter moves with failures of its own kind alone |
| `EventLog.Normalised` | internal/integration/eventlog/quarantine.go:36-41 | The attempts, overlap and first window used, given any option values |
| `Collecting.LinesRebuildFile` | internal/integration/eventlog/quarantine.go:89-123 | The raw lines of a quarantined file concatenate to the file, byte for byte |
| `Collecting.LinesArePhysical` | internal/integration/eventlog/quarantine.go:97-121 | Each is one physical line, only the last may lack its newline |
| `Collecting.StreamRawLines` | internal/integration/eventlog/quarantine.go:90-123 | The reading loop emits those lines, numbered from 1 |
| `Collecting.Collector.HandleMalformedFile` | internal/integration/eventlog/quarantine.go:47-87 | The method on cache and archive does what the specification says |
| `Collecting.Collector.HandleRefusedFile` | internal/integration/eventlog/quarantine.go:142-206 | The same for a refused download |
| `Collecting.Collector.ArchiveLogFile` | internal/integration/eventlog/collector.go:211-265 | The same for one file |
| `Collecting.Collector.CollectLogFiles` | internal/integration/eventlog/collector.go:156-209 | The same for one poll, and whether it succeeds |
| `CustomQuery.QuerySafety` | internal/integration/eventlog/collector.go:377-458 | Over any history of succeeding and failing polls and lost markers, every row version visible within the overlap is archived, replaced, or still inside the next window |
| `CustomQuery.QueryKeepsSafe` | internal/integration/eventlog/collector.go:435-457 | One poll keeps that, and a failed one leaves the watermark |
| `CustomQuery.SuccessKeepsTheWindow` | internal/integration/eventlog/query/query.go:258-268 | A successful poll has archived every row version of its window, and the next window starts no later than this one ended |
| `CustomQuery.SweepKeeps` | internal/integration/eventlog/collector.go:402-454 | A sweep that succeeds keeps every row it was given; a marker always stands for a durable row |
| `CustomQueryProgress.SweepWrites` | internal/integration/eventlog/collector.go:402-454 | A sweep whose writes work writes exactly the rows that are new, in order, in objects of the configured size |
| `CustomQueryProgress.WrittenOnce` | internal/integration/eventlog/collector.go:435-454 | While its markers are there the same answer again writes nothing |
| `CustomQueryProgress.QueryProgresses` | internal/integration/eventlog/collector.go:455-458 | A poll in which everything works succeeds and stores the second in which its window ended; anything less leaves the watermark |
| `CustomQueryProgress.NoRowMissed` | internal/integration/eventlog/collector.go:377-400 | After any history, and any pause, a row version the watermark answers for is in the next answer, was kept before or has been replaced |
| `CustomQueryProgress.AnsweredExactly` | internal/integration/eventlog/collector.go:377-400 | An answer is exactly the visible row versions of the window, in whole seconds |
| `CustomQuery.DedupKeySeparates` | internal/integration/eventlog/collector.go:463-476 | Two rows of a query share a key exactly when identifier and timestamps agree |
| `CustomQuery.QueryCollector.Flush` | internal/integration/eventlog/collector.go:402-433 | One chunk: markers only after a durable write |
| `CustomQuery.QueryCollector.SweepRows` | internal/integration/eventlog/collector.go:435-454 | The loop over rows and chunks is the specified sweep |
| `CustomQuery.QueryCollector.CollectCustomQuery` | internal/integration/eventlog/collector.go:377-458 | One poll is the specified query |
| `Paging.RequestAll` | internal/integration/eventlog/query/query.go:143-160 | The page loop returns the whole result once and in order or an error; it succeeds exactly when no page it needs fails, the server does not truncate and the pages fit the limit, and leaves no cursor behind |
| `Paging.GetsThroughExactly` | internal/integration/eventlog/query/query.go:143-160 | The client gets through exactly when some page within the limit completes the answer and no page up to it fails |
| `Paging.CleanGetsThrough` | internal/integration/eventlog/query/query.go:144-146 | Without faults the page limit is the only obstacle |
| `Paging.FaultStops` | internal/integration/eventlog/query/query.go:148-150 | One failing page that is needed fails the whole query |
| `Paging.QueryServer.RespondPage` | internal/mocksf/rest.go:315-341 | One page and the cursor for the rest |
| `Paging.QueryServer.QueryMore` | internal/mocksf/rest.go:343-353 | A cursor is taken away before it is answered |
| `Paging.QueryServer.SameCursorTwice` | internal/mocksf/rest.go:343-353 | The second use of a cursor fails |
| `FlattenProofs.ParseDeclares` | internal/integration/stream/pubsub/grpcclient/flatten.go:63-136 | Parsing collects exactly the names a schema declares, at any depth, each with a type of that name; what a name becomes in a namespace is written out, not computed by the parser |
| `FlattenNames.DeclaredNames` | internal/integration/stream/pubsub/grpcclient/flatten.go:56-61 | A simple name declared in a namespace becomes the namespace, a dot and the name; a name with dots stands for itself |
| `FlattenNames.ReferredNames` | internal/integration/stream/pubsub/grpcclient/flatten.go:66-71 | So does a name that refers to a type |
| `FlattenNames.NamesInside` | internal/integration/stream/pubsub/grpcclient/flatten.go:88-109 | Inside a record of a namespace, a simple name declared or referred to by any field, at any depth, belongs to that namespace and resolves in one step |
| `FlattenNames.LastDeclarationWins` | internal/integration/stream/pubsub/grpcclient/flatten.go:88-121 | The table holds for every name the declaration written last, a record before its fields |
| `FlattenNames.ParsesExactly` | internal/integration/stream/pubsub/grpcclient/flatten.go:63-136 | A schema parses exactly when it is well formed |
| `FlattenNames.ParsesBack` | internal/integration/stream/pubsub/grpcclient/flatten.go:63-136 | Every schema written out in full parses back to itself |
| `FlattenValues.WrapperPeeled` | internal/integration/stream/pubsub/grpcclient/flatten.go:153-198 | A union's wrapper is named after the full name of a declared type, the kind, or the kind and logical type with a dot between; peeled, it leaves what that branch makes of the value |
| `FlattenValues.InstantValues` | internal/integration/stream/pubsub/grpcclient/flatten.go:246-258 | Instants become milliseconds, rounded down |
| `FlattenValues.SpanValues` | internal/integration/stream/pubsub/grpcclient/flatten.go:246-258 | Spans become milliseconds, rounded towards zero |
| `FlattenValues.TextValues` | internal/integration/stream/pubsub/grpcclient/flatten.go:246-258 | Days become dates and ratios eighteen decimals |
| `Numerals.FixedPointNearest` | internal/integration/stream/pubsub/grpcclient/flatten.go:254-258 | The eighteen decimals are the nearest to the ratio |
| `Calendar.DaysFollow` | internal/integration/stream/pubsub/grpcclient/flatten.go:248-251 | Day zero is 1970-01-01, and every day is followed by the next of the Gregorian calendar |
| `Calendar.DateWritten` | internal/integration/stream/pubsub/grpcclient/flatten.go:248-251 | A date text is that day's year, month and day |
| `FlattenProofs.ResolvesInOneStep` | internal/integration/stream/pubsub/grpcclient/flatten.go:138-144 | A reference to a declared name resolves in one step to that type, wherever it is declared; resolving again changes nothing |
| `FlattenProofs.SuffixResolves` | internal/integration/stream/pubsub/grpcclient/flatten.go:145-151 | A reference matching one declared name by its last components resolves to it |
| `FlattenOutcomes.OutcomesExactly` | internal/integration/stream/pubsub/grpcclient/flatten.go:138-152 | However each call picks among the names that match a reference, every value has exactly one result if and only if a search over pairs of the schema's types, as many rounds as there are pairs and one more, finds no two readings that differ |
| `FlattenOutcomes.EventOutcomesExactly` | internal/integration/stream/pubsub/grpcclient/flatten.go:166-177 | The same for events alone: a record schema that leaves something open leaves it open for some record |
| `FlattenOutcomes.DifferReal` | internal/integration/stream/pubsub/grpcclient/flatten.go:179-259 | Every difference the search finds is shown by a value with two results: the search is sound |
| `FlattenOutcomes.SplitFound` | internal/integration/stream/pubsub/grpcclient/flatten.go:179-259 | Every value with two results is found in some round: the search is complete |
| `FlattenChoice.OneMeaning` | internal/integration/stream/pubsub/grpcclient/flatten.go:138-152 | A single reference has one meaning if and only if it is empty, declared, or matched by at most one name |
| `FlattenChoice.FlatSettles` | internal/integration/stream/pubsub/grpcclient/flatten.go:145-151 | With every reference clear, flattening has exactly one result |
| `FlattenOutcomes.ClearIsOneReading` | internal/integration/stream/pubsub/grpcclient/flatten.go:145-151 | So clear references leave no two readings that differ |
| `FlattenEvents.AmbiguityLosesAField` | internal/integration/stream/pubsub/grpcclient/flatten.go:145-151 | A schema, as parsed, for which one record flattens with a field or without it, and neither is an error |
| `FlattenEvents.AmbiguityFails` | internal/integration/stream/pubsub/grpcclient/flatten.go:145-151 | A schema, as parsed, for which one record flattens or fails |
| `FlattenEvents.HarmlessAmbiguity` | internal/integration/stream/pubsub/grpcclient/flatten.go:145-151 | A schema, as parsed, with a reference that two names match and still one result for every value |
| `FlattenEvents.Totality` | internal/integration/stream/pubsub/grpcclient/flatten.go:179-259 | For a schema with one reading flattening a well-typed value never fails, whatever the schema's recursion and whatever is picked |
| `FlattenEvents.EventFlattens` | internal/integration/stream/pubsub/grpcclient/flatten.go:166-177 | A well-typed record flattens to a record with the same field names |
| `FlattenProofs.KeepsPresentFields` | internal/integration/stream/pubsub/grpcclient/flatten.go:199-216 | A flattened record has exactly the schema's fields that were present, each converted with its own type |
| `FlattenEvents.RoundTrip` | internal/integration/stream/pubsub/grpcclient/flatten.go:179-259 | Without logical types and with unions of null and one other type, re-wrapping whatever flattening yields by the schema alone gives the original value back |
| `FlattenEvents.FlatInjective` | internal/integration/stream/pubsub/grpcclient/flatten.go:11-14 | So two well-typed values flatten alike only if they are equal |
| `FlattenProofs.MapGoesRound` | internal/integration/stream/pubsub/grpcclient/flatten.go:231-244 | A map keeps its keys, one key or many, and goes round |
| `FlattenSchemas.SchemaInjective` | internal/integration/stream/pubsub/grpcclient/flatten.go:179-259 | For every schema with one reading, distinct field names and distinct branches: no two values flatten alike if and only if a search over the schema's own types, as many rounds as it has types and pairs of types and one more, finds no collision |
| `FlattenInjective.InjectiveExactly` | internal/integration/stream/pubsub/grpcclient/flatten.go:179-259 | The search is sound and complete: some round finds a collision exactly when two different well-typed values have one result |
| `FlattenSchemas.UnionInjective` | internal/integration/stream/pubsub/grpcclient/flatten.go:185-198 | A union keeps its values apart if and only if each branch does and no two branches share a result |
| `FlattenSchemas.LeafUnionInjective` | internal/integration/stream/pubsub/grpcclient/flatten.go:185-198 | A union of null and leaves keeps them apart if and only if no branch drops precision and no two branches are of like classes; int, long, float and double are classes of their own |
| `FlattenSchemas.StringBesideEnumCollides` | internal/integration/stream/pubsub/grpcclient/flatten.go:185-198 | A string branch and an enum branch with the same text flatten alike |
| `FlattenSchemas.StringBesideRecordKept` | internal/integration/stream/pubsub/grpcclient/flatten.go:185-198 | A union of null, string and a record keeps its values apart exactly when the record does |
| `FlattenLeaves.LeavesMeet` | internal/integration/stream/pubsub/grpcclient/flatten.go:246-258 | Leaf types of like classes have values with one result |
| `FlattenLeaves.LeavesKept` | internal/integration/stream/pubsub/grpcclient/flatten.go:246-258 | Except where milliseconds or eighteen decimals are the limit, a leaf type keeps its values apart |
| `Calendar.DateTextInjective` | internal/integration/stream/pubsub/grpcclient/flatten.go:248-251 | Different days have different dates, in any year before or after zero |
| `Flattening.Flattener.Load` | internal/integration/stream/pubsub/grpcclient/flatten.go:37-49 | A flattener holds the root and the table of the parsed schema |
| `Flattening.Flattener.Parse` | internal/integration/stream/pubsub/grpcclient/flatten.go:63-136 | Parsing with the table filled in place agrees with the specification, or fails with it |
| `Flattening.Flattener.ParseRecord` | internal/integration/stream/pubsub/grpcclient/flatten.go:88-109 | A record is in the table before its fields; a field may declare the name again |
| `Paths.OneKeyEach` | internal/integration/eventlog/collector.go:223-246 | Over any history of writes each file has at most one data, one quarantine and one tombstone key, and no file overwrites another |
| `Paths.NamesApart` | internal/integration/eventlog/quarantine.go:65-66 | Names of two files, or of two kinds of object, never meet for alphanumeric Ids |
| `Paths.KeysDetermine` | internal/archive/archive.go:137-158 | Under any configured prefix two objects share a data key, or a manifest key, exactly when their sanitised fields, hour, in any year, and sanitised name agree |
| `PathsWritten.KeyWritten` | internal/archive/archive.go:137-150 | A data key names source, organisation, type, year, month, day and hour, each under its own label, and then the object; the manifest's differs in its first and last segment alone |
| `PathsWritten.PlaceWritten` | internal/integration/eventlog/collector.go:223-246 | A log file's objects lie under its organisation, type and hour, named after the file and what became of it |
| `PathsWritten.SanitizedExactly` | internal/archive/archive.go:115-126 | An empty value becomes the fallback, a plain one stays, any other has an underscore for each character that is not plain, and its digest |
| `PathsWritten.PrefixWritten` | internal/archive/archive.go:152-158 | A prefix stands in front with one slash between, whatever slashes it was written with |
| `Paths.SanitizedAlike` | internal/archive/archive.go:115-126 | Exactly when two values have the same sanitised form |
| `Paths.EveryHashHasAnAlias` | internal/archive/archive.go:110-126 | For every value that is hashed, its own sanitised form is a different value that sanitises to the same |
| `Paths.SanitizedIsSafe` | internal/archive/archive.go:110-126 | A sanitised value is safe in a key and has no slash |
| `Numerals.PaddedReads` | internal/archive/archive.go:141-146 | A zero-padded number reads back |
| `Numerals.PaddedLength` | internal/archive/archive.go:141-146 | It is as wide as asked for, and wider only when the number needs it |
| `Encode.RangeIsMinMax` | internal/archive/encode.go:105-119 | The range is the least and greatest of the timestamps that are set |
| `Encode.RangeIgnoresOrder` | internal/archive/encode.go:98-119 | The order of the records does not matter |
| `Encode.TimestampRange.Add` | internal/archive/encode.go:107-119 | Adding a timestamp widens the range by it |
| `Encode.Encoder.WriteRecord` | internal/archive/encode.go:73-96 | A record is appended, counted and timed together, or refused without a trace |
| `Encode.EncodeObject` | internal/archive/encode.go:166-196 | The store is handed data exactly when the source is set, every record encodes and the file works; the data holds the records field by field, and the manifest that comes back exactly when the store then succeeds describes them |
| `Encode.LinesArchive` | internal/archive/encode.go:73-96 | Scanning what was written gives one line for each record, in order, with the record's own fields, payload and replay ID and those of the object |
| `Encode.ObjectsDiffer` | internal/archive/encode.go:73-96 | Two lists of records with the same stored bytes differ at most in an absent against an empty payload |
| `Encode.DecodeEach` | internal/archive/encode.go:206-228 | The decoding loop visits exactly the lines of the object |
| `Encode.Scan` | cmd/sf-archive-verify/main.go:331-359 | The scan counts what is in the object |
| `Encode.TextDecodes` | internal/archive/encode.go:206-228 | What was written decodes to the same lines |
| `Encode.AcceptsWhatWasWritten` | cmd/sf-archive-verify/main.go:287-305 | The verifier accepts an object against a written manifest exactly when it is byte for byte the object that was written |
| `Verify.Verdict` | cmd/sf-archive-verify/main.go:235-240 | Without a ledger OK holds exactly when every manifest is readable, supported, has a distinct non-empty objectKey and matches an existing object, no listed object is unreadable, and under strict every object has a manifest |
| `Verify.Confluence` | cmd/sf-archive-verify/main.go:167-223 | Every order in which the workers finish merges to the same result |
| `Verify.SilentIndex` | cmd/sf-archive-verify/main.go:125-148 | Nothing is reported about the manifests exactly when all are sound and distinct; the index then holds them all |
| `VerifyReport.IndexHolds` | cmd/sf-archive-verify/main.go:125-148 | An object is compared with the first manifest that names it |
| `VerifyReport.ProblemsAreDifferences` | cmd/sf-archive-verify/main.go:287-305 | The comparison reports every difference in counts, sizes, hash and times, in that order, and no other |
| `VerifyReport.ManifestsReported` | cmd/sf-archive-verify/main.go:125-148 | What the report lists about manifests, told from the archive: unreadable, of another version, without an object |
| `VerifyReport.ObjectsReported` | cmd/sf-archive-verify/main.go:167-223 | What it lists about objects: unreadable, different and how, how many without a manifest, and how many records of each source |
| `VerifyReport.RefsReported` | cmd/sf-archive-verify/main.go:446-460 | An identifier counts as often as readable, listed objects hold a record with it: EventIdentifier under its topic, REQUEST_ID, or Id under its type |
| `Verifying.Check` | cmd/sf-archive-verify/main.go:106-240 | The verifier with any completion order produces the one report the archive determines |
| `Verifying.Verifier.ReadManifests` | cmd/sf-archive-verify/main.go:125-148 | The indexing loop is the specified index |
| `Verifying.Verifier.MergeObject` | cmd/sf-archive-verify/main.go:179-221 | Merging one object under the lock adds its share |
| `Verifying.Verifier.ListMissing` | cmd/sf-archive-verify/main.go:226-230 | Every manifest whose object was not listed, once |
| `Sorting.SortIsSortedOf` | cmd/sf-archive-verify/main.go:231-233 | A sorted list depends on its elements alone |
| `Sorting.PrecedesExactly` | cmd/sf-archive-verify/main.go:231-233 | The order is by the first character that differs, a prefix coming first |
| `Reconcile.ReconcileWith` | cmd/sf-archive-verify/main.go:242-266 | With a ledger the verdict also holds exactly when every identifier in it is archived under its source and group |
| `Reconcile.Traceable` | cmd/sf-archive-verify/main.go:187-220 | What counts as archived is carried by a listed, readable object, and nothing else counts |
| `Reconcile.Compare` | cmd/sf-archive-verify/main.go:372-389 | The counting loops compute the gap, whatever the order of the seen identifiers |
| `Reconcile.GapAccounts` | cmd/sf-archive-verify/main.go:372-387 | Nothing missing means every expected identifier was seen; archived and duplicates add up to the records seen |
| `Reconcile.GapTells` | cmd/sf-archive-verify/main.go:372-389 | Every unseen row counts, repeated or not; the examples are the first ten unseen rows, sorted; each seen identifier is archived once and otherwise a duplicate |
| `Reconcile.CountsIgnoreOrder` | cmd/sf-archive-verify/main.go:253-257 | The order in which files are gathered changes no count and not which rows are missing |
| `LedgerOrder.OrderMatters` | cmd/sf-archive-verify/main.go:372-389 | All orders of the expected rows give the same gap if and only if at most ten occurrences are unseen or all unseen ones are the same identifier |
| `LedgerOrder.FileOrderMatters` | cmd/sf-archive-verify/main.go:253-257 | All orders of the ledger's files give the same gap if and only if any two files fill alike, in either order, the room that some of the others leave; which room that can be is computed from the files' missing counts |
| `LedgerOrder.TwoFilesDiffer` | cmd/sf-archive-verify/main.go:253-257 | A ledger of two files whose order decides whether a missing row is among the examples |
| `MemoryCache.Indistinguishable` | internal/cache/memory.go:41-106 | Under a clock that does not run backwards no sequence of operations tells the cache from a plain timed table |
| `MemoryCache.ReadsExactly` | internal/cache/memory.go:41-106 | A read answers with a value exactly if the last write of the key still lasts and nothing has removed it since |
| `MemoryCache.PersistentStays` | internal/cache/memory.go:62-64 | A persistent value goes only when its key is written or deleted or everything is cleared |
| `MemoryCache.SweepsKeepTidy` | internal/cache/memory.go:78-87 | Right after a sweep nothing expired is stored, and after a write the last sweep is less than a minute old |
| `MemoryCache.Memory.GetCacheVal` | internal/cache/memory.go:41-56 | Reading deletes an expired entry and answers as specified |
| `MemoryCache.Memory.Sweep` | internal/cache/memory.go:82-86 | The sweep removes exactly the expired entries |
| `MemoryCache.Memory.Store` | internal/cache/memory.go:66-89 | Storing with or without a lifetime, with the sweep that is due |
| `MemoryCache.Memory.DelCacheVal` | internal/cache/memory.go:91-99 | Deleting answers as specified |
| `MemoryCache.Memory.ClearAll` | internal/cache/memory.go:101-106 | Clearing removes every key |

## Left out

- Clear by an operator is modelled for the two stores but not as a step of the stream protocol: it deliberately opens a new base.
- The waiting loop of Acquire, the renewal timer, backoff, jitter and the flush deadlines: time appears as expiry and as interruption at any point.
- More than one topic: topics share nothing but the process.
- Subscribing.Subscriber.Session: what a session's loop wakes up to, and how many sessions there are, is given as a list; when a list ends the session reconnects or the collector stops.
- Object writes that reach the archive only after a later call of the same collector; they could only add to it.
- Readiness callbacks, metrics, logging and the partition hour of stream objects.
- Sequence numbers beyond 64 bits.
- Flattening.Flattener.ParseRecord: the table holds values, so a record enters it when its fields are known and redeclarations inside its fields are merged over it; the source stores a pointer first, with the same final table.
- FlattenProofs.SuffixResolves: asks for at most one matching name, because the source visits the names in no fixed order; FlattenChoice covers the other case.
- Enum symbols, fixed sizes and decimal scales: the flattener's types do not keep them, so a leaf of such a type is told by its kind alone, and FlattenSchemas.SchemaInjective counts values such schemas may rule out.
- The JSON text of flattened values: they are compared as the values handed to the encoder, before an int and a long, or a long and a whole double, are rendered alike.
- FlattenOutcomes.OutcomesExactly: records with two fields of one name, which the Avro specification forbids, are outside it; without them excluded the search still proves one result.
- FlattenEvents.RoundTrip: schemas with logical types are outside it, because conversion drops sub-millisecond parts and decimal forms.
- Attempt counters and watermarks that do not parse, and several collectors sharing one cache.
- EventLogProofs.WatermarkSafety: speaks from the first stored watermark on, because the first window follows the clock.
- CSV parsing, field mappings, limits, and login with its single retry: a download is well formed, malformed, refused or broken.
- CustomQuery.QuerySafety: the hash of the query settings is part of a fixed key prefix.
- Paging.RequestAll: SOQL text, ordering and the filter of the mock server; records are opaque.
- Paths.KeysDetermine: the hash is any function giving six safe characters.
- Names generated for objects without one, and the partition time that defaults to now, which no caller leaves unset.
- Encode.AcceptsWhatWasWritten: assumes codecs that invert and a hash without collisions.
- Verify.Verdict: listings and reads are inputs, so a deadline that expires midway and objects that change meanwhile are not covered.
- The MemoryCache value conversion to text, and counting of stored keys.
- Terraform, containers, configuration, command lines and generated code.
