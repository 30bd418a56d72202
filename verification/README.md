# Verified model of cdc-sink

cdc-sink stages change-feed mutations in a database, applies them to a target in
time order, and keeps a persisted checkpoint. This project models its protocol
and the data structures and concurrent components around it, and proves what
they promise. `dafny verify dfyconfig.toml` checks everything.

## What is modelled

**The resolver** (`Resolver*.dfy`, `ResolvedStamp.dfy`, `Retire.dfy`). The staging,
mark and checkpoint tables, the reader, the processor, the retire loop, the
in-memory consistent point, restarts and crashes form one state machine
(`Resolver`). Every database call and every change of shared memory is one step,
and the steps of all parties interleave freely. Five invariants are carried by
every step: the hand-over of stamps (`ResolverProtocol`), what the checkpoint and
retirement may rely on (`ResolverCoverage`), which rows share a flush
(`ResolverTimestamps`), where the windows lie in time (`ResolverBounds`), and that
the target can still come to the newest row of every key (`ResolverConvergence`,
which needs harmless deletions; the others hold in every run). `ResolverTarget` is
the reference: the log applied once, in time order. `ResolverTheorems` draws the
consequences over whole runs: in serial mode the target equals that reference
whenever a window is reported committed, as long as deletions are harmless, and for
each deletion it is said exactly when it is. `ResolverLostRow` and
`ResolverLostBetween` are two runs in which they are not. `ResolverBatches` says how
large flushes are. `ResolverProcess`, `ResolverReader` and `ResolverRetire` are the
three loops of the program, with their local variables, while the others act in
between; whatever they do is proved to be a run of the machine, it is said exactly
when they report an error, and of the reader, round by round, which step it takes.

**Paging** (`Scan.dfy`, `SelectMany.dfy`). Limited sub-queries per table, an outer
order and limit, and a cursor moved in place deliver exactly one sorted scan.

**Data structures.** `StampQueue` (the marker queue), `MinMap` (the indexed heap,
with the sift-up, sift-down, fix, push and remove of Go's container/heap),
`Msort` (in-place compaction), `IdentIntern` (interned identifiers) and
`IdentParse` (quoted and dotted names).

**Concurrency.** `FanBatch` (the worker pool, in all interleavings),
`OrderedEvents` (foreign-key levels on top of it), `Stopper` (the tree of
contexts), `Leases` (leases on rows), `PgReplay` (the replay filter of the
PostgreSQL source).

A class holds what the program updates in place. Its methods are the atomic
steps, or a sequence of them with arbitrary steps of others in between (`Others`,
`Elsewhere`, `Work`, `Run`). A call that may fail is `Calls.Try`, which counts the
failures; any other condition chosen with `*` is a race that may go either way.

## Assumptions about the environment

- Nothing is staged at or below a timestamp that has been marked; marks are
  positive and staged times are not negative.
- The order of the tables is fixed while a window is applied, and one resolver
  works on a schema at a time.
- A staged row is identified by table, time and key. Staging the same row again
  replaces its data.
- In a backfill a commit without an error counts its batch as flushed. The pool of
  workers can return one without having applied anything if its context is cancelled
  first (`FanBatch.CommitAfterCancel`), the flush hands it a context with a timeout
  (`internal/source/cdc/resolver.go:381`), and the consistent point is then stored
  without looking at that context (`internal/source/logical/loop.go:145`).
- A statement whose answer is lost has taken effect by then or never will. In
  particular, a DELETE that is in flight when the process crashes does not land
  afterwards. One that is in flight over a restart inside the process may.
- Pages are delivered whole: an error while rows are being iterated is not seen by
  the program (`internal/staging/stage/factory.go:244-268`).
- The applier keeps the latest mutation per key and upserts or deletes it. This is
  the compaction of `Msort` followed by one statement per row.
- Stamps in a queue or a heap are ordered by a strict weak order, and merging two
  values keeps the stamp of the first.
- The nonces of leases are fresh, all clients share one monotone clock, a client
  reads it in order. The time a client passes may be old when it is used.
- Lower-casing a string twice is the same as once.

## Results that differ from what one might expect

- **A restart inside the process can lose a row.** The in-memory point is set
  before it is stored (`internal/source/logical/loop.go:145-165`), and the retire
  loop follows memory. If storing fails and the run restarts from the old stamp,
  retirement may delete the newest row of a key before the replay reads it, while
  the replay re-applies an older one. `ResolverLostRow.RestartCanLoseARow` is such a
  run, with a deletion while a window is open;
  `ResolverLostBetween.DeletionBetweenWindowsCanLoseARow` is one whose only deletion
  falls between two windows.
  `ResolverTheorems.DeleteHarmlessIff` says for every deletion, in whatever phase,
  whether it is harmless, and `DeleteBetweenWindowsIff` what this comes to between
  two windows: each deleted row that is the newest of its key must be shown.
  `Convergence` holds for every run whose deletions each are harmless or stay at or
  below the committed time in memory, and `LostForGood` shows that no later step
  brings back a row that was deleted before it was read or shown.
  `ConvergenceUnderCrashes` shows that every run
  without a restart inside the process converges, however often it crashes.
- **Comparing HLC times** subtracts 64-bit integers. It orders two times correctly
  exactly when the difference can be represented (`Hlc.CompareFaithfulIff`), which
  holds for everything the parser admits.
- **The retire offset** is subtracted once more for every table of a round
  (`internal/source/cdc/resolver.go:546-566`), so later tables keep rows longer.
  No cut-off is ever too late (`Retire.CutOffBelow`).
- **Dequeue** bounds the consistent point by the new head of the queue, not by the
  value it returns, as its comment says. `StampQueue.Queue.Meaning` states the code.
- **The pool of workers** can commit without an error and without applying
  anything if it has no workers, a batch size of zero, or a context that was
  cancelled first (`FanBatch.CommitWithoutWorkers`,
  `FanBatch.CommitWithBatchSizeZero`, `FanBatch.CommitAfterCancel`).
  Otherwise a commit means that everything was applied once.
- **An unknown offset table** in a cursor counts as the first table, and an empty
  last page resets the cursor. The scan is restartable after non-empty pages only.
- **Renewing a lease** keeps nanoseconds, the database does not. Two clients can
  hold unexpired leases for less than that precision, and never for longer
  (`Leases.OverlapWithinSlack`, `Leases.Leases.Exclusion`).
- **Some tables do not survive printing and parsing**: those whose schema parts are
  all empty, an empty name without a schema, and every name with a U+FFFD in it,
  which `ident.New` accepts and the parser takes for malformed input
  (`IdentParse.TableRoundTripIff`).

## Model

| member | source | states |
|---|---|---|
| Hlc.CompareFaithfulIff | internal/util/hlc/hlc.go:41-46 | the subtraction orders two times as intended if and only if the deciding difference fits 64 bits |
| Hlc.CompareFaithfulOnParsedTimes | internal/util/hlc/hlc.go:60-77 | so it is right on every pair of times the parser admits |
| Hlc.CompareMisorders | internal/util/hlc/hlc.go:41-46 | a pair of times on which it is wrong |
| Scan.KeyLtIff | internal/staging/stage/factory.go:222 | keys are ordered as texts: at the first difference, and a proper prefix first |
| Scan.FirstSpec | internal/staging/stage/factory.go:218-223 | ORDER BY with LIMIT yields the least rows, sorted, each once |
| Scan.UnionOfLimitedScans | internal/staging/stage/factory.go:138-223 | limiting every sub-query does not change the limited result of their union, in either ordering |
| Scan.PageThenRest | internal/staging/stage/factory.go:281-286 | a short page is the whole scan; a full one followed by the scan after its last row is the whole scan |
| SelectMany.SubQueriesCoverWindow | internal/staging/stage/factory.go:159-216 | the comparison operators of each branch, and the elided tables, select exactly the rows after the cursor in the outer order |
| SelectMany.WindowAfterRow | internal/staging/stage/factory.go:270-273 | moving the cursor to a row leaves exactly the rows sorting after it |
| SelectMany.PageStep | internal/staging/stage/factory.go:115-286 | a page is a prefix of what is pending and the moved cursor denotes the remainder |
| SelectMany.RowsFaithful | internal/staging/stage/factory.go:91-104 | numbering the tables neither merges nor loses rows |
| SelectMany.ScanLists | internal/staging/stage/factory.go:133-236 | the one scan is every row of the listed tables between the times and after the offset, once each, ordered by nanos, logical, table and text of the key (by table first in a backfill) |
| SelectMany.AssignIds | internal/staging/stage/factory.go:91-104 | an error exactly for duplicate tables, else a bijective numbering in order |
| SelectMany.QueryPage | internal/staging/stage/factory.go:133-236 | the generated query equals one limited, sorted scan of the window |
| SelectMany.ReadPage | internal/staging/stage/factory.go:118-236 | a page is the head of what the cursor has pending |
| SelectMany.Advance | internal/staging/stage/factory.go:270-273 | after a non-empty page the cursor stands behind its last row and denotes what has not been delivered; after an empty one it has no offset |
| SelectMany.DeliverPage | internal/staging/stage/factory.go:241-268 | rows reach the callback in order, until it fails |
| SelectMany.Pages | internal/staging/stage/factory.go:115-286 | the page loop ends and delivers the pending rows once each in order; on a failure the cursor restarts at the page |
| SelectMany.Run | internal/staging/stage/factory.go:76-287 | the whole call: its errors; what it delivers, in terms of the columns alone, are exactly the rows after the cursor within the window, ordered by nanos, logical, table and text of the key (by table first in a backfill), and a prefix of them if the callback fails; where the cursor stands afterwards |
| ResolvedStamp.LessIsStrictOrder | internal/source/cdc/resolved_stamp.go:81-92 | stamps are strictly ordered by committed time, proposed time and iteration |
| ResolvedStamp.ProposesIff | internal/source/cdc/resolved_stamp.go:104-127 | a proposal is refused exactly if it is earlier than one of the times of the stamp; it changes nothing but the proposed time and the iteration |
| ResolvedStamp.ProgressIs | internal/source/cdc/resolved_stamp.go:129-153 | progress keeps the bounds of the window; a backfill resumes where the cursor is, any other window at the time of the cursor |
| ResolvedStamp.CommitsIff | internal/source/cdc/resolved_stamp.go:92-101 | a stamp can be committed exactly if a time is proposed, and nothing remains of the window but that time: no offset, no iteration, no backfill |
| ResolvedStamp.StampsIncrease | internal/source/cdc/resolved_stamp.go:94-153 | every way of moving a stamp on increases it; proposing the committed time again leads nowhere |
| ResolverProtocol.ProtocolStep | internal/source/cdc/resolver.go:177-282 | every step of every party keeps the hand-over of stamps in order |
| ResolverProtocol.ProtocolAlways | internal/source/cdc/resolver.go:177-282 | so it is in order in every state of every run |
| ResolverProtocol.PublishNeverFails | internal/source/logical/loop.go:145-156 | no processed stamp is refused as stalled or going backwards, across restarts and crashes |
| ResolverProtocol.ProposeNeverFails | internal/source/cdc/resolver.go:288-311 | extending the consistent point by the selected mark never fails and leads to a later time; what is extended is never a backfill any more |
| ResolverProtocol.OneStampOutstanding | internal/source/cdc/resolver.go:196-281 | at most one stamp sent by the reader is unprocessed, and it is the one the consistent point calls for |
| ResolverProtocol.CheckpointIncreases | internal/source/logical/loop.go:145-165 | the stored checkpoint never runs ahead of memory and only ever increases |
| ResolverCoverage.SafeStep | internal/source/cdc/resolver.go:378-438 | every step keeps: what the stored and current stamps cover has been flushed |
| ResolverCoverage.SafeAlways | internal/source/cdc/resolver.go:378-438 | so it has in every state of every run, backfilling or not |
| ResolverCoverage.CheckpointAndRetirementSafe | internal/source/cdc/resolver.go:184-187 | a row covered by a persisted stamp, or deleted by retirement, was in a committed flush |
| ResolverCoverage.ProgressCovers | internal/source/cdc/resolved_stamp.go:129-153 | a progress stamp covers only rows that have been delivered and flushed |
| ResolverCoverage.WindowOpensAfterOffset | internal/source/cdc/resolver.go:366-375 | a window opens on exactly the staged rows between its times that come after the offset of its stamp |
| ResolverCoverage.RestartsFromStored | internal/source/cdc/resolver.go:180-187 | a restart or a crash resumes from the stored stamp, and its committed time may be retired |
| ResolverTarget.ReplayShowsNewest | internal/source/cdc/resolver.go:440-488 | applying the log in time order leaves each key at its newest row |
| ResolverTarget.ApplyRenders | internal/source/cdc/resolver.go:384-413 | applying a compacted batch keeps the target equal to the rows it is said to show |
| ResolverBounds.BoundsStep | internal/source/cdc/resolver.go:358-502 | every step keeps: nothing is shown or flushed later than the latest window end, the open window is the one that the stored stamp and the marks call for, and the next one reaches at least as far |
| ResolverBounds.BoundedAlways | internal/source/cdc/resolver.go:358-502 | so it is in every state of every serial run, whatever is deleted |
| ResolverConvergence.FlushKeeps | internal/source/cdc/resolver.go:378-413 | a flush of a part of a window, for the first time or again, leaves every newest row shown for good or still to be read |
| ResolverConvergence.SoundCommit | internal/source/cdc/resolver.go:378-413 | so does the flush as a step of the machine |
| ResolverConvergence.SoundPersist | internal/source/logical/loop.go:160-165 | after storing a stamp, what it passes over is shown for good |
| ResolverConvergence.SoundBegin | internal/source/cdc/resolver.go:366-375 | a window opened, or resumed from a partial stamp, will bring every key to its newest row |
| ResolverConvergence.SoundDelete | internal/staging/stage/stage.go:387-396 | a harmless deletion leaves it so |
| ResolverConvergence.ConvergingStep | internal/source/cdc/resolver.go:358-502 | every step of every party keeps it so, if it is not a deletion that does harm |
| ResolverTheorems.BehindIsHarmless | internal/source/cdc/resolver.go:184-187 | a deletion at or below the committed time in memory is harmless, also while that point is not stored yet |
| ResolverTheorems.RecordedConverges | internal/source/cdc/resolver.go:490-493 | once a window is recorded the target is the log up to its end, applied once in time order |
| ResolverTheorems.Convergence | internal/source/cdc/resolver.go:358-502 | in every run whose deletions are harmless or stay at or below the committed time in memory, whenever a stamp without a proposal is set, the target equals the log up to its committed time, applied once in time order |
| ResolverTheorems.ConvergenceUnderCrashes | internal/source/logical/loop.go:175-249 | the same for all runs with any number of process crashes, but no restart inside the process, and with no condition on deletions |
| ResolverTheorems.DeleteHarmlessIff | internal/staging/stage/stage.go:387-396 | after a deletion in any phase, the open window and every replay from the stored stamp, at once or after the next flush, come to the newest row of every key if and only if each deleted row that is its key's newest is shown, and older rows of its key that have been read are flushed together with it |
| ResolverTheorems.OutcomeIsReplay | internal/source/cdc/resolver.go:384-413 | flushing rows after which every newest row is the one shown makes the target the log, applied once in time order |
| ResolverTheorems.DeleteBetweenWindowsIff | internal/staging/stage/stage.go:387-396 | between two windows a deletion is harmless if and only if each deleted row that is its key's newest up to the end of the next window is shown |
| ResolverTheorems.LostForGood | internal/staging/stage/stage.go:387-396 | after a deletion of a row that is neither read nor shown, every committed stamp for which that row is the newest of its key leaves a target that differs from the log |
| ResolverTimestamps.TidyStep | internal/source/cdc/resolver.go:440-493 | every step of every party keeps the rows of one time together, and the batch older than what is to come |
| ResolverTimestamps.WholeTimestamps | internal/source/cdc/resolver.go:459-470 | in every run, outside a backfill, a flush with a row holds every staged row of that time, also the first flush after resuming |
| ResolverTimestamps.EveryTimestampFlushesOneTime | internal/source/cdc/resolver.go:453-458 | in every run, with FlushEveryTimestamp, the rows of a flush at non-zero times share their time |
| ResolverBatches.BackfillBatchIsSmall | internal/source/cdc/resolver.go:448-452 | in every run, the batch of a backfill never exceeds the ideal size, or a single row |
| ResolverBatches.InterimFlushIsDue | internal/source/cdc/resolver.go:445-470 | in every run, an interim flush comes after at least as many callbacks as are ideal, unless every timestamp is flushed; outside a backfill all its rows are earlier than the next one |
| ResolverBatches.LargeBatchKeepsTime | internal/source/cdc/resolver.go:459-470 | in every run, outside a backfill, a batch of the ideal size accepts only rows of its last time |
| ResolverLostRow.RestartCanLoseARow | internal/source/logical/loop.go:145-165 | a run with one restart inside the process after which the target differs from the log |
| ResolverLostBetween.DeletionBetweenWindowsCanLoseARow | internal/source/logical/loop.go:175-189 | a run whose only deletion falls between two windows, after which the target differs from the log |
| ResolverProcess.Flush | internal/source/cdc/resolver.go:378-438 | the flush closure is a run of the machine; it reports an error if and only if one of its calls failed, and otherwise its stamp is stored |
| ResolverProcess.Callbacks | internal/source/cdc/resolver.go:440-488 | so is the callback loop over a page, with its three flush conditions; it fails if and only if a call does, and otherwise all rows of the page are accepted |
| ResolverProcess.Process | internal/source/cdc/resolver.go:358-502 | so is process, which ends; it fails if and only if there are no tables, the page size is zero, or a call failed, and otherwise the committed stamp of its window is stored |
| ResolverProcess.OthersKeepWindow | internal/source/cdc/resolver.go:358-502 | while the processor waits nobody adds to its window |
| ResolverReader.ReadInto | internal/source/cdc/resolver.go:177-282 | readInto is a run of the machine that fails exactly if a database call does or its context is cancelled before it is stopped; round by round, the stamp that the state calls for is sent (the one in progress, or a proposal of the earliest unapplied mark at or after the committed time) unless there is none, a new consistent point is noticed, and no other step is taken |
| ResolverReader.Look | internal/source/cdc/resolver.go:190-242 | one look for a stamp to send: it is sent, there is none to send, the run ends before it is taken, or a call failed |
| ResolverReader.OneRound | internal/source/cdc/resolver.go:190-281 | one round: the look, the waiting, and noticing a consistent point set since |
| ResolverReader.SelectTimestamp | internal/source/cdc/resolver.go:507-540 | the earliest unapplied mark from a time on, or none if there is none |
| ResolverRetire.ClearStep | internal/staging/stage/stage.go:419-424 | no step of any party stages a row below the bound of a table |
| ResolverRetire.RemovesOldest | internal/staging/stage/stage.go:387-396 | one DELETE is a deletion that the machine allows, and leaves nothing below its last row |
| ResolverRetire.RetireLoop.DeleteBatch | internal/staging/stage/stage.go:405-419 | one DELETE next to all others, refused, executed, or executed with its answer lost; an error means one failed call, and it takes as many of the oldest rows as its limit allows |
| ResolverRetire.RetireLoop.RetireTable | internal/staging/stage/stage.go:399-433 | the loop over one table ends, whoever stages or deletes meanwhile; it fails exactly if a call does, and else nothing of the table is staged below the end |
| ResolverRetire.RetireLoop.Round | internal/source/cdc/resolver.go:550-575 | after a round nothing is staged below its own cut-off in any table that did not fail, and as many failed as there were failed calls |
| ResolverRetire.RetireLoop.Loop | internal/source/cdc/resolver.go:544-588 | retireLoop is a run of the machine, each round samples what may be retired, and clears what it was to clear; as many tables were passed over as there were failed calls |
| Retire.Stage.Delete | internal/staging/stage/stage.go:387-396 | one batch removes the oldest rows of the range, as many as the limit allows, also if its answer is lost; an error is one failed call |
| Retire.Stage.Retire | internal/staging/stage/stage.go:399-433 | the loop ends even when more than a batch share a time, with the bound at the later of old bound and end; it removes all rows below the end and none outside the range; it fails exactly if a call does |
| Retire.RetireTwice | internal/staging/stage/stage.go:399-433 | rows left at exactly the end of one call are gone after a later one |
| Retire.DeleteIsOldest | internal/staging/stage/stage.go:387-396 | such a batch is a deletion that the machine allows, as nothing lies below the bound (kept by `ResolverRetire.ClearStep`) |
| Retire.CutOffBelow | internal/source/cdc/resolver.go:562-566 | no table's cut-off is later than the committed time minus the offset |
| Retire.CutOffIs | internal/source/cdc/resolver.go:546-566 | the cut-off of the k-th table in closed form: the offset is subtracted k + 1 times |
| Retire.Round | internal/source/cdc/resolver.go:550-575 | a round over all tables removes no row later than that, and clears every table that did not fail up to its cut-off |
| Msort.UniqueByKey | internal/util/msort/msort.go:36-71 | in place: the suffix has each key of the input once, with a latest mutation; a panic exactly for an empty key |
| Msort.TakeSlot | internal/util/msort/msort.go:60-66 | a new slot is never one that has not been read yet |
| Msort.KeepOrReplace | internal/util/msort/msort.go:55-59 | replacing a seen slot keeps it the latest of its key |
| Msort.LastWins | internal/target/apply/apply.go:185 | the last mutation of a key decides its row |
| Msort.CompactionPreservesTable | internal/util/msort/msort.go:36-71 | applying the compacted mutations, in any order, equals applying all of them in time order |
| StampOrder.CompareIsOrder | internal/util/stamp/stamp.go:35-51 | comparing stamps agrees with Less, puts nil first, is antisymmetric and transitive |
| StampQueue.Queue.Meaning | internal/util/stamp/queue.go:42-47 | the documented order holds over all elements, and the consistent point is the greatest accepted marker below every value |
| StampQueue.Queue.EndsDecide | internal/util/stamp/queue.go:214-266 | when at most the last element of a list is new, looking at the ends decides whether the documented order holds over all elements |
| StampQueue.Queue.SetConsistent | internal/util/stamp/queue.go:198-213 | the point moves only forward and only if the ends allow it, else it is restored |
| StampQueue.Queue.SkipMarkers | internal/util/stamp/queue.go:165-195 | the markers below the head are taken, in order, and no others |
| StampQueue.Queue.AdvanceConsistentPoint | internal/util/stamp/queue.go:165-195 | it never fails, and restores the invariant |
| StampQueue.Queue.Dequeue | internal/util/stamp/queue.go:71-85 | the head is returned, the point only increases, and the panic is unreachable |
| StampQueue.Queue.Mark | internal/util/stamp/queue.go:120-127 | a marker is accepted exactly if it is greater than all accepted before; a refusal changes nothing |
| StampQueue.Queue.Enqueue | internal/util/stamp/queue.go:90-114 | a value is merged, appended, or refused exactly when it sorts before the tail or the consistent point |
| MinMap.RootIsLeast | internal/util/stamp/min_map.go:68-73 | the root of a heap is no greater than any element |
| MinMap.RiseStep | internal/util/stamp/min_map.go:135-138 | swapping an element with the one above it keeps all other links in order |
| MinMap.SinkStep | internal/util/stamp/min_map.go:135-138 | so does swapping with the smaller one below |
| MinMap.PutChangesMinIff | internal/util/stamp/min_map.go:78-95 | when a Put changes the minimum: the first stamp, one below the minimum, or the only holder of the minimum moving up |
| MinMap.LeastIsOneClass | internal/util/stamp/min_map.go:68-73 | minima of one map are equal in the order |
| MinMap.MinMap.Swap | internal/util/stamp/min_map.go:135-138 | two slots are exchanged and the back-pointers follow |
| MinMap.MinMap.Up | internal/util/stamp/min_map.go:128-132 | sifting up restores the heap with the same elements |
| MinMap.MinMap.Down | internal/util/stamp/min_map.go:50-51 | sifting down restores the heap below, and says whether anything moved |
| MinMap.MinMap.Fix | internal/util/stamp/min_map.go:80-84 | the heap is restored after one stamp changed |
| MinMap.MinMap.Push | internal/util/stamp/min_map.go:85-90 | one element is added to the heap |
| MinMap.MinMap.Remove | internal/util/stamp/min_map.go:44-51 | exactly the element of one slot is removed from the heap |
| MinMap.MinMap.Get | internal/util/stamp/min_map.go:55-60 | the mapped stamp, or nothing |
| MinMap.MinMap.Min | internal/util/stamp/min_map.go:68-73 | a least stamp of the map, nil if it is empty |
| MinMap.MinMap.Delete | internal/util/stamp/min_map.go:44-51 | the map without the key; back-pointers, heap order and bijection are kept |
| MinMap.MinMap.Put | internal/util/stamp/min_map.go:78-95 | the map with the key updated, its minimum, and a change exactly if the minimum's order class changed |
| FanBatch.FanBatch.constructor | internal/source/logical/fan_batch.go:54-73 | as many waiting workers as shards, none if that is not positive |
| FanBatch.FanBatch.OnData | internal/source/logical/fan_batch.go:131-142 | mutations are queued behind those of their table, or refused once the end has been announced |
| FanBatch.FanBatch.FindWork | internal/source/logical/fan_batch.go:246-268 | a table with mutations, if there is one |
| FanBatch.FanBatch.Take | internal/source/logical/fan_batch.go:239-288 | a worker takes a prefix of one table's queue, at most a batch, or leaves when told to |
| FanBatch.FanBatch.Apply | internal/source/logical/fan_batch.go:180-190 | a taken chunk is settled once, applied or failed |
| FanBatch.FanBatch.Release | internal/source/logical/fan_batch.go:176 | the pending count goes down by the chunk, whatever became of it |
| FanBatch.FanBatch.Leave | internal/source/logical/fan_batch.go:195-208 | a worker that returns sets the flag and reports its error |
| FanBatch.FanBatch.Run | internal/source/logical/fan_batch.go:164-209 | any interleaving of the workers keeps: per table, taken plus queued is what was accepted, in order; pending is queued plus in flight; chunks are at most a batch |
| FanBatch.FanBatch.Flush | internal/source/logical/fan_batch.go:78-121 | nil only when nothing is pending; an error only from the caller's context or because a chunk failed; and what a caller that has no answer waits for |
| FanBatch.FanBatch.NotifyOnCompletion | internal/source/logical/fan_batch.go:214-231 | nothing more is accepted, and a rollback drops exactly what nobody has taken |
| FanBatch.FanBatch.WorkerStatus | internal/source/logical/fan_batch.go:193-229 | once all workers have returned: an error if and only if some chunk was not applied |
| FanBatch.FanBatch.QuietMeansSettled | internal/source/logical/fan_batch.go:98-107 | with nothing pending every accepted mutation has been given to an applier, in order, once |
| FanBatch.FanBatch.FailureIsReported | internal/source/logical/fan_batch.go:193-208 | a failed chunk makes the commit fail |
| FanBatch.FanBatch.ErrorIffFailure | internal/source/logical/fan_batch.go:193-208 | and a worker that reports an error has failed on a chunk |
| FanBatch.FanBatch.CommittedIff | internal/source/logical/fan_batch.go:124-126 | when no worker reports an error, all was applied exactly once if and only if nothing was left pending |
| FanBatch.FanBatch.CommitMeansApplied | internal/source/logical/fan_batch.go:124-126 | with workers and a live context, a nil commit means every accepted mutation was applied exactly once |
| FanBatch.CommitWithoutWorkers | internal/source/logical/fan_batch.go:65-69 | without workers a commit succeeds and applies nothing |
| FanBatch.CommitWithBatchSizeZero | internal/source/logical/fan_batch.go:167-170 | so does one with a batch size of zero |
| FanBatch.CommitAfterCancel | internal/source/logical/fan_batch.go:281-286 | and one whose workers noticed a cancelled context first |
| OrderedEvents.ByLevelIsPermutation | internal/source/logical/ordered_events.go:85-101 | sorting the calls by level loses none and repeats none |
| OrderedEvents.LevelInOrder | internal/source/logical/ordered_events.go:106-118 | the calls kept for a level are all of that level, each once, in the order in which they were made |
| OrderedEvents.WorkersKeepOrder | internal/source/logical/ordered_events.go:88-100 | no interleaving of the workers breaks the order of the levels |
| OrderedEvents.AcceptKeepsOrder | internal/source/logical/ordered_events.go:94-98 | giving away a level whose lower levels are finished keeps it |
| OrderedEvents.OrderedEvents.OnBegin | internal/source/logical/ordered_events.go:49-72 | a table's level is the last that lists it; a panic exactly when there are no levels |
| OrderedEvents.OrderedBatch.OnData | internal/source/logical/ordered_events.go:106-118 | root tables pass through, others wait at their level, unknown ones are an error |
| OrderedEvents.OrderedBatch.WriteLevels | internal/source/logical/ordered_events.go:88-99 | level by level, each given away only once all lower ones are finished; an error only from the context or because a chunk failed |
| OrderedEvents.OrderedBatch.OnCommit | internal/source/logical/ordered_events.go:85-101 | a nil commit means: the pool got all calls sorted by level, in call order within a level; no chunk failed; parents were written before any child was given away. An error means that the context was done, or that all workers returned and a chunk failed |
| OrderedEvents.OrderedBatch.Finish | internal/source/logical/ordered_events.go:100 | the pool has a result exactly when all workers have returned, and it is nil exactly if no chunk failed |
| OrderedEvents.OrderedBatch.OnRollback | internal/source/logical/ordered_events.go:121-124 | nothing deferred reaches the pool, and what no worker has taken is dropped |
| Stopper.ApplyAdds | internal/util/stopper/stopper.go:243-273 | a delta is accepted unless positive and some context up the chain is stopping; then it is added to every count on the chain and to no other; a refusal changes nothing |
| Stopper.ApplyCancels | internal/util/stopper/stopper.go:269-271 | a delta cancels exactly the idle stopping contexts of the chain, and no cause is replaced |
| Stopper.ExitNeverOverReleases | internal/util/stopper/stopper.go:265-268 | when a goroutine returns no count becomes negative |
| Stopper.StepKeepsValid | internal/util/stopper/stopper.go:102-273 | every step keeps: each count is the context's own goroutines plus the counts nested in it, ErrStopped only when idle, causes stay, and every error of a goroutine is recorded before it is counted off |
| Stopper.RunIsValid | internal/util/stopper/stopper.go:102-273 | so it is in every run |
| Stopper.GoStartsIff | internal/util/stopper/stopper.go:145-148 | a goroutine starts if and only if no context up the chain is stopping |
| Stopper.StoppedIsIdle | internal/util/stopper/stopper.go:191-193 | a context cancelled with ErrStopped has nothing running in its subtree |
| Stopper.StoppedForEver | internal/util/stopper/stopper.go:178-208 | and nothing will ever run there again, in any continuation of the run |
| Stopper.ErrorIffFailed | internal/util/stopper/stopper.go:150-161 | after ErrStopped all errors are recorded, and there is one to return if and only if a goroutine of this context failed |
| Stopper.WaitErrorIff | internal/util/stopper/stopper.go:226-239 | in every run, after ErrStopped there is an error to return if and only if a goroutine started on this very context failed before |
| Stopper.IdleIsCancelled | internal/util/stopper/stopper.go:178-208 | a stopping context is cancelled once nothing runs below it; until then something does |
| Stopper.StopDoes | internal/util/stopper/stopper.go:178-208 | what a call of Stop changes, in terms of the context before it, and that it changes nothing else |
| Stopper.StopReaches | internal/util/stopper/stopper.go:115-124 | once a context is stopping, propagation alone makes every context below it stopping |
| Stopper.ExpiresIff | internal/util/stopper/stopper.go:194-201 | in every run, a grace period can expire if and only if an earlier Stop with one found the context not stopping and busy |
| Stopper.ExpireCancels | internal/util/stopper/stopper.go:194-201 | when it expires the context has a cause, ErrGracePeriodExpired unless it had one before |
| Stopper.ExternalCancels | internal/util/stopper/stopper.go:102-108 | so it has when the context it was made from is cancelled |
| Stopper.Context.constructor | internal/util/stopper/stopper.go:102-125 | a nested context joins the tree |
| Stopper.Context.Cause | internal/util/stopper/stopper.go:127-142 | its own cause, or that of the nearest cancelled context above |
| Stopper.Context.Apply | internal/util/stopper/stopper.go:243-273 | the recursion over the objects is the function on the tree, and its panic is unreachable |
| Stopper.Context.Stop | internal/util/stopper/stopper.go:178-208 | the context is stopping afterwards and cancelled if it was idle; a grace period starts exactly if one was asked for, nobody had asked before, and it was busy |
| Stopper.Context.Go | internal/util/stopper/stopper.go:145-162 | it is accepted exactly if nobody up the chain is stopping |
| Stopper.Context.Fail | internal/util/stopper/stopper.go:153-154 | an error stops the context first |
| Stopper.Context.Exit | internal/util/stopper/stopper.go:150-152 | the deferred release of a goroutine, after its error is recorded |
| Stopper.Context.Record | internal/util/stopper/stopper.go:155-159 | what Wait returns from then on is the first error recorded, whichever goroutine comes next |
| Stopper.Context.Wait | internal/util/stopper/stopper.go:230-239 | the first error recorded; after ErrStopped nothing runs any more, and there is an error if and only if a goroutine of this context failed |
| Leases.Leases.TryAcquire | internal/staging/leases/leases.go:355-398 | the row is taken, with a new nonce, exactly if it is missing or has expired at the truncated time |
| Leases.Leases.TryRenew | internal/staging/leases/leases.go:443-464 | only the row with this nonce is extended; a hijacked lease touches nothing |
| Leases.Leases.TryRelease | internal/staging/leases/leases.go:415-427 | only the row with this nonce is deleted |
| Leases.Leases.Run | internal/staging/leases/leases.go:355-464 | any interleaving of clients and clock keeps: an unreleased, unexpired lease owns its row |
| Leases.Leases.LiveOwnsRow | internal/staging/leases/leases.go:355-464 | a live lease is the one in the table, with time left |
| Leases.Leases.LiveBlocks | internal/staging/leases/leases.go:358-364 | it blocks every acquisition, however old the time that is used |
| Leases.Leases.Exclusion | internal/staging/leases/leases.go:355-464 | two clients never hold live leases on one name |
| Leases.OverlapWithinSlack | internal/staging/leases/leases.go:443-464 | with any loss of precision in the database two unexpired leases can overlap for that long |
| PgReplay.Events.SetConsistentPoint | internal/source/logical/loop.go:145-165 | only a later point is accepted |
| PgReplay.Filters | internal/source/pglogical/conn.go:88-150 | at every message the open transaction is exactly what the source has sent of a new transaction, and replayed ones are ignored |
| PgReplay.Events.Process | internal/source/pglogical/conn.go:76-165 | one run commits a gap-free continuation of the log in order, each transaction once with its own tuples, all that were received whole; it fails if and only if a call failed or a message is unsupported; the point is the last committed LSN, unless the last commit or storing its point reported an error |
| PgReplay.NextRunContinues | internal/source/pglogical/conn.go:86-91 | the next run repeats at most the transaction whose point was not stored |
| IdentParse.ParseIdent | internal/util/ident/parse.go:35-47 | the cases of a part, with their errors |
| IdentParse.ParseQuotedIdent | internal/util/ident/parse.go:51-83 | the scan for the closing quote |
| IdentParse.ParseUnquotedIdent | internal/util/ident/parse.go:86-102 | the scan for the next separator |
| IdentParse.ParseDottedIdent | internal/util/ident/parse.go:175-196 | the loop over the parts |
| IdentParse.ParseTable | internal/util/ident/parse.go:127-146 | the last part is the name, at most two before it the schema |
| IdentParse.Join | internal/util/ident/identifier.go:78-94 | the quoted parts with separators between them |
| IdentParse.HalvedDoubled | internal/util/ident/atom.go:40 | un-doubling the quotes of a doubled string gives it back |
| IdentParse.QuotedPartIff | internal/util/ident/parse.go:51-83 | a quoted part is read as x exactly if the input starts with the quoted form of x and goes on with neither a quote nor malformed text, and exactly that form is read |
| IdentParse.UnquotedPartIff | internal/util/ident/parse.go:86-102 | an unquoted part is read as x exactly if x is all up to the first separator |
| IdentParse.PartErrors | internal/util/ident/parse.go:35-102 | when reading a part fails, and with which error |
| IdentParse.DottedRoundTrip | internal/util/ident/parse.go:175-196 | any sequence of well-formed parts is read back from its quoted dotted form |
| IdentParse.TableRoundTripIff | internal/util/ident/parse.go:127-146 | a table is read back from its quoted form if and only if it is the empty one, or has at most two schema parts, no U+FFFD, and some non-empty part of its schema or, without a schema, a non-empty name |
| IdentParse.TooDeep | internal/util/ident/parse.go:136-139 | more than two schema parts are an error |
| IdentParse.TrailingSeparator | internal/util/ident/parse.go:187-194 | a separator at the end is silently accepted |
| IdentIntern.Registry.GetAtom | internal/util/ident/canonical_map.go:34-67 | equal strings give the same object, whatever other goroutines intern meanwhile; nothing interned is replaced |
| IdentIntern.Registry.LazyAtom | internal/util/ident/atom.go:36-50 | the canonical form is interned first, and is itself for a lower-case string |
| IdentIntern.Registry.GetArray | internal/util/ident/canonical_map.go:34-67 | the same for schemas |
| IdentIntern.Registry.LazyArray | internal/util/ident/array.go:37-53 | with the lowered atoms as key |
| IdentIntern.Registry.GetQualified | internal/util/ident/canonical_map.go:34-67 | the same for tables |
| IdentIntern.Registry.LazyQualified | internal/util/ident/qualified.go:34-50 | with the lowered schema and name as key |
| IdentIntern.LowerAtomTwice | internal/util/ident/atom.go:35-51 | the canonical form of an atom is interned, is the lowered string, and is its own canonical form |
| IdentIntern.LowerArrayTwice | internal/util/ident/array.go:36-54 | lowering the key of a schema is idempotent |
| IdentIntern.LowerQualifiedTwice | internal/util/ident/qualified.go:33-51 | lowering the key of a table is idempotent |
| IdentIntern.Registry.Split | internal/util/ident/qualified.go:88-104 | the first part and an interned identifier of exactly the remaining parts |
| IdentIntern.Registry.SplitArray | internal/util/ident/array.go:102-109 | the same for schemas |
| IdentIntern.Registry.Compare | internal/util/ident/compare.go:24-42 | the loop over Split compares the lowered parts one by one, shorter first |
| IdentIntern.Registry.Equal | internal/util/ident/compare.go:53-55 | equal if and only if all parts agree without regard to case |
| IdentIntern.EqualIff | internal/util/ident/compare.go:24-42 | the comparison is zero exactly for equal parts |
| IdentIntern.FirstDifferenceDecides | internal/util/ident/compare.go:24-42 | the sign of the comparison is that of the first differing part, and negative for a proper prefix |
| IdentIntern.Registry.SameAtoms | internal/util/ident/map.go:95-123 | equal atoms are those with one canonical object |
| IdentIntern.Registry.SameSchemas | internal/util/ident/map.go:95-123 | so are equal schemas with non-empty parts |
| IdentIntern.Registry.SameTables | internal/util/ident/map.go:95-123 | so are equal tables with non-empty parts: map lookup agrees with comparing |

## Left out

- SQL text, drivers, HTTP, JSON, compression, metrics, wiring, user scripts, schema
  watching, MySQL and Firestore sources, wall-clock switching to a backfill.
- Go's notification variables (`internal/util/notify/var.go`): modelled by a version
  count and the last version a reader has seen.
- `internal/source/logical/loop.go:252-330`: the choice of source and the buffered
  channel appear only as restarts, rollback messages and queued stamps.
- Convergence of a backfill and of the worker pool: workers may take slices of one
  table at the same time, so conservation is proved there, not the final rows.
- ResolverTheorems.Convergence: stated for runs whose deletions are harmless; without
  that the property is false (`ResolverTheorems.LostForGood`).
- ResolverCoverage.CheckpointAndRetirementSafe: in a backfill, flushed means that the
  commit reported no error; see the assumption about the pool of workers above.
- SelectMany.Pages: the staged rows do not change during the call. Rows that come and
  go between pages are covered by `ResolverProcess.Process`.
- SelectMany.Run: likewise.
- OrderedEvents.OrderedBatch.OnData: the levels are those found when the batch began.
  The program reads the shared map, which is another one only if a transaction
  begins before this one has ended.
- Retire.Stage.Retire: one attempt; the retrying around it is another call. Other
  parties are covered by `ResolverRetire.RetireLoop.RetireTable`.
- Go's container/heap is not part of this repository; its sifting and its Fix, Push
  and Remove are modelled as the Go standard library has them.
- Comparisons of times outside `Hlc` use the intended order, without wrap-around.
- keepRenewedOnce: the waiting time and the guard before expiry are not modelled;
  any sequence of renewals is.
- putOne: staging is one step that adds or replaces a row.
- Stopper.Context.Fail: returning an error and stopping the context is one step.
- Stopper.Context.Apply: the nested locks, child before parent, are taken as one
  atomic step.
- FanBatch.FanBatch.Flush: that a waiting caller is eventually woken is not claimed.
- PgReplay.Events.Process: decoding of tuples and relations is not modelled; any
  message may fail.
- IdentParse.ParseTable: parts are compared as strings; that equal strings are one
  object is `IdentIntern`.
- ParseTableRelative, ParseSchema: they only branch and call the members above.
- IdentIntern.Registry.Compare: stated for identifiers with non-empty parts.
- Liveness: no claim is made that a parked goroutine runs again.
