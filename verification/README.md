# libnvwal in Dafny

libnvwal is an epoch-based write-ahead log for NVDIMMs. Writers fill private circular buffers and
mark in epoch frames which part belongs to which epoch. One flusher copies the buffers into a ring of
NV segments and makes one epoch after the other durable. One fsyncer copies full segments to disk.
A metadata store records where each epoch lies, and cursors read the log back.

This project models that core and proves what it promises. `dafny verify dfyconfig.toml` checks all
of it.

## How the model is built

**Pipeline.** `Pipeline.dfy` is a step system: any number of writers, of concurrent
advance-stable-epoch calls and of cursors, one flusher, one fsyncer, cache lines reaching the media
at arbitrary moments, failing disk writes, and crashes followed by a restart between any two steps.
A step is one access to a location another thread may touch. Memory is sequentially consistent.
The metadata store is part of it: its page file, its page buffer, the two epochs in the control block,
and the stores of a write one by one; a restart reads the records back from what is left of it.
Besides what is in memory the state keeps, as bookkeeping, what every writer submitted, the log as
a sequence of segments, the records as a map, and the durable epoch at start-up.
`PipelineInvariant.Inv` is the invariant; its parts live in `WriterInvariant`, `RingInvariant`,
`LogInvariant`, `EpochRanges`, `CursorInvariant` and `StoreInvariant`; the modules `WriterSteps`,
`FlusherSteps`, `FsyncerSteps` and `RestartSteps` show that each step keeps it, and `PipelineRuns`
puts them together. `PipelineTheorems`, `PipelineSafety`, `TagPasses`, `TagRuns`, `CursorRoundTrip`
and `RunReading` draw the consequences for whole runs.

**What the source relies on without enforcing it.** `Pipeline.Admissible` lists these conditions; a
run takes admissible steps only. `PipelineRaces` shows for each condition that the invariant survives
the step if and only if the condition holds, and what goes wrong otherwise; `RaceRuns` and `EpochRuns`
give, built from the blocks in `RunBuilding`, concrete runs from a new log into each of these
situations: a stop request in the middle of a stable pass; the fsyncer looking at a segment while the
flusher resets its flags; the flusher recycling a segment between the two progress stores of the
fsyncer; a restart after an epoch that crosses a segment boundary, with the last segment of the
durable epoch already synced, or in the middle of a page turn of the metadata store.

**Progress.** The invariants say what never happens; what does happen is proved for each thread left
alone, from any state of a run: `FlusherProgress` for a pass of the flusher and for who may hold it up,
`FsyncerProgress` for a sync, `CursorOpening` for opening and closing a segment, `SpaceChecks` for the
space check (with and without interference), `MdsRace` for reads and writes of the metadata store.
`SyncFailures` follows a failing disk write to the flusher. `Crashes` says what a restart may depend on
and what the media may hold.

**Calls as methods.** `WriterCalls`, `FlusherCalls`, `Circular`, `Mds`, `MdsRead` and `Cursor` hold the
imperative code as classes and methods with its loops, in-place updates and assertions, specified by
functions about which the promises are then proved. `WriterCalls` and `FlusherCalls` tie their methods
to the steps of the pipeline; what other threads do while the flusher waits is a parameter.
`TagQueries` and `RunReading` apply queries and cursor to the store and the log of a run.

**Metadata store.** `Mds` is the store (one page in NVRAM, an append-only page file), `MdsCrash` says
which crashes inside its operations recovery undoes, `MdsRead` holds iterator and tag queries,
`MdsRace` is a step system of lock-free readers against the writer. `StoreInvariant` connects it to
the pipeline, whose steps leave the same states to a crash (`StepsOfAWrite`).

**Integers.** Epoch arithmetic is 64-bit with wrap-around in `EpochArithmetic`, which also shows why the
rest may use unbounded epochs (`UnwrappedEpochs`). Record offsets and restart DSIDs are truncated
to 32 bits where the code does so; the midpoint of the binary searches wraps at 2^64.

**Environment.** The clock, the file system and the client are parameters of steps or methods: which
bytes a client stages and when, which cache line is written back, what a failing disk write leaves,
when the fsyncer is through with a segment the flusher waits for, whether a round of work ends with
an error.

**Code and documentation.** The comment on the write call asks for epochs up to SE + 1, its assertion
admits epochs up to SE + 4. The pipeline admits every epoch after SE and before DE + 5, which covers the
comment; `WriterCalls.SpaceCheckExactly` and `WriterCalls.HorizonIsNotCounted` show what the space check
misses for the one epoch the assertion admits beyond that.

## Model

| member | source | states |
|---|---|---|
| `PipelineRuns.StepKeeps` | src/nvwal_api.c:118-839 | Every admissible step of any thread, every eviction and every crash with restart keeps the pipeline invariant |
| `PipelineRuns.RunKeeps` | src/nvwal_api.c:118-839 | The invariant holds in every state of every run from a new log, with any interleaving and any number of crashes |
| `PipelineTheorems.Durability` | src/nvwal_api.c:447-551 | In every state of every run, for every epoch up to the control block's durable epoch: the metadata store, in whatever phase of a write, returns its record, the log holds per writer exactly what was submitted in it, exactly its bytes lie in the recorded range, and each of them is on disk or on the media of its slot |
| `PipelineTheorems.DurableForGood` | src/nvwal_api.c:447-551 | Once durable, an epoch keeps its entries, their order and the record the metadata store returns through the rest of the run, crashes included; the durable epoch never goes back |
| `PipelineTheorems.WasConcluded` | src/nvwal_api.c:450-504 | Every record in every run is the one the flusher concluded for that epoch, in one particular earlier state |
| `PipelineTheorems.CrashKeepsDurablePrefix` | src/nvwal_impl_init.c:538-565 | A crash cuts the log to a prefix: all entries of durable epochs stay, all others go |
| `PipelineTheorems.RangesTile` | src/nvwal_api.c:450-504 | In every run each epoch range starts where the previous one ends, and ends strictly before the end of a segment |
| `PipelineSafety.StreamRefinement` | src/nvwal_api.c:224-258 | In every run the log's projection on a writer, followed by the unflushed circular region of its buffer, is exactly what the writer submitted; the bytes staged behind it are intact and never overlap it |
| `PipelineSafety.LogIsSorted` | src/nvwal_api.c:507-551 | In every run the log is sorted by epoch |
| `PipelineSafety.NoSegmentLost` | src/nvwal_api.c:644-692 | In every run each segment up to the current one is completely on disk or in its slot with its bytes |
| `PipelineSafety.SegmentsMoveOn` | src/nvwal_api.c:644-839 | A slot is renumbered only after its segment was synced and with no reader, to the segment one cycle later; the last synced DSID grows by at most one a step |
| `PipelineSafety.PinCounts` | src/nvwal_impl_pin.c:40-81 | The pin count is -1 exactly while the flusher recycles the slot and otherwise the number of readers |
| `PipelineSafety.ReaderSeesItsSegment` | src/nvwal_impl_cursor.c:102-164 | An open cursor's slot carries its segment's number, is pinned and shows its bytes; a cursor on a disk file reads the complete segment |
| `PipelineSafety.OpenUntilClosed` | src/nvwal_impl_cursor.c:102-201 | That stays so from opening to closing, through any steps of fsyncer, flusher and other readers |
| `PipelineSafety.HalfPublishedFrameIsInvisible` | src/nvwal_api.c:194-222 | Between the three publishing stores the frame carries a durable epoch; the flusher neither finds it nor is working on it |
| `PipelineSafety.EpochsMoveOn` | src/nvwal_api.c:118-134 | With any number of stale advance calls SE is DE or DE + 1, and both only move forward, by one at a time |
| `PipelineSafety.FlusherAssertionsHold` | src/nvwal_api.c:481-654 | The assertions at a segment turn (full, flags and error clear) and in the persist loop hold in every state; in particular every segment after the last synced DSID as loaded before the loop is still in its slot, however far the fsyncer has got since |
| `PipelineSafety.WriterAssertionsHold` | src/nvwal_api.c:224-258 | The assertions of the write call hold at its last store: epoch window, tail, and room in the buffer |
| `FlusherProgress.PassCompletes` | src/nvwal_api.c:507-551 | From any state between two passes, the flusher left alone gets to the end of a pass: nothing submitted in the target epoch is left in a buffer, and the epoch is durable if and only if it was stable when the pass began; or it is held up in a segment turn |
| `FlusherProgress.HeldUpByOthers` | src/nvwal_api.c:663-675 | Whoever holds the flusher up can move: a segment is waiting for the fsyncer, a reader has the slot pinned, or the fsyncer is about to record its progress |
| `FsyncerProgress.SyncsUndisturbed` | src/nvwal_api.c:724-839 | From any state of the fsyncer, if the next segment was handed over, at most seven of its steps later the segment is in its file byte for byte, recorded as synced and recyclable, and nothing else changed |
| `FsyncerProgress.FullIsPending` | src/nvwal_api.c:733-746 | Every full segment that is not on disk is handed over |
| `SyncFailures.FailureIsReported` | src/nvwal_api.c:663-672 | In every run, from a failing write of a segment to the next restart, the flusher can return the error whenever it waits for the slot of that segment |
| `SyncFailures.FailureWasReal` | src/nvwal_api.c:832-838 | In every run a set error flag goes back to a failing write of that very segment |
| `SyncFailures.GivesUpOnlyThen` | src/nvwal_api.c:663-672 | In every run a flusher that gave up waiting did so because the fsyncer had failed on the segment in that slot |
| `CursorOpening.OpensUndisturbed` | src/nvwal_impl_cursor.c:102-164 | Unless the slot is being recycled, an attempt to open a segment in NV ends after at most five steps: open if the slot carries the segment, turned away if it does not, with one pin more and nothing else changed |
| `CursorOpening.TurnedAwayMeansSynced` | src/nvwal_impl_cursor.c:146-156 | A cursor is turned away only from a slot with another number; its segment is then completely on disk, and its next attempt opens the file |
| `CursorOpening.ClosingUndoes` | src/nvwal_impl_cursor.c:167-201 | Opening and closing a segment leaves the ring as it was |
| `CursorOpening.ClosingAFile` | src/nvwal_impl_cursor.c:167-201 | Closing a disk file leaves the ring alone |
| `WriterInvariant.ReusedFrameIsDurable` | src/nvwal_api.c:194-222 | Five frames suffice: the frame reused for an epoch before DE + 5 holds a durable epoch |
| `WriterInvariant.CheckFrameKeeps` | src/nvwal_api.c:294-330 | A space check interleaved with the flusher never underestimates: what it adds up covers all unflushed bytes |
| `WriterInvariant.StageKeeps` | src/nvwal_api.c:294-330 | After a positive check, fewer than half a buffer of further bytes never reach an unflushed byte |
| `SpaceChecks.CheckDecides` | src/nvwal_api.c:294-330 | The steps of an undisturbed check end with yes if and only if at most half of the buffer is unflushed |
| `SpaceChecks.VerdictMeans` | src/nvwal_api.c:294-330 | In every run, with the flusher at work meanwhile: no means that more than half of the buffer was unflushed when the check began, yes that at most half of it is when it ends |
| `WriterSteps.AdvanceCasStepKeeps` | src/nvwal_api.c:118-134 | The compare-and-swap keeps the invariant, and afterwards SE is at or after the requested epoch |
| `RestartSteps.RestartPoint` | src/nvwal_api.c:447-505 | Wherever a crash strikes, the control block's durable epoch has its record, the epochs up to it tile the log, and their bytes are safe |
| `RestartSteps.RestartEnabled` | src/nvwal_impl_init.c:538-565 | So a restart always finds the record it needs, inside the log |
| `RestartSteps.RestartKeeps` | src/nvwal_impl_init.c:538-565 | Reopening re-establishes the whole invariant: DSIDs, fill state, visible bytes, tiling |
| `Crashes.RestartForgets` | src/nvwal_impl_init.c:486-585 | A restart depends on nothing but the media, the files and the control block |
| `Crashes.AnyMixture` | src/nvwal_api.c:460-465 | A crash may find any mixture of the bytes last persisted and the bytes last written in a segment |
| `Crashes.RestartGoesOn` | src/nvwal_impl_init.c:538-585 | After a restart every thread is at its beginning, SE is DE, and the full segments not on disk are handed to the fsyncer |
| `StoreInvariant.LatestSurvives` | src/nvwal_impl_init.c:544-551 | Wherever a crash strikes, even in the middle of a page turn, start-up reads the right record of the durable epoch |
| `StoreInvariant.StoreReturns` | src/nvwal_mds.c:1226-1268 | At every point of a write the store returns the record of every durable epoch |
| `StoreInvariant.StepsOfAWrite` | src/nvwal_mds.c:1226-1268 | The flusher's steps leave to a crash exactly the states the metadata store's own write does |
| `RestartSteps.ReopenedRecords` | src/nvwal_mds.c:973-1003 | A restart on a sound image reads back every record as written, and the store is at rest again |
| `Restart.RestartDsidIsUnique` | src/nvwal_impl_init.c:730-751 | Each slot gets the one DSID in (L, L+n] with its residue, if L + n fits in 32 bits |
| `Restart.RestartDsidExact` | src/nvwal_impl_init.c:730-751 | For up to 1024 segments the DSID is in range if and only if the 32-bit sum does not overflow |
| `Restart.RestartDsidOverflows` | src/nvwal_impl_init.c:738-739 | A concrete overflow |
| `PipelineRaces.BreakExactly` | src/nvwal_api.c:541-548 | Leaving the traversal early keeps the invariant if and only if the pass is not stable or the skipped writers have nothing of the epoch left |
| `PipelineRaces.BreakLosesBytes` | src/nvwal_api.c:541-548 | Otherwise the flusher goes on to make the epoch durable without those bytes, over however many segments the epoch extends |
| `PipelineRaces.FlagPairExactly` | src/nvwal_api.c:742-744 | An fsyncer step keeps the invariant if and only if it does not look at a requested segment between the flusher's clearing of "completed" and of "requested" |
| `PipelineRaces.FlagRaceSyncsUnwritten` | src/nvwal_api.c:683-685 | Otherwise a segment nothing was written to is recorded as synced |
| `PipelineRaces.LockExactly` | src/nvwal_api.c:660-676 | Taking the next slot keeps the invariant if and only if the fsyncer is not between its two progress stores for it |
| `PipelineRaces.RecyclingRaceMisleadsReader` | src/nvwal_impl_cursor.c:134-156 | Otherwise a cursor can end up reading a segment other than the one it opened |
| `PipelineRaces.RestartExactly` | src/nvwal_impl_init.c:538-565 | A restart re-establishes the invariant if and only if the resumed segment is not synced, the last durable epoch lies in one segment, and the image of the metadata store is sound |
| `PipelineRaces.RestartOverlaps` | src/nvwal_impl_init.c:549-551 | If that epoch crosses a boundary, the next one is recorded to start inside it |
| `PipelineRaces.RestartLosesCurrentSegment` | src/nvwal_impl_init.c:730-769 | If the segment was synced, no slot carries it any more |
| `PipelineRaces.PageTurnWindow` | src/nvwal_mds.c:1242-1265 | The image is sound in every state except from the append of a full page to the store that makes the next epoch durable, once in as many epochs as a page has records |
| `PipelineRaces.PageTurnLosesRecord` | src/nvwal_mds.c:1242-1265 | A restart just before that store loses the record of a durable epoch: for the first epoch of the previous page the store returns the record of an epoch that is not durable |
| `RaceRuns.BreakHappens` | src/nvwal_api.c:541-548 | A concrete run in which a stop request may end a stable pass before a writer with bytes of the epoch |
| `RaceRuns.FlagRaceHappens` | src/nvwal_api.c:683-685 | A concrete run in which the fsyncer looks at a segment while its flags are being reset |
| `RaceRuns.RecyclingRaceHappens` | src/nvwal_api.c:820-828 | A concrete run in which the flusher is about to recycle a segment between the two progress stores while a cursor is opening it |
| `RaceRuns.BoundaryEpochHappens` | src/nvwal_impl_init.c:549-551 | A concrete run to a durable epoch of the bytes 7 and 8 that starts in segment 1 and ends at the start of segment 3: a cursor yields 7 only, and any restart makes the next epoch start where this one does |
| `RaceRuns.SyncedResumeHappens` | src/nvwal_impl_init.c:730-769 | A concrete run in which the last durable epoch ends in a segment that is already synced |
| `RaceRuns.FailureHappens` | src/nvwal_api.c:832-838 | A concrete run in which a disk write fails, leaves an empty file, and the waiting flusher gives up |
| `RaceRuns.StopHappens` | src/nvwal_api.c:391-404 | A concrete run in which flusher and fsyncer stop on request |
| `EpochRuns.PageTurnCrashHappens` | src/nvwal_mds.c:1242-1265 | With any number of records in a page, a run of empty epochs into the page turn, where a restart returns the record of the next epoch for epoch 1 |
| `TagRuns.StoredTagsAreExact` | src/nvwal_api.c:585-592 | If one fixed writer tags every epoch before it becomes stable, every record in every run carries exactly the tags of its epoch |
| `TagPasses.RecordedTags` | src/nvwal_api.c:581-592 | In every run in which no tag of an epoch changes while it is stable and not durable, for each of the two tags: a record has tag t if and only if the last writer with a non-zero tag in its frame of the epoch had t, or none had one and t is the tag of the epoch before, or 0 right after start-up |
| `TagPasses.PickedExactly` | src/nvwal_api.c:581-592 | What a pass over any writers makes of the flusher's previous tag: the last non-zero tag in writer order, or that previous tag |
| `EpochRuns.TagIsCarriedOver` | src/nvwal_api.c:588-591 | A concrete run in which epoch 1 is tagged and epoch 2, with a frame of its own, is not: both records have the tag |
| `EpochRuns.StaleTagComesBack` | src/nvwal_api.c:218-220 | A concrete run in which epoch 6, not tagged, gets the tag of epoch 1, whose frame it reuses, and epochs 3 to 5 that of epoch 2 |
| `TagQueries.FirstTagged` | src/nvwal_mds.c:1356-1384 | In such a run with tags that do not decrease, a lower-bound query on the store finds the first durable epoch whose tag reaches the limit, or that there is none |
| `TagQueries.LastTagged` | src/nvwal_mds.c:1387-1413 | And an upper-bound query the last one whose tag does not exceed it |
| `TagQueries.SameRecords` | src/nvwal_mds.c:1314-1330 | The records of a store with the contents of the pipeline's are the records of the durable epochs |
| `WriterCalls.WriterContext.AssureActiveFrame` | src/nvwal_api.c:194-222 | The call leaves the frame table the publishing steps of the pipeline produce |
| `WriterCalls.FramedBySteps` | src/nvwal_api.c:194-222 | Setting up a frame is the choice of the frame and three stores of the pipeline |
| `WriterCalls.WriterContext.OnWalWrite` | src/nvwal_api.c:224-258 | The call announces exactly the staged bytes under the epoch, keeps the writer invariant, and its assertions hold |
| `WriterCalls.WriterContext.TagEpoch` | src/nvwal_api.c:260-292 | Tags exactly the first frame of the epoch, or nothing |
| `WriterCalls.WriterContext.FindFrame` | src/nvwal_api.c:565-576 | Finds the first frame of the epoch, or says that there is none |
| `WriterCalls.WriterContext.HasEnoughSpace` | src/nvwal_api.c:294-330 | Says yes if and only if the counted frames span at most half the buffer |
| `WriterCalls.SpaceCheckExactly` | src/nvwal_api.c:315-328 | What is counted are exactly the unflushed bytes of epochs before DE + 5; it is all of them if and only if there is none of a later epoch |
| `WriterCalls.SpaceCheckOfWriter` | src/nvwal_api.c:294-330 | Under the writer invariant the check counts every unflushed byte exactly once |
| `WriterCalls.HorizonIsNotCounted` | src/nvwal_api.c:319-322 | At the horizon epoch a nearly full buffer counts as empty |
| `FlusherCalls.NvRing.PersistRange` | src/nvwal_api.c:466-488 | The persist loop makes exactly the part of the record's range that is not on disk persistent, and nothing else |
| `FlusherCalls.NvRing.MoveOntoNext` | src/nvwal_api.c:644-692 | A turn fails if and only if it has to wait for a slot on which the fsyncer fails; otherwise the ring is as after the steps of a turn in the pipeline, and no visible segment is lost |
| `FlusherCalls.NvRing.CopyOneWriter` | src/nvwal_api.c:594-641 | The copy loop appends exactly the bytes between head and tail to the log, over as many segments and waits as it takes; if the fsyncer fails it stops with the bytes up to the new head in the log |
| `FlusherCalls.NvRing.CopyOnce` | src/nvwal_api.c:596-638 | One round copies as much as fits into the segment, and moves on if that fills it |
| `FlusherCalls.NvRing.WaitFor` | src/nvwal_api.c:663-672 | Polling ends with an error if and only if the slot was being waited for and the fsyncer failed on it |
| `FlusherCalls.NvRing.Append` | src/nvwal_api.c:608-629 | One copy leaves the current slot as the copy and accounting steps of the pipeline do, and the log longer by those bytes |
| `FlusherCalls.TurnIsItsSteps` | src/nvwal_api.c:656-691 | The ring after a turn is the one the seven stores of a turn in the pipeline produce one after the other |
| `Mds.Store.AllocPage` | src/nvwal_mds.c:777-819 | A page is buffered unless the page before it is still dirty; the invalid page is refused |
| `Mds.Store.WriteEpoch` | src/nvwal_mds.c:1226-1268 | Writing the next epoch appends its record to the sequence the store holds, across page turns, and leaves the listed states to a crash; epoch 0 is refused |
| `Mds.Store.RollbackTo` | src/nvwal_mds.c:1286-1312 | A rollback to 1 <= e <= durable leaves exactly the records up to e in a store that can be written again |
| `Mds.Store.Reopen` | src/nvwal_mds.c:973-1003 | Recovery yields a valid store with the given records if and only if `Recovers` says so of what the crash left |
| `Mds.FoundThere` | include/nvwal_impl_mds.h:110-147 | Every record is in the buffer or in the file, where its page number says, and reading gives it |
| `MdsLayout.OffsetsAgreeExactly` | include/nvwal_impl_mds.h:124-147 | The two offset formulas agree for all epochs if and only if pages consist of whole records |
| `MdsCrash.RestExactly` | src/nvwal_mds.c:985-996 | A store at rest is recovered if and only if paged < durable or both are 0 |
| `MdsCrash.WriteCrash` | src/nvwal_mds.c:1226-1268 | A crash at any point of a write is recovered from if and only if the length of the file fits the durable epoch |
| `MdsCrash.TurningWriteIsSafeAtTheEnd` | src/nvwal_mds.c:1242-1265 | In a write that turns a page that is so only after the last store |
| `MdsCrash.FirstTurnCrash` | src/nvwal_mds.c:1242-1265 | The first page turn of any store is such a case |
| `MdsCrash.TurnCrashMisplacesPages` | src/nvwal_mds.c:1242-1265 | After a crash at any of the first three points of such a write, the page is appended once more, and epochs of the next page are looked up among its records |
| `MdsCrash.TurnCrashLosesRecord` | src/nvwal_mds.c:1242-1265 | After a crash just before the last store, the reopened store returns the new record for epoch durable - cap + 1 and the right one for every other durable epoch |
| `MdsCrash.RollbackCrash` | src/nvwal_mds.c:1286-1312 | A crash at any point of a rollback is recovered from, except between truncation and the paged-epoch update |
| `MdsRead.Iterator.Prefetch` | src/nvwal_mds.c:1092-1164 | Whichever source it uses, the iterator holds the record of the current epoch |
| `MdsRead.OpenIterator` | src/nvwal_mds.c:1167-1193 | An iterator starts at its first record; a reversed range is an error |
| `MdsRead.Iterator.Next` | src/nvwal_mds.c:1196-1202 | The iterator moves to the record of the next epoch |
| `MdsRead.ReadOneEpoch` | src/nvwal_mds.c:1314-1330 | Returns the record last written for the epoch |
| `MdsRead.ReadRange` | src/nvwal_mds.c:1167-1208 | Iterating from the first epoch until the iterator is exhausted yields exactly the records of the range, in order |
| `MdsRead.FetchAhead` | src/nvwal_impl_cursor.c:203-252 | What a cursor fetches with an iterator is the records of as many epochs as fit, are asked for and are durable; the iterator is never exhausted when one is taken |
| `MdsRead.Iterator.LookUp` | src/nvwal_mds.c:1131-1140 | A record is taken from what was fetched before if and only if it is there |
| `MdsRead.InPage` | src/nvwal_mds.c:1146-1154 | As many records are fetched as fit, up to the end of the range or of the page |
| `MdsRead.LowerBound` | src/nvwal_mds.c:1356-1384 | The least epoch whose tag satisfies a rising predicate; not found if and only if there is none |
| `MdsRead.UpperBound` | src/nvwal_mds.c:1387-1413 | The greatest epoch whose tag satisfies a falling predicate; not found if and only if there is none |
| `MdsRead.MidpointExact` | src/nvwal_mds.c:1370 | The 64-bit midpoint is in range if and only if low + high < 2^64 |
| `MdsRead.MonotoneTagsRise` | src/nvwal_mds.c:1356-1413 | Non-decreasing tags make threshold queries rising or falling |
| `MdsRace.RunKeeps` | src/nvwal_mds.c:1099-1163 | The invariant of optimistic readers holds in every interleaving with page turns |
| `MdsRace.ReadersGetTheirRecord` | src/nvwal_mds.c:1099-1163 | Every reader gets the record of the epoch it asked for, by the validated copy, a clobbered prefetch buffer or the file |
| `MdsRace.ReadsAreInRange` | src/nvwal_mds.c:1126-1163 | No lookup leaves the prefetched entries and no read goes past the end of the file |
| `MdsRace.ReadsUndisturbed` | src/nvwal_mds.c:1099-1163 | A reader may ask for any durable epoch; left alone it gets the record in at most three steps, from the buffer, else from what it fetched before, else from the file |
| `MdsRace.WritesUndisturbed` | src/nvwal_mds.c:1226-1268 | The next epoch can always be written; left alone, the write adds its record in at most three steps |
| `Cursor.LogCursor.constructor` | src/nvwal_impl_cursor.c:51-100 | A new cursor is on the first chunk of its first epoch, or exhausted |
| `Cursor.LogCursor.Fetch` | src/nvwal_impl_cursor.c:203-252 | Fetches the records of up to two epochs, bounded by the range and by DE |
| `Cursor.LogCursor.Next` | src/nvwal_impl_cursor.c:263-323 | Moves to the next chunk: next segment, next epoch, or the end; the recursion ends |
| `Cursor.ReadAll` | include/nvwal_api.h:311-326 | The client's loop terminates and visits, while the log grows, every chunk of every epoch in range in order |
| `CursorChunks.ChunksYield` | src/nvwal_impl_cursor.c:263-323 | The chunks of an epoch concatenate to what `Yielded` says |
| `CursorChunks.YieldsAllExactly` | src/nvwal_impl_cursor.c:302-313 | That is the whole epoch if and only if the epoch does not end on a segment boundary after three or more segments |
| `CursorRoundTrip.ReadsBackTheLog` | src/nvwal_impl_cursor.c:263-323 | In every run and for every durable epoch, the cursor yields exactly the bytes logged in it, if and only if it is not of that shape |
| `CursorRoundTrip.SeenGrows` | src/nvwal_impl_cursor.c:203-252 | A step that is not a restart lets the log a cursor sees only grow |
| `RunReading.SeenGrowsOverRun` | src/nvwal_impl_cursor.c:203-252 | So between any two states of a run without a restart in between it has grown |
| `RunReading.ReadDuringRun` | include/nvwal_api.h:311-326 | The client's loop, looking at the log in any states of a run between two restarts, gets the chunks of all epochs asked for that are durable at the end; those of an epoch are exactly its bytes in the log if and only if the epoch does not end on a segment boundary after three or more segments |
| `RunReading.MappedIsSeen` | src/nvwal_impl_cursor.c:102-164 | What an open cursor has mapped, on NV or on disk, holds each chunk of its segment |
| `ThreadState.RunKeeps` | src/nvwal_impl_init.c:60-145 | The invariant of the thread-state byte holds in every interleaving of host and workers |
| `ThreadState.FinalStatesAbsorb` | src/nvwal_impl_init.c:60-145 | Stopped and ProhibitStart are never left |
| `ThreadState.OneWorkerAtATime` | src/nvwal_impl_init.c:65-79 | At most one thread is in the main loop |
| `ThreadState.NothingRunsAfterStop` | src/nvwal_api.c:378-408 | After the stop call returned no thread is in the main loop and none enters it |
| `ThreadState.StopIsHeeded` | src/nvwal_api.c:391-404 | In every run, once a stop is requested a thread that is not in the middle of a round never begins another one |
| `ThreadState.WorksOn` | src/nvwal_api.c:391-404 | Until then, and while no round ends with an error, a worker goes from its check to a round of work and back |
| `ThreadState.LeavesForAReason` | src/nvwal_api.c:391-404 | A thread that left its loop did so after a stop request or an error |
| `ThreadState.ErrorEndsTheLoop` | src/nvwal_api.c:400-403 | A round that ends with an error is the last one of its thread |
| `ThreadState.RefusedForGood` | src/nvwal_api.c:378-389 | A thread that is not let in never runs |
| `ThreadState.FailedInitRunsNothing` | src/nvwal_impl_init.c:60-63 | After a failed initialization no thread ever runs |
| `ThreadState.StopCall` | src/nvwal_impl_init.c:92-145 | The stop call left alone: it returns at once if there is nothing to stop, prohibits the start of a thread that has not started, and otherwise requests the stop and waits |
| `ThreadState.StopHappens` | src/nvwal_impl_init.c:92-145 | A concrete run in which a working thread is stopped and the host returns |
| `ThreadState.AssertionsHold` | src/nvwal_impl_init.c:92-145 | The assertions about the state byte hold |
| `ThreadState.StartAssertionExactly` | src/nvwal_impl_init.c:65-79 | The assertion of a refused start fails if and only if another thread is active and no stop was requested; never with one thread |
| `ThreadState.SecondStartFindsRunning` | src/nvwal_impl_init.c:65-79 | A concrete run of two threads in which it fails |
| `EpochArithmetic.AddIsRepeatedIncrement` | include/nvwal_api.h:275-298 | Adding n is n increments, which skip the invalid epoch |
| `EpochArithmetic.IsAfterIsSerialGreater` | include/nvwal_api.h:260-264 | The comparison is exactly "greater than" of section 3.2 of RFC 1982 with 64 bits |
| `EpochArithmetic.StrictTotalOrderInWindow` | include/nvwal_api.h:260-268 | It is a strict total order on every window of at most 2^63 values |
| `EpochArithmetic.WindowIsTight` | include/nvwal_api.h:260-264 | One value further the two ends of a window are incomparable |
| `EpochArithmetic.UnwrappedEpochs` | include/nvwal_api.h:260-298 | Within such a window wrapped epochs compare and add like unbounded ones |
| `Circular.CircularMemcpy` | src/nvwal_util.c:287-308 | Copies the bytes that start at the offset, continuing at 0, and nothing else |
| `Circular.CircularDestMemcpy` | src/nvwal_util.c:310-330 | Stores the bytes from the offset on, continuing at 0, and nothing else |
| `Circular.StoreThenFetch` | src/nvwal_util.c:287-330 | What one copy stored the other fetches |
| `Circular.WriteAppends` | src/nvwal_util.c:310-330 | Appending behind live bytes leaves them intact as long as everything fits |
| `Circular.DistanceInvertsWrap` | src/nvwal_api.c:165-189 | Distance and wrap are inverse as long as the buffer is not full |

## Left out

- Weak memory ordering: steps are sequentially consistent. Fairness: that a thread gets to run at all, and progress under unbounded interference, are not stated; progress is proved for each thread left alone.
- WriterCalls.WriterContext.HasEnoughSpace: counts in unbounded integers; the source adds at most five distances below the buffer size in 64 bits.
- The step between storing the last synced DSID, the durable epoch or the paged epoch and persisting it: each is one step that survives a crash.
- Cursors in the pipeline take records from the bookkeeping map, which is what the metadata store returns; lock-free reading of the store while it is written is the separate step system `MdsRace`.
- A torn append to the page file: appending a page is one step; cutting off a torn page at start-up is compiled in for some file systems only.
- Copying a record or a segment in pieces: a record copy, a memcpy of the flusher, a persist of one segment and a write of one segment to disk are one step each.
- File opening, mmap, fallocate, partial reads and writes, paths and directories: reading and writing files are operations on sequences. A read past the end of the page file, which the source repeats forever, is an error here.
- Configuration checks, comparison with the previous configuration, version and debug output.
- The resuming epoch of the configuration, which the source does not pass on to the metadata store.
- More than one page file: the number is 1 and the byte-offset formula ignores striping.
- Epoch wrap-around inside the metadata store and the cursor: they use unwrapped epochs.
- Tests, experiments, benchmarks and the example program.
