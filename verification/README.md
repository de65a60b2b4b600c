# Verified model of Moonfire NVR's storage and serving core

This project models three parts of Moonfire NVR, a security camera video recorder, and proves what
they promise.

**The signal store** (`Coding`, `SignalPoint`, `SignalTimeline`, `Days`, `SignalUpdate`, `SignalIndex`,
`SignalDebug`, `SignalGc`, `SignalStore`, `SignalTable`, `SignalRun`, `SignalFaults`). A sorted map of
points, each with the whole previous state and a change list as varint bytes. `SignalStore.State` has the
source's methods; they are proved to implement a total function of time and signal that an update
overwrites on an interval.
Garbage collection, write-behind to a table and loading at startup are proved against the same function.
`SignalDebug` and `SignalIndex` give the exact conditions under which the debug build's check and the
per-day index survive an update, and `SignalFaults` requests that break each.

**The recording pipeline** (`RecentFrames`, `StreamState`, `LockedStream`, `Pipe`, `PipeInv`, `PipeSteps`,
`PipeWorker`, `PipeFlush`, `PipeSafe`, `PipeKeys`, `PipePanic`, `PipeRam`, `PipeDisk`, `Pipeline`,
`PartitionRange`, `Garbage`, `Committed`, `Retention`, `WriterTiming`, `SampleEntries`). `StreamState` specifies what happens under a
stream's lock, and `LockedStream` implements it with the source's loops. `Pipe` is the protocol of the
stream writer, the directory worker, the flusher, the flush and the collectors, with one step for each
region that holds a lock; `Pipeline` joins any number of streams. The operating system may fail or write
partially at each call and the machine may crash between any two steps. A failed assertion or panic of
the source is a step without a result, so safety includes that none is reached. One is: `delete_until`
can panic. `PipeFlush.DeleteUntilPanics` gives the exact condition, `PipePanic` a run that reaches it, and
`PipeKeys` proves that it is unreachable if every recording starts with a key frame. Beside safety there is
what makes the pipeline useful: the worker gives up on a recording without a failed I/O only if it was more
than 64 MiB behind (`PipeRam.OnlyTheSlowLose`), it leaves a stream only when nothing is left to do
(`PipeRam.WorkerLeavesDone`), a flush takes all that is synced (`PipeSafe.FlushTakesAll`), and what a reader
is sent to the file for is in the file (`PipeDisk.ReaderFinds`).

**From sample index to virtual .mp4** (`SampleIndex`, `Segments`, `EditList`, `BigEndian`, `BoxTree`,
`SampleTables`, `TrackRuns`, `Slices`, `Mp4Body`, `Mp4Boxes`, `Mp4File`, `Mp4Serve`, `Mp4Reader`, `Mp4Tables`,
`Mp4Lengths`, `Mp4Headers`, `Mp4Whole`, `Mp4Plays`, `Mp4Fragments`). The delta-coded index is decoded and cut
to a segment, printed as tables and runs of ISO/IEC 14496-12, laid out as slices that are rendered on demand,
and served by byte range. Each stage is an imperative method with an exact specification. `Mp4Reader` is a player that looks at parsed boxes only,
with flags tested bit by bit and times converted by the time scales it finds. The last three modules state
what it gets from any file a successful build makes, its offsets rendered from the position the build
returns: the file parses (`Mp4Lengths.TrueFile`), every frame is found where its bytes are
(`Mp4Whole.NormalSample`, `Mp4Fragments.MediaSample`), and what is played is exactly what was asked for
(`Mp4Plays.PlaysRequested`).

Where code and documentation disagree the model follows the code, and gives the exact condition and a
failing run or request: the order of counters documented for `flush_ready` (`PipeSafe.WorkerPosition`,
`PipePanic.GrowingCanBeAbandoned`; it also fails after a restart once anything was committed, since the
worker's position then starts at 0), the rule documented for UNCOMMITTED (`PipeKeys.FlagsExactly`,
`PipePanic.FlagsCanBeWrong`), the debug check of signal points (`SignalDebug.StepsDebug`,
`SignalFaults.ZeroWhileUnknown`) and the day index after an update of several signals
(`SignalStore.PatchDays`, `SignalFaults.SecondIndexWrong`). Section 8.8.8 of ISO/IEC 14496-12 declares the
data offset of a run signed, while the source fills all 32 bits: `Mp4Fragments.SignedOffset` gives the bound
up to which both readings agree.

Time, randomness, what the operating system returns, what another thread does next and what a database
query returns are parameters or choices of the environment. A transaction is atomic; tables are maps or
sequences; a file is its bytes and whether it is durable.

## Model

| member | source | states |
|---|---|---|
| `Coding.ZigzagInverse` | server/db/coding.rs:11-20 | zigzag and its inverse undo each other in both directions on all 32-bit values |
| `Coding.AppendVarint32` | server/db/coding.rs:67-94 | the five unrolled cases append exactly the canonical varint |
| `Coding.VarintUnrolled` | server/db/coding.rs:67-94 | which bytes the recursive varint has in each of the unrolled cases |
| `Coding.DecodeVarint32Slow` | server/db/coding.rs:45-64 | the loop over groups agrees with the recursive decoder on every input, errors included |
| `Coding.DecodeVarint32` | server/db/coding.rs:23-42 | the unrolled fast paths agree with the same decoder on every input |
| `Coding.VarintRoundTrip` | server/db/coding.rs:23-94 | an encoded value decodes to itself and its end wherever it stands in a buffer |
| `SignalPoint.AppendSerialized` | server/db/signal.rs:109-120 | appends the delta-coded form of any ascending list of signals and states |
| `SignalPoint.Serialize` | server/db/signal.rs:122-126 | the byte form of any map parses back to that map; it is empty only for the empty map |
| `SignalPoint.SerializedExample` | server/db/schema.sql:410-424 | the documented example, byte for byte |
| `SignalPoint.ParseSerialized` | server/db/signal.rs:109-187 | parsing what was serialized gives the same pairs, from any position |
| `SignalPoint.PointDataIterator.Next` | server/db/signal.rs:146-177 | one step of the byte iterator is one step of the parse: error exactly when the rest has one, end exactly at the end of the data, otherwise the next pair, with positions and signals increasing |
| `SignalPoint.PointDataIterator.IntoMap` | server/db/signal.rs:180-185 | the loop over the iterator gives the parsed map or the error |
| `SignalPoint.GetApplied` | server/db/signal.rs:93-105 | lookup after applying changes: the change if there is one, the old state otherwise, a change to 0 and an absent signal both reading 0 |
| `SignalPoint.TrimChanges` | server/db/signal.rs:595-613 | re-encoding a change list without the updated signals keeps exactly the others and says truthfully when nothing changed |
| `SignalUpdate.StepsUpdate` | server/db/signal.rs:254-621 | the end, start and middle steps together are an overwrite: given signals take given states inside the interval, every other signal and time is unchanged, and every point again holds the fold of all earlier changes |
| `SignalUpdate.StepsPrev` | server/db/signal.rs:381-621 | after an update the state stored in each point is the overwritten state function just before it |
| `SignalUpdate.StepsStrict` | server/db/signal.rs:458-492 | the three steps leave an explicit 0 in a stored previous state exactly if a signal is set to 0 that was already unknown just before the end |
| `SignalDebug.DebugCheck` | server/db/signal.rs:797-816 | the loop of the debug check passes exactly if every previous state is the map folded from the changes before it and the map is empty at the end |
| `SignalDebug.DebugExactly` | server/db/signal.rs:797-816 | that check passes if and only if every stored previous state reads as the fold of all earlier changes, the far future is unknown and no explicit 0 is stored |
| `SignalDebug.StepsDebug` | server/db/signal.rs:797-816 | from a store that passes the check, it passes after an update if and only if no signal is set to 0 that was already unknown just before the end |
| `SignalFaults.ZeroWhileUnknown` | server/db/signal.rs:458-492 | a concrete request that the store takes and the debug check then stops: a signal set to unknown while it is unknown |
| `SignalFaults.ZeroRun` | server/db/signal.rs:254-278 | the store itself, newly made, takes that request and ends in a state the debug check stops |
| `SignalFaults.SecondIndexWrong` | server/db/signal.rs:563-588 | two concrete requests after which the day index of a signal, exact until then, is wrong |
| `SignalFaults.TwoSignalRun` | server/db/signal.rs:254-278 | the store itself, newly made, takes both requests and ends with the wrong day index |
| `SignalStore.EndMaps` | server/db/signal.rs:458-492 | the two maps of the end step, and the day indexes after it |
| `SignalStore.MiddlePrev` | server/db/signal.rs:563-592 | the loop over signals at one middle point: all states are set, only the first signal's day index moves |
| `SignalStore.State.Validate` | server/db/signal.rs:345-379 | accepted exactly if signals are strictly ascending, known, as many as states, and each state is valid for its signal's type |
| `SignalStore.State.UpdateEnd` | server/db/signal.rs:382-456 | keeps the state from the end of the interval on by patching or adding the point there; exact dirty set and day indexes |
| `SignalStore.State.UpdateStart` | server/db/signal.rs:494-552 | patches or adds the point at the start so that the interval begins with the given states |
| `SignalStore.State.UpdateMiddle` | server/db/signal.rs:554-621 | after the loop no point inside changes an updated signal, all others keep their changes, emptied points are gone |
| `SignalStore.State.UpdateSignals` | server/db/signal.rs:254-278 | accepted exactly if valid; unchanged if rejected or empty; otherwise the overwrite, less what garbage collection forgets, with every difference dirty, the point chain kept and the debug check passed exactly when the request allows it; if every state was of its signal's type, it still is |
| `SignalStore.UpdateTyped` | server/db/signal.rs:345-379 | after an update each signal's state is still 0 or in its type's set, at every time |
| `SignalStore.PatchState` | server/db/signal.rs:254-621 | the methods' three steps give the overwritten state function and the chain invariant |
| `SignalStore.PatchDirty` | server/db/signal.rs:381-621 | everything an update changed is dirty |
| `SignalStore.PatchDays` | server/db/signal.rs:563-588 | the exact condition under which an exact day index stays exact: always for the first signal; for another only if it already had its new state up to the last point of the interval |
| `SignalStore.GcAfter` | server/db/signal.rs:281-320 | garbage collection after an update changes only what lies before the first kept point |
| `SignalGc.CollectPoints` | server/db/signal.rs:281-320 | keeps a suffix of at most the configured size, restarts its first point, keeps the chain and marks every difference dirty |
| `SignalGc.GcState` | server/db/signal.rs:281-320 | the state function is unchanged from the first kept point on and unknown before it |
| `SignalGc.GcChained` | server/db/signal.rs:281-320 | every kept point still holds the fold of all kept earlier changes |
| `SignalIndex.EndIndex` | server/db/signal.rs:390-396 | the end step moves each updated signal's index exactly over the last stretch before the end |
| `SignalIndex.UpdateDays` | server/db/signal.rs:563-588 | after all steps the index of a signal is exact if and only if the condition of `IndexFollows` holds |
| `SignalIndex.OverwriteShows` | server/db/signal.rs:563-588 | an index that was not moved over a stretch that changed is wrong: the converse half |
| `Days.Apply` | server/db/days.rs:97-134 | moving time between two states of one day changes exactly those two lookups; it panics exactly when the new state's time leaves 64 bits or the old state has too little time |
| `Days.AdjustDay` | server/db/days.rs:170-183 | the same for a day of the map, absent days included |
| `Days.AdjustSignal` | server/db/days.rs:259-304 | the walk over days moves exactly the overlap of the range with each day, and fails exactly if some day lacks the time or the room |
| `Days.AdjustKeepsExact` | server/db/days.rs:259-304 | over a stretch of constant state an exact index is adjusted without panic and stays exact |
| `SignalTable.Flush` | server/db/signal.rs:627-653 | after writing the rows of all dirty times, and no others, table and memory agree |
| `SignalTable.SyncedKept` | server/db/signal.rs:627-657 | any mutation that marks its differences dirty keeps the table in step |
| `SignalTable.FillChange` | server/db/signal.rs:750-777 | one change of a row while loading: state, day index and the error for an unknown signal |
| `SignalTable.FillRow` | server/db/signal.rs:738-780 | one row while loading: fails only on undecodable changes or an unknown signal; otherwise every change is taken over |
| `SignalTable.FillPoints` | server/db/signal.rs:732-788 | the table loads exactly if every row decodes, only known signals occur and all end unknown; then the points have the rows' changes, all day indexes are exact and the debug check passes |
| `SignalTable.ReloadSame` | server/db/signal.rs:732-788 | a table in step loads, and to the same state function as memory |
| `SignalRun.Load` | server/db/signal.rs:207-221 | loads exactly the loadable tables; memory is then in step with the table, reads like it, has exact day indexes and passes the debug check |
| `SignalRun.LoadedInStep` | server/db/signal.rs:732-788 | what loading returns is in step with the table it came from |
| `SignalRun.Update` | server/db/signal.rs:254-278 | an update of the store with its garbage collection is a step of the runs below |
| `SignalRun.FlushStep` | server/db/signal.rs:627-657 | a flush, committed or failed, is a step of the runs below |
| `SignalRun.StepInStep` | server/db/signal.rs:254-278 | an update with its garbage collection, a flush and a failed flush keep table and memory in step and the chain of previous states right |
| `SignalRun.RunReloads` | server/db/signal.rs:627-788 | after any run of updates, collections and flushes from a store in step, flushing and reloading gives the store's state function for every time and signal |
| `SignalRun.RunExact` | server/db/signal.rs:563-588 | over any run of one-signal updates without garbage collection every day index is exact and no index panic is reached |
| `SignalRun.RebuiltAgrees` | server/db/signal.rs:750-777 | an index rebuilt from the table agrees with the one in memory for every day and state |
| `RecentFrames.RecentFrames.PushBack` | server/db/stream/recent_frames.rs:139-160 | appends the frame and moves the newest group of pictures if it is a key frame |
| `RecentFrames.RecentFrames.PruneFront` | server/db/stream/recent_frames.rs:206-218 | drops a frame only if it is before the newest key frame and either ends at or before the position or is followed, itself included, by more than 67,108,864 bytes; and drops all such frames up to the first that is not |
| `RecentFrames.PruneCountIs` | server/db/stream/recent_frames.rs:206-218 | the count of frames to drop is exactly that |
| `StreamState.PruneFrontExactly` | server/db/stream/recent_frames.rs:206-218 | the same of the queue: what stays starts with the newest key frame, or with a frame that is neither written nor too far behind |
| `RecentFrames.RecentFrames.FromBytePos` | server/db/stream/recent_frames.rs:183-186 | the binary search finds the first frame that ends after the position |
| `LockedStream.LockedStream.constructor` | server/db/db.rs:1488-1515 | a stream as startup makes it, its worker position 0 |
| `LockedStream.LockedStream.AddRecording` | server/db/stream/mod.rs:329-344 | assigns the next id and appends the growing, uncommitted recording |
| `LockedStream.LockedStream.FsBytesToAdd` | server/db/stream/mod.rs:347-357 | the iterator chain sums exactly the blocks of the recordings from the committed count to the flush position |
| `LockedStream.LockedStream.MaybePruneRecentRecordings` | server/db/stream/mod.rs:359-406 | the loop pops exactly the front recordings that no frame, worker or commit still needs |
| `LockedStream.LockedStream.DeleteUntil` | server/db/stream/mod.rs:412-422 | marks exactly the recordings before the end deleted |
| `LockedStream.LockedStream.PrepareWrite` | server/db/dir/writer.rs:125-178 | agrees with the specification; its assertions on empty chunks and missing frames hold |
| `LockedStream.LockedStream.TakeOutcome` | server/db/dir/writer.rs:226-267 | the branches for aborted, written and synced I/O |
| `LockedStream.LockedStream.Examine` | server/db/dir/writer.rs:269-348 | the branches that choose the next I/O step |
| `LockedStream.LockedStream.WriteIterPrep` | server/db/dir/writer.rs:212-350 | the loop ends and returns what the specification says |
| `LockedStream.LockedStream.GatherReady` | server/db/db.rs:748-774 | the loop collects exactly the recordings to insert |
| `LockedStream.LockedStream.MarkCommitted` | server/db/db.rs:922-941 | the loop marks exactly the recordings that were inserted |
| `StreamState.DeleteUntil` | server/db/stream/mod.rs:412-422 | the assertion fails exactly if a recording of the range is UNCOMMITTED; otherwise exactly the range is marked |
| `StreamState.MarkCommitted` | server/db/db.rs:922-941 | the assertion fails exactly if a recording to mark is not UNCOMMITTED; otherwise exactly those lose the flag |
| `PipeInv.MaybePruneSafe` | server/db/stream/mod.rs:359-406 | pruning keeps the invariant: no growing, waiting, gathered or syncing recording is popped |
| `PipeSteps.PushSafe` | server/db/writer.rs:262-318 | pushing a frame fails none of the assertions of `get`, `add_recording` and `push_back`, and keeps the invariant |
| `PipeSteps.PushAppends` | server/db/writer.rs:262-318 | a push appends the sample to its recording's data, as the newest frame with its key flag, and to the newest recording: the open one, or else a new one with the given sample entry |
| `PipeSteps.CloseSafe` | server/db/writer.rs:323-351 | the same for closing a recording |
| `PipeSteps.WakeSafe` | server/db/dir/writer.rs:56-86 | waking the worker, whether or not the pool takes the command; if it does the worker is on the stream |
| `PipeWorker.PrepareWriteExact` | server/db/dir/writer.rs:125-178 | the chunks are the recording's data from the written position on, to its end or 32 chunks; it gives up if and only if the next byte is no longer in RAM |
| `PipeWorker.PrepSafe` | server/db/dir/writer.rs:212-350 | no assertion, `expect` or "was pruned" panic of the worker's lock-held loop is reached |
| `PipeWorker.IoSafe` | server/db/dir/writer.rs:367-452 | whatever open, write, sync and unlink do, partial writes included, the file still matches the recording |
| `PipeFlush.GatherSafe` | server/db/db.rs:746-785 | the gathering assertion holds and what is gathered is exactly what is ready |
| `PipeFlush.NewsAreComplete` | server/db/raw.rs:229-236 | every gathered recording is closed, unaborted, UNCOMMITTED, completely written and synced, and not yet a row, whatever ran since the gathering |
| `PipeFlush.CommitInserts` | server/db/db.rs:807-838 | the transaction adds exactly the gathered recordings with their own sizes, entries and bytes, moves exactly the rows of the deleted range to the garbage table and changes nothing else |
| `PipeFlush.ApplyMarks` | server/db/db.rs:893-945 | the recordings marked committed in memory are exactly those that the transaction inserted |
| `PipeFlush.DeleteUntilPanics` | server/db/stream/mod.rs:412-422 | the flush panics after its commit if and only if the deleted range holds an aborted recording still in RAM |
| `PipePanic.FlushCanPanic` | server/db/db.rs:906-908 | a concrete run from a fresh stream reaches that panic: a recording aborted, the next one without a leading key frame committed and deleted |
| `PipePanic.FlagsCanBeWrong` | server/db/db.rs:258-260 | the same run passes a state that breaks the documented rule for UNCOMMITTED |
| `PipePanic.GrowingCanBeAbandoned` | server/db/stream/mod.rs:138-140 | a concrete run in which a growing recording is abandoned and the worker's position passes the complete count |
| `PipeKeys.FlagsExactly` | server/db/db.rs:258-260 | in every reachable state each undeleted recording is UNCOMMITTED exactly from the committed count on; all recordings are if and only if no deleted one below that count is still UNCOMMITTED |
| `PipeKeys.FlagsAsDocumented` | server/db/db.rs:258-260 | where recordings start with key frames the documented rule holds for all of them |
| `PipeKeys.KeyedSafe` | server/db/stream/mod.rs:412-422 | a step keeps what makes that so, and no condition on the deleted range is needed |
| `PipeKeys.KeyedRunsAreSafe` | server/db/db.rs:893-945 | after any run, crashes included, in which every recording starts with a key frame, the flags are as documented and no possible step fails an assertion |
| `PipeSafe.StepSafe` | server/db/dir/writer.rs:182-349 | from any state of the invariant, whichever of writer, worker, flusher, flush and collector moves next, no assertion fails and the invariant holds again |
| `PipeSafe.CrashSafe` | server/db/db.rs:1488-1515 | so does a crash at any moment with a restart after it |
| `PipeSafe.UnlinkSafe` | server/db/lifecycle.rs:383-446 | unlinking garbage, or abandoned files at startup, never touches a row's file |
| `PipeSafe.RowsAreStored` | server/db/raw.rs:229-253 | each row's file is complete, synced and has exactly the row's bytes, now and after a crash |
| `PipeSafe.FlushTakesAll` | server/db/db.rs:746-838 | a flush that starts after a notification leaves a row for every recording that the worker has finished with and that is neither deleted nor queued for deletion |
| `PipeSafe.FileIsPrefix` | server/db/dir/writer.rs:246-250 | the open file holds exactly the first `written` bytes of its recording |
| `PipeSafe.WorkerPosition` | server/db/stream/mod.rs:138-140 | the worker's position passes the complete count if and only if a growing recording was abandoned, and then by one |
| `PipeSafe.OrderStays` | server/db/stream/mod.rs:138-140 | the rest of the documented order of counters, once it holds, stays |
| `PipeSafe.ListingIsComplete` | server/db/db.rs:1084-1120 | rows before the oldest recording in RAM and the undeleted recordings in RAM are together every row and nothing that was deleted |
| `PipeRam.LostInRun` | server/db/stream/recent_frames.rs:206-218 | in any run a byte that the worker has not passed leaves RAM only at a step at which more than 67,108,864 bytes are in RAM from its frame on |
| `PipeRam.WorkerGivesUp` | server/db/dir/writer.rs:125-178 | the worker gives up on a recording without a failed I/O only if a byte of it that it has not passed is not in RAM |
| `PipeRam.OnlyTheSlowLose` | server/db/dir/writer.rs:138-143 | in any run it does so only if, at that step or before, it was more than 67,108,864 bytes behind in that recording |
| `PipeRam.NoneStays` | server/db/stream/mod.rs:359-406 | after a push or a flush the oldest recording in RAM is one that a frame, a commit or the worker still needs |
| `PipeRam.WorkerLeavesDone` | server/db/dir/writer.rs:269-348 | the worker goes off a stream only if nothing is left to write or sync: of the recordings it has not passed there is at most the growing one, written so far |
| `Pipeline.StepOutward` | server/db/dir/writer.rs:56-86 | how each step of a stream changes whether it is active, and that it names only known sample entries |
| `Pipeline.CommitEntries` | server/db/db.rs:807-809 | every row that a commit inserts names a video sample entry stored by that commit or before |
| `Pipeline.MoveSafe` | server/db/db.rs:711-983 | for any number of streams: every move keeps the invariant and `write_streams` never goes below 0 |
| `Pipeline.RunsAreSafe` | server/db/db.rs:711-983 | in every state reached by any run from startup: each row has its complete, synced file with its bytes, which a crash would leave, its sample entry is stored, and `write_streams` is the number of streams on a worker or with an open file |
| `PartitionRange.PartitionRange` | server/db/recording.rs:340-384 | the bytes left to read from the file followed by the chunks in RAM are exactly the requested bytes; nothing that a frame in RAM holds is left to the file; the panics are not reached |
| `PipeDisk.RowsHoldStep` | server/db/db.rs:807-838 | every step keeps that a row of a recording has the data that was pushed to it |
| `PipeDisk.DiskHasIt` | server/db/recording.rs:340-384 | what is left to the file of a recording that was not aborted is in its file, if the next byte to be written is in RAM or there is none |
| `PipeDisk.ReaderFinds` | server/db/recording.rs:340-384 | so in every state of a run, unless the worker has been more than 67,108,864 bytes behind in that recording |
| `Garbage.Pool.FinishCollecting` | server/db/dir/mod.rs:956-963 | the loop moves exactly the ids that are still in the set |
| `Garbage.Pool.RemoveGarbageUnlinkedPrefix` | server/db/dir/mod.rs:126-129 | removes exactly the given prefix |
| `Garbage.MarkedExactly` | server/db/raw.rs:379-400 | "no garbage row" is reached exactly if an id is repeated or has no row; otherwise exactly the ids are removed |
| `Garbage.StepSafe` | server/db/dir/mod.rs:927-964 | with any number of collectors at once no step reaches that panic or the prefix assertion |
| `Garbage.RunsKeepGarbage` | server/db/db.rs:851-864 | after any run, when the database lock is free the garbage table is the disjoint union of the ids to unlink and those unlinked; the latter have no file even after a crash; no collector holds a row's id |
| `Garbage.NothingLeaks` | server/db/dir/mod.rs:927-964 | no file of a recording that ever had a row leaks: later the row is still there, or the garbage table has its id, or the file is gone, even after a crash |
| `Committed.AdjustAdds` | server/db/days.rs:201-252 | adding a recording keeps the per-day map exact: which days are present, their number of recordings and their time |
| `Committed.AdjustRemoves` | server/db/days.rs:201-252 | removing the oldest recording does too |
| `Committed.AddKeepsExact` | server/db/stream/mod.rs:442-451 | after adding a recording all totals are the folds of one row more |
| `Committed.GetRange` | server/db/raw.rs:403-443 | the scan that stops early gives the true least start and greatest end of recordings of up to five minutes |
| `Retention.StreamAccounts.Load` | server/db/db.rs:377-415 | after loading, totals, days and range are the folds of the table |
| `Retention.DeleteOldest` | server/db/db.rs:1312-1347 | queues consecutive oldest rows, and the fewest for which the stopping rule stops |
| `Retention.StreamAccounts.EnqueueDelete` | server/db/lifecycle.rs:293-325 | afterwards all rows are queued or projected usage is within the limit; without the last row queued it would be at or above it; nothing is queued if it was within before |
| `Retention.StreamAccounts.Flush` | server/db/db.rs:820-947 | the row-count check never fails; the queued rows leave, the new ones enter, and totals, days and range are again the folds of the table |
| `WriterTiming.Writer.AdjMediaDuration` | server/db/writer.rs:204-233 | accepted exactly if the wrapped pts difference is positive and the recording stays within five minutes, unchanged otherwise; start and local start follow the local time of that sample |
| `WriterTiming.Writer.AdjWallAndStart` | server/db/writer.rs:235-256 | wall is within 500 ppm of media and within five minutes; equal to media in a run's first recording |
| `WriterTiming.Writer.Push` | server/db/writer.rs:262-297 | the sample goes to the open recording or a new one, with the writer's times; the assertion on the media duration holds |
| `WriterTiming.Writer.CloseRecording` | server/db/writer.rs:323-351 | the assertions on the recording's times hold; the next recording starts where this one ends |
| `WriterTiming.Writer.Write` | server/db/writer.rs:116-170 | which pts are accepted, the duration each sample gets, when a recording or the run ends, and that each sample is stored once and in order; the run stays as `RunOk` says, and every recording of it follows its samples' clock |
| `WriterTiming.Writer.Close` | server/db/writer.rs:173-185 | the last sample gets duration 0, the only one; all recordings still follow their samples' clock |
| `WriterTiming.Writer.StoreNext` | server/db/writer.rs:204-297 | stores a sample with the duration that the next pts gives it; what follows the clock still does |
| `WriterTiming.ClockMore` | server/db/writer.rs:235-238 | the least of a recording's local start and the next sample's local time less the media so far is the least over all its samples |
| `WriterTiming.PushFollows` | server/db/writer.rs:235-297 | every stored recording follows its samples: start plus local time delta is the least, over its samples, of local time less media up to and including the sample; the first of a run has delta 0; wall is media plus the delta, by at most media/2000 and up to five minutes |
| `WriterTiming.RunIsContiguous` | server/db/writer.rs:344-351 | the recordings of a run are adjacent on the wall clock |
| `WriterTiming.RunDriftsLittle` | server/db/writer.rs:235-256 | over a whole run wall time differs from media time by at most 1/2000 |
| `WriterTiming.DurationsSpanPts` | server/db/writer.rs:210-230 | media durations sum to the last accepted pts minus the first exactly if the pts did not wrap around 64 bits |
| `SampleEntries.State.InsertVideo` | server/db/sample_entries.rs:124-155 | an error exactly if an entry has the same data and another shape; otherwise the id of an entry with this data, new only if there was none, and then waiting to be flushed |
| `SampleEntries.State.PerformInserts` | server/db/sample_entries.rs:46-62 | the inserts of a snapshot conflict with no row, whatever was inserted since |
| `SampleEntries.State.PostFlush` | server/db/sample_entries.rs:65-78 | what was committed is still the front of the queue and leaves it |
| `SampleIndex.Next` | server/db/recording.rs:75-141 | one step of the iterator is the specification's, errors and end included |
| `SampleIndex.Encoder.AddSample` | server/db/recording.rs:157-187 | appending a frame extends the encoding by exactly that frame and keeps the recording's counters |
| `SampleIndex.RoundTrip` | server/db/recording.rs:75-187 | iterating any encoded list of frames gives back the frames with prefix-sum positions and times, then ends |
| `SampleIndex.EncodedExample` | server/db/recording.rs:493-509 | the example of the design document, byte for byte |
| `Segments.NewSegment` | server/db/recording.rs:223-317 | rejects bad ranges; otherwise selects from the last acceptable frame at or before the start up to the first later frame at or after the end |
| `Segments.RangeHolds` | server/db/recording.rs:328-330 | the byte range is the sum of the selected frames and starts with them |
| `Segments.SelectedToEnd` | server/db/recording.rs:223-317 | an end at the recording's end selects all later frames |
| `Segments.Foreach` | server/db/recording.rs:394-471 | visits exactly the selected frames without error, on the fast and slow path |
| `EditList.VideoEdits` | server/src/mp4.rs:1411-1471 | the edit list plays exactly the concatenation of the requested ranges; it is left out if and only if playing everything is the same |
| `SampleTables.BuildIndex` | server/src/mp4.rs:431-485 | the in-place filling of the three tables, with the last duration cut |
| `SampleTables.SttsSum` | server/src/mp4.rs:431-485 | a segment's stts entries sum to its requested end minus its actual start |
| `SampleTables.TablesRead` | server/src/mp4.rs:431-485 | reading the tables gives each frame's duration, size and key-frame number |
| `TrackRuns.Truns` | server/src/mp4.rs:498-626 | the loop with its backpatching writes the runs of the frames, and succeeds exactly if the promised length is right |
| `TrackRuns.TrunsLength` | server/src/mp4.rs:487-496 | `truns_len` is the number of bytes produced |
| `TrackRuns.RunsPlaces` | server/src/mp4.rs:498-626 | each sample located through the data offsets is where its bytes are |
| `TrackRuns.RunBack` | server/src/mp4.rs:498-626 | a reader that tests the bits of tr_flags by section 8.8.8 of ISO/IEC 14496-12 reads a written run back: its samples, its offset modulo 2^32, and first-sample flags exactly if the run starts with a key frame |
| `TrackRuns.TrunsPlaces` | server/src/mp4.rs:498-626 | positions and durations a reader finds, the last one cut to the request |
| `Slices.Slices.Append` | server/src/slices.rs:100-116 | accepted exactly if the slice ends later; the body grows by its bytes |
| `Slices.BinarySearch` | server/src/slices.rs:130-150 | answers like the standard binary search over the ends of the slices |
| `Slices.Slices.GetRange` | server/src/slices.rs:130-179 | an error exactly on bad ranges; otherwise the chunks concatenate to exactly that part of the body and the walk ends |
| `Mp4Body.Unpack` | server/src/mp4.rs:690-709 | end, type and parameter come back from the packed word |
| `Mp4Body.FillContent` | server/src/mp4.rs:873-897 | backpatching changes the file in exactly that place, flushed or not |
| `Mp4Body.FlushGrows` | server/src/mp4.rs:1780-1788 | flushing the buffer changes nothing in the file |
| `Mp4Body.RenderedWhole` | server/src/mp4.rs:1764-1803 | the slices are valid and together hold exactly the file |
| `BoxTree.ParseBack` | server/src/mp4.rs:873-890 | the byte form of boxes whose lengths fit parses back to exactly those boxes |
| `Mp4File.FileBuilder.AppendMoov` | server/src/mp4.rs:1240-1253 | appends exactly the movie box with an edit list as above |
| `Mp4File.FileBuilder.AppendEdts` | server/src/mp4.rs:1411-1471 | appends exactly the edit box |
| `Mp4File.FileBuilder.AppendStsd` | server/src/mp4.rs:1551-1563 | appends exactly the sample descriptions |
| `Mp4File.FileBuilder.AppendStts` | server/src/mp4.rs:1565-1585 | appends exactly the concatenated stts |
| `Mp4File.FileBuilder.AppendStsc` | server/src/mp4.rs:1650-1668 | appends exactly one chunk a segment |
| `Mp4File.FileBuilder.AppendStsz` | server/src/mp4.rs:1681-1703 | appends exactly the sizes |
| `Mp4File.FileBuilder.AppendCo64` | server/src/mp4.rs:1715-1729 | appends exactly the chunk offsets |
| `Mp4File.FileBuilder.AppendStss` | server/src/mp4.rs:1742-1761 | appends exactly the key-frame numbers |
| `Mp4File.FileBuilder.AppendMoof` | server/src/mp4.rs:1282-1330 | appends exactly the fragment box with all runs |
| `Mp4File.FileBuilder.AppendNormalMdat` | server/src/mp4.rs:1197-1216 | the large form, and the position where its data starts |
| `Mp4File.FileBuilder.AppendMediaMdat` | server/src/mp4.rs:1218-1238 | the small form, and the position where its data starts |
| `Mp4File.FileBuilder.Build` | server/src/mp4.rs:1016-1173 | a successful build's content is exactly the boxes of its type around the segments' total duration; it returns where the sample data starts, which ends the file, and a media segment is below 4 GiB |
| `Mp4File.MediaDuration` | server/src/mp4.rs:1036-1045 | the loop over the segments sums their requested ranges, or for media segments from their actual starts, and fails exactly on a negative one |
| `Mp4Serve.FileParses` | server/src/mp4.rs:873-890 | a built file parses as a well-nested tree: every length is exact and every box fills its place |
| `Mp4Serve.MoovLength` | server/src/mp4.rs:1016-1173 | the length of the movie box does not depend on the offsets rendered in it |
| `Mp4Lengths.MoofLength` | server/src/mp4.rs:1282-1330 | nor does that of the fragment box |
| `Mp4Lengths.FileLength` | server/src/mp4.rs:1094-1125 | so the whole file is as long wherever its offsets point |
| `Mp4Lengths.TrueFile` | server/src/mp4.rs:1094-1173 | if a build succeeds, the file whose offsets are rendered from the position it returns is as long, starts its sample data there and parses as its boxes |
| `Mp4Lengths.FewFramesAreShort` | server/src/mp4.rs:873-890 | the movie box takes at most 56 bytes a frame plus the sample entries and 1000, so its 32-bit length is right for any file below that bound |
| `Mp4Serve.ChunkRead` | server/src/mp4.rs:1650-1668 | the chunk of each segment: number, samples and sample entry |
| `Mp4Tables.FindChunkIs` | server/src/mp4.rs:1650-1668 | a player that walks stsc finds the chunk of every sample |
| `Mp4Tables.DurationIs` | server/src/mp4.rs:410-485 | a player that walks stts finds the duration of every sample, the last of each segment cut |
| `Mp4Tables.SyncIs` | server/src/mp4.rs:1742-1761 | stss lists a sample if and only if its frame is a key frame |
| `Mp4Tables.EditsBack` | server/src/mp4.rs:1411-1471 | the edit list reads back from its box |
| `Mp4Tables.RatesAre` | server/src/mp4.rs:1411-1471 | every entry of the edit list plays at the rate 1.0 |
| `Mp4Tables.StsdIs` | server/src/mp4.rs:1551-1563 | the n-th box of stsd is the n-th sample entry |
| `Mp4Whole.NormalSample` | server/src/mp4.rs:1821-1845 | in the normal file that any successful build makes, parsed, every frame is a sample of the track: going through stsc, stsz, co64 and stts a player finds its bytes, duration in units of 1/90000 s, and, in stsd, the segment's sample entry; stss lists it exactly if it is a key frame |
| `Mp4Serve.MediaPlaces` | server/src/mp4.rs:1322-1330 | a reader of all runs finds exactly the frames of all segments in order |
| `Mp4Fragments.FragmentIs` | server/src/mp4.rs:1282-1330 | from the parsed trun and tfhd boxes and the trex defaults a player computes every frame's place and whether it is a sync sample, in order |
| `Mp4Fragments.MediaSample` | server/src/mp4.rs:498-626 | in the media segment that any successful build makes, parsed, with any initialization segment one makes, the place computed for each frame holds its bytes, with the right size and duration in units of 1/90000 s; it is a sync sample exactly if the frame is a key frame; a player that takes offsets as signed finds the same below 2 GiB |
| `Mp4Fragments.SamplesAre` | server/src/mp4.rs:498-626 | reading the runs gives each sample's place, size and duration, and a sync sample exactly where the run's key flag says |
| `Mp4Fragments.SyncsAreKeys` | server/src/mp4.rs:498-626 | the first sample of a run is its only possible key frame, so the sync samples of the runs are exactly the key frames |
| `Mp4Fragments.SignedOffset` | server/src/mp4.rs:540-562 | a data offset taken as signed, as section 8.8.8 declares it, is right if and only if it is below 2 GiB |
| `Mp4Fragments.InitRead` | server/src/mp4.rs:1254-1280 | what a player takes from the initialization segment that any successful build makes: the trex box, the time scale 90000 and the track number |
| `Mp4Serve.SegmentFits` | server/src/mp4.rs:949-1005 | every segment that `Segment::new` makes meets what the file needs |
| `Mp4Plays.MadeFits` | server/src/mp4.rs:949-1005 | a segment with the frames, range and data that `Segment::new` selects has stts durations that sum to its requested end minus its actual start |
| `Mp4Plays.MadeParams` | server/src/mp4.rs:949-1005 | segments so made, with totals that fit, are all a build needs |
| `Mp4Plays.PlaysRequested` | server/src/mp4.rs:1411-1471 | the file that any successful build makes of such segments, parsed, plays exactly the requested ranges in order, in units of 1/90000 s and at the normal rate, on the track that its own stts and the time scales of its mvhd and mdhd describe; its movie and media headers say how long that is, its track header the low 32 bits |
| `Mp4Plays.TrackIsVideo` | server/src/mp4.rs:1370-1393 | the track of such a file is an enabled video track as large as its largest sample entry |
| `Mp4Headers.ScalesAre` | server/src/mp4.rs:1495-1505 | movie and media count time in units of 1/90000 s |
| `Mp4Headers.TimesFound` | server/src/mp4.rs:1331-1349 | the time scales, durations and the rate, from the file's boxes |
| `Mp4Headers.TkhdFields` | server/src/mp4.rs:1370-1393 | the fields of the track header: enabled, track 1, low 32 bits of the duration, width and height |
| `Mp4Serve.GetCo64` | server/src/mp4.rs:1821-1845 | the loop renders exactly the chunk offsets |
| `Mp4Serve.ServesRanges` | server/src/mp4.rs:1945-1990 | a finished body serves any byte range of its file |

## Left out

- SignalStore.State.Gc: what `gc_days` makes of the day indexes is a parameter, because it moves the forgotten time to the new state instead of taking it away; day-index claims are for stores below their limit.
- SignalStore.PatchDays: for updates of several signals the day index is exact only under the stated condition, since the source moves the time cursor inside the loop over signals.
- Pipe.Step: the media, wall and start times and the sample index of a recording are not part of the protocol; `WriterTiming` and `SampleIndex` model them by themselves.
- Pipe.Step: pushing a frame and closing its recording are two steps, although the source can do both under one lock; every order of the source is included.
- Pipe.Step: samples are not empty, and a stream keeps its sample file directory; reassigning or deleting directories and streams is not modelled.
- Garbage.Step: the directory's worker and its other syncs appear only as file creations at ids that were never committed.
- Retention.StreamAccounts.Flush: `order`, the rows by descending start, is the database's answer and a parameter.
- Committed.AdjustAdds: days are numbered boundaries longer than five minutes; time zones and calendar dates are not modelled.
- WriterTiming.Writer.Write: clock times are unbounded integers, so overflow of the wall clock itself is not modelled.
- SampleEntries.State.Load: loaded entries have distinct data; with duplicates the source's answer depends on hash order.
- SampleIndex.Advance: leaving 32 bits counts as an error, like the source's own errors.
- Segments.NewSegment: the recomputed trailing-zero flag is not claimed, because it may describe the next frame.
- Mp4File.FileBuilder.Build: subtitle tracks are not modelled; etags and HTTP headers neither. Bytes made on demand are part of the body with their offsets rendered from a given position; `Mp4Lengths` shows that the choice does not matter for lengths, so the position the build returns can be used.
- Mp4Fragments.MediaSample: players that take data offsets as signed are claimed to find the frames of files below 2 GiB only.
- Mp4Whole.NormalSample: the movie box must be below 4 GiB, since the source cuts its length to 32 bits unchecked; `Mp4Lengths.FewFramesAreShort` gives a bound on frames that suffices.
- Frame subscriptions (`FramesSubscription`), pool opening and closing, and thread wake-ups beyond the counter of write streams: liveness, not safety.
- `cum_media_duration` across restarts: the source adds the wall duration, so no clean claim exists.
- Listing recordings by time, live streams, RTSP, JSON, authentication, configuration, schema upgrades and the user interface: outside the three parts.
