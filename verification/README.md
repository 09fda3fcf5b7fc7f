# Verified core of kaf-go

A Dafny model of the parts of kaf-go (a Kafka-compatible broker written in Go)
whose correctness is hard to see from one function: the commit protocol of a
partition, idempotent producers and their crash recovery, the commit log and
its fetch path, replication, producer-id leases, the wire codecs of fetch
responses and metadata batches, and consumer-group rebalancing. One partition
(or one group) is modelled; the pieces compose.

`dafny verify dfyconfig.toml` checks the whole project.

## How it is built

Go code that updates things in place is a class or a method with loops here,
proved against a function on values (`AppendRaw` against `LogAppend`, the
in-place compaction of the purgatory against a filter, the mapped index
against a list of entries, a decoder against a parsing function). The
properties the broker promises are then lemmas about those functions, about
whole runs of state machines built from them, or both.

| files | model of |
|---|---|
| `bytes`, `varint`, `wire`, `options`, `ordering` | big-endian fields, varints, the protocol reader and writer |
| `record_batch`, `log_view`, `commit_log_view`, `log_runs` | record batches, segments and logs as values |
| `offset_index`, `segment`, `commit_log`, `fetch_path`, `fetch_handler` | the mapped index, segment files, the log with rolls, reopening and fetches, torn tails included |
| `replication`, `replica_fetcher` | the follower's copy loop |
| `purgatory`, `partition_state`, `partition_runs` | waiters, LEO, HWM, ISR and the ISR manager's tick |
| `commit_protocol`, `control_invariant`, `commit_invariant`, `fetch_turns`, `waiters`, `durability` | the commit protocol as a transition system, one step per critical section |
| `idempotence`, `exactly_once`, `produce_handler` | the producer ring, the produce gate and the handler |
| `producer_snapshot`, `producer_recovery`, `recovery_limits`, `producer_state_manager` | the snapshot file, crash recovery and where it falls short |
| `fetch_response`, `metadata_batch` | the two encodings of a fetch response, metadata batches |
| `layouts` | the byte positions in snapshot files, lease records and metadata batches |
| `pid_leases`, `metadata_log` | producer-id blocks and the log under them |
| `group` | one consumer group |

## Main results

- **Durability** (`Durability.ReleasedIsDurable`): in every interleaving of
  produce handlers, replica fetches and ISR ticks, a waiter released with
  success was held, byte for byte, by every follower in the ISR at the step
  where the watermark passed it. The one hypothesis is that replica fetches
  are answered well, which is exactly what one fetch needs to keep a follower
  in sync (`Replication.FetchStep`, `CommitInvariant.StepKeeps`); batches at
  least the index interval long see to it (`LargeBatchesAreGood`), and
  `Replication.SmallBatchCopiedTwice` shows what happens otherwise.
- **No lost wake-up, no stall, one answer per waiter**, in every run without
  exception (`Waiters.NoLostWakeup`, `NothingStalls`, `ResolvedAtMostOnce`,
  `OutcomeIsFinal`): with all threads idle the watermark has reached everything
  that the LEO and the in-sync reports have, and no waiter below that is parked.
- **Exactly-once append** (`ExactlyOnce.ExactlyOnceChains`,
  `AppendedExactly`, `AnsweredExactly`, `RetryAnswered`): each producer's log is
  one chain per epoch; a batch is appended if and only if it continues that
  chain, and every other answer and error code follows from it; a retry
  from the window of five is answered exactly when its first sequence number
  is not above the last one and the last one is below the largest. It is never
  appended a second time (`RetryNeverAppended`, for batches of up to a fifth of
  all sequence numbers, more than any request can carry); at the largest number
  it is refused instead (`RetryRefusedAtLargest`).
- **Exactly-once across crashes** (`ProducerRecovery.ChainsSurviveCrashes`,
  `RecentAreBack`, `DuplicateAfterCrash`), in every run in which no crash makes
  recovery miss a producer's batches. That condition is exact: `StepKeeps` and
  `RecoveryIsExact` say that such a crash, and no other step, breaks what
  recovery relies on, and `RecoveryLimits.CrashSafeExactly` that only after it,
  and always unless a wrap hides the loss, the gate misjudges a request.
  Recovery misses
  batches after a roll whose snapshot is not written yet (`RollMissesExactly`,
  with the run `RollCrashBreaks`) and after a snapshot taken in the middle of an
  epoch change (`SnapshotMissesExactly`, `GapSnapshotReachable`);
  `MissedCrashBreaks` shows what follows. One more limit:
  `OldEpochAnswersExactly` and `OlderRemainsExactly` (slots of an older epoch
  that a replay leaves in the ring, with the run `OldEpochSlotAnswers`).
  `ProducerStateManagers.RecoverIsRecovered` ties the objects to this machine.
- **The fetch path refines a linear scan**
  (`LogView.RegionRefinesScan`, `SparseBound`, `FetchPath.FetchRecords`,
  `CommitLogView.FetchBelowVisible`), from the bytes of the mapped index up to
  the partition's part of the response (`FetchHandler.ServePartition`).
- **A torn tail spoils fetches, and exactly when**
  (`FetchPath.CrashFetchExactly`, `TornFetchExactly`, `CrashHidesBatch`): a
  crash that leaves 17 to 60 bytes of a batch makes every fetch that reaches
  the tail and may see all before it send nothing at all.
  `MetadataLogs.ReplayFailsExactly` is the same for the metadata log, where the
  id manager then starts at 0.
- **Gap-free offsets across rolls and reopening** (`LogRuns.LogHoldsExactly`,
  `CommitLogView.BatchesPartitionOffsets`, `CommitLogs.Open`).
- **Watermark and ISR** (`PartitionRuns.RunKeepsWatermarks` for any reports and
  any interleaving, `BackedExactly` for when every in-sync follower has
  reported the watermark, `StaleSnapshotUnbacks` for the tick's stale snapshot).
- **Codecs**: snapshot file (`ProducerSnapshots.FileRoundTrip`,
  `SnapshotPreservesVerdicts`), fetch response
  (`FetchResponses.ResponseRoundTrip`, `BuildResponse`), metadata batches
  (`MetadataBatches.ValuesRoundTrip`), varints. Beyond the round trips, the byte
  position of every field is stated for what is written and for what is read
  (`FetchResponses.PartitionLayout`, `Encode`, `Decode`, `Layouts`).
- **Producer ids are never reissued** (`PidLeases.NeverReissued`) as long as
  every restart finds each id so far issued under a lease of the metadata log's
  first segment; `RestartSafeExactly` shows that this is exactly what is
  needed, `OneSegmentNeverReissues` that a metadata log that never rolls has
  it, `BlindRestartReissues` what a failed replay does, and
  `SecondSegmentReissues` gives a run.
- **Group agreement** (`Groups.OneLeaderPerGeneration`,
  `OneAssignmentPerGeneration`, `EveryoneGetsTheLeadersMap`, `PanicsExactly`,
  `AllJoinedExactly`), with runs
  that reach the panic and a barrier that closes without a member.

Where the code and its comments differ the code is followed: `FindRawRegion`
starts one batch early when the wanted batch begins at the fetch offset and
the scan began before it, and `Recover` scans from the active segment even
when the snapshot is older.

## Model

| member | source | states |
|---|---|---|
| `Bytes.SignedGetPut` | storage/commitlog/segment.go:143-148 | every signed integer of a width is read back from its big-endian bytes (two's complement) |
| `Bytes.BigEndian` | protocol/writer.go:39-50 | byte i of a field of width w is v / 256^(w-1-i) mod 256: the most significant byte comes first |
| `Varints.UVarIntRoundTrip` | protocol/reader.go:103-124 | every 64-bit value written by `WriteUVarInt` is read back by `ReadUVarInt`, wherever it stands, including the overflow checks on the tenth byte |
| `Varints.VarIntRoundTrip` | protocol/reader.go:126-132 | zigzag varints round-trip for every int64 |
| `Varints.SizeIsLength` | protocol/writer.go:148-153 | `UVarIntSize` (from the bit length) is the number of bytes written |
| `Varints.ZigZagRoundTrip` | protocol/writer.go:60-62 | zigzag is undone by its inverse; 0 is 0, non-negative numbers are exactly the even codes, the codes of v and of -v-1 are neighbours, and the image is the uint64 range exactly for int64 arguments |
| `Varints.UVarIntBytes` | protocol/writer.go:52-58 | byte i of a varint carries bits 7i to 7i+6 of the value, and 128 more on every byte but the last |
| `Varints.SmallVarInt` | protocol/writer.go:60-62 | numbers from -64 to 63 take one byte, 2v or -2v-1 |
| `Wire.Writer.WriteUVarInt` | protocol/writer.go:52-58 | the loop appends exactly the varint bytes of the value |
| `Wire.Writer.WriteVarInt` | protocol/writer.go:60-62 | appends the zigzag varint bytes of the value, which `ZigZagRoundTrip`, `UVarIntBytes` and `SmallVarInt` give in numbers |
| `Wire.Writer.WriteCompactBytes` | protocol/writer.go:171-178 | length plus one and the bytes, or a single 0 for null |
| `Wire.CompactLayout` | protocol/writer.go:171-178 | null is one zero byte; otherwise a varint of the length plus one, a single byte below 127, and the bytes |
| `Wire.Reader.ReadUVarInt` | protocol/reader.go:103-124 | fails or returns and advances exactly as the varint parser at the reader's position says |
| `Wire.Reader.ReadVarInt` | protocol/reader.go:126-132 | fails or returns and advances exactly as the zigzag parser at the reader's position says |
| `Wire.Reader.ReadCompactRecords` | protocol/reader.go:336-355 | null, an error on a bad length, or the bytes, with the position behind them |
| `Wire.Reader.ReadTaggedFields` | protocol/reader.go:357-378 | skips the counted tagged fields or fails where a field does not fit |
| `Wire.TagsReads` | protocol/reader.go:357-378 | tagged fields written by the encoders, whatever they hold, are skipped whole |
| `Wire.ManyReads` | protocol/reader.go:301-310 | a run of encoded items is read back item by item whenever each item alone is |
| `RecordBatch.RebaseWhole` | storage/commitlog/segment.go:143-160 | patching the base offset of a whole batch gives a whole batch at that offset and changes no byte after the field |
| `RecordBatch.RebaseToOwnOffset` | storage/commitlog/segment.go:143-160 | patching a batch with the offset it already has changes nothing |
| `RecordBatch.HeaderAt` | storage/commitlog/segment.go:576-615 | a header read at a batch's file position sees exactly that batch's length, offset and count |
| `OffsetIndexing.FloorUnique` | storage/commitlog/index.go:84-122 | the floor entry of a sorted index is determined by its neighbours |
| `OffsetIndexing.OffsetIndex.Append` | storage/commitlog/index.go:63-82 | adds one entry, growing the mapping when it is full: eight bytes behind the last, relative offset then position, each wrapped to 32 bits |
| `OffsetIndexing.OffsetIndex.Grow` | storage/commitlog/index.go:128-151 | doubles the mapping and keeps every entry |
| `OffsetIndexing.OffsetIndex.Lookup` | storage/commitlog/index.go:84-122 | the bisection over mapped bytes returns the position of the floor entry, 0 when there is none |
| `LogView.IndexSkipsNothing` | storage/commitlog/segment.go:192-230 | starting at an indexed batch finds the same target as scanning from the front |
| `LogView.RegionRefinesScan` | storage/commitlog/segment.go:192-274 | for any sound index and any offset in the segment: whole consecutive batches from the one that contains the offset or its immediate predecessor (exactly when), one batch or within maxBytes, nothing at or past the offset skipped |
| `LogView.TargetContains` | storage/commitlog/segment.go:205-245 | the batch the scan stops at is the only one that contains the offset |
| `LogView.SegAppendValid` | storage/commitlog/segment.go:143-177 | an append keeps offsets contiguous and index entries on batch boundaries |
| `LogView.PlanFollowsAppends` | storage/commitlog/segment.go:164-173 | appending one batch after another indexes exactly the planned batches |
| `LogView.SparseBound` | storage/commitlog/segment.go:164-173 | in one process lifetime the floor entry is less than indexInterval bytes before the batch that contains the offset, or is that batch |
| `LogView.EntriesApart` | storage/commitlog/segment.go:164-173 | the first batch is indexed, and neighbouring entries lie at least indexInterval bytes apart |
| `LogView.LargeBatchesAllIndexed` | storage/commitlog/segment.go:164-173 | batches of at least indexInterval bytes are all indexed |
| `Segments.PrefixIsTorn` | storage/commitlog/segment.go:428-468 | every proper prefix of a batch is a torn tail that the scans stop at |
| `Segments.FloorIsScanStart` | storage/commitlog/segment.go:192-204 | the index lookup gives the file position of the last indexed batch at or below the offset |
| `Segments.ScanHeaders` | storage/commitlog/segment.go:205-245 | the header loop stops at the target batch or, when the target begins at or past the offset and is not where it started, one batch before; past the whole batches it goes on into a torn tail exactly when it reads a header there that begins below the offset, and fails exactly when that header is cut short |
| `Segments.RunSize` | storage/commitlog/segment.go:246-274 | sums whole batches while they fit maxBytes, at least one; a torn tail of 17 bytes or more behind all of them is counted by the length it promises, exactly when that fits too |
| `Segments.ScanNextOffset` | storage/commitlog/segment.go:428-468 | computes the next offset from the bytes, ignoring a torn tail |
| `Segments.ScanLastOffset` | storage/commitlog/segment.go:470-495 | the scan from the front gives the same next offset |
| `Segments.WalkHeaders` | storage/commitlog/segment.go:526-571 | visits the headers of exactly the whole batches at or past the offset, in order |
| `Segments.Segment.AppendRaw` | storage/commitlog/segment.go:143-177 | patches the offset, appends the bytes and indexes the batch when the interval has passed; data shorter than the offset field is refused |
| `Segments.Segment.FindRawRegion` | storage/commitlog/segment.go:192-274 | for an offset that a whole batch holds, the region found through mapped index and header reads is the value-level region, its bytes are those batches, and a torn tail shows only as its promised length; a search past them fails in the tail or finds the tail, exactly when |
| `Segments.Segment.NextOffset` | storage/commitlog/segment.go:428-468 | the segment's end offset |
| `CommitLogView.BatchesPartitionOffsets` | storage/commitlog/commitlog.go:135-168 | each offset from the log's start to its end lies in exactly one batch of exactly one segment, no other offset in any |
| `CommitLogView.LogAppendGapFree` | storage/commitlog/commitlog.go:135-168 | an append, rolling or not, keeps the log gap-free and moves its end past the batches |
| `CommitLogView.BasesIncrease` | storage/commitlog/commitlog.go:135-168 | segment bases strictly increase, each past the end of the one before |
| `CommitLogView.AllBatchesAppend` | storage/commitlog/commitlog.go:135-168 | an append adds exactly its batches at the end |
| `CommitLogView.SegmentCovers` | storage/commitlog/commitlog.go:401-415 | the segment search lands in the segment whose range covers the offset |
| `CommitLogView.FetchBelowVisible` | storage/commitlog/clip.go:20-68 | a fetch returns consecutive batches all below the visibility limit, and nothing exactly when the offset is past the end or the first batch found is not visible |
| `CommitLogView.VisibleEndUnique` | storage/commitlog/clip.go:20-68 | the clipped end is the longest visible prefix, and unique |
| `CommitLogs.CommitLog.AppendRaw` | storage/commitlog/commitlog.go:135-168 | closed log and short data are refused without effect on the batches; otherwise the log grows by exactly the batches at the next offset; a new segment, based there, is started and reported exactly when the active one is full |
| `CommitLogs.CommitLog.Roll` | storage/commitlog/commitlog.go:147-156 | a new empty segment at the next offset; nothing else changes |
| `CommitLogs.CommitLog.FindSegmentByOffset` | storage/commitlog/commitlog.go:401-415 | the bisection finds the last segment that starts at or below the offset, -1 when none does |
| `CommitLogs.CommitLog.FindRecords` | storage/commitlog/commitlog.go:104-133 | nothing exactly when closed, past the end or before the start; otherwise the region of the covering segment, with log end and start, for logs with and without a torn tail |
| `CommitLogs.CommitLog.WalkBatchHeadersFrom` | storage/commitlog/commitlog.go:303-323 | the headers of all batches at or past the offset, across segments |
| `CommitLogs.LoadSegments` | storage/commitlog/commitlog.go:364-399 | opens the segment files in base order, whatever the directory lists |
| `CommitLogs.Open` | storage/commitlog/commitlog.go:341-362 | reopening finds the same segments and batches and the same next offset, ignoring an incomplete trailing batch; indexes start empty |
| `CommitLogs.FilesAreStored` | storage/commitlog/commitlog.go:341-399 | the files of an open log, torn tail included, are what opening expects, so reopening finds that same log |
| `FetchPath.ClipRegionToOffset` | storage/commitlog/clip.go:20-68 | on whole batches never fails and keeps exactly their longest visible prefix; with a torn tail behind visible batches only, fails on a header cut short, stops before a tail past the limit, and lets any other pass |
| `FetchPath.FetchRecords` | api/fetch_api.go:101-120 | find, clip and drop when empty: for every log, open or closed, and every torn tail the region's bytes, up to the end of the file, are those of the value-level function, and the region lies in its file exactly when no tail is let pass |
| `FetchPath.TornFetchExactly` | api/fetch_api.go:101-120 | whatever the tail's bytes, a fetch sends exactly the batches it should if and only if it does not reach a tail, past visible batches only, that clipping refuses or lets pass |
| `FetchPath.CrashTailClips` | storage/commitlog/clip.go:32-60 | what a crash leaves of the batch at the log's end makes clipping fail when shorter than 61 bytes and is otherwise left out |
| `FetchPath.CrashFetchExactly` | api/fetch_api.go:101-120 | after a crash during a write a fetch sends the batches it should if and only if it does not reach a tail of 17 to 60 bytes past visible batches only; then it sends nothing |
| `FetchPath.CrashHidesBatch` | storage/commitlog/segment.go:246-274 | one batch and such a tail, any size limit that both fit: the batch is no longer sent to anyone |
| `FetchHandler.ServePartition` | api/fetch_api.go:101-166 | the region handed to the segmented encoder lies in its file, and the partition's records in the response are exactly those of the fetch, for logs with and without what a crash leaves |
| `LogRuns.LogHoldsExactly` | storage/commitlog/commitlog.go:135-168 | after any single-batch appends and reopenings the log holds exactly the appended batches, patched to consecutive offsets from 0 |
| `LogRuns.After` | storage/commitlog/commitlog.go:341-399 | in every such life the log stays gap-free from 0 and its next offset is the number of records appended |
| `LogRuns.SegmentsRollWhenFull` | storage/commitlog/commitlog.go:135-168 | in every such life each segment but the active one has reached maxBytes, and none had before its last batch |
| `Replication.FetchAtBoundary` | storage/commitlog/segment.go:192-274 | a fetch at a batch boundary returns a run of the log's batches from there, or from one batch earlier |
| `Replication.ApplyExact` | server/replica_fetcher.go:88-111 | a response that starts at the fetch offset extends the copy by exactly its batches |
| `Replication.ApplyEarly` | server/replica_fetcher.go:88-111 | a response that starts one batch early breaks the prefix, unless it is a lone batch that differs from the wanted one only in its offset |
| `Replication.FetchStep` | server/replica_fetcher.go:88-111 | one fetch keeps an in-sync follower in sync if and only if nothing came back, the response starts exactly, or that lone look-alike came back |
| `Replication.FetchAtEnd` | api/fetch_api.go:101-120 | a follower that has everything gets nothing |
| `Replication.LargeBatchesExact` | storage/commitlog/segment.go:143-177 | in one lifetime, batches of at least indexInterval bytes make every fetch at a boundary start exactly there |
| `Replication.SmallBatchCopiedTwice` | server/replica_fetcher.go:88-111 | with a first batch shorter than the interval and any size limit that both fit, a follower that just copied it gets it again under the second batch's offset |
| `Replication.CountRecordsInRecordBatches` | server/replica_fetcher.go:121-153 | the loop computes the int32 sum of record counts, or an error on a cut header or too small a length |
| `Replication.CountIsTotal` | server/replica_fetcher.go:121-153 | on whole batches the count is the number of records, when that fits an int32 |
| `ReplicaFetchers.ReplicaFetcher.ApplyResponse` | server/replica_fetcher.go:88-111 | on the follower's own commit log, a response that starts at its next offset has the effect the copy loop's model gives it; an empty one has none |
| `Purgatories.StillWaitingKeeps` | coordinator/partition_purgatory.go:49-66 | the filter keeps exactly the waiters at or above the watermark, in order, none twice |
| `Purgatories.Purgatory.Add` | coordinator/partition_purgatory.go:42-47 | the waiter joins at the end |
| `Purgatories.Purgatory.CompleteUpTo` | coordinator/partition_purgatory.go:49-66 | the in-place compaction equals the order-preserving filter; each waiter below the watermark gets success once and is closed, the others are untouched |
| `Purgatories.Purgatory.FailAll` | coordinator/partition_purgatory.go:68-81 | every parked waiter gets the error once and is closed; none stays parked |
| `Purgatories.Waiter.Resolve` | coordinator/partition_purgatory.go:49-81 | sends into a one-slot channel without blocking, then closes it, and may not be called on a closed one |
| `PartitionStates.IsrMinimum` | coordinator/partition_state.go:261-273 | the value is the minimum of the LEO and of the offsets reported by the in-sync followers, a missing report counting 0 |
| `PartitionStates.PartitionState.AdvanceHWM` | coordinator/partition_state.go:261-288 | the new watermark is the larger of the old one and what the LEO and every in-sync follower have reached, so of the waiters at or above the old one exactly those they all passed are released, with success; nothing else changes |
| `PartitionStates.AdvanceExactly` | coordinator/partition_state.go:261-288 | for every state: an offset is at or below the new watermark if and only if it was, or the LEO and all in-sync reports are at or above it; with m the minimum of those, it is the larger of the old one and m |
| `PartitionStates.PartitionState.UpdateReplicaLEO` | coordinator/partition_state.go:251-259 | sets that follower's report alone, then advances as far as all have then reached, with the same effect on waiters |
| `PartitionStates.PartitionState.OnLeaderAppend` | coordinator/partition_state.go:290-297 | raises the LEO past the offset if it was not there, then advances as far as all have reached |
| `PartitionStates.PartitionState.RemoveFromISR` | coordinator/partition_state.go:183-195 | afterwards a replica is in the ISR if and only if it was and is not that follower; order, repetitions and every other field stay |
| `PartitionStates.ShrinkFrees` | coordinator/partition_state.go:183-195 | a dropped follower no longer bounds the minimum: all that the others and the LEO reached counts as reached, whatever it reported |
| `PartitionStates.PartitionState.AddToISR` | coordinator/partition_state.go:237-249 | that follower is last in the ISR, before it exactly the others in their order; every other field stays |
| `PartitionStates.ExpandBinds` | coordinator/partition_state.go:237-249 | an added follower bounds it by its report |
| `PartitionStates.ShrinkKeepsIsr` | coordinator/partition_state.go:183-195 | dropping a follower keeps the ISR duplicate-free, within the replicas and with the leader |
| `PartitionStates.ExpandKeepsIsr` | coordinator/partition_state.go:237-249 | so does adding one |
| `PartitionStates.Tick` | server/isr_manager.go:59-99 | shrink, expand, advance, then the minimum check, all from one snapshot: in the ISR afterwards are exactly the leader and the others of the old one that do not lag, and the replicas outside it whose report has reached the watermark; if that changes the ISR, the watermark moves as far as the new ISR has reached; every waiter that leaves is closed with success when the watermark just passed it and with the not-enough-replicas error otherwise |
| `PartitionRuns.RunKeepsWatermarks` | coordinator/partition_state.go:183-297 | under every order of the locked sections and any reports: LEO and HWM never decrease, HWM stays at or below LEO, the ISR stays well formed |
| `PartitionRuns.BackedExactly` | coordinator/partition_state.go:237-297 | a move loses `HWM at or below every in-sync follower's report` if and only if an in-sync follower reports less than the watermark or a follower behind it is added |
| `PartitionRuns.StaleSnapshotUnbacks` | server/isr_manager.go:59-99 | an append between a tick's snapshot and its expansion makes the tick add a follower behind the watermark |
| `PartitionRuns.TickKeeps` | server/isr_manager.go:59-99 | an undisturbed tick keeps the watermark backed and the ISR well formed |
| `PartitionRuns.UndisturbedStaysBacked` | server/isr_manager.go:59-99 | with undisturbed operations and rising reports every in-sync follower has reported the watermark, over any run |
| `ControlInvariant.StepKeepsControl` | api/produce_api.go:128-166 | every critical section, in any interleaving and whatever followers are sent, keeps: gap-free log, HWM within LEO within the log, a well-formed ISR, threads that speak of logged batches; log, copies, LEO and watermark only grow |
| `ControlInvariant.RunKeepsControl` | api/produce_api.go:128-166 | it holds in every state of every run |
| `CommitInvariant.StepKeeps` | api/fetch_api.go:101-120 | a step keeps byte-exact prefix copies, reports no higher than what a follower holds, and answers that start where they were asked to, if and only if it is not an answer that would put a follower out of sync |
| `CommitInvariant.RunKeeps` | api/produce_api.go:128-166 | it holds in every state of every run whose replica fetches are answered well |
| `CommitInvariant.LargeBatchesAreGood` | storage/commitlog/segment.go:164-173 | when every appended batch is at least the index interval long, all of them are |
| `CommitInvariant.AnswerIsRun` | api/fetch_api.go:101-120 | a replica fetch at a boundary is answered, once the follower has patched in its offset, with leader batches that start exactly there, or with nothing, if and only if the answer is good |
| `CommitInvariant.CopyGrows` | server/replica_fetcher.go:88-111 | an answer asked for at the copy's end extends the copy, which stays a prefix |
| `CommitInvariant.GuardsHold` | api/fetch_api.go:101-120 | in every state of such a run a thread that owes an answer can give it, and an answer at the follower's own offset can be appended |
| `FetchTurns.TurnsOverRun` | server/replica_fetcher.go:38-84 | when each follower has one fetch under way at a time, as its loop does, every fetch under way asks for the follower's own offset |
| `FetchTurns.AnswersAreAppended` | server/replica_fetcher.go:82-111 | then every answer can be appended: the guard on its offset blocks nothing |
| `Waiters.StepKeepsTickets` | coordinator/partition_purgatory.go:42-81 | every step keeps: parked waiters have no outcome, others exactly one, success only below the watermark |
| `Waiters.ResolvedAtMostOnce` | coordinator/partition_purgatory.go:42-81 | in every run a waiter's channel receives at most one value, none exactly while it is parked, and success only once the watermark passed its offset, which is always below the LEO |
| `Waiters.OutcomeIsFinal` | coordinator/partition_purgatory.go:49-81 | what a waiter received never changes |
| `Waiters.StepKeepsWake` | api/produce_api.go:153-154 | every step keeps each parked waiter below the watermark covered by a thread that owes a release past it or has yet to read the watermark for it |
| `Waiters.NoLostWakeup` | api/produce_api.go:153-154 | in every run; so when all threads are idle no waiter below the watermark is parked |
| `Waiters.AdvanceReleases` | coordinator/partition_state.go:261-288 | an advance, with the release it owes, frees every parked waiter that the LEO and every in-sync report passed |
| `Waiters.RunKeepsUpToDate` | coordinator/partition_state.go:261-288 | in every run, what all in-sync replicas have reached is below the watermark or some thread still owes the advance |
| `Waiters.NothingStalls` | coordinator/partition_state.go:261-288 | in every run, when all threads are idle the watermark has reached everything the LEO and the in-sync reports have, and no waiter they all passed is parked |
| `Durability.PassingIsSafe` | coordinator/partition_state.go:261-288 | the step that takes the watermark past an offset finds that offset held by every in-sync follower |
| `Durability.ReleasedIsDurable` | api/produce_api.go:145-166 | in every run whose replica fetches are answered well, success for last offset o means that at the step where HWM passed o every follower then in the ISR held a byte-identical copy of the leader's batches through o, the waiter's batch among them |
| `Durability.FollowerIsPrefix` | server/replica_fetcher.go:88-111 | in every such run each follower's batches are a byte-exact prefix of the leader's and it fetches at its own next offset |
| `ControlInvariant.NothingShrinks` | coordinator/partition_state.go:251-297 | over every run the log, the copies, the LEO and the watermark only grow, and HWM is at most LEO at most the log's end |
| `Idempotence.LookupRing` | coordinator/idempotence_state.go:160-170 | the first used slot with that sequence range, if any |
| `Idempotence.IdempotenceState.Validate` | coordinator/idempotence_state.go:45-97 | verdict and forgetting for every state and query, with the int32 overflow of LastSeq+1; an unknown producer or one silent for more than an hour gets error 59 unless it starts at 0; exactly an expired producer, or one that starts a newer epoch at 0, is forgotten, no other changes; `ExactlyOnce.AnsweredExactly` states every code on the logged history |
| `Idempotence.IdempotenceState.Record` | coordinator/idempotence_state.go:99-120 | that producer's last sequence, epoch, offset and time are the batch's, the batch stands at the old head of the ring of five and the head moves on; other slots and producers stay |
| `Idempotence.IdempotenceState.Snapshot` | coordinator/idempotence_state.go:139-148 | lists every producer once |
| `Idempotence.IdempotenceState.Restore` | coordinator/idempotence_state.go:150-158 | the producers listed, later entries winning |
| `Idempotence.RestoreUndoesSnapshot` | coordinator/idempotence_state.go:139-158 | restoring a snapshot's entries gives the producers back |
| `ExactlyOnce.AcceptedFollows` | coordinator/idempotence_state.go:45-97 | the gate accepts exactly a batch that continues the last one of its producer |
| `ExactlyOnce.RecordTracks` | coordinator/idempotence_state.go:99-120 | recording keeps the ring equal to the last five batches, each at its number modulo five |
| `ExactlyOnce.HandleKeeps` | api/produce_api.go:94-135 | one request keeps, for every producer, a chained history and a ring that tracks it |
| `ExactlyOnce.AllOrNothing` | api/produce_api.go:94-135 | an idempotent batch is appended and recorded, or nothing changes |
| `ExactlyOnce.AppendedExactly` | api/produce_api.go:94-135 | a batch is appended if and only if it continues its producer's logged history |
| `ExactlyOnce.AnsweredExactly` | coordinator/idempotence_state.go:45-97 | in every state that runs keep, from the logged history alone: no history gives 59 unless the batch starts at 0; an older epoch gives 46; a newer one that does not start at 0 gives 90; the same epoch is appended if it follows (at 0 after the largest number), gets the offset of a logged batch with that range if it starts at or below the last number and one of the last five has it, 45 if none has, and 90 otherwise |
| `ExactlyOnce.ExactlyOnceChains` | api/produce_api.go:94-135 | in every run each producer's epochs never decrease, each epoch starts at sequence 0, each next batch starts at last+1 or at 0 after the largest |
| `ExactlyOnce.DuplicateIsGenuine` | coordinator/idempotence_state.go:84-96 | a duplicate answer is the offset of a logged batch with that producer, epoch and range, one of the last five |
| `ExactlyOnce.DuplicateIsTheOne` | coordinator/idempotence_state.go:160-170 | with fewer than 2^29 records per batch it is the only one of the five that starts there |
| `ExactlyOnce.WindowIsDistinct` | coordinator/idempotence_state.go:160-170 | then no two of the last five batches start at the same sequence number |
| `ExactlyOnce.RetryAnswered` | coordinator/idempotence_state.go:84-96 | a retry of one of the last five gets that batch's offset if and only if its first sequence is not above the last recorded one and that one is below the largest; it is appended again exactly when it looks like the next batch |
| `ExactlyOnce.RetryWithoutWrap` | coordinator/idempotence_state.go:84-96 | without a wrap among them and below the largest number every such retry is answered and changes nothing |
| `ExactlyOnce.RetryNeverAppended` | coordinator/idempotence_state.go:84-96 | with batches of up to a fifth of the sequence numbers, a retry of one of the last five changes nothing: it gets that batch's offset, or the out-of-order error where its first sequence is above the last recorded one or that one is the largest |
| `ExactlyOnce.RetryRefusedAtLargest` | coordinator/idempotence_state.go:85-88 | 256 batches of 2^23 records up to the largest sequence number: a retry of any of the last five is refused instead of answered |
| `ProduceHandler.AppendOnce` | api/produce_api.go:94-135 | gate, commit-log append and recording on the real objects are the model's request step, and the written batch's header is that request's log entry; on a closed log a batch that would be appended gets error 56 and every other answer is the same, and only the gate's forgetting remains |
| `ProduceHandler.WrittenEntry` | api/produce_api.go:94-128 | for a request decoded from the batch's bytes, the header that recovery will read from the patched batch is exactly the entry of the exactly-once log |
| `ProduceHandler.HandlePartition` | api/produce_api.go:73-166 | acks=-1 with too small an ISR is refused with error 19 and no effect; otherwise gate and append, LEO raise and watermark advance, and for acks=-1 a parked waiter, released at once if the watermark passed it |
| `ProducerSnapshots.EntryRoundTrip` | coordinator/producer_snapshot.go:174-257 | decoding an encoded entry, whatever follows, gives its scalar fields and ring slots back, and its length |
| `ProducerSnapshots.FileRoundTrip` | coordinator/producer_snapshot.go:130-172 | a written snapshot file decodes to the entries written, up to ring order |
| `ProducerSnapshots.NormalizedExactly` | coordinator/producer_snapshot.go:254 | on reachable producers the decoded one is identical exactly while fewer than five batches were recorded or their number is a multiple of five |
| `ProducerSnapshots.SameVerdict` | coordinator/idempotence_state.go:45-97 | the decoded producer gives the same verdict on every query |
| `ProducerSnapshots.SnapshotPreservesVerdicts` | coordinator/idempotence_state.go:139-158 | write, read, restore: the same verdict for every producer, query and time |
| `ProducerSnapshots.EncodeEntry` | coordinator/producer_snapshot.go:174-202 | the loops write exactly the entry's bytes |
| `ProducerSnapshots.DecodeEntry` | coordinator/producer_snapshot.go:204-257 | fails exactly on short input or more than five slots; otherwise every field is what stands at its byte position, unused slots are empty and 35 bytes plus 20 per slot are consumed |
| `ProducerSnapshots.EncodeSnapshotFile` | coordinator/producer_snapshot.go:31-48 | magic, version, base, count, entries and checksum |
| `ProducerSnapshots.DecodeSnapshotFile` | coordinator/producer_snapshot.go:130-172 | an error on short files, wrong checksum, magic, version or base, or a bad entry; otherwise the entries, as many as the header says |
| `Layouts.EntryLayout` | coordinator/producer_snapshot.go:174-202 | the byte position of every field and slot of an encoded entry |
| `Layouts.FileLayout` | coordinator/producer_snapshot.go:31-69 | magic, version, base, count, entries and checksum stand at their positions in an encoded file |
| `ProducerSnapshots.LoadLatest` | coordinator/producer_snapshot.go:71-95 | the latest file not above the base that decodes, nothing only if none does |
| `ProducerRecovery.ReplayIs` | coordinator/producer_state_manager.go:84-92 | after replay a producer with replayed batches describes the last one and holds the last five in ring order, the slots no batch reached staying as they were; the other producers are unchanged |
| `ProducerRecovery.StepKeeps` | coordinator/producer_state_manager.go:51-93 | a step of requests, rolls, snapshots and crashes, the snapshot of a roll coming any time later or never, keeps chained histories, state that knows each producer by its last recorded batch, and genuine slots, if and only if it is not a crash that makes recovery miss a producer's batches |
| `ProducerRecovery.ChainsSurviveCrashes` | coordinator/producer_state_manager.go:66-93 | in every run with crashes anywhere else, each producer's log stays one chain per epoch |
| `ProducerRecovery.RecoveryKnows` | coordinator/producer_state_manager.go:66-93 | restore plus replay knows a producer by its last logged batch, or not at all when it has none, if and only if it has a batch in the active segment, or has none that the snapshot came too early for and was not being forgotten when it was taken |
| `ProducerRecovery.EarlierSnapshotExactly` | coordinator/producer_state_manager.go:79-82 | with a snapshot of any age, recovery knows a producer if and only if it logged something in the active segment or nothing between snapshot and segment |
| `ProducerRecovery.RecoveryIsExact` | coordinator/producer_state_manager.go:66-93 | a crash between requests leaves a producer's LastSeq, LastEpoch and LastOffset as they were if and only if recovery misses none of its batches |
| `ProducerRecovery.RecoveryGenuine` | coordinator/producer_state_manager.go:66-93 | every used slot after recovery is a logged batch of that producer |
| `ProducerRecovery.RecentAreBack` | coordinator/producer_state_manager.go:84-92 | the producer's most recent (up to five) batches of the active segment are in its ring |
| `ProducerRecovery.RetryAfterCrash` | coordinator/producer_state_manager.go:66-93 | with one epoch and no wrap, a retry of such a batch after a crash gets its logged offset |
| `ProducerRecovery.DuplicateAfterCrash` | coordinator/producer_state_manager.go:66-93 | every duplicate answer after a crash names a logged batch of that producer and range, of that epoch if the producer has only one |
| `RecoveryLimits.SnapshotMissesExactly` | coordinator/idempotence_state.go:76-82 | a new snapshot makes recovery miss a producer if and only if it is taken between the forgetting of an epoch change and its recording, with none of the producer's batches in the active segment |
| `RecoveryLimits.RollMissesExactly` | storage/commitlog/commitlog.go:146-166 | a roll makes recovery miss exactly the producers, other than the one that writes, that logged something since the latest snapshot or were being forgotten when it was taken |
| `RecoveryLimits.CrashSafeExactly` | coordinator/producer_state_manager.go:66-93 | after a crash the gate accepts exactly the batches that continue their producer's log, for all of them, if and only if recovery misses no producer, or only such whose last batch before the snapshot ends with the same epoch and sequence number as the last one logged |
| `RecoveryLimits.MissedCrashBreaks` | coordinator/idempotence_state.go:45-97 | after any other crash that makes recovery miss a producer a batch that does not continue its log is accepted and appended, and the history is no longer a chain |
| `RecoveryLimits.GapSnapshotReachable` | coordinator/producer_state_manager.go:51-64 | a run from the empty state that ends with a snapshot in the middle of an epoch change |
| `RecoveryLimits.RollCrashBreaks` | storage/commitlog/commitlog.go:163-166 | a run with a crash between a roll and its snapshot: a batch logged before the roll is accepted and appended a second time |
| `RecoveryLimits.OldEpochAnswersExactly` | coordinator/idempotence_state.go:84-96 | after a crash some batch of the recovered producer's epoch, its last one unless batches were missed, is answered with an older epoch's offset if and only if the recovered ring has a used older slot, first of its range, that starts at or below the last sequence number, which is below the largest |
| `RecoveryLimits.OlderRemainsExactly` | coordinator/producer_state_manager.go:84-92 | older slots remain if and only if one of the last five replayed batches is older, or fewer than five were replayed and the snapshot's ring, from its head on, has one at a place not reached |
| `RecoveryLimits.DuplicateEpochExactly` | coordinator/idempotence_state.go:84-96 | the batch a duplicate answer names is of an older epoch if the slot found is such a slot, and of the request's own epoch otherwise |
| `RecoveryLimits.OldEpochSlotAnswers` | coordinator/idempotence_state.go:76-82 | a run with an epoch change after the roll and its snapshot: after the crash a batch never sent in the new epoch is answered as a duplicate, where the state before refuses it |
| `ProducerStateManagers.ActiveHeaders` | storage/commitlog/commitlog.go:303-323 | walking from the active segment's base visits exactly that segment's batches |
| `ProducerStateManagers.ProducerStateManager.OnSegmentRoll` | coordinator/producer_state_manager.go:51-64 | writes a file of exactly the current producers for the new base; of the others exactly those below it with two later files, the new one counted, are dropped |
| `ProducerStateManagers.ProducerStateManager.PruneOldSnapshots` | coordinator/producer_state_manager.go:95-113 | drops exactly the files below the current base that have two later ones |
| `ProducerStateManagers.ProducerStateManager.Recover` | coordinator/producer_state_manager.go:66-93 | restores the latest readable snapshot not above the active base, then replays exactly the batches from that base on |
| `ProducerStateManagers.LatestSnapshotIsUsed` | coordinator/producer_snapshot.go:71-95 | recovery starts from exactly the producers that the latest readable snapshot not above the active base recorded |
| `ProducerStateManagers.RecoverIsRecovered` | coordinator/producer_state_manager.go:66-93 | on a log whose headers are the machine's entries, with the latest snapshot on disk as the machine has it, what `Recover` leaves in memory is what a crash leaves in the machine |
| `FetchResponses.ResponseRoundTrip` | protocol/fetch/fetch_response.go:20-108 | decoding an encoded response recovers every untagged field and consumes exactly its bytes |
| `FetchResponses.PartitionReads` | protocol/fetch/fetch_response.go:65-108 | so for one partition, null and empty records kept apart, tagged fields skipped |
| `FetchResponses.Encode` | protocol/fetch/fetch_response.go:166-181 | the simple encoder writes the response's bytes; throttle time, error and session stand at bytes 0, 4 and 6, and index, error, high watermark, last stable offset and log start at bytes 0, 4, 6, 14 and 22 of every partition |
| `FetchResponses.PartitionLayout` | protocol/fetch/fetch_response.go:271-292 | an encoded partition: five fixed fields, the number of aborted transactions plus one, 17 bytes each with producer id and first offset at bytes 0 and 8, preferred replica, records, tags |
| `FetchResponses.PartitionTagsLayout` | protocol/fetch/fetch_response.go:294-339 | its tags: their number, then each present hint under key 0, 1 or 2 with size 12, 8 or 12 and its two numbers |
| `FetchResponses.ResponseLayout` | protocol/fetch/fetch_response.go:166-181 | the header of an encoded response up to its topics |
| `FetchResponses.TopicLayout` | protocol/fetch/fetch_response.go:255-267 | an encoded topic: 16 bytes of id, the number of partitions plus one, the partitions, a zero |
| `FetchResponses.EndpointLayout` | protocol/fetch/fetch_response.go:343-349 | an encoded endpoint: node id, host, port, rack |
| `FetchResponses.PartitionInResponse` | protocol/fetch/fetch_response.go:166-181 | where each partition of an encoded response starts |
| `FetchResponses.EncodePartitionPreRecords` | protocol/fetch/fetch_response.go:200-222 | the fields before the records at those byte positions, the preferred replica behind the aborted transactions, and last the records' length plus one, 0 for none |
| `FetchResponses.BuildRecords` | api/fetch_api.go:154-166 | a partition with records puts their length in memory and their bytes in a file piece right behind |
| `FetchResponses.BuildResponse` | api/fetch_api.go:131-176 | the memory and file pieces, one after another, are byte for byte the simple encoding with those record bytes |
| `FetchResponses.Decode` | protocol/fetch/fetch_response.go:20-45 | the decoder follows the parsing function, failures included; from any bytes, header fields come from bytes 0, 4 and 6 and each partition's fields from bytes 0, 4, 6, 14 and 22 of a place in the input |
| `FetchResponses.DecodePartition` | protocol/fetch/fetch_response.go:65-108 | one partition, its fixed fields from the bytes where they stand |
| `FetchResponses.DecodeAborted` | protocol/fetch/fetch_response.go:87-98 | producer id from byte 0, first offset from byte 8 |
| `MetadataBatches.EncodedCarries` | protocol/metadata/record_batch.go:15-45 | an encoded value is a whole batch of one record with that value, at any offset patched in |
| `Layouts.MetadataBatchLayout` | protocol/metadata/record_batch.go:15-45 | the byte position and value of every header field of an encoded batch, with the length from byte 12 and the checksum of bytes 21 on |
| `Layouts.RecordLayout` | protocol/metadata/record_batch.go:160-174 | the record of any value: length, four fixed bytes, the value's length, the value, a zero; of a short one byte for byte |
| `MetadataBatches.RecordRoundTrip` | protocol/metadata/record_batch.go:73-119 | a record read at its start gives its value and its end |
| `MetadataBatches.ValuesRoundTrip` | protocol/metadata/record_batch.go:49-123 | decoding the concatenated batches of any list of non-empty values gives the list |
| `MetadataBatches.DecodeRecordValues` | protocol/metadata/record_batch.go:49-123 | the loops compute the parsed values, for any bytes; an index out of range is a distinct result |
| `MetadataBatches.ByteScanner.ReadZigzagVarInt` | protocol/metadata/record_batch.go:139-158 | value, end of input or index out of range, as the scanner's parser says |
| `PidLeases.StepKeeps` | coordinator/pid_manager.go:38-80 | a step keeps ascending ids, each in a recorded lease's last block, if and only if it is not a restart that finds an id issued under a lease outside the first segment |
| `PidLeases.NeverReissued` | coordinator/pid_manager.go:38-80 | over any run of allocations, failed leases, crashes and restarts without such a restart, issued ids strictly ascend and each lies below a recorded lease end |
| `PidLeases.OneSegmentNeverReissues` | coordinator/pid_manager.go:38-80 | over any run in which the metadata log never rolls there is no such restart, and issued ids strictly ascend |
| `PidLeases.RecordedBeforeIssued` | coordinator/pid_manager.go:49-80 | the lease that covers an id is on record before the id is issued |
| `PidLeases.RestartSafeExactly` | server/server.go:351-367 | after a restart some number of allocations issues an id twice if and only if some id is at or above the first segment's largest lease end, and if and only if some id was issued under a lease recorded elsewhere |
| `PidLeases.BlindRestartReissues` | server/server.go:351-367 | after a restart whose replay failed they do if and only if any id was ever issued |
| `PidLeases.SecondSegmentReissues` | coordinator/metadata_log.go:52-73 | after the metadata log has rolled, two restarts issue the same id twice |
| `MetadataLogs.CountIsValues` | server/replica_fetcher.go:121-153 | on the concatenated batches of a list of values a replica counts exactly the values |
| `MetadataLogs.LeaseRoundTrip` | protocol/metadata/metadata_record.go:193-214 | a lease record's end is decoded back |
| `Layouts.LeaseLayout` | protocol/metadata/metadata_record.go:193-204 | kind 3, version 0, broker, epoch and end at bytes 0, 1, 2, 6 and 14 |
| `MetadataLogs.Append` | coordinator/metadata_log.go:33-50 | one more batch that carries the value, or no change on a closed log |
| `MetadataLogs.FirstSegmentWhole` | coordinator/metadata_log.go:61 | reading from offset 0 without a size limit finds exactly the first segment |
| `MetadataLogs.Replay` | coordinator/metadata_log.go:52-73 | hands out exactly the values of the first segment, in order, none for a closed log, or fails when the region counts a torn tail in |
| `MetadataLogs.ReplayFailsExactly` | coordinator/metadata_log.go:61-68 | it does if and only if the log is one segment with batches that ends in 17 bytes or more of another |
| `MetadataLogs.PidManager.SeedFromLog` | coordinator/pid_manager.go:38-47 | neither field moves back |
| `MetadataLogs.PidManager.LeaseNextBlock` | coordinator/pid_manager.go:62-80 | the record is in the log before the block is used; a failed append changes nothing |
| `MetadataLogs.PidManager.AllocateOne` | coordinator/pid_manager.go:49-60 | the effect of the lease model's allocation step, with its record in the log; fails only when a needed lease cannot be recorded |
| `MetadataLogs.RecoverPidManager` | server/server.go:351-367 | resumes at the largest lease end among the first segment's records, at 0 when the replay fails or the log is closed, and panics exactly on a short lease record: the lease model's restart |
| `Groups.PanicsExactly` | coordinator/group_store.go:353-385 | the only panic is a timeout of the current generation while it is being prepared and nobody has joined |
| `Groups.PanicIsReachable` | coordinator/group_store.go:353-385 | a run that comes to it: of two members the first leaves, and the timer fires before the second joins again |
| `Groups.AllJoinedExactly` | coordinator/group_store.go:376-384 | when the barrier closes every member has joined the new generation if and only if no member waits twice |
| `Groups.BarrierClosesWithout` | coordinator/group_store.go:142-196 | a run in which one member joins twice and the barrier closes without the other |
| `Groups.StepKeeps` | coordinator/group_store.go:142-419 | every step keeps: one closing per generation, join replies that name its leader, sync replies from its map |
| `Groups.NothingIsTakenBack` | coordinator/group_store.go:333-351 | the generation never decreases and no record of an earlier one changes |
| `Groups.OneLeaderPerGeneration` | coordinator/group_store.go:376-418 | each generation's barrier closes at most once; all its join replies name the same leader, a member at the closing |
| `Groups.OneAssignmentPerGeneration` | coordinator/group_store.go:230-284 | in every run the reply to a sync carries, then and ever after, the member's entry in the one map recorded for its generation, or nothing if the map has none |
| `Groups.EveryoneGetsTheLeadersMap` | coordinator/group_store.go:230-284 | when the leader syncs with a map, it and every waiting member get exactly one reply each, in order, with their entry of that map or nothing; and so does every sync of that generation ever answered |
| `Groups.CompletingHasNoAssignment` | coordinator/group_store.go:271-279 | while a rebalance completes no assignment is stored |
| `Groups.GroupMeta.MaybeCloseJoinBarrier` | coordinator/group_store.go:376-418 | closes exactly when as many joins wait as there are members; then the first to wait leads and each waiting join gets one reply, the leader's alone with the members; with none of either the index is out of range |
| `Groups.GroupMeta.JoinGroup` | coordinator/group_store.go:142-196 | without a member id error 79 and no change; otherwise the member is in, a settled group opens the next generation, and the join waits or, as the last one missing by count, closes the barrier with one reply for each |
| `Groups.GroupMeta.RemoveMember` | coordinator/group_store.go:198-228 | unknown members get error 25 and change nothing; otherwise exactly that member is out, the last one leaves a dead group, any other opens the next generation with nobody waiting |
| `Groups.GroupMeta.OnRebalanceTimeout` | coordinator/group_store.go:353-374 | another generation's timer changes nothing; the current one keeps exactly the members that wait, then closes the barrier under the same condition |
| `Groups.GroupMeta.SyncGroup` | coordinator/group_store.go:230-284 | error 22 on a wrong generation and 27 in a wrong phase, without effect; the leader's map makes the group stable and gives it and every waiting member exactly one reply, with their entry of the map or nothing; anyone else waits |

## Left out

- Sockets, dialing, retry loops, metrics and the per-API request structs: input and output without state of interest.
- Time: clocks are parameters; lag and the firing of timers are choices of the environment.
- Checksums: a parameter of the encoders and decoders; compressed batches are not modelled.
- mmap, fsync and rename: files are byte sequences or arrays, and completed writes are durable.
- The legacy message path (`Segment.Append`, `Segment.Read`), the time index and `TruncateTo`: not used by the batch path.
- `SetPartitionState` replacing a partition's state object: the commit protocol is about one object.
- "Success means at least min.insync.replicas copies": not stated, since a tick advances the watermark before it checks the minimum.
- Liveness of join and sync replies: `transitionToPrepareRebalance` drops waiting channels.
- The group store's map of groups, heartbeats, committed offsets and the cleanup of dead groups; member metadata and the order in which the leader sees members.
- Requests that run concurrently for one producer: the exactly-once machines handle requests one after another (steps of one request may interleave with rolls, snapshots and crashes).
- `Reader` and `Writer` types that fetch responses do not use, and those where reader and writer differ.
- CommitLogs.CommitLog.AppendRaw: requires offsets and positions within a segment to fit the 32 bits of an index entry, and an intact tail; appending behind a torn tail is not modelled, because the code does not truncate it. The caller's slice, patched in place by the code, is a copy here.
- CommitLogs.CommitLog.Roll: requires an intact tail, for the same reason; so do the handlers that append (ProduceHandler.AppendOnce, ProduceHandler.HandlePartition, MetadataLogs.PidManager.AllocateOne).
- Segments.Segment.AppendRaw: requires no torn tail, like the commit log's.
- CommitLogs.Open: the stored file contents are given as whole batches plus a torn tail; directories with foreign or damaged files are not modelled.
- ReplicaFetchers.ReplicaFetcher.ApplyResponse: requires a response of whole batches aligned with the follower's log; what a misaligned one does is stated on values in Replication.ApplyEarly.
- LogRuns.LogHoldsExactly: no torn tail between the appends, because appending behind one is not modelled; CommitLogs.Open states what one leaves of the log.
- PidLeases.NeverReissued: a restart reads the log without error; one that does not is PidLeases.BlindRestartReissues, and what is appended behind the torn tail afterwards is not modelled.
- MetadataLogs.RecoverPidManager: record kinds other than leases decode without a panic.
- Durability.ReleasedIsDurable: the leader's log is not reopened during the run, and no follower is sent a torn tail.
- Wire.Reader.ReadTaggedFields: a tag size of 2^63 or more is a failure, where the code's position moves back.
- FetchResponses.BuildResponse: requires regions within their files; FetchHandler.ServePartition shows that the fetch path gives no other.
- Idempotence.IdempotenceState.Record: offsets are unbounded integers; sequence ranges are taken to lie within int32.
- ExactlyOnce.ExactlyOnceChains: no expiry and no failed append; ProduceHandler.AppendOnce states what a failed append leaves behind.
- MetadataBatches.DecodeRecordValues: positions are unbounded integers; wrap-around on lengths near 2^63 is not modelled.
- MetadataLogs.Append: the update of the metadata partition's own state after an append, and dropping values before the log is set, are not modelled.
- Groups.GroupMeta.JoinGroup: generations are unbounded integers.
- FetchResponses.Decode: a null topic or partition array, on which the code panics, is a failure; so is a length beyond the input.
