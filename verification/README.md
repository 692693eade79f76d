# PiMonitor, verified

PiMonitor samples a Raspberry Pi's metrics on a fast tick, keeps a bounded history of them in memory
and on disk, raises debounced alerts, posts them to webhooks, and serves snapshots and history to a
browser dashboard. This project models the parts of it that carry hard, unbounded behaviour and
proves what they promise, for all inputs, all runs and all interleavings. `dafny verify dfyconfig.toml`
checks everything.

How it is laid out:

* **Alerting.** `alert.dfy` gives the engine's evaluation step on values, `alert_engine.dfy` the mutable
  engine proved against it. `debounce.dfy` says what debouncing means in terms of the readings alone
  and proves the two timers compute it; `alert_runs.dfy` lifts this to whole runs, with prunes, and
  `alert_fields.dfy` says which reading and which cutoffs each stream lives by.
  `notify.dfy` is the webhook worker as a state machine over all schedules, `notifier.dfy` the mutable
  notifier, `recovery.dfy` the end-to-end statement for recoveries and `limiter.dfy` that for alerts under
  rate limiting, with `limiter_witness.dfy` showing on concrete runs what is dropped.
* **History in memory.** `ringbuffer.dfy`, `series_map.dfy` and `store.dfy` are the mutable buffers, proved
  against the values in `store_values.dfy` and `devices.dfy`; `store_fields.dfy` says which value lands in
  which series; `trim.dfy` is the binary search behind
  `?since=` and the import window.
* **History on disk.** `pimh.dfy` is the PIMH v1 format, `pimh_theorems.dfy` and `pimh_history.dfy` its
  soundness, completeness and round trip, `pimh_bytes.dfy` what that means byte by byte, `pimh_codec.dfy` the
  encoder and the sticky-error decoder proved against them. `restart.dfy` puts the pieces together; `atomic_write.dfy` and `flush.dfy` cover
  the write itself and the asynchronous flushes.
* **Incremental sync.** `dashboard.dfy` and `polling.dfy` are the browser's half, `sync_server.dfy` the
  collector's. `sync_client.dfy`, `sync_merge.dfy` and `sync_runs.dfy` carry one invariant over every run of
  ticks, polls, failures and redraws; `sync_theorems.dfy`, `sync_devices.dfy` and `sync_schedule.dfy` say what
  it means for the user, `sync_start.dfy` which states a run can start from. `sync_restarts.dfy` lets the
  collector restart in between, `sync_failures.dfy` says what is asked for after a failure. `sync_example.dfy` and `sync_witness.dfy` show the limits on concrete runs.
* **Serving.** `history_cache.dfy` (the per-generation cache), `server_stats.dfy` (lock-free counters),
  `staleness.dfy` (the health check), `config.dfy` and `mount_fields.dfy`.

Classes mirror the source's mutable objects; concurrent protocols are state machines over their atomic
steps. Timestamps are integer nanoseconds, sample values 64-bit patterns, thresholds reals. Fields whose
name or comment says so are history variables: they record what happened and influence nothing.

## What the proofs turned up

* A clean shutdown can lose more than the points since the last fast tick, against
  `docs/ARCHITECTURE.md:129-131` and the comment at `internal/collector/collector.go:338-343`: the final flush
  goes through the same try-lock as every other and is skipped when one is in flight. When the last write
  succeeds, the file has every tick in it if and only if no flush was in flight, or no tick had been recorded
  since the one that was (`Flush.FileAfterReturn`). Any number of ticks can be lost that way
  (`Flush.ShutdownCanLoseAnyNumberOfTicks`).
* The dashboard's held window is not always the server's. After every successful poll nothing the server
  retains within the window is missing, whatever was evicted in between (`SyncTheorems.NothingIsMissing`,
  `SyncDevices.NoDevicePointIsMissing`), but the view can hold more: after a delta it is exact if and only if no point held before, and evicted by the
  server since, is still within the window (`SyncTheorems.ViewIsExactUnlessEvicted`). With ticks exactly on
  schedule the first delta after a resync fails this (`SyncSchedule.OnScheduleViewIsNotExact`, with a run in
  `SyncWitness.ViewCanBeInexact`), even while the server still retains the newest point held.
* The join test bounds the jump to the oldest incoming point of *any* series. A sparsely reporting device can
  therefore let a delta through that makes every scalar series jump by more than the tolerance
  (`SyncExample.SparseDeviceMasksJump`). That takes eviction: the scalars jump within the tolerance if and only
  if the server had evicted nothing the dashboard missed, or what it retains still starts within the tolerance
  (`SyncTheorems.JoinGapIsBounded`). With ticks no closer than the poll interval the old side of such a jump
  is always trimmed away, so that no hole is left (`SyncSchedule.SpacedRunsAreUnbroken`).
* After a failed poll the next one asks for the whole window, so that a rejected `since` is not sent again, as the
  comment at `internal/web/assets/app.js:1158-1159` has it; but a change of theme in between sets `since` anew
  from what is held, and the same delta is asked for once more. This is the only way
  (`SyncFailures.PollAfterFailure`), and any dashboard that holds points and is not due a full window can get
  there (`SyncFailures.RedrawUndoesFailure`).
* Importing the persisted history does not change the generation, so a request served before the import can
  leave the empty history in the cache until the first fast tick (`HistoryCache.ImportCanBeMissed`). What the
  cache holds when it is looked at decides it (`HistoryCache.OnlyTheImportIsMissed`), and nothing else is ever
  missed (`HistoryCache.StaleResponsesAreEmpty`).
* With rate limiting on, every firing that follows a delivery of its stream within the interval is dropped: a
  relapse after a delivered recovery, and the webhook then shows the stream as recovered while it is alerting
  (`LimiterWitness.RelapseIsMissed`), but also an escalation after a delivered firing
  (`LimiterWitness.EscalationIsDropped`). `Limiter.ViewWithLimiter` says, in terms of the engine's own events,
  exactly when the webhook's last delivery is on the engine's side of the minimum; only recovery is guaranteed.

## Model

| member | source | states |
|---|---|---|
| `AlertEngine.MetricState.UpdateThresholdState` | internal/alert/alert.go:269-279 | in place, each boundary timer restarts exactly when the value changes sides or on the first reading |
| `AlertEngine.MetricState.Advance` | internal/alert/alert.go:244-262 | folding one reading changes the state to the value-level step, level and entry time included |
| `AlertEngine.Engine.RecordEvent` | internal/alert/alert.go:339-358 | the event is fired exactly unless severity falls, and the list becomes the newest `maxEvents` with it appended |
| `AlertEngine.Engine.EvalMetric` | internal/alert/alert.go:232-262 | one reading changes one stream's state and emits exactly the transition it made, none if the level stayed |
| `AlertEngine.Engine.PruneDisks` | internal/alert/alert.go:319-334 | for every iteration order, drops exactly the disks missing from the sample, each alerting one with one final cleared event |
| `AlertEngine.Engine.Evaluate` | internal/alert/alert.go:185-218 | a sample folds its valid readings in order, then prunes; what is returned, stored and kept are exactly those effects |
| `Debouncing.TimerDecides` | internal/alert/alert.go:249-255 | a boundary timer has run out if and only if some long enough tail of readings lies wholly on that side |
| `Debouncing.NextLevelIsClamp` | internal/alert/alert.go:284-309 | the transition table is a clamp of the current level between the highest and the lowest confirmed one |
| `Debouncing.ObserveTracks` | internal/alert/alert.go:232-262 | one step keeps timers, level and entry time equal to what the readings so far determine |
| `Debouncing.TimersOrdered` | internal/alert/alert.go:269-279 | above crit implies above warn since no later, and below warn implies below crit since no later |
| `Debouncing.DebouncedLevelExact` | internal/alert/alert.go:220-231 | a confirmed band forces its level, and every change of level is justified by a confirmed tail |
| `Debouncing.NoDebounceIsLevelClass` | internal/web/assets/app.js:121-125 | without a debounce window the level depends on the last value alone and is the dashboard's colour class |
| `AlertRuns.DebounceExactOverRuns` | internal/alert/alert.go:185-279 | after every run each stream's state is exactly that of its valid readings since it was last pruned |
| `AlertFields.ScalarLevels` | internal/alert/alert.go:197-208 | over any run each scalar's level is the debounced level of its own field's values under its own cutoffs, said field by field |
| `AlertFields.DiskLevel` | internal/alert/alert.go:209-216 | a disk's level is that of its mountpoint's values, since it was last missing from a list, under the disk cutoffs |
| `AlertFields.ScalarsAtOnce` | internal/alert/alert.go:197-208 | without a debounce window every scalar just read is at the level its value has under its own cutoffs |
| `AlertFields.DiskAtOnce` | internal/alert/alert.go:209-216 | and so is every disk just listed |
| `AlertFields.UnreadStream` | internal/alert/alert.go:180-218 | from any state, a stream not read keeps its state and emits nothing, but a disk missing from a list is forgotten with one event clearing it, at its last value, if it was alerting |
| `AlertFields.EmittedInOrder` | internal/alert/alert.go:180-218 | one evaluation reports processor, temperature, memory and swap in this order, and the disks last |
| `AlertRuns.EveryEventIsJustified` | internal/alert/alert.go:220-262 | over any run every event emitted is justified by a long enough tail of its stream's readings past the boundary crossed, or is the farewell of a vanished disk |
| `AlertRuns.EventsFormChain` | internal/alert/alert.go:319-358 | over any run a stream's events lead from ok to its present level, each leaving where the one before arrived |
| `AlertRuns.StoredEventsAreNewest` | internal/alert/alert.go:353-356 | the stored list is the newest `maxEvents` of everything `Evaluate` ever returned |
| `AlertRuns.StreamKeyInjective` | internal/alert/notify.go:260-264 | the NUL separator keeps different streams' keys different, whatever the mountpoint contains |
| `NotifierImpl.Notifier.NotifyAll` | internal/alert/notify.go:196-210 | every worker's queue gets, in order, the events that reach it while it has room; nothing else changes |
| `NotifierImpl.Notifier.Work` | internal/alert/notify.go:214-232 | dispatching touches one worker only, posts nothing for a suppressed or unrenderable event, stamps only a success, and an unrenderable event is never one |
| `NotifierImpl.Notifier.IsRateLimited` | internal/alert/notify.go:242-248 | suppresses exactly when the stream's last delivery is closer than the interval |
| `NotifierImpl.Notifier.MarkSent` | internal/alert/notify.go:253-258 | remembers the delivery time of this stream only, and nothing when the limiter is off |
| `NotifierImpl.Notifier.Deliver` | internal/alert/notify.go:270-297 | posts until the first success, permanent rejection, spent budget or cut-short wait, at most retries + 1 times, having waited backoff * (2^k - 1) |
| `NotifierImpl.LastAttempt` | internal/alert/notify.go:270-321 | exactly which attempt is the last: one accepted, or rejected with a status of 400 to 499 other than 408 and 429, or out of retries, or with its wait cut short |
| `NotifierImpl.AnswerDecides` | internal/alert/notify.go:303-321 | with retries left and the waits run out, an attempt is the last exactly for such an answer |
| `Notify.ToldOnlyWhatConcerns` | internal/alert/notify.go:417-428 | over all schedules a webhook is told only of transitions of which one level reaches its minimum, level by level |
| `Notify.WebhooksAreIsolated` | internal/alert/notify.go:84-96 | under every interleaving a webhook fares exactly as if the others did not exist |
| `Notify.DeliveriesInOrder` | internal/alert/notify.go:165-210 | deliveries are an in-order subsequence of what was accepted, that of what was offered and reaches the webhook; the queue stays bounded |
| `Notify.FiringsAreSpaced` | internal/alert/notify.go:234-258 | over all schedules a delivered firing is at least the interval after the stream's delivery before it |
| `Notify.NothingRefused` | internal/alert/notify.go:196-210 | without overflow everything offered that reaches the webhook is accepted |
| `Notify.RecoveriesAreDelivered` | internal/alert/notify.go:215-223 | without failures a recovery taken last for a stream is also delivered last, whatever the limiter suppressed |
| `Recovery.LastReachingRecovers` | internal/alert/notify.go:417-428 | the severity filter never hides the event that brings a stream below a webhook's minimum |
| `Recovery.RecoveryNeverLost` | internal/alert/notify.go:214-232 | end to end: once drained, if the engine has the stream below the minimum, so does the last delivery |
| `Recovery.WithoutLimiterViewIsExact` | internal/alert/notify.go:214-232 | with the limiter off the last delivery is at or above the minimum exactly while the engine is |
| `Recovery.FiringSentExactlyWhenQuiet` | internal/alert/notify.go:215-223 | with it on, a firing goes out exactly when the stream has been quiet for the interval, be it a relapse or an escalation |
| `Limiter.DeliveredIsLimited` | internal/alert/notify.go:214-258 | over all schedules without failures, a stream's deliveries are what the limiter lets through of the events taken, each judged by the delivery before it |
| `Limiter.ViewWithLimiter` | internal/alert/notify.go:214-258 | end to end with it on: once drained, without failures or overflow, the last delivery is at or above the minimum if and only if some event since the engine last left the stream below it was a clearing or came the interval later; so its view is wrong exactly while the engine is alerting and there is none |
| `Limiter.ViewAfterFiring` | internal/alert/notify.go:215-223 | after a firing is taken the last delivery is at or above the minimum if and only if the stream was quiet or it was there already |
| `LimiterWitness.RelapseIsMissed` | internal/alert/notify.go:234-248 | a run of engine and webhook, nothing lost, that ends with the engine alerting and a recovery delivered last |
| `LimiterWitness.EscalationIsDropped` | internal/alert/notify.go:234-248 | a drained run on which warn is delivered and the crit after it is not |
| `Ring.RingBuffer.constructor` | internal/collector/ringbuffer.go:18-26 | starts empty, with a capacity of at least one |
| `Ring.RingBuffer.Add` | internal/collector/ringbuffer.go:29-38 | the contents become the newest `capacity` of themselves with the value appended |
| `Ring.RingBuffer.Fill` | internal/collector/ringbuffer.go:44-54 | the contents become the newest `capacity` of the values, exact-capacity fills included |
| `Ring.RingBuffer.Snapshot` | internal/collector/ringbuffer.go:58-70 | returns the contents oldest first, across the wrap |
| `Ring.RingBuffer.Newest` | internal/collector/ringbuffer.go:74-84 | returns the last element, or nothing when empty |
| `Ring.RunIsLastOfLog` | internal/collector/ringbuffer.go:29-70 | after any interleaving of adds and fills the buffer is the newest `capacity` of everything since the last fill |
| `SeriesMaps.SeriesMap.AddReport` | internal/collector/collector.go:632-640 | a report goes to its device's own buffer, created when first seen, and no other |
| `SeriesMaps.SeriesMap.EvictStaleSeries` | internal/collector/collector.go:706-719 | for every iteration order, drops exactly the absent devices whose newest sample has left the window |
| `Devices.RetentionIsExact` | internal/collector/collector.go:620-682 | after every tick the map holds exactly the devices reported within the window |
| `Devices.LastReportDecides` | internal/collector/collector.go:706-719 | a retained device's newest point is that of its last report, which alone decides retention |
| `Devices.CapacityOnlyTruncates` | internal/collector/collector.go:634-639 | bounded buffers hold the newest points of what unbounded ones would; capacity never affects eviction |
| `Devices.TickKeepsPairs` | internal/collector/collector.go:642-682 | one tick keeps a device's two series equal in presence and timestamps |
| `Devices.PairsStayEqual` | internal/collector/collector.go:642-682 | over any run the paired maps have equal keys and identical timestamp sequences |
| `Store.HistoryStore.constructor` | internal/collector/collector.go:248-307 | starts empty with the clamped capacity and the eviction window of the configuration |
| `Store.HistoryStore.FastTick` | internal/collector/collector.go:578-587 | one tick changes all twelve series, and nothing else, to the value-level step and counts one generation |
| `StoreFields.DiskRecorded` | internal/collector/collector.go:629-640 | a tick appends a mount's usage to the disk series of that mount |
| `StoreFields.InterfaceRecorded` | internal/collector/collector.go:658-675 | what an interface received goes to its rx series, what it sent to its tx series |
| `StoreFields.BlockDeviceRecorded` | internal/collector/collector.go:641-657 | what a block device read goes to its read series, what it wrote to its write series |
| `StoreFields.UnreportedDevice` | internal/collector/collector.go:677-719 | a device not reported keeps its series, unless its newest point is older than the window, which evicts it |
| `StoreFields.ImportedScalar` | internal/collector/persist.go:379-415 | an import restores exactly the points no older than the history window, or all of them without one |
| `StoreFields.ImportedDevice` | internal/collector/persist.go:398-409 | likewise of each device that keeps a point; one that keeps none is left as it was |
| `Store.HistoryStore.ImportHistory` | internal/collector/persist.go:379-415 | import replaces scalars and the devices that keep something after the cutoff, at the same generation |
| `Store.HistoryStore.Snapshot` | internal/collector/collector.go:375-419 | returns a copy equal to the contents |
| `Trim.DropPrefix` | internal/collector/collector.go:146-148 | the loop computes the suffix binary search settles on |
| `Trim.SuffixIsFilter` | internal/collector/collector.go:139-148 | on points oldest first the search keeps exactly the points to be kept |
| `Trim.SinceDelta` | internal/collector/collector.go:103-137 | the delta is cut series by series; the zero time returns everything |
| `Trim.SinceIsExact` | internal/collector/collector.go:93-137 | on sorted series the delta is exactly the strictly newer points, and no device without any |
| `PimhCodec.HistorySeriesList` | internal/collector/persist.go:74-102 | whatever order the maps iterate in, the list is the scalars and then each kind's storable keys in byte order |
| `PimhCodec.EncodeHistory` | internal/collector/persist.go:146-169 | writes the serialised list, and the size computed beforehand is the number of bytes written |
| `PimhCodec.HistoryDecoder.Take` | internal/collector/persist.go:181-192 | returns the next bytes or sets the sticky error, after which nothing moves; the offset never passes the end |
| `PimhCodec.HistoryDecoder.Uint` | internal/collector/persist.go:194-213 | reads a little-endian integer, 0 and no movement once the error is set |
| `PimhCodec.HistoryDecoder.DecodeSeries` | internal/collector/persist.go:256-272 | reads exactly one record, or reports the broken limit, or leaves the sticky error |
| `PimhCodec.DecodeHistoryPoints` | internal/collector/persist.go:274-282 | reads the declared number of points from their bytes |
| `PimhCodec.DecodeHistory` | internal/collector/persist.go:216-249 | terminates on every byte string with the verdict and error the format prescribes |
| `PimhCodec.SeriesToHistory` | internal/collector/persist.go:106-143 | rebuilds a history record by record, later records winning and unknown kinds skipped |
| `PimhTheorems.DecodeIsSound` | internal/collector/persist.go:216-282 | re-serialising what an accepted file decodes to gives the file back byte for byte |
| `PimhTheorems.DecodeIsComplete` | internal/collector/persist.go:39-45 | a written list within the decode limits, given in numbers, reads back floored to milliseconds; any other is refused for its length or for what is wrong with the first record over the limits |
| `PimhTheorems.ExtendedIsTrailing` | internal/collector/persist.go:245-247 | an accepted file with anything appended is refused for trailing data |
| `PimhTheorems.CutIsTruncated` | internal/collector/persist.go:181-192 | an accepted file cut short anywhere is refused as truncated, or for its magic if cut within that |
| `PimhBytes.ExampleFile` | internal/collector/persist.go:17-33 | the file of a history with a point in each of its twelve series, byte by byte, both written and read back |
| `PimhBytes.EmptyFile` | internal/collector/persist.go:216-249 | a bare version 1 header of ten given bytes reads as the empty history |
| `PimhBytes.UnknownKind` | internal/collector/persist.go:30-33 | a file, byte by byte, with one record of kind 12 reads as the empty history |
| `PimhBytes.LaterRecordWins` | internal/collector/persist.go:106-143 | what one more record does to the history, by the number of its kind |
| `PimhBytes.RefusedAtHeader` | internal/collector/persist.go:216-229 | which files are refused at the header and with which error, by the values of the bytes |
| `PimhTheorems.SerializeInjective` | internal/collector/persist.go:146-169 | readable lists with the same file are the same up to the flooring |
| `PimhTheorems.AcceptedFilesArePrefixFree` | internal/collector/persist.go:245-247 | no accepted file is a proper prefix of another |
| `PimhTheorems.DecodedSizeBounded` | internal/collector/persist.go:36-45 | 16 bytes of input are spent for every decoded point |
| `PimhHistory.RoundTrip` | internal/collector/persist.go:146-249 | a history reads back exactly when it stays within the reader's limits, as itself floored, over-long keys dropped, empty maps absent |
| `Restart.RunTidy` | internal/collector/collector.go:542-587 | over any run what the collector retains is sorted, within capacity and not in the future |
| `Restart.ScalarsAfterRun` | internal/collector/collector.go:578-584 | after any run a scalar holds the newest `capacity` of what it started with and all ticks since |
| `Restart.RestartPreservesHistory` | internal/collector/persist.go:353-415 | for every validated capacity the file is accepted and the next process starts from exactly the floored points not before the cutoff |
| `Restart.CollectionContinues` | internal/collector/persist.go:374-415 | collecting then goes on as if never interrupted, and after `capacity` ticks no trace of the restart is left |
| `Restart.DeviceContinues` | internal/collector/persist.go:374-415 | the same of the series of a device that kept a point and is never away for longer than the eviction window: it holds the newest of its restored points and its reports since, and after `capacity` reports what it would have held |
| `Restart.StaysExactly` | internal/collector/collector.go:706-719 | from any history, restored ones included, a device is never evicted if and only if at no tick its last report is longer ago than the eviction window |
| `AtomicWrite.Disk.WriteFileAtomic` | internal/collector/persist.go:287-315 | for every combination of failing calls: the result and the files left behind, and a crash at any step leaves the target whole, old or new |
| `AtomicWrite.UnsyncedIsUnsafe` | internal/collector/persist.go:297-305 | without the sync before the rename a crash could leave anything |
| `Flush.WritesAreExclusiveAndOrdered` | internal/collector/persist.go:328-347 | under every interleaving at most one write is in progress and snapshots are installed in the order taken |
| `Flush.FileAfterReturn` | internal/collector/collector.go:335-353 | when `Run` returns nothing is being written; if the last write succeeded, the file has every tick if and only if no flush was in flight or none had been recorded since it |
| `Flush.FileIsLastGood` | internal/collector/persist.go:328-347 | whatever fails or is in flight, the file holds the last snapshot whose write succeeded |
| `Flush.ShutdownCanLoseAnyNumberOfTicks` | internal/collector/persist.go:332-336 | a skipped final flush loses all the ticks the flush in flight has missed, however many |
| `Dashboard.HistoryBounds` | internal/web/assets/app.js:980-996 | finds the oldest and newest millisecond over all tracked series and a point attaining the newest |
| `Dashboard.GapToleranceMs` | internal/web/assets/app.js:1002-1004 | the larger of fifteen seconds and three poll intervals; the floor of one second under the interval never shows |
| `Dashboard.TrimHistoryWindow` | internal/web/assets/app.js:1042-1060 | keeps exactly the points within the window ending at the newest held, and no device without any |
| `Dashboard.MergeHistory` | internal/web/assets/app.js:1012-1034 | appends and trims exactly when the jump at the join is positive and within tolerance, otherwise gives up |
| `DashboardFacts.JoinsExactly` | internal/web/assets/app.js:980-1019 | a delta is appended exactly when something is held and its oldest point, of the scalars and the disk, rx and tx series, comes after the newest held by at most fifteen seconds or three intervals |
| `Polling.HistoryPoller.PollHistory` | internal/web/assets/app.js:1135-1141 | asks for a delta or the full window by since, data and poll count, and does nothing while a poll is running |
| `Polling.HistoryPoller.Resume` | internal/web/assets/app.js:1141-1163 | each answer or failure takes the poll to its next state: merged, fetching everything, replaced, or since forgotten |
| `Polling.HistoryPoller.RenderHistory` | internal/web/assets/app.js:1077-1085 | holds the history and remembers the exact timestamp of a newest tracked point |
| `SyncClient.RenderedAnchors` | internal/web/assets/app.js:972-980 | the remembered timestamp, compared in milliseconds but sent in nanoseconds, never passes the newest point held |
| `SyncClient.AcceptedDelta` | internal/web/assets/app.js:1015-1019 | an accepted delta repeats nothing: it is exactly what the server retains of the points not yet seen |
| `SyncServer.TickServer` | internal/collector/collector.go:578-587 | a tick keeps the scalars aligned and no device point newer than the newest scalar point |
| `SyncServer.DeltaScalar` | internal/collector/collector.go:103-137 | the delta of every scalar is the recorded points from some index on, the first newer than since among those retained |
| `SyncMerge.MergeHolds` | internal/web/assets/app.js:1012-1060 | after a merge the dashboard holds what it held and the delta, within the window, in every scalar series |
| `SyncRuns.StepOk` | internal/web/assets/app.js:1135-1164 | every tick, poll, answer, failure and redraw keeps the protocol's invariant |
| `SyncRuns.RunOk` | internal/web/assets/app.js:1135-1164 | hence it holds throughout every run |
| `SyncTheorems.HeldSeriesAreOrdered` | internal/web/assets/app.js:1006-1034 | at every moment the held scalar series are strictly ordered, aligned, without duplicates, and hold only recorded points |
| `SyncTheorems.ResyncCopiesServer` | internal/web/assets/app.js:1147-1152 | a full fetch leaves the server's scalar series, whatever was held before |
| `SyncTheorems.WholeRunsAreUnbroken` | internal/web/assets/app.js:1006-1034 | no holes, as long as every delta since the resync came before the server evicted what the dashboard missed |
| `SyncTheorems.NothingIsMissing` | internal/web/assets/app.js:1036-1060 | after every successful poll of every run no scalar point the server retains within the window is missing, whatever was evicted |
| `SyncDevices.NoDevicePointIsMissing` | internal/web/assets/app.js:1036-1060 | nor is any point of a tracked device |
| `SyncDevices.DeviceView` | internal/web/assets/app.js:1012-1060 | after a delta the device points held are exactly those held before and those the server retains, within the window |
| `SyncDevices.NoEmptyDevice` | internal/web/assets/app.js:1042-1060 | and no disk I/O series is kept, nor, with a window, a device without a point |
| `SyncTheorems.ViewIsExactUnlessEvicted` | internal/web/assets/app.js:1036-1060 | after every delta the view is exactly the server's window if and only if no point held before it and evicted since is still within the window |
| `SyncTheorems.DeltaLeavesNoHoleUnlessEvicted` | internal/web/assets/app.js:1012-1034 | a delta leaves no hole if and only if the server retained the next point or the window has passed everything older |
| `SyncTheorems.JoinGapIsBounded` | internal/web/assets/app.js:998-1019 | an accepted join is positive and within tolerance over all series; for the scalars if and only if nothing the dashboard missed was evicted or what is retained starts within tolerance |
| `SyncTheorems.ResyncIsPeriodic` | internal/web/assets/app.js:948-955 | of any eleven successful polls in a row at least one, and always the first, fetches everything |
| `SyncSchedule.SpacedRunsAreUnbroken` | internal/web/assets/app.js:1006-1060 | with ticks no closer than the interval no run leaves a hole, however long the dashboard was away |
| `SyncSchedule.ValidatedIsCovered` | internal/config/config.go:260-271 | the capacity and the window (of a millisecond or more) of every validated configuration meet the condition that rests on |
| `SyncSchedule.OnScheduleViewIsNotExact` | internal/web/assets/app.js:1036-1060 | with ticks on schedule, one delta after a resync the view holds a point the server has evicted |
| `SyncWitness.ViewCanBeInexact` | internal/web/assets/app.js:1036-1060 | a concrete run on schedule whose last delta leaves the view inexact, although the server retains the newest point held before |
| `SyncRestarts.HeldInOrder` | internal/web/assets/app.js:1006-1034 | at every moment of every run, with the collector restarting at any point from any history it can restore, the held scalars are strictly ordered and aligned and the tracked device series in order of time |
| `SyncRestarts.ResyncComes` | internal/web/assets/app.js:948-955 | however the restarts fall, the whole window is fetched within eleven successful polls after any moment |
| `SyncRestarts.ResyncStartsAfresh` | internal/web/assets/app.js:1147-1152 | a full fetch leaves server and dashboard as if the dashboard had just been opened |
| `SyncRestarts.AsIfNeverRestarted` | internal/web/assets/app.js:1135-1164 | from the first full fetch after a restart to the next restart, server and dashboard are in a state that a run without restarts leads to |
| `SyncRestarts.RunIsWorldRun` | internal/web/assets/app.js:1135-1164 | the protocol without restarts is that with them when none happens |
| `SyncFailures.FailureRefetches` | internal/web/assets/app.js:1141-1163 | after a failed fetch or a delta that does not fit, with restarts at any point, the next success is a full window, however many polls fail before, if nothing is redrawn between polls |
| `SyncFailures.RunFailureRefetches` | internal/web/assets/app.js:1141-1163 | the same without restarts |
| `SyncFailures.PollAsks` | internal/web/assets/app.js:1135-1141 | a poll asks for what is newer than since, unless there is nothing to append to or the last ten successful polls were deltas |
| `SyncFailures.PollAfterFailure` | internal/web/assets/app.js:1156-1160 | the poll after a failed fetch asks for the whole window if and only if nothing was redrawn in between, nothing is held, or it is due |
| `SyncFailures.RedrawUndoesFailure` | internal/web/assets/app.js:94-97 | from any run at rest that holds points, a failure and a redraw lead to the same delta being asked for again |
| `SyncExample.SparseDeviceMasksJump` | internal/web/assets/app.js:1016-1019 | a whole run of the protocol whose last delta a sparse device lets pass although every scalar series jumps by twice the tolerance |
| `SyncStart.EmptyServerOk` | internal/collector/collector.go:248-307 | a run can start from a collector that restored nothing |
| `SyncStart.RestoredServerOk` | internal/collector/persist.go:374-415 | what a restart restores is a state a run of the protocol can start from |
| `HistoryCache.HistoryServer.CachedHistory` | internal/httpapi/handlers.go:100-122 | refills exactly when invalid or of another generation, encodes lazily, and a failed encoding is not cached |
| `HistoryCache.CacheAgreesWithCollector` | internal/httpapi/handlers.go:91-122 | under every interleaving cached data is the collector's of some generation between the cache's and the present, and a cached encoding is that of the data |
| `HistoryCache.ResponsesAreFresh` | internal/httpapi/handlers.go:83-122 | every response encodes one version of the history, with every fast tick completed before the generation was read |
| `HistoryCache.ResponsesNeverGoBack` | internal/httpapi/handlers.go:100-122 | later responses never show an earlier version |
| `HistoryCache.OnlyTheImportIsMissed` | internal/collector/persist.go:374-415 | a request is served a history older than at its start if and only if, when it looks, the cache holds the empty one of before an import that has happened, with no tick before the start |
| `HistoryCache.StaleResponsesAreEmpty` | internal/collector/persist.go:374-415 | the same of every response, by what its request found in the cache; what it then gets is the empty history |
| `HistoryCache.UndisturbedRequest` | internal/httpapi/handlers.go:83-122 | a request running alone, full or delta, encodable or not, is answered from the cache exactly when the cache has its generation |
| `HistoryCache.UndisturbedAnswer` | internal/httpapi/handlers.go:83-122 | what such a request gets and leaves behind, by what it finds; the full encoding is built once and a failed one not kept |
| `HistoryCache.CacheWasFilled` | internal/httpapi/handlers.go:100-111 | under every interleaving what is cached was the collector's latest when an earlier request filled the cache |
| `HistoryCache.ImportCanBeMissed` | internal/httpapi/handlers.go:100-111 | an interleaving on which the import is missed |
| `ServerStats.RouteBucket` | internal/httpapi/serverstats.go:17-25 | every path falls into a counter that exists; a registered one into its own |
| `ServerStats.UnknownRoutes` | internal/httpapi/serverstats.go:17-25 | an unregistered path counts as other-api under /api/v1/ and as static elsewhere |
| `ServerStats.ClassIsFirstDigit` | internal/httpapi/serverstats.go:70-83 | a status from 100 to 599 is counted under its first digit, any other under the nearest class |
| `ServerStats.Stats.constructor` | internal/httpapi/serverstats.go:55-64 | all counters exist and are zero, for exactly the registered paths and the fallbacks |
| `ServerStats.Stats.Record` | internal/httpapi/serverstats.go:70-87 | uninterrupted, counts once in the total, once in the class and once under the route |
| `ServerStats.Stats.Snapshot` | internal/httpapi/serverstats.go:101-117 | uninterrupted, copies every counter |
| `ServerStats.SnapshotsAreOrdered` | internal/httpapi/serverstats.go:95-117 | in every interleaving a snapshot counts no more by route than in total or by class, and undisturbed all three agree |
| `ServerStats.CountersAgreeAtRest` | internal/httpapi/serverstats.go:66-87 | with nothing in flight total, classes and routes agree |
| `Staleness.PacedCollectorIsHealthy` | internal/config/config.go:231-251 | a collector keeping its pace never exceeds the default bound, at any moment of any run |
| `Staleness.HealthFollowsLastTick` | internal/httpapi/handlers.go:28-35 | a collector is unhealthy before its first fast tick and from then on healthy exactly while that tick's start is within the configured bound, or three intervals and twice the overhead |
| `Staleness.BoundIsTight` | internal/config/config.go:223-251 | a run keeping the pace attains the bound |
| `Configuration.ValidatedCapacity` | internal/config/config.go:262-271 | a validated configuration asks for 1 to 1,000,000 points, and they cover the window up to less than one interval |
| `Configuration.CapacityOfAny` | internal/config/config.go:262-271 | whatever is configured at least one point is asked for, and exactly one without a positive interval and window |
| `Configuration.AcceptedTiming` | internal/config/config.go:320-350 | exactly which intervals and windows are accepted |
| `Configuration.ValidateThresholds` | internal/config/config.go:412-435 | accepts exactly non-negative, ordered pairs and otherwise names the first that is not, in the order they are checked |
| `MountFields.UnescapeMountField` | internal/collector/disk.go:122-139 | the loop decodes left to right without looking at its own output |
| `MountFields.UnescapeInvertsEscape` | internal/collector/disk.go:111-121 | whatever the kernel escapes comes back unchanged, also where it looks like an escape |
| `MountFields.EscapeInjective` | internal/collector/disk.go:106-121 | different fields are written differently, so decoding loses nothing |
| `MountFields.UnescapeIsIdentity` | internal/collector/disk.go:114-121 | a string is changed exactly when one of the four escapes occurs in it |

## Left out

- Rounding and NaN: thresholds, intervals and capacities are reals, sample values bit patterns; NaN samples are not modelled.
- `Engine.Report`: the sorted listing of the states is a copy of what `Evaluate` leaves behind.
- Reading `/proc`, `/sys`, apt and vcgencmd, the HTTP server, TLS, authentication, compression, templates and logging.
- JSON: encodings are an injective function; RFC 3339 timestamps are assumed to come back as sent, so the branches for unparseable timestamps (`invalid` in the dashboard, the 400 answer of the server) are not modelled.
- Dashboard.TrimHistoryWindow: the window is a whole number of milliseconds; a window below one millisecond would be treated as none.
- Dashboard.MergeHistory: covers all tracked series; that the view is exact and has no holes is said of the seven scalar series only, of the device series that they are in order and miss nothing.
- SyncRuns.RunOk: the collector's clock does not step back during a run; restarts are the subject of `SyncRestarts`, where no two ticks restored share a millisecond.
- The dashboard's rendering, and the live configuration it fetches: one configuration holds throughout a run.
- Store.HistoryStore.FastTick: records and evicts one device map after the other, where the source records all maps before evicting from any; the maps share nothing, so the outcome is the same. The difference between a nil and an empty slice or map is not modelled.
- Trim.DropPrefix: returns values; that the delta aliases the cached copy, which is never written, is not modelled.
- Restart.RestartPreservesHistory: at most 4096 series, which the encoder does not enforce (`PimhHistory.RoundTrip` says what happens otherwise), and timestamps whose milliseconds fit 64 bits.
- AtomicWrite.Disk.WriteFileAtomic: a rename is one step and the directory itself is never lost; a crash that undoes the rename leaves the old file, which the statement allows.
- The flush protocol in `flush.dfy`: the flush protocol is a state machine, not a class: goroutines, the channel and the wait group are its steps and counts. A write that never ends is outside it.
- Notifier cancellation: a cancelled context shows as a cut-short wait and as no further steps; queued events are then dropped, as in the source.
- NotifierImpl.Notifier.Deliver: backoff doubling beyond the range of a duration is not modelled.
- ServerStats: 64-bit counters do not wrap around; the registered paths are a parameter, distinct and different from the two fallback names.
- HistoryCache: the collector's generation does not wrap around; an encoding that fails leaves no response.
- Configuration: only the checks other parts rest on; the remaining field checks are independent comparisons.
- Staleness.PacedCollectorIsHealthy: the pace (tick length, wait, slow work) is assumed, not derived from a scheduler.
