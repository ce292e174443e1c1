# A Dafny model of the sensor gateway

A Dafny model of the pipeline in `gateway/` and `os_lib/`: sensor rings, a bounded blocking queue, windowed parallel
aggregation, acknowledged storage, and the controllers that set how readers poll. Methods follow the source's loops and
fields and are proved against specification functions; the lemmas prove what those functions promise over all inputs, all
runs and all interleavings.

| file | what it models |
|---|---|
| Common.dfy | `Option` and bounded arithmetic |
| SensorStatistics.dfy | Welford's update and Chan's merge, against the plain definitions |
| Aggregation.dfy | a worker, its anomaly test, and the reduction of the workers' reports |
| WindowProtocol.dfy, WindowProofs.dfy | dispatcher, workers and channels as a transition system, and what every run keeps |
| WindowShutdown.dfy | how the dispatcher's loop and the workers end, what is drained by then, and what can wait for what |
| BoundedBuffer.dfy, BufferMonitor.dfy | the queue's critical sections, and many threads interleaving them with two condition variables |
| OverwriteRing.dfy, SpscRing.dfy | the overwrite ring used sequentially, and by one reader and one writer at once |
| Governor.dfy, GovernorProofs.dfy, GovernorControl.dfy | the adaptive polling governor, what every run of it keeps, and its control law from the calls alone |
| Backpressure.dfy | when a fuller buffer is never polled more slowly |
| HourLog.dfy, Storage.dfy, StorageProofs.dfy | the text of an hour's log, the storage worker, and its disk over failures and restarts |
| Scheduler.dfy, Reader.dfy, ControlProofs.dfy | the command protocol between scheduler and readers, and the drain phase |

Values and ratios are exact reals, counters unbounded except where the source saturates, and time is an input. Each `lock`
section is one step; a thread switch can happen between any two steps.

Six properties one would expect are false of the code. Each has an input that shows it and its exact condition here:

- Concurrent FIFO of the ring fails once a write finds the ring full, because reader and writer then both store the read
  index (`SpscRing.FullWriteCanRepeatAValue`). It holds for all interleavings of n writes exactly if n is below the
  capacity, or the capacity is one (`SpscRing.FifoExactly`).
- Shutting the source down does not save the last window from a raised engine flag: the source is drained, but the window then
  open is in no frame (`WindowShutdown.FlagLosesOpenWindow`). The frames count everything exactly unless the flag ends the loop
  while a window is open (`WindowShutdown.ConservesExactly`), and miss that window then
  (`WindowShutdown.ShutDownSourceIsDrained`).
- An hour's log does not keep initial lines that end in a carriage return, since reading drops it and rewriting does not
  restore it (`StorageProofs.CarriageReturnIsLost`, `StorageProofs.HourLogExactly`), and then differs from the cache
  (`StorageProofs.CacheAgrees`).
- A fuller buffer can lengthen the governor's sleep when the integral outweighs both steps
  (`Backpressure.LargerGainIsNotBackpressured`, `Backpressure.MonotoneBackpressureExactly`). The governors compared are ones
  that runs on one buffer reach.
- The governor's sleep leaves its range at capacity zero unless 1000 us happens to be in range
  (`GovernorProofs.NoCapacityLeavesRange`, `GovernorProofs.SleepInRangeExactly`). `SensorBufferManager::new` asserts a positive
  capacity, so only a caller that builds its own `BufferStats` can get there.
- Draining does not by itself mean forced recovery, since a command obeyed later lifts it (`ControlProofs.LateCommandLifts`,
  `ControlProofs.ForcedExactly`). As the scheduler and the buffer are wired, it never happens
  (`ControlProofs.DrainsInForcedRecovery`).

Also worth knowing: the reader computes its nominal clamp from the configuration it was given, while the governor may have
replaced that one by the default (`ControlProofs.OverridesBoundSleep` states both cases); `latest.json` and `latest` share the
temporary file `latest.tmp`, which is harmless because the worker writes them one after the other; and a line whose flush
failed stays in the cache, so a frame that was answered with an error can still appear in the log.

## Model

| member | source | states |
|---|---|---|
| SensorStatistics.StatsCell.Update | gateway/src/types.rs:53-76 | the in-place update turns the record into `Updated` of the old one, branch by branch |
| SensorStatistics.FoldMeetsDefinition | gateway/src/types.rs:53-76 | after any non-empty sequence of readings: count is the length, mean is sum over count, m2 is the sum of squared deviations from that mean, min and max are the least and greatest readings |
| SensorStatistics.FoldIsHomomorphism | gateway/src/types.rs:79-102 | the fold of a concatenation is the merge of the folds, for all sequences |
| SensorStatistics.UpdateIsMerge | gateway/src/types.rs:53-102 | one online update equals merging with the state of that single reading |
| SensorStatistics.MergeAddsMoments | gateway/src/types.rs:79-102 | merging adds counts, sums and sums of squares, and takes the outer bounds |
| SensorStatistics.MergeAssociative | gateway/src/types.rs:79-102 | merge is associative on valid states (an empty state is the default one) |
| SensorStatistics.MergeCommutative | gateway/src/types.rs:79-102 | merge is commutative on valid states |
| SensorStatistics.MergeIdentity | gateway/src/types.rs:40-102 | the default state is a left identity everywhere and a right identity exactly on valid states |
| SensorStatistics.FoldOrderIndependent | gateway/src/types.rs:53-76 | the fold depends only on the multiset of readings |
| SensorStatistics.DeviationNonNegative | gateway/src/types.rs:104-110 | squared deviation is never negative, and zero exactly when all readings equal the centre |
| Aggregation.ExceedsIsScoreTest | gateway/src/aggregation.rs:125-129 | comparing squares decides the same as comparing abs(value - mean) / std with the threshold, for any square root std of the variance |
| Aggregation.AggregationWorker.OnData | gateway/src/aggregation.rs:119-137 | the worker folds the reading into its sensor's entry and records an anomaly judged on the updated entry |
| Aggregation.RecordedExactly | gateway/src/aggregation.rs:119-137 | for every history and reading: with n readings of its sensor in the window, itself included, and their spread positive, it is recorded exactly if n reaches the minimum and its distance from their mean over their sample standard deviation is above the threshold; the record is its id, time and value and the square of that quotient |
| Aggregation.NothingRecordedWithoutSpread | gateway/src/aggregation.rs:124-126 | a single reading, or readings that are all alike, record nothing |
| Aggregation.AggregationWorker.OnRotate | gateway/src/aggregation.rs:139-150 | hands over the whole map and the anomalies, and starts from nothing |
| Aggregation.AggregationWorker.Run | gateway/src/aggregation.rs:110-157 | over any inbox, the reports sent are those owed: for each Rotate, the sequential pass over exactly the data since the one before |
| Aggregation.OneReportPerWindow | gateway/src/aggregation.rs:139-150 | an inbox of whole windows and an open one is answered by one report for each window, on exactly its readings, in order, and the open one stays pending |
| Aggregation.ReportOfOneMore | gateway/src/aggregation.rs:119-137 | the worker's state stays the report of a single pass over what it has read since the last Rotate |
| Aggregation.ReduceWindowReports | gateway/src/aggregation.rs:76-99 | a window comes out exactly if every expected receive delivers a report, and is then the merge of all of them; otherwise the first failure comes out |
| Aggregation.MergeInto | gateway/src/aggregation.rs:86-92 | merging a bucket into the map: the union of sensors, merged where both have one |
| Aggregation.BucketIsHomomorphism | gateway/src/aggregation.rs:76-99 | the map of a concatenation of readings is the merge of the maps |
| Aggregation.ReductionIndependent | gateway/src/aggregation.rs:76-99 | for any partition of a window over any number of workers in any order, the reduction gives the statistics of one sequential pass |
| Aggregation.BucketOrderIndependent | gateway/src/aggregation.rs:119-122 | per-sensor statistics do not depend on the order of the readings |
| Aggregation.ScoreBound | gateway/src/aggregation.rs:119-137 | every recorded anomaly at count n has z^2 * n <= (n-1)^2 |
| Aggregation.AnomalyPossibleIff | gateway/src/aggregation.rs:124-137 | an anomaly can be recorded at count n exactly if n is at least 2 and the minimum, and the threshold is negative or (n-1)^2 > threshold^2 * n |
| WindowProofs.StepKeeps | gateway/src/aggregation.rs:262-318 | every step of dispatcher, worker or surroundings keeps the protocol's invariant |
| WindowProofs.WindowsAreExact | gateway/src/aggregation.rs:223-312 | in every interleaving, frame i has window id i, one report of every worker, and for each sensor the fold over exactly the readings dispatched for it since the frame before; windows, current, in flight and lost readings are the pops in order |
| WindowProofs.AllSharesMakeTheWindow | gateway/src/aggregation.rs:70-99 | one share from each worker, in any order, merges to the sequential pass over the window |
| WindowProofs.WorkersNeverBlock | gateway/src/aggregation.rs:139-185 | a rotation starts with an empty report channel, the channel never holds more than W reports, and a living worker with a message can always take a step |
| WindowProofs.FailClosed | gateway/src/aggregation.rs:223-312 | once something has failed or the loop has ended, no further frame appears |
| WindowProofs.EveryReadingAccounted | gateway/src/aggregation.rs:262-312 | frame counts, the current window, the reading in hand and the lost one add up to the pops; a finished run has counted every push exactly if none of those nor the queue holds anything |
| WindowProofs.GracefulDrainConserves | gateway/src/aggregation.rs:267-282 | a run that ends drained and without failure has counted everything pushed and popped |
| WindowShutdown.CheckLeavesExactly | gateway/src/aggregation.rs:262-265 | the first check leaves the loop exactly when the flag is up and the source is not shut down or has nothing left |
| WindowShutdown.DrainEndsExactly | gateway/src/aggregation.rs:267-283 | the second check stops popping exactly when the source is shut down and empty; it closes a last window exactly if one is open |
| WindowShutdown.WaysOut | gateway/src/aggregation.rs:262-312 | the only ways out of the loop: a failure, which raises the flag; the flag, with nothing to drain; a drained source |
| WindowShutdown.ShutDownSourceIsDrained | gateway/src/aggregation.rs:262-312 | over every run: if the source was shut down while the dispatcher was in its loop, then once the loop is over without a failure the source is empty, every push has been popped, and frames and open window count them all |
| WindowShutdown.ConservesExactly | gateway/src/aggregation.rs:262-312 | a run whose source is shut down before its loop ends, and in which nothing fails, counts every reading ever pushed exactly unless the flag ends the loop at its first check while a window is open |
| WindowShutdown.NothingLost | gateway/src/aggregation.rs:287-290 | a reading is lost only with a failure, and a failure raises the flag |
| WindowShutdown.UnflaggedRunConserves | gateway/src/aggregation.rs:262-312 | a run in which nothing raises the flag while the loop goes round, and nothing fails, counts in its frames every reading ever pushed |
| WindowShutdown.FlagLosesOpenWindow | gateway/src/aggregation.rs:263-265 | a run without a failure whose source is drained and whose frames count none of what was pushed, because the flag went up |
| WindowShutdown.DispatcherMovesExactly | gateway/src/aggregation.rs:223-317 | the dispatcher can take a step exactly if it is not done, and waits neither for a living worker with a full inbox nor for a consumer that is there |
| WindowShutdown.FullWorkerCanMove | gateway/src/aggregation.rs:110-157 | a worker with a full inbox can always take a step |
| WindowShutdown.LoopGoesEitherWay | gateway/src/aggregation.rs:285-312 | after a pop, or a wait without one, the window may close or the loop go round |
| WindowShutdown.WorkerMovesExactly | gateway/src/aggregation.rs:110-157 | in every reachable state a worker waits exactly when it is alive, the flag is down, its inbox is empty and the dispatcher is there |
| WindowShutdown.LeavesNothingUnread | gateway/src/aggregation.rs:110-157 | unless the flag is up, a worker leaves only with every reading it was sent handled |
| WindowShutdown.WorkersLeave | gateway/src/aggregation.rs:110-157 | once the dispatcher is done all workers leave, within as many steps as messages and workers are left, in any order |
| WindowProofs.WindowCount | gateway/src/aggregation.rs:76-99 | the counts of an exact frame add up to the length of its window |
| WindowProtocol.HashToWorker | gateway/src/aggregation.rs:70-74 | every sensor is routed to an existing worker |
| BoundedBuffer.SensorBufferManager.TryPush | gateway/src/buffer.rs:150-164 | refuses after shutdown, gives the item back when full, and else appends it and counts it; nothing changes on refusal |
| BoundedBuffer.SensorBufferManager.TryPop | gateway/src/buffer.rs:193-202 | takes the oldest item, or changes nothing when empty |
| BufferMonitor.StepKeeps | gateway/src/buffer.rs:136-257 | every step of every thread keeps FIFO order, capacity, counters and the wakeup accounting |
| BufferMonitor.PushRoundKeeps | gateway/src/buffer.rs:167-190 | a round of push, parked, refused or storing, keeps FIFO order, capacity, counters and the wakeup accounting |
| BufferMonitor.PopRoundKeeps | gateway/src/buffer.rs:205-257 | and so does a round of a blocking or timed pop |
| BufferMonitor.ShutdownKeeps | gateway/src/buffer.rs:136-141 | shutdown keeps them and leaves nobody waiting |
| BufferMonitor.WaitTotalsAddUp | gateway/src/buffer.rs:173-257 | between any two moments of a run the two wait totals grow by exactly the waits that ended in between |
| BufferMonitor.WaitCountsAddUp | gateway/src/buffer.rs:173-238 | over every run the two wait counts are how often threads have parked on each condition variable |
| BufferMonitor.MovesExactly | gateway/src/buffer.rs:150-257 | every step stores an item exactly if it has one, the queue is not shut down and has room, and takes the oldest exactly if it wants one and there is one; the thread then owes the notification |
| BufferMonitor.TurnedDownChangesNothing | gateway/src/buffer.rs:150-202 | a `try_push` or `try_pop` that is turned down changes nothing |
| BufferMonitor.RunKeeps | gateway/src/buffer.rs:136-257 | in every reachable state, with barging, timeouts and spurious wakeups: if consumers wait, the queue is no longer than the notifications owed plus the consumers woken; likewise free places and producers; after shutdown nobody waits; popped ++ queue == pushed |
| BufferMonitor.AfterShutdown | gateway/src/buffer.rs:136-190 | after shutdown nothing is pushed and both waiting sets stay empty |
| BufferMonitor.WatermarkIsGreatestLength | gateway/src/buffer.rs:157-162 | the high watermark is the greatest length the queue has ever had |
| BufferMonitor.BlockingPopReturnsNone | gateway/src/buffer.rs:205-225 | a blocking pop returns None only when the queue is shut down and empty |
| BufferMonitor.TimedPopReturnsNone | gateway/src/buffer.rs:228-257 | a timed pop comes out empty-handed exactly when its wait ran out, or the queue is empty with no time left or after shutdown |
| BufferMonitor.UntimedWaitsOn | gateway/src/buffer.rs:167-225 | a wait without a timeout ends only by being woken |
| BufferMonitor.SettledMeansNoneOverlooked | gateway/src/buffer.rs:167-257 | when no thread is due to run, a consumer waits only if there is nothing to take, a producer only if there is no room |
| BufferMonitor.UnsettledCanMove | gateway/src/buffer.rs:167-257 | until then some call under way can move |
| BufferMonitor.CallsUnderWaySettle | gateway/src/buffer.rs:167-257 | without new calls and spurious wakeups, every schedule settles within a bounded number of steps |
| OverwriteRing.MaskIsRemainder | os_lib/src/queue.rs:226-229 | for a power of two, masking with capacity - 1 is the remainder, for all indices |
| OverwriteRing.AcceptedCapacities | os_lib/src/queue.rs:121-164 | the capacities accepted are exactly the powers of two |
| OverwriteRing.NewRing | os_lib/src/queue.rs:121-164 | zero and non-powers of two are rejected with their own errors; otherwise an empty ring |
| OverwriteRing.RWRoundQueue.NextIndex | os_lib/src/queue.rs:226-229 | the mask computes the next index round the end |
| OverwriteRing.RWRoundQueue.Len | os_lib/src/queue.rs:333-342 | the length is that of the unread values, also after the indices have wrapped |
| OverwriteRing.RWRoundQueue.AcquireRead | os_lib/src/queue.rs:240-252 | no slot exactly when nothing is unread; else the slot of the oldest value |
| OverwriteRing.RWRoundQueue.AcquireWrite | os_lib/src/queue.rs:273-283 | reports full exactly when capacity - 1 values are unread |
| OverwriteRing.RWRoundQueue.CommitRead | os_lib/src/queue.rs:259-263 | drops the oldest unread value |
| OverwriteRing.RWRoundQueue.CommitWrite | os_lib/src/queue.rs:292-304 | publishes the filled slot, and drops the oldest value if the ring was full |
| OverwriteRing.RWRoundQueue.TryRead | os_lib/src/queue.rs:427-432 | takes the oldest unread value, or none |
| OverwriteRing.RWRoundQueue.WriteOverwrite | os_lib/src/queue.rs:473-480 | appends the value; returns true exactly when it drops the oldest |
| OverwriteRing.RWRoundQueue.ReadBatch | os_lib/src/queue.rs:593-605 | returns a prefix of the unread values, shorter than asked only when nothing is left |
| OverwriteRing.RWRoundQueue.Replay | os_lib/src/queue.rs:427-480 | over any sequence of writes and reads the ring delivers, keeps and drops what the drop-oldest queue does |
| OverwriteRing.DropOldestLaws | os_lib/src/queue.rs:273-342 | unread values are the most recent ones in order, at most capacity - 1; every other was delivered or dropped once, in order; written = delivered + dropped + unread |
| SpscRing.ExecuteKeeps | os_lib/src/queue.rs:240-304 | while no write finds the ring full, every interleaving of loads, stores and slot accesses keeps indices, slots and both threads' registers in step with the values written and read |
| SpscRing.ReadsArePrefixOfWrites | os_lib/src/queue.rs:240-304 | in such runs the values read are a prefix of those written, and the slot being written is never the one being read |
| SpscRing.ReadsReturnWhatTheyTook | os_lib/src/queue.rs:427-432 | in every interleaving, full or not, the value a read is about to return is the one it took last |
| SpscRing.FullMeansFull | os_lib/src/queue.rs:273-283 | under the invariant a write sees the ring full exactly when capacity - 1 values are unread at that moment |
| SpscRing.FullWriteCanRepeatAValue | os_lib/src/queue.rs:292-304 | on every ring of two or more places, as many writes as it has places can make the reader deliver the first value twice and another never |
| SpscRing.FewWritesNeverFull | os_lib/src/queue.rs:273-304 | while fewer writes have begun than the ring has places, none finds it full, in any interleaving |
| SpscRing.FifoExactly | os_lib/src/queue.rs:240-304 | every interleaving with at most n writes gives the reader a prefix of what was written exactly if n is below the capacity, or the capacity is one |
| GovernorProofs.RunsStaySafe | gateway/src/governor.rs:99-256 | over every run with len <= capacity and capacity > 0: sleep within [min, max], smoothed fill within [0,1], integral within its limit, never FailSafe, entries == switches + 1 |
| Governor.AdaptivePollingGovernor.UpdateWithOverride | gateway/src/governor.rs:156-256 | whenever the call does not panic in `clamp`, it rewrites every field as the specification function says, and returns the new sleep |
| GovernorProofs.NoCapacityLeavesRange | gateway/src/governor.rs:164-173 | an accepted configuration whose sleep leaves its range at capacity zero |
| GovernorProofs.SleepInRangeExactly | gateway/src/governor.rs:164-173 | with any capacity: the sleep stays in range exactly if the capacity is positive or 1000 happens to be in range; FailSafe exactly at capacity zero |
| GovernorProofs.ClampBounds | gateway/src/governor.rs:212-249 | under ClampMaxSleep(c) the sleep is at most max(c, min) and the mode is not Economy |
| GovernorProofs.RecoversExactly | gateway/src/governor.rs:193-203 | FastRecovery exactly when forced, at the hard threshold, after a push wait, or at a high smoothed fill; then at the minimum sleep with the integral cleared |
| GovernorControl.GovernorFollowsLaw | gateway/src/governor.rs:156-256 | over every run on buffers with room, mode, integral, smoothed fill, remembered waits and sleep are those of the control law, written out from the calls alone: the fills' weighted average, the errors summed since the last emergency, the floor of nominal + kp * error + ki * sum within the range, stepped up, stepped down or capped by the mode, then clamped |
| GovernorControl.NewKeepsExactly | gateway/src/governor.rs:99-114 | `new` keeps exactly the configurations with positive ordered sleeps, ordered marks and weight in [0,1], and ordered thresholds; any other becomes the default |
| GovernorControl.BlindCall | gateway/src/governor.rs:164-173 | a call at capacity zero goes to FailSafe for 1000 us, forgets the fill, and keeps the integral and the waits the next call compares with |
| GovernorControl.StatsReportLastCall | gateway/src/governor.rs:177-191 | the statistics show the last call's fill and backlog, and by how much each wait total has grown since the call before |
| GovernorControl.EntriesAreCounted | gateway/src/governor.rs:139-150 | each entry counter counts the moments at which a run came into its mode |
| GovernorControl.DefaultFirstCall | gateway/src/governor.rs:205-240 | a default governor whose first call sees an empty buffer sleeps 125 us |
| GovernorProofs.GapAfter | gateway/src/governor.rs:186-188 | after k updates with fills of at least f, (1 + k*alpha) times the remaining gap to f is at most the initial gap |
| GovernorProofs.RespondsInTime | gateway/src/governor.rs:186-203 | with every fill at least f > high, FastRecovery at the minimum sleep from (high - s0) / (alpha * (f - high)) updates on |
| GovernorProofs.KeepsRecovering | gateway/src/governor.rs:186-203 | and it stays there while every fill is at least the high mark |
| GovernorProofs.IdleRunsRelax | gateway/src/governor.rs:217-232 | for gains >= 0, a positive hard threshold and high mark: when the buffer is empty, no producer waits, no sensor has a backlog, nothing overrides and the first call reports a pop wait, every later moment is in Economy at no less than min(nominal + step up, max) |
| Backpressure.TameNeverLonger | gateway/src/governor.rs:193-256 | one common call: of two safe governors equal but for the smoothed fill, the fuller never sleeps longer unless its integral can lift it past the pressed branch |
| Backpressure.ReachedNeverLonger | gateway/src/governor.rs:193-256 | for gains >= 0 and a configuration that does not overshoot: of any two governors that sound runs reach with the same mode, integral and waits, the fuller never sleeps longer |
| Backpressure.SteadyCharges | gateway/src/governor.rs:205-207 | a steady fill below the target charges the integral to its limit, in Tracking, with the smoothed fill below that fill |
| Backpressure.OvershootLengthens | gateway/src/governor.rs:205-244 | an overshooting configuration has two runs on one buffer, and a call after them, in which the fuller governor sleeps longer |
| Backpressure.MonotoneBackpressureExactly | gateway/src/governor.rs:99-256 | for gains >= 0, over all pairs that runs on one buffer reach: the fuller governor never sleeps longer exactly if not (0 < alpha < 1, 0 < target < high, soft > 0, ki * limit > up + down + 1 and max > nominal + up + down) |
| Backpressure.DefaultIsBackpressured | gateway/src/governor.rs:40-59 | the default configuration has monotone backpressure |
| Backpressure.LargerGainIsNotBackpressured | gateway/src/governor.rs:99-114 | the default configuration with an integral gain of 200 is accepted and does not have it |
| HourLog.ReadsBackChomped | gateway/src/storage.rs:205-241 | reading back a rendered cache gives its lines with one trailing carriage return dropped, and nothing else |
| HourLog.RoundTripExactly | gateway/src/storage.rs:205-241 | the round trip is the identity exactly when no line ends in a carriage return |
| HourLog.ParsedIsEntries | gateway/src/storage.rs:205-213 | whatever the file holds, the cache holds non-blank lines without newlines |
| HourLog.SpacesAre | gateway/src/storage.rs:205-213 | the characters a blank line consists of |
| Storage.Disk.AtomicWrite | gateway/src/storage.rs:159-169 | create, fill, rename: succeeds if all three do; a failure leaves the target as it was |
| Storage.HourlyWriter.RotateIfNeeded | gateway/src/storage.rs:199-219 | same hour: nothing; else the hour's lines are loaded; an unreadable log changes nothing |
| Storage.HourlyWriter.AppendJsonl | gateway/src/storage.rs:221-227 | rotates, then pushes the line, then rewrites the log; a failed flush leaves the line in the cache |
| Storage.HourlyWriter.Flush | gateway/src/storage.rs:233-242 | rewrites the open log with the rendered cache, or does nothing when none is open |
| Storage.StorageWorker.PersistRuntimeArtifacts | gateway/src/storage.rs:253-287 | cache, disk and result after the fixed sequence of writes, whichever step fails |
| Storage.StorageWorker.PersistWithMetrics | gateway/src/storage.rs:302-331 | state, metrics and answer of one request |
| Storage.StorageWorker.WorkLoop | gateway/src/storage.rs:333-390 | whenever the flag or a Shutdown is seen, every request received is served in order and answered once |
| StorageProofs.PlanEffects | gateway/src/storage.rs:253-287 | what each published file holds after any number of steps of a request |
| StorageProofs.ServeAgrees | gateway/src/storage.rs:199-287 | a request keeps log and cache in agreement with the hour's ledger, whatever fails |
| StorageProofs.HourLogExactly | gateway/src/storage.rs:199-242 | when all requests succeed, in any order of hours and across restarts, a log is its initial lines and then that hour's frames in order, exactly if it got none or no initial line ends in a carriage return |
| StorageProofs.CarriageReturnIsLost | gateway/src/storage.rs:205-241 | a disk and one request after which the log is not its initial line and the frame |
| StorageProofs.CacheAgrees | gateway/src/storage.rs:182-242 | in every run, the open hour's log and then the lines whose flush failed are the cache, chomped once the log has been rewritten; so equal to it exactly if it has not been, or no cached line ends in a carriage return |
| StorageProofs.AcknowledgedFramesSurvive | gateway/src/storage.rs:199-331 | under any failures and restarts, every acknowledged frame is in its hour's log, in order, among submitted frames in order, behind the initial lines |
| StorageProofs.PublicationOrder | gateway/src/storage.rs:159-287 | at every cut point no published file is torn; index, latest and snapshot show events of the run whose frames are in their logs; the snapshot pairs a frame with its own stats; neither index nor stats is ahead of latest.json |
| StorageProofs.AcknowledgedIsPublished | gateway/src/storage.rs:253-331 | after an acknowledgement every published file shows that request |
| StorageProofs.IndexNamesFrame | gateway/src/storage.rs:280-284 | the index left by an event of any run shows that frame's id, its end in seconds unless that is before the epoch, and the hour file its end lies in, in which its line stands |
| StorageProofs.AckedExactly | gateway/src/storage.rs:253-287 | a request is acknowledged exactly if its hour's log is open or can be read, its frame serializes, and all three steps of its three or five writes go through; a log that cannot be read leaves disk and cache alone |
| StorageProofs.AcknowledgedLeavesNoTemporary | gateway/src/storage.rs:159-169 | an acknowledged request leaves none of its temporary files |
| StorageProofs.SharedTemporaries | gateway/src/storage.rs:159-160 | two published files share a temporary file exactly if they are `latest.json` and `latest` |
| StorageProofs.RequestsOfBoth | gateway/src/storage.rs:333-390 | the requests served are those among the messages, in order |
| StorageProofs.MetricsMeanAcks | gateway/src/storage.rs:302-331 | the frame counter counts acknowledgements, the error is set exactly when the last request failed, and duration, frame and hour are those of the request acknowledged last, whatever failed since |
| StorageProofs.LongestPersist | gateway/src/storage.rs:316-318 | the maximum bounds the duration of every acknowledged request |
| StorageProofs.LongestPersistIsAttained | gateway/src/storage.rs:316-318 | and it is the duration of one of them, or zero |
| Storage.HourKey | gateway/src/storage.rs:143-153 | the hour a time lies in, and hour zero before the epoch |
| Scheduler.SchedulerThread.Poll | gateway/src/main.rs:219-297 | one poll takes each reader's latest status and gives its entry the specified counters, command and channel |
| Scheduler.SchedulerThread.Visit | gateway/src/main.rs:237-274 | one reader's turn changes its own entry as specified and no other |
| Scheduler.SchedulerThread.SendDrain | gateway/src/main.rs:301-305 | every reader is sent ShutdownDrain once |
| Scheduler.HitsAreSuffixes | gateway/src/main.rs:245-257 | each hit counter is the length of the current suffix of polls at or above its threshold, up to 2^32 - 1 |
| Scheduler.SuffixIsLongest | gateway/src/main.rs:245-257 | that suffix is the longest one: all its polls hit, the one before does not |
| Scheduler.CommandFollowsHistory | gateway/src/main.rs:259-267 | the command on record as a function of the polls alone, staleness by the two instants: stale or critical, sustained warning or fill >= 0.20, or automatic |
| Scheduler.StaleExactly | gateway/src/main.rs:104-109 | the test for a stale reader compares the two instants: stale exactly if the limit is zero, or the status is at least that many milliseconds older than now |
| Scheduler.DefaultStaleness | gateway/src/main.rs:259-260 | by default a reader is stale half a second after its last status |
| Scheduler.LatestIsLast | gateway/src/main.rs:223-225 | of the statuses that have arrived, a reader's latest is the last one about it |
| Scheduler.CommandsNeverRepeat | gateway/src/main.rs:269-305 | no two adjacent commands are equal, the last is the one on record, only the final one is a drain |
| Reader.ReaderThread.Obey | gateway/src/main.rs:366-388 | mode, override, drain state and sensor after a command |
| Reader.ReaderThread.Prepare | gateway/src/main.rs:366-399 | the commands in order, then the check of the stop flag |
| Reader.ReaderThread.Move | gateway/src/main.rs:404-446 | reads until the ring is empty or a push is refused, which starts the drain |
| Reader.ReaderThread.Pass | gateway/src/main.rs:365-475 | one pass of the loop: control state, sensor and count, the governor's update on what is left and the override in force, the status sent, and whether the pass is the last |
| ControlProofs.ReportIsTrue | gateway/src/main.rs:448-466 | the status sent shows the sensor's unread readings, the share of the buffer that is filled, and the instant |
| ControlProofs.PollSeesReader | gateway/src/main.rs:237-274 | from a pass to the next command, in the sensor's and the buffer's own terms: recovery if stale or the backlog is critical, the clamp if it has been at the warning level for long enough or the buffer is a fifth full |
| ControlProofs.TurnKeeps | gateway/src/main.rs:365-475 | a pass keeps order, undoes nothing, and ends draining exactly when it began so, was told so by command or flag, or had a push refused |
| ControlProofs.RunsStayOrderly | gateway/src/main.rs:365-486 | over every run draining implies stop set, sensor stopped and a deadline; the sensor is stopped exactly once by the end |
| ControlProofs.NeverOverfull | gateway/src/main.rs:404-446 | a sensor's ring never holds more than its places |
| ControlProofs.ArrivalsAreKept | gateway/src/main.rs:404-446 | while the sensor runs and its ring has room, every reading that arrives is moved in the pass or still there after it |
| ControlProofs.LeavesExactly | gateway/src/main.rs:468-475 | over every run the deadline is two seconds after the drain phase started, and a reader leaves exactly when it drains and has nothing unread or those two seconds are over |
| ControlProofs.DrainEnds | gateway/src/main.rs:390-475 | if every push returns, a draining reader leaves within max(available, 1) further passes, even if every push is refused |
| ControlProofs.DrainingTurn | gateway/src/main.rs:404-475 | while draining the deadline stays, no reading is lost from the count, and each pass leaves fewer unread readings |
| ControlProofs.GracefulDrain | gateway/src/main.rs:404-475 | if no push is refused, one draining pass moves everything left and is the last |
| ControlProofs.ReplayIsLast | gateway/src/main.rs:366-388 | replaying commands leaves the mode and override of the last one |
| ControlProofs.SchedulerSteersReader | gateway/src/main.rs:269-388 | a reader that has received what the scheduler sent, over any passes, and does not drain, runs under the override of the command on record |
| ControlProofs.SchedulerBoundsSleep | gateway/src/main.rs:259-451 | such a reader's governor sleeps, after a pass, at most the nominal time if the command on record is the clamp, and the minimum if it is to recover |
| ControlProofs.SchedulerDrainsReader | gateway/src/main.rs:301-388 | once all that was sent has arrived after shutdown, over any passes and whatever else happened, the reader drains with its sensor stopped, in forced recovery |
| ControlProofs.RunFollows | gateway/src/main.rs:366-446 | over every run, mode and override are those of the last command, stop-flag drain or refused push, and the reader drains exactly if one of them was a drain |
| ControlProofs.ForcedExactly | gateway/src/main.rs:366-446 | a draining reader is in forced recovery exactly if the last of these was a drain or a command to recover |
| ControlProofs.LateCommandLifts | gateway/src/main.rs:366-376 | a command obeyed after the drain command lifts the forced recovery of a reader that goes on draining |
| ControlProofs.DrainsInForcedRecovery | gateway/src/main.rs:365-475 | with the buffer's shutdown sticky and nothing sent after the drain command, every pass that ends draining ends in forced recovery |
| ControlProofs.OverridesBoundSleep | gateway/src/main.rs:370-376 | the clamp keeps the next sleep at or below the nominal one of an accepted configuration; forced recovery gives the minimum |
| ControlProofs.ClampIsNominal | gateway/src/main.rs:370-373 | the clamp is at the nominal sleep exactly if that is no less than the minimum, and at the minimum otherwise |

## Left out

- Floating point: rounding, NaN and infinities as readings, and the casts of counts to `f64`; all gains are finite.
- The recorded score is kept as its square, as exact reals have no square root; `Aggregation.ExceedsIsScoreTest` ties the two.
- Everything that reads a clock: how long a wait took is an input, and timeouts may happen at any moment.
- Wrap-around of the 64-bit counters (pushed, popped, updates, window ids, persisted frames).
- The body of the standard hasher: routing is by any function of the sensor's id.
- The wall-clock timestamps of frames; only a frame's window end in seconds appears, in storage.
- Raw memory of the ring (allocation, `MaybeUninit`, pointers, drop) and weak memory orderings; interleavings are sequentially consistent.
- Poisoned locks and panics of threads.
- JSON encoding: a serialized frame is an opaque non-blank line without newline or trailing carriage return, or fails to serialize.
- `fsync`, power loss and directory creation; a rename is atomic and a file is readable as text or not at all.
- The bounded request channel of the storage worker; the model starts at the messages it receives.
- Send failures on command channels whose reader is gone.
- The reader's own file of readings, and that a blocked push returns, which is assumed where stated.
- The web server, dashboard, benchmarks, sensor simulation and the ablation copy of the gateway.
- GovernorProofs.RunsStaySafe: assumes, like all results over runs of the governor, `integral_limit >= 0`, which `new` does not check; with a negative limit the first call without an emergency panics in `clamp`.
- Backpressure.MonotoneBackpressureExactly: for gains that are not negative; with a negative gain the controller pushes the other way.
- Scheduler.SchedulerThread.Poll: leaves out the shared snapshot for the dashboard, which is built from the entries the poll is proved to set.
- Reader.ReaderThread.Pass: leaves out the fields of the status that only the dashboard reads, and the sleep itself.
- WindowProofs.FailClosed: says nothing about how soon the dispatcher notices; liveness is proved for the bounded queue, the workers' end and the drain phase only.
