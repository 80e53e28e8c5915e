# Tidemark: a verified model of exactly-once output

Tidemark is a stream engine whose promise is that a job's output holds every record's effect exactly
once, however often the job crashes. This project models the parts of the engine that carry that
promise and proves what each of them keeps, then puts them together.

`dafny verify dfyconfig.toml` checks the whole project.

Objects that the engine updates in place are classes here (`InputGate`, `SourceSubtask`, `Coordinator`,
`Storage`, `Transactional`, `WindowCount`, `MaxBid`, `HotItems`, `Memory`, `Graph`, `Writer`, `Reader`),
each proved against a state machine written as functions; the theorems are about the state machines.

| part | files |
|---|---|
| Integers, streams, byte order | Int64, Elements, ByteOrder |
| Input gate: alignment, watermark minimum, replay | Gate, GateAlignment, GateWatermarks, GateRecords, GateTheorems, GateRuntime |
| Sources: split, barriers, watermarks, resume | Source, SourceRuntime |
| Routing | Transport, Routing |
| One subtask and one stage over crashed runs | CrashedRuns, Stages, Operators, Vertices |
| Recovery of sources and of an operator's state | Recovery, RecoveryRuns, Resumption |
| Keyed state and windowed operators | StateStore, WindowAssign, WindowKeys, WindowLayout, WindowMachine, WindowCounting |
| Windowed operators on streams, at any parallelism, across crashes | WindowOperators, WindowStream, WindowVertices, WindowRecovery |
| Queries q7 and q5, end to end | Bids, MaxBidding, Q7, AuctionCounts, HotLayout, HotItemCounting, HotItemStream, RankedCounts, Q5 |
| Coordinator | Coordination, CoordinatorRuntime |
| Checkpoint files and crash safety | CheckpointCodec, CheckpointReader, StateSnapshot, DurableFiles, CrashSafety, CheckpointStorage, CheckpointSelection, FileNames |
| Transactional sink | TwoPhaseCommit, TransactionalSink, SinkRuntime, PowerLoss, RecordCodec |
| What the sink commits over all runs, beside the coordinator | SinkStreams, ExactlyOnce, SinkCoordination |
| Job graph | JobGraph, JobGraphRuntime |

A job is sources, vertices of parallel subtasks and a sink. It runs any number of times, every run but
the last crashing, each resumed at the checkpoint it is given; `CrashedRuns.Effective` is what is left of
a subtask's streams. `Stages.StagePasses` says what one gate makes of what is left of its inputs, and
`Operators.CrashesDoNotShow` what an operator makes of it, so that whole jobs are put together vertex by
vertex.

The main results:

- `ExactlyOnce.OutputIsTheInput`, `ExactlyOnce.CommittedIsSent`: after any crashes, with inputs interleaved
  in any way, a job that succeeds has committed exactly what its last vertex sent to the sink, each record
  once; fed by sources, that is every source record.
- `Q5.HottestAreTheMostBidOn`: sources, filter, count, re-key, ranking and sink, at any parallelism and over
  any crashes: what is committed for a window is its auctions with the most bids. Nothing is assumed of
  the streams between the vertices, only that sources are no more out of order than they declare.
- `WindowRecovery.ExactlyOnceCounts`, `Q7.AnswerIsTheBestBid`: the same for windowed counts and for q7.
- `GateTheorems.ConsistentCut`, `RecoveryRuns.SnapshotIsTheCut`: the cut a checkpoint records depends on
  the input streams alone, and the state it restores is the fold of exactly the data below it.
- `CrashSafety.VisibleImpliesLoadable`, `CheckpointStorage.Storage.WriteCheckpoint`: a marker that can be
  seen after a crash vouches for a checkpoint that loads; `Resumption.LoadedPosition` follows a source's
  position through it to the next run.
- `SinkCoordination.JointRunsAreValid`: a sink's loop beside the coordinator, stopped between any two steps any
  number of times, is one of the runs that the results about sinks are for.
- `PowerLoss.OwnedEpochsSurvive`: the power may fail between a rename and the sync of its directory, and what will
  not be produced again is in one of the sink's two directories all the same.
- `TwoPhaseCommit.CommittedExactlyOnce`, `Coordination.RunIsSafe`, `JobGraph.KahnIsSmallest`.

"After any crashes" supposes that each run is resumed at the highest checkpoint that completed. The
checkpoint root's own entry is never synced by the code, so after a loss of power the marker of that
checkpoint may be gone with the entry of its directory; a run then resumed at an earlier one, with the
sink's later epochs already committed, is not covered by these results.

Where the code and its comments part ways, the code is modelled:

- The coordinator's `Finished` stops at the first checkpoint it cannot write, so another that waits for
  nobody can stay open. `Coordination.AFailedWriteCanStrandACheckpoint` gives the case and
  `Coordination.FinishedLeavesNoneOwedIff` says exactly when it happens.
- A state file has one accepted form; metadata does not, since nothing looks at what follows the last
  vertex (`CheckpointCodec.MetadataIff`, `CheckpointCodec.MetadataIsNotCanonical`).
- Re-keying a q5 count recovers its window exactly when the window's end is representable; windows with a
  saturated end all come back as one (`AuctionCounts.RekeyRecoversIff`, `AuctionCounts.SaturatedWindowsMerge`).
- A staging name is read back exactly when its checkpoint is not negative (`FileNames.CheckpointOfStagingIff`).
- The sink's sweep and its final commit sync a directory only after changing it themselves. A removal that an
  interrupted sweep made and did not sync can so be undone by a loss of power much later, and the dead run's file
  is committed (`PowerLoss.RestoreIsExactIff`, `PowerLoss.OverlookedIsCommitted`); and a job that has succeeded can
  lose an epoch whose notification failed to sync (`PowerLoss.SuccessIsDurableIff`). `PowerLoss.ADeadRunCanBeCommitted`
  and `PowerLoss.ASuccessCanFallBack` are such runs.
- A transaction's name is unique for negative checkpoints too, though a comment holds that IDs carry no sign
  (`FileNames.TransactionNameInjective`).
- The two subtractions named `subFloor` differ: the runtime's clamps at both ends, the window operators'
  at the bottom only (`Int64.SubClamp`, `Int64.SubFloor`).
- Source ranges cover the input exactly when the product of parallelism and count fits an int64
  (`Source.RangesCoverIff`).

## Model

| member | source | states |
|---|---|---|
| GateTheorems.ConsistentCut | pkg/runtime/gate.go:272-409 | For any number of inputs, any interleaving and any stopping point: when the k-th barrier leaves the gate its ID is base + k, and what each input has delivered is its stream up to and including its own k-th barrier, or all of it if it has fewer. The cut is a function of the streams alone. |
| GateTheorems.Conservation | pkg/runtime/gate.go:220-278 | Per input, what was delivered followed by what is held back is exactly what the input handed over, in order: nothing lost, duplicated or reordered, even when an alignment completes during replay. |
| GateTheorems.SettleKeeps | pkg/runtime/gate.go:241-252 | Passing the replay queue back through the gate keeps the alignment, watermark and promise invariants at every element and preserves each input's delivered-held-queued sequence. |
| GateTheorems.Completion | pkg/runtime/gate.go:364-409 | Once every input has ended, all buffers and the queue are empty, every stream has been delivered whole, as many barriers went out as the input with the most had, and one end of stream is the last thing sent. |
| GateTheorems.FinalWatermark | pkg/runtime/gate.go:458-477 | After every input has ended the last watermark sent is MaxInt64, which no source ever sends. |
| GateTheorems.EndIsFlushed | pkg/runtime/gate.go:364-389 | The end of stream goes out only behind a MaxInt64 watermark. |
| GateTheorems.OutputWatermark | pkg/runtime/gate.go:462-477 | The watermarks sent strictly increase, and the last one is always the running maximum, over the whole history, of the minimum over inputs not yet ended. |
| GateTheorems.PromisePassedOn | pkg/runtime/gate.go:261-295 | If on no input a record follows a watermark at or above its event time, none does on the output, which is again a well-formed stream. |
| GateTheorems.SentIsBacked | pkg/runtime/gate.go:450-477 | When the gate sends a watermark, every input has either ended or itself promised at least as much. |
| GateTheorems.OutputWellFormed | pkg/runtime/gate.go:209-213 | The output numbers its barriers consecutively from the inputs' common base and carries nothing after an end of stream. |
| Gate.MinLive | pkg/runtime/gate.go:462-471 | A lower bound on every live input's watermark that is attained by one of them, or MaxInt64 when none is live. |
| Gate.HandleUsable | pkg/runtime/gate.go:241-278 | Handling one element leaves the number of held elements unchanged, or grows it by the element held back without growing the queue: the measure on which the replay loop terminates. |
| GateAlignment.FlattenKeepsOrder | pkg/runtime/gate.go:426-438 | Draining the buffers keeps each input's elements together in their own order. |
| GateAlignment.CompleteAlignmentKeeps | pkg/runtime/gate.go:399-409 | Completing an alignment forwards the barrier only with every input standing at its cut, and opens the next epoch with each input's accepted sequence unchanged. |
| GateAlignment.HandleKeeps | pkg/runtime/gate.go:272-295 | One handled element keeps the alignment invariant and lands behind all its input handed over before and ahead of what is queued. |
| GateAlignment.EndMid | pkg/runtime/gate.go:364-389 | The end of an input keeps the invariant, and the end of the last one is the last thing the gate sends. |
| GateWatermarks.DeliverTime | pkg/runtime/gate.go:281-295 | Every delivered element keeps the output watermark equal to the running maximum of the live minimum. |
| GateWatermarks.DeliverPromise | pkg/runtime/gate.go:281-295 | Every delivered element keeps the output within what the inputs have promised. |
| GateWatermarks.DeliverStandsBehind | pkg/runtime/gate.go:281-295 | Every delivered element keeps each watermark ever sent backed by every input at the moment it went out. |
| GateRecords.OutputBag | pkg/runtime/gate.go:292-294 | As a bag, the records sent are the sum of the records the inputs delivered. |
| GateRuntime.InputGate.constructor | pkg/runtime/gate.go:147-191 | A new gate holds nothing back, aligns nothing and has every input live at MinInt64. |
| GateRuntime.InputGate.Recv | pkg/runtime/gate.go:220-259 | Hands over the next element decided on, first handling as many queued or arriving elements as it takes; the outcome of the whole run is unchanged, something strictly decreases, and None comes back only when everything has been handled and handed over. |
| GateRuntime.InputGate.HandleElement | pkg/runtime/gate.go:272-278 | The fields afterwards are the state machine's next state; nothing already returned or still arriving changes. |
| GateRuntime.InputGate.DeliverElement | pkg/runtime/gate.go:281-295 | The fields afterwards are the state machine's state after interpreting the element. |
| GateRuntime.InputGate.BarrierArrived | pkg/runtime/gate.go:311-331 | The input is marked, the first barrier kept, and the alignment completed if no live input is awaited. |
| GateRuntime.InputGate.AwaitingBarrier | pkg/runtime/gate.go:335-345 | True exactly if an alignment is open and a live input has not delivered its barrier. |
| GateRuntime.InputGate.EndOfStreamArrived | pkg/runtime/gate.go:364-389 | A second end of stream is ignored; a first one leaves the minimum, may close the gate and may complete an alignment, in that order. |
| GateRuntime.InputGate.TryComplete | pkg/runtime/gate.go:399-409 | Forwards the barrier and releases the buffers exactly when an alignment is open and awaits nobody. |
| GateRuntime.InputGate.DrainBuffers | pkg/runtime/gate.go:426-438 | Everything held back goes ahead of the queue in input order, and the buffers are empty. |
| GateRuntime.InputGate.MinimumLive | pkg/runtime/gate.go:462-471 | The loop over the inputs computes the least watermark of the live ones. |
| GateRuntime.InputGate.AdvanceWatermark | pkg/runtime/gate.go:462-477 | A watermark goes out exactly when the live minimum has passed the last one sent. |
| GateRuntime.ReceiveAll | pkg/runtime/gate.go:220-259 | Receiving until nothing is left yields exactly what the gate's state machine sends over the run. |
| Source.RangesPartition | pkg/runtime/source_task.go:64-68 | While parallelism times count fits an int64, the ranges start at 0, end at count, meet end to start, and are each at least the rounded-down share long. |
| Source.RangesCoverIff | pkg/runtime/source_task.go:58-68 | The last range ends at count if and only if the product does not overflow. |
| Source.BudgetFitsEveryRange | pkg/runtime/source_task.go:229-251 | The common barrier budget fits inside every subtask's own range, however the remainder falls. |
| Source.InjectsWholeBudget | pkg/runtime/source_task.go:229-300 | Every subtask of a countable source injects exactly the common budget of barriers in its own range, while parallelism times count fits an int64. |
| Source.EpochsThenResume | pkg/runtime/source_task.go:105-154 | Barrier j follows exactly j times the interval of the subtask's records, and what follows barrier k is the stream of a source started there with k barriers behind it. |
| Source.ResumeIsTheRest | pkg/runtime/source_task.go:203-219 | A run resumed at checkpoint k produces exactly the rest of the original run, records and barrier IDs; a source that had already finished resumes with nothing but its end. |
| Source.SourceKeepsPromise | pkg/runtime/source_task.go:376-403 | With disorder bounded by what the vertex declares, no record follows a source watermark at or above its event time. |
| Source.SourceWatermarksSafe | pkg/runtime/source_task.go:394-403 | Every source watermark is below every record of the data at or beyond the position it was sent from, so it binds resumed runs too. |
| Source.EmissionsPositioned | pkg/runtime/source_task.go:127-153 | Positions never go back, and each record is sent with its own offset just behind. |
| SourceRuntime.SourceSubtask.constructor | pkg/runtime/source_task.go:105-110 | A fresh subtask stands at the start of its range with generators that have counted nothing. |
| SourceRuntime.SourceSubtask.Apply | pkg/runtime/source_task.go:203-219 | Accepts exactly the offsets that are not negative and, for a countable source, inside its range with the end allowed; then it stands there with the barrier count restored, and otherwise nothing changes. |
| SourceRuntime.SourceSubtask.BarrierOnRecord | pkg/runtime/source_task.go:286-300 | A barrier is due exactly at an interval boundary inside the budget. |
| SourceRuntime.SourceSubtask.WatermarkOnRecord | pkg/runtime/source_task.go:376-403 | A watermark is due exactly at an interval boundary where the held-back maximum has strictly passed the last one sent. |
| SourceRuntime.SourceSubtask.ReadOne | pkg/runtime/source_task.go:127-153 | One turn sends the record, then the watermark it makes due, then the barrier, acknowledged at the position just behind the record. |
| SourceRuntime.SourceSubtask.RunToEnd | pkg/runtime/source_task.go:117-154 | Sends the stream of its state to the end of its range, with each barrier acknowledged at the position it was sent from and the final position reported. |
| Recovery.AcknowledgedPositions | pkg/runtime/source_task.go:142-152 | In the first run and in every resumed one, barrier k goes out at the one position recorded for checkpoint k. |
| Recovery.CutRecords | pkg/runtime/source_task.go:76-84 | The records before barrier j of a run resumed at k are exactly the data between the positions of k and of k + j. |
| Recovery.SentWellFormed | pkg/runtime/source_task.go:180-188 | A source's stream numbers its barriers from the one it resumed behind and ends once. |
| Recovery.CutAhead | pkg/runtime/source_task.go:376-403 | Nothing a source sent before a checkpoint's cut, no watermark and no end, is contradicted by anything it reads from that checkpoint on, in this run or a resumed one. |
| Recovery.EffectiveIsData | pkg/runtime/source_task.go:203-219 | What is left of a source's streams over any crashed runs and a last one is all its data, once and in order. |
| Recovery.SourceIsSound | pkg/runtime/source_task.go:376-403 | With disorder bounded by what the vertex declares, none of it is late, although every run starts its watermarks afresh. |
| Routing.RoutedCut | pkg/transport/writer.go:97-152 | Cutting a stream at a barrier and routing it to one subtask commute. |
| Routing.RoutedWellFormed | pkg/transport/writer.go:144-153 | Control elements go to everyone, so a routed stream is numbered and closed as the whole one is. |
| RecoveryRuns.DeliveredBetween | pkg/runtime/subtask.go:588-612 | Whatever the interleaving, the records an operator has processed before barrier k + j of a run resumed at k are, as a bag, those between the two checkpoints' source positions. |
| RecoveryRuns.BarrierNamesCheckpoint | pkg/runtime/source_task.go:180-188 | The barrier that closes a run's checkpoint carries the ID the next run resumes from. |
| RecoveryRuns.KeptIsTheCut | pkg/runtime/subtask.go:588-621 | What is left of the crashed runs at a subtask fed by sources holds exactly the records routed to it that lie below the source positions of the checkpoint. |
| RecoveryRuns.SnapshotIsTheCut | pkg/runtime/subtask.go:516-621 | The state the next run is restored with, each run having started from what an earlier one recorded under its barrier, is the fold of exactly the data below the source positions of the checkpoint, for an operator whose records commute, after any number of crashes and under every interleaving. |
| RecoveryRuns.EveryRecordOnce | pkg/runtime/subtask.go:516-526 | Restored once more and run to the end of every stream, the state is the fold of every record of every source routed here, each once. |
| RecoveryRuns.FoldOfBag | pkg/runtime/subtask.go:588-612 | For an operator whose steps commute, equal bags of records give equal state. |
| Operators.OperatorLoop | pkg/runtime/subtask.go:534-625 | From any restored state: the state, what is recorded under each barrier before the barrier goes on, and what is sent, a watermark behind the records it released, are those of the operator on the elements received. |
| Operators.SentCut | pkg/runtime/subtask.go:588-621 | What an operator sends before its k-th barrier is what it makes of what it received before it. |
| Operators.RestoredIsKept | pkg/runtime/subtask.go:516-526 | Restored from what crashed runs recorded, each itself restored, an operator stands where one would that had received what is left of them and nothing else. |
| Operators.CrashesDoNotShow | pkg/runtime/subtask.go:516-625 | What is left of what an operator sent over all runs is what it would have sent in one run over what is left of its input. |
| Stages.RunToCut | pkg/runtime/gate.go:272-409 | Up to the barrier a run was given up for, what the gate passed on is the cut of what the subtask received, and what it took in is the cut of each input. |
| Stages.NoneBehind | pkg/runtime/gate.go:450-477 | Over a history joined from several runs: if every watermark was backed by every input when it went out and nothing is late on any input, nothing is late on the output. |
| Stages.StageRecords | pkg/runtime/gate.go:272-409 | What is left of what a subtask received holds exactly the records routed to it that are left of what its inputs sent, each once. |
| Stages.StagePasses | pkg/runtime/gate.go:261-477 | Whatever crashed and however runs were interleaved: if nothing left of any input is late, then nothing left of what the subtask received is, and it ends behind a MaxInt64 watermark. |
| Vertices.ShareReceived | pkg/transport/writer.go:119-134 | What each subtask of a vertex is left with is exactly its share, by the hash of the key, of all that the vertex before it sent. |
| Vertices.AllReceived | pkg/transport/writer.go:97-134 | At any parallelism the subtasks together receive all that was sent, each record once. |
| Vertices.VertexPasses | pkg/runtime/subtask.go:516-625 | What is left of each subtask's output is what its operator makes of what is left of its input in one run, and none of it is late. |
| Vertices.MappedAll | pkg/operators/transform.go:30-48 | A stateless vertex sends on what its function makes of all records sent to it, at any parallelism. |
| Resumption.VouchedPosition | pkg/runtime/subtask.go:415-485 | Under a complete checkpoint storage holds for a source the position it acknowledged that barrier with, or the end of its range if it had no such barrier: the one position recorded for the checkpoint. |
| Resumption.LoadedPosition | pkg/runtime/subtask.go:353-365 | If the checkpoint's marker is visible after a crash, loading it yields for the source a payload that decodes to that position. |
| Resumption.ResumeSource | pkg/runtime/subtask.go:446-459 | A source subtask started with that payload accepts it and sends the stream of a source resumed at the checkpoint. |
| WindowRecovery.CommittedRows | pkg/operators/window.go:573-667 | Sources, a windowed vertex and a sink: once a run has succeeded the sink has committed what the vertex's rows emit and is routed to it, and each window and key that was given source data has one row, holding exactly that. |
| WindowRecovery.ExactlyOnceCounts | pkg/operators/window.go:388-448 | For counts: one row for each key and window with data, carrying the number of source records in it, and no other row, whatever crashed, at any parallelism. |
| Int64.SubClamp | pkg/runtime/source_task.go:413-423 | The wrap test on two's complement subtraction achieves the exact difference clamped to the int64 range at both ends. |
| Int64.SubFloor | pkg/operators/window.go:349-355 | For a non-negative amount the wrap test achieves the exact difference clamped at MinInt64. |
| Int64.AddCeil | pkg/operators/window.go:365-371 | For a non-negative amount the wrap test achieves the exact sum clamped at MaxInt64. |
| Int64.FloorMod | pkg/operators/window.go:332-338 | From Go's truncated remainder, a remainder in [0, b) congruent to the dividend, for negative ones too. |
| ByteOrder.OrderedInt64Order | pkg/state/encoding.go:39-43 | Byte order of the encodings is numeric order, negative values included. |
| ByteOrder.OrderedInt64RoundTrip | pkg/state/encoding.go:39-56 | Decoding the head of any longer key gives back the value encoded. |
| ByteOrder.OrderedInt64Onto | pkg/state/encoding.go:39-56 | Every eight bytes are the encoding of the value they decode to. |
| StateStore.ScanOrderUnique | pkg/state/state.go:135-154 | There is one ascending scan of a state: the order is decided by its contents. |
| StateStore.Memory.Put | pkg/state/state.go:126-128 | One entry is replaced, nothing else changes. |
| StateStore.Memory.Delete | pkg/state/state.go:131-133 | One entry is gone, nothing else changes. |
| StateStore.Memory.SortedKeys | pkg/state/state.go:144-153 | Every key once, strictly ascending in byte order. |
| WindowAssign.CollectWindows | pkg/operators/window.go:388-400 | The loop that steps back by the slide appends the assigned starts. |
| WindowAssign.AssignedExactly | pkg/operators/window.go:388-400 | Over all of int64, a start is assigned if and only if it is an aligned window around the event time, clamped to the bottom of the range; no subtraction wraps. |
| WindowAssign.AssignmentSound | pkg/operators/window.go:373-404 | The starts strictly descend, so are distinct, there is at least one, and the event time lies in each window and not past its fire time even when that saturates. |
| WindowAssign.AwayFromTheFloor | pkg/operators/window.go:373-400 | Away from the bottom of the range the assigned starts are exactly the aligned ones containing the event time. |
| WindowKeys.TimerKeyRoundTrip | pkg/operators/window.go:507-534 | Parsing a timer key gives back fire time, record key and start, for record keys of any length. |
| WindowKeys.TimerKeyOnto | pkg/operators/window.go:507-534 | Every long enough key of the timer partition is the timer key of what it parses to. |
| WindowKeys.TimerKeyOrder | pkg/operators/window.go:507-515 | An earlier fire time sorts first whatever follows it, and byte order never puts a later fire time first. |
| WindowKeys.StateKeyRoundTrip | pkg/operators/window.go:490-495 | The window start and the record key come back out of an aggregate key. |
| WindowKeys.CountStep | pkg/operators/window.go:429-436 | Adding one to a decoded count and storing it counts one more, wrapping as int64 does. |
| WindowLayout.LoadWatermark | pkg/operators/nexmark.go:549-558 | The stored watermark, MinInt64 before any, and an error exactly for a value too short to decode. |
| WindowLayout.CollectDueTimers | pkg/operators/window.go:600-637 | The scan stops at the first timer not due and still returns exactly the timers with fire time at or before the watermark, in byte order; it fails only on a malformed key. |
| WindowLayout.NoneDueAfter | pkg/operators/window.go:594-599 | After a timer that is not due no later key is. |
| WindowLayout.FireTimeOrder | pkg/operators/window.go:591-599 | Ascending timer keys have non-decreasing fire times. |
| WindowLayout.FireTimesAscend | pkg/operators/window.go:591-599 | Panes in the order they fire have non-decreasing fire times: that order is never against event time. |
| WindowLayout.DueIsUnique | pkg/operators/window.go:600-637 | There is one list of what a watermark makes due in the order it fires, so what an operator emits is a function of its input. |
| WindowLayout.ScanIsDue | pkg/operators/window.go:600-637 | Read as windows, what the scan returns is each armed window whose fire time has come, once, in fire-time order. |
| WindowLayout.PurgeWindows | pkg/operators/window.go:697-721 | Drops the aggregates of exactly the windows past their lateness and touches no timer and no watermark. |
| WindowMachine.FiresBeforePurge | pkg/operators/window.go:675-677 | A purged window's fire time is below the watermark, even when both limits saturate. |
| WindowMachine.BatchAnswer | pkg/operators/window.go:573-721 | With nothing late and a final MaxInt64 watermark, each window that received a record is reported exactly once with exactly its records, no other is, and nothing is dropped or left armed, for every allowed lateness and arrival order, watermarks that step back included. |
| WindowMachine.RowsAreNeverLate | pkg/operators/window.go:154-183 | A row goes out before any watermark at or above its event time, holding all records of its window. |
| WindowMachine.LateRecordInvariant | pkg/operators/window.go:415-448 | With arbitrary late records under non-decreasing watermarks, an armed window always has state and something new to report, successive reports strictly extend one another, and a purged window holds nothing and is never armed again. |
| WindowMachine.SilentAfterPurge | pkg/operators/window.go:406-412 | Once a window is purged it stays purged and no further row is emitted for it. |
| WindowMachine.AcceptedAreReported | pkg/operators/window.go:425-428 | The dropped counter is exactly the number of assignments that came too late, and after the final watermark the last report of each window holds every record that did not. |
| WindowMachine.AcceptedPlusDropped | pkg/operators/window.go:317-323 | For every window, records accepted plus records too late are the records assigned. |
| WindowCounting.WindowCount.constructor | pkg/operators/window.go:232-248 | From a valid specification, an operator that holds nothing. |
| WindowCounting.WindowCount.ProcessElement | pkg/operators/window.go:415-448 | The bytes afterwards represent the window machine's state after the record has gone to each of its windows. |
| WindowCounting.WindowCount.Fire | pkg/operators/window.go:644-667 | Emits key, exact count and the window's last instant; it fails exactly when the window has no state. |
| WindowCounting.WindowCount.ProcessWatermark | pkg/operators/window.go:573-589 | Emits one row for each due window in fire-time order and leaves bytes that represent the machine's next state; it cannot fail while every armed window has state. |
| WindowCounting.WindowCount.FireAll | pkg/operators/window.go:579-587 | Each timer is gone and its window's row emitted, in order. |
| WindowOperators.OperatorIsRun | pkg/operators/window.go:415-589 | Over any stream a windowed operator stands where the window machine does and has emitted what its rows make. |
| WindowOperators.TimersHaveState | pkg/operators/window.go:647-653 | In every reachable state an armed window has its aggregate, late records and receding watermarks or not, so firing without state cannot happen. |
| WindowOperators.PunctualMeansNoneLate | pkg/operators/window.go:550-560 | A stream with no record behind a watermark has no late assignment. |
| WindowOperators.RowsAreTheBatchAnswer | pkg/operators/window.go:388-448 | On such a stream closed by MaxInt64, each window and key has one row with exactly its records, none other has any, and nothing is dropped. |
| WindowOperators.PromisePassesThrough | pkg/operators/window.go:554-560 | Nothing a windowed operator emits is behind a watermark it has sent on, so a second event-time stage sees nothing late. |
| WindowVertices.VertexRows | pkg/operators/window.go:388-448 | The same over all subtasks of a windowed vertex and over any crashed runs: one row for each key and window, from the subtask that owns the key, holding every record of it that was sent. |
| WindowVertices.VertexEmits | pkg/operators/window.go:573-589 | What is left of what the vertex sent is what those rows emit, and none of it is late. |
| WindowStream.CountsAreTheBatchAnswer | pkg/operators/window.go:388-448 | For one counting operator: one row for each key and window with a record, with its exact count and last instant, and none other. |
| WindowOperators.AlikeAfter | pkg/operators/window.go:203-208 | Two states that differ in the counter of late records alone go on to send the same and to differ in nothing else, so a restored operator may start that counter again. |
| WindowOperators.RunOn | pkg/runtime/subtask.go:516-526 | An operator started from what it was restored with and given a crashed run up to the barrier recorded last stands where the next run is restored to. |
| WindowStream.RunAcrossCrashes | pkg/runtime/subtask.go:516-625 | Over any number of crashed runs and a last one, each object filled from the bytes an earlier one's state was written as at its barrier: the bytes and emissions of the last are those of the restored operator; it fails only if a snapshot does not fit its length fields. |
| WindowStream.RunWindowCount | pkg/operators/window.go:415-589 | The operator object takes any stream whole without failing, and its stored bytes and emitted records are those of the operator. |
| Bids.BetterBidIsATotalOrder | pkg/operators/nexmark.go:305-313 | A strict total order: irreflexive, transitive, asymmetric, and comparing any two different bids. |
| Bids.BestBeatsAll | pkg/operators/nexmark.go:412-423 | The folded winner is one of the bids and beats every other. |
| Bids.BestOfAnyOrder | pkg/operators/nexmark.go:290-304 | Rearranging the bids does not change the winner. |
| Bids.WinningBidRoundTrip | pkg/operators/nexmark.go:263-288 | Decoding an encoded winner gives it back. |
| MaxBidding.MaxBid.ProcessElement | pkg/operators/nexmark.go:395-433 | Other events change nothing, a value that does not decode is refused, and a bid is either folded and counted on time or dropped and counted late; the bytes represent the machine's next state. |
| MaxBidding.MaxBid.ProcessWatermark | pkg/operators/nexmark.go:446-469 | Emits the stored winner of each due window in fire-time order and purges; it cannot fail while every armed window has state. |
| MaxBidding.MaxBid.Fire | pkg/operators/nexmark.go:482-505 | Emits the winner of all bids folded into the window at its last instant; it fails exactly when the window has no state. |
| Q7.TumblingPane | pkg/operators/nexmark.go:367-369 | The tumbling window start is the sliding assignment with one window. |
| Q7.RunAcrossCrashes | pkg/runtime/subtask.go:516-625 | The same for the highest bid, when all values of the records taken in decode. |
| Q7.RunMaxBid | pkg/operators/nexmark.go:395-505 | The operator object takes any stream whole, failing exactly if some value does not decode, and its stored bytes and emitted records are those of the operator. |
| Q7.AnswerIsTheBestBid | pkg/operators/nexmark.go:395-505 | For every order of the bids, every number of subtasks behind the hash partition and whatever crashed: the sink has committed the rows routed to it, and each auction and window with a bid has exactly one row, with the best of its bids. |
| AuctionCounts.AuctionCountRoundTrip | pkg/operators/nexmark.go:747-768 | Decoding an encoded auction count gives it back. |
| AuctionCounts.RekeyRecoversIff | pkg/operators/nexmark.go:805-824 | The window start comes back from the event time if and only if the window's end is representable. |
| AuctionCounts.SaturatedWindowsMerge | pkg/operators/nexmark.go:805-824 | All windows with a saturated end come back as one window, which passes the second stage's agreement check. |
| AuctionCounts.HottestUnique | pkg/operators/nexmark.go:826-834 | The auctions at the maximum, each once and ascending, are one answer. |
| HotLayout.HotKeyRoundTrip | pkg/operators/nexmark.go:949-965 | Window key and auction come back out of an aggregate key. |
| HotLayout.HotKeyOrder | pkg/operators/nexmark.go:844-847 | Within one window byte order of the keys is auction order. |
| HotLayout.FindHottest | pkg/operators/nexmark.go:1066-1107 | One ascending scan finds, for every due window at once, exactly the auctions at the maximum of the counts held for it, each once and ascending: the same as a separate maximum per window. |
| HotLayout.PurgeHot | pkg/operators/nexmark.go:1139-1151 | Drops the counts of exactly the windows past their lateness, reading the start from the leading window key, and leaves timers and watermark alone. |
| HotItemCounting.HotItems.ProcessElement | pkg/operators/nexmark.go:986-1023 | Refuses a record whose key, event time or value is not what the re-key sends; otherwise counts it on time or late and represents the machine's next state. |
| HotItemCounting.HotItems.Replace | pkg/operators/nexmark.go:1011-1022 | A later count for an auction replaces the earlier one in its window, and the window is armed. |
| HotItemCounting.HotItems.ProcessWatermark | pkg/operators/nexmark.go:1056-1131 | Each due window is answered by the auctions at the maximum of its counts, in fire-time order, and then the purge. |
| HotItemStream.RunAcrossCrashes | pkg/runtime/subtask.go:516-625 | The same for the ranking stage, when it refuses none of the records taken in. |
| HotItemStream.RunHotItems | pkg/operators/nexmark.go:986-1151 | The operator object takes any stream whole, failing exactly if it refuses a record, and its stored bytes and emitted records are those of the operator. |
| RankedCounts.RekeyedIsAccepted | pkg/operators/nexmark.go:986-1000 | A re-keyed count of a window whose end is representable passes every check of the ranking stage. |
| RankedCounts.RankedOnCounts | pkg/operators/nexmark.go:1011-1016 | If the count has one row of n records for an auction in a window, the window ranks the auction by n, whatever order the rows came in. |
| RankedCounts.RowsAtTime | pkg/operators/nexmark.go:1110-1131 | The rows that come out at one moment are those of the one window that ends then. |
| Q5.CountVertex | pkg/operators/nexmark.go:667-672 | Over all counting subtasks there is one row for each auction and window with a bid, holding all its bids, and none for any other. |
| Q5.NothingRefused | pkg/operators/nexmark.go:805-1009 | Every count can be re-keyed, the ranking stage accepts everything it is sent, and drops nothing as late: derived from the sources' bounded disorder alone. |
| Q5.HottestIsMostBidOn | pkg/operators/nexmark.go:826-834 | What is hottest by the counts a window is ranked on is exactly the auctions with the most bids in it. |
| Q5.HottestAreTheMostBidOn | pkg/operators/nexmark.go:660-672 | End to end, at any parallelism and whatever crashed: once a run has succeeded, what the sink has committed for the window ending at any moment is what is routed to it of the auctions with the most bids, with their number, each once; for bids with eight-byte keys and windows whose ends are representable. |
| Transport.Writer.EmitRecord | pkg/transport/writer.go:119-134 | In every group the one output the key's hash names receives the record and no other does; an empty key is refused if there is any group; a failing send leaves later groups untouched. |
| Transport.Writer.Broadcast | pkg/transport/writer.go:144-153 | Every output of every group receives the element, or exactly those before the first failing one. |
| Transport.Writer.CloseAll | pkg/transport/writer.go:159-165 | Every output of every group is closed. |
| Transport.Writer.SendStream | pkg/transport/writer.go:97-153 | Each output holds exactly the records whose keys hash to it and every control element, in stream order. |
| Transport.EachRecordOnce | pkg/transport/writer.go:97-106 | Every record of a stream reaches exactly one output of a group, as often as it occurs. |
| Coordination.RunIsSafe | pkg/checkpoint/coordinator.go:147-328 | Over any interleaving of Acknowledge, Finished and Fail with any storage call failing: a marker exists only if storage holds for every expected subtask the payload it acknowledged, else the one it finished with; complete and abandoned exclude one another. |
| Coordination.StepMoves | pkg/checkpoint/coordinator.go:300-347 | Complete and abandoned are permanent, and every step that makes a checkpoint terminal closes the channel waiters hold. |
| Coordination.WaiterIsWoken | pkg/checkpoint/coordinator.go:397-436 | A waiter that found its checkpoints unsettled is woken if they ever settle, and once settled they stay so. |
| Coordination.NoneLeftOpen | pkg/checkpoint/coordinator.go:177-213 | While no write fails in a Finished call, no checkpoint stays open that every live subtask has acknowledged. |
| Coordination.AcknowledgeLeavesNoneOwed | pkg/checkpoint/coordinator.go:134-175 | An acknowledgement never leaves a checkpoint open that waits for nobody, even when a write fails. |
| Coordination.OpenIsAcknowledged | pkg/checkpoint/coordinator.go:147-175 | In every reached state a checkpoint on record and not settled has been acknowledged by someone. |
| Coordination.FinishedLeavesNoneOwedIff | pkg/checkpoint/coordinator.go:177-213 | After any run, a Finished call leaves open a checkpoint that waits for nobody if and only if storage fails while it completes one and another such comes later in the order it takes. |
| Coordination.AFailedWriteCanStrandACheckpoint | pkg/checkpoint/coordinator.go:201-212 | A run that does so: of two subtasks one acknowledges two checkpoints, the other finishes while the first marker cannot be written, and the second checkpoint stays open with nobody left to acknowledge it. |
| Coordination.RunSays | pkg/checkpoint/coordinator.go:147-213 | What the coordinator has on record as acknowledged or finished with is what some call handed in. |
| CoordinatorRuntime.Coordinator.Acknowledge | pkg/checkpoint/coordinator.go:147-175 | Refuses an unknown subtask or a duplicate, accepts silently for an abandoned checkpoint, writes before it counts, and completes on the last one outstanding. |
| CoordinatorRuntime.Coordinator.Finished | pkg/checkpoint/coordinator.go:189-213 | Refuses an unknown or repeated subtask, else completes in some order the open checkpoints nobody owes, stopping at the first failure. |
| CoordinatorRuntime.Coordinator.Fail | pkg/checkpoint/coordinator.go:225-238 | Abandons the checkpoint unless it is complete. |
| CoordinatorRuntime.Coordinator.CompleteInOrder | pkg/checkpoint/coordinator.go:303-328 | Missing payloads, then the marker, then the announcement; a failure on the way abandons the checkpoint. |
| CoordinatorRuntime.Coordinator.CountOutstanding | pkg/checkpoint/coordinator.go:286-298 | Positive exactly while a live subtask has not acknowledged. |
| CoordinatorRuntime.Coordinator.CompletedAmong | pkg/checkpoint/coordinator.go:363-378 | The complete ones among the IDs asked for, in the order asked. |
| FileNames.StateFileNameInjective | pkg/checkpoint/storage.go:101-103 | Two subtasks never share a state file name, whatever their vertex IDs contain. |
| FileNames.TransactionNameInjective | pkg/sinks/transactional.go:594-601 | Two transactions never share a file name, over all vertex IDs, indexes and int64 checkpoints. |
| FileNames.CheckpointOfStagingIff | pkg/sinks/transactional.go:433-445 | A staging name is read back to its checkpoint if and only if that is not negative. |
| FileNames.OtherSubtaskRejected | pkg/sinks/transactional.go:421-426 | No staging file of another subtask is taken for this one's. |
| FileNames.ParseIntRoundTrip | pkg/checkpoint/storage.go:211-213 | The decimal form of every int64 parses back to it. |
| TwoPhaseCommit.RunIsGood | pkg/sinks/transactional.go:181-445 | Over any runs: committed epochs hold what their owner wrote; while down, every epoch not to be produced again is committed or staged; while running, each closed epoch of this run is staged or committed and earlier ones are committed. |
| TwoPhaseCommit.NothingCommittedAboveComplete | pkg/sinks/transactional.go:213-253 | Before success no epoch above the highest complete checkpoint is committed, and what is committed is what its owner wrote. |
| TwoPhaseCommit.NotifyNeverFails | pkg/sinks/transactional.go:222-252 | Notifying a complete checkpoint, once or again, never reports a missing staged file. |
| TwoPhaseCommit.CommittedExactlyOnce | pkg/sinks/transactional.go:284-520 | With notifications lost or repeated and restores interrupted, a successful last run leaves committed holding for each epoch exactly the records of the last run that owned it, and no other file. |
| TransactionalSink.Transactional.constructor | pkg/sinks/transactional.go:152-173 | A sink at epoch one over directories that show this subtask's files under its names. |
| TransactionalSink.Transactional.Write | pkg/sinks/transactional.go:181-188 | The record joins the current epoch, whose staging file the first write creates; other subtasks' files are untouched. |
| TransactionalSink.Transactional.CloseEpoch | pkg/sinks/transactional.go:568-590 | The staging file of the current epoch holds all written to it. |
| TransactionalSink.Transactional.Snapshot | pkg/sinks/transactional.go:198-211 | The epoch is closed, the payload names it, the next one begins, and nothing is committed. |
| TransactionalSink.Transactional.NotifyCheckpointComplete | pkg/sinks/transactional.go:228-253 | Moves one staged epoch into committed if it is there; an error exactly for an epoch this instance wrote whose file is in neither directory. |
| TransactionalSink.Transactional.Restore | pkg/sinks/transactional.go:284-324 | Accepts no payload or eight bytes naming a checkpoint that is not negative, settles every staged epoch by it and starts the next epoch; anything else changes nothing. |
| TransactionalSink.Transactional.SettleStaged | pkg/sinks/transactional.go:370-416 | In whatever order the directory lists them, this subtask's staged epochs at or below the checkpoint are committed and those above discarded; no other subtask's file is touched. |
| TransactionalSink.Transactional.CommitFinalEpoch | pkg/sinks/transactional.go:493-520 | Every epoch of this instance that is still staged is committed. |
| SinkRuntime.NotifyCompleted | pkg/runtime/subtask.go:818-826 | The sink is told of every completed checkpoint, in order, whether or not an earlier notification failed, and of no other. |
| SinkRuntime.TakeBarrier | pkg/runtime/subtask.go:700-742 | A barrier closes its epoch under the checkpoint's own ID, and then exactly the staged checkpoints the coordinator reports complete, this one included, are notified and leave the staged list. |
| SinkRuntime.RunSink | pkg/runtime/subtask.go:679-756 | Over any stream and any answers of the coordinator the sink and its files end where exactly the writes, barriers and notifications the stream asks for lead, in that order, and each payload names its barrier's checkpoint. |
| SinkRuntime.NotifiedOrStaged | pkg/runtime/subtask.go:675-742 | At every point each barrier's checkpoint has been notified once or is still staged, never both or neither. |
| SinkRuntime.CompleteAreNotified | pkg/runtime/subtask.go:743-753 | When the stream has ended, the checkpoints notified are exactly the complete ones, each once, and those left staged are the ones that did not complete. |
| SinkStreams.OwnedIsSurviving | pkg/sinks/transactional.go:326-369 | The epochs crashed runs own hold, in order, exactly what is left of what they received, and the next run is restored at the sum of the checkpoints each completed. |
| SinkStreams.CommittedIsEffective | pkg/sinks/transactional.go:447-520 | A successful last run leaves committed holding, epoch after epoch, what is left of all the sink received over all runs, and nothing else. |
| ExactlyOnce.CommittedIsSent | pkg/runtime/subtask.go:679-756 | Whatever vertices are upstream: a job that succeeds has committed exactly the records left of what they sent that are routed to the sink, each once. |
| ExactlyOnce.SurvivingIsTheCut | pkg/runtime/subtask.go:646-653 | What a sink fed by sources keeps of all crashed runs is exactly the source records below the positions of the checkpoint the next run resumes at. |
| ExactlyOnce.OutputIsTheInput | pkg/runtime/subtask.go:679-756 | After any crashes and interleavings a job of sources and sinks that succeeds has committed every record of every source routed to the sink exactly once. |
| SinkCoordination.JointRunsAreValid | pkg/runtime/subtask.go:679-756 | Let the sink's loop take its steps with calls into the coordinator by others in between, storage failing at will, and stop it anywhere, any number of times, each run resumed at the highest complete checkpoint. Then its events drive its stream, no checkpoint completes before its barrier here or is notified before it completes: the runs that the exactly-once results are about. |
| SinkCoordination.ResumesAtTheHighest | pkg/checkpoint/coordinator.go:303-328 | After a crash the next run resumes at or above every checkpoint the coordinator completed, and at one with a marker, or where this run did. |
| SinkCoordination.TheLoopIsTheRun | pkg/runtime/subtask.go:679-753 | Between elements, what the loop has done on the coordinator's answers leaves sink and files where the run of the two-phase commit has them. |
| PowerLoss.OwnedEpochsSurvive | pkg/sinks/transactional.go:228-253 | With renames and removals not yet synced undone by any loss of power, at any moment and any number of times: an epoch that will not be produced again is staged or committed, in each directory with exactly its records. |
| PowerLoss.CommittedSurvives | pkg/sinks/transactional.go:228-416 | An epoch that was settled or notified is in one of the directories after a loss of power, and the next restore commits it. |
| PowerLoss.SuccessCommitsEveryEpoch | pkg/sinks/transactional.go:493-520 | Through all that, a run that succeeds has committed every epoch with its owner's records, and no other file if each restore found all there was to settle. |
| PowerLoss.RestoreIsExactIff | pkg/sinks/transactional.go:370-416 | A restore leaves nothing of a dead run behind if and only if it finds something staged or no earlier removal is unsynced. |
| PowerLoss.OverlookedIsCommitted | pkg/sinks/transactional.go:405-416 | Otherwise a run that writes nothing up to that epoch and then loses power ends with the dead run's file committed, whatever it holds. |
| PowerLoss.ADeadRunCanBeCommitted | pkg/sinks/transactional.go:370-416 | From the start of a job: a sweep is interrupted after its removal, and a run that succeeds has committed an epoch nobody wrote. |
| PowerLoss.SuccessIsDurableIff | pkg/sinks/transactional.go:493-520 | What is committed on success survives every loss of power if and only if the final commit had something to rename or every earlier rename had been synced. |
| PowerLoss.ASuccessCanFallBack | pkg/sinks/transactional.go:228-520 | A run whose one notification renamed but failed to sync succeeds, and a loss of power takes its epoch out of committed. |
| RecordCodec.RecordRoundTrip | pkg/sinks/transactional.go:666-722 | A record followed by anything is read back and exactly its bytes are taken, for any checksum function. |
| RecordCodec.RecordsRoundTrip | pkg/sinks/transactional.go:679-690 | A file is read back as the records written to it, in order. |
| RecordCodec.RecordBytesCanonical | pkg/sinks/transactional.go:693-722 | Bytes accepted as a record are that record's encoding. |
| RecordCodec.RecordsCanonical | pkg/sinks/transactional.go:679-690 | A file that is accepted is the encoding of what it decodes to. |
| CheckpointCodec.UnframeIff | pkg/checkpoint/storage.go:487-506 | Header and checksum are accepted exactly on what the framing writes. |
| CheckpointCodec.SubtaskStateIff | pkg/checkpoint/storage.go:376-423 | A state file is accepted with a payload if and only if it is the encoding of that checkpoint, subtask and payload and those fit its length fields, for any checksum function. |
| CheckpointCodec.MetadataIff | pkg/checkpoint/storage.go:431-477 | Metadata is accepted if and only if it is the encoding of metadata that fits its fields with anything between the last vertex and the checksum. |
| CheckpointCodec.MetadataRoundTrip | pkg/checkpoint/storage.go:431-477 | Metadata that fits its fields is read back. |
| CheckpointCodec.MetadataIsNotCanonical | pkg/checkpoint/storage.go:446-477 | A file longer than the encoding is accepted as the same metadata. |
| CheckpointReader.Reader.Take | pkg/checkpoint/storage.go:508-515 | The next bytes, or an error and no movement if too few are left. |
| CheckpointReader.Reader.ShortString | pkg/checkpoint/storage.go:533-544 | The string behind its two-byte length, bounds checked. |
| CheckpointReader.DecodeState | pkg/checkpoint/storage.go:395-423 | The advancing reader accepts the same files, with the same errors, as the format's parser. |
| CheckpointReader.DecodeMeta | pkg/checkpoint/storage.go:447-477 | The loop over vertices accepts the same metadata, with the same errors, as the format's parser. |
| StateSnapshot.WriteTo | pkg/state/serialize.go:75-127 | Two scans write the snapshot of the state, and fail exactly when an entry does not fit its length field. |
| StateSnapshot.ReadFrom | pkg/state/serialize.go:149-183 | Refuses a state that holds something, and otherwise leaves what putting the entries read one by one makes, failing exactly when the bytes run out. |
| StateSnapshot.SnapshotRoundTrip | pkg/state/serialize.go:75-212 | Reading back what was written restores the same state, whatever follows it. |
| StateSnapshot.TakeSnapshot | pkg/runtime/subtask.go:837-857 | The bytes recorded under a barrier are a snapshot of the state, and there are some exactly when every entry fits its length fields. |
| StateSnapshot.RestoreInto | pkg/runtime/subtask.go:521-525 | An empty state filled from the bytes recorded for another holds exactly what that one did. |
| StateSnapshot.BytesDependOnContents | pkg/state/serialize.go:60-67 | Two snapshots of one state are the same bytes. |
| DurableFiles.ApplyCoherent | pkg/checkpoint/storage.go:595-616 | No call lets two files share contents, and the present entry of a name is always one a crash may leave. |
| CrashSafety.SyncMakesDurable | pkg/checkpoint/storage.go:266-276 | The first directory sync makes every state file and the metadata durable at once. |
| CrashSafety.AbsentOrDurable | pkg/checkpoint/storage.go:244-257 | At every point of the sequence either no crash can show the marker or all it vouches for is durable. |
| CrashSafety.VisibleImpliesLoadable | pkg/checkpoint/storage.go:226-287 | However far the writes got, whichever unsynced entries survived and whatever unsynced files hold: if the marker is visible, Load succeeds and returns exactly the metadata and the payload of every subtask. |
| CrashSafety.MarkerFirstIsUnsafe | pkg/checkpoint/storage.go:254-265 | With the marker written before the first directory sync a crash can show the marker and no metadata. |
| CheckpointStorage.WriteFile | pkg/checkpoint/storage.go:595-616 | Success means create, write, sync, rename; a failure means a prefix of those, with or without the temporary removed. |
| CheckpointStorage.Storage.WriteSubtaskState | pkg/checkpoint/storage.go:226-238 | An ID that cannot be in a file name is refused untouched; otherwise the state file is written, or an attempt at it. |
| CheckpointStorage.Storage.Complete | pkg/checkpoint/storage.go:266-287 | Metadata, directory sync, marker, directory sync, in that order, or a prefix of it. |
| CheckpointStorage.Storage.WriteCheckpoint | pkg/checkpoint/storage.go:226-287 | Whichever call fails and whatever a crash then leaves, a visible marker means Load returns the checkpoint handed in. |
| CheckpointStorage.AttemptIsSafe | pkg/checkpoint/storage.go:601-615 | Stopping anywhere, with or without the cleanup of a temporary, is crash safe. |
| CheckpointSelection.Latest | pkg/checkpoint/storage.go:302-329 | The highest checkpoint with a marker, and none exactly when there is none, whatever else lies in the directory. |
| CheckpointSelection.DirNameRoundTrip | pkg/checkpoint/storage.go:211-213 | A checkpoint's directory name is read back to its ID. |
| JobGraph.IncompleteIffCycle | pkg/graph/graph.go:241-274 | Kahn's algorithm places every vertex with every edge forward if and only if the graph has no cycle. |
| JobGraph.KahnTakesSmallest | pkg/graph/graph.go:251-262 | At every position the order holds the smallest vertex ready there. |
| JobGraph.KahnIsSmallest | pkg/graph/graph.go:237-240 | Of all topological orders it is the lexicographically smallest, so it is a function of the graph alone. |
| JobGraphRuntime.Graph.AddVertex | pkg/graph/graph.go:137-146 | Adds the vertex, or refuses an empty or repeated ID and changes nothing. |
| JobGraphRuntime.Graph.Connect | pkg/graph/graph.go:152-165 | Adds the edge in both directions, or refuses an unknown end or a repeated edge and changes nothing. |
| JobGraphRuntime.Graph.Downstream | pkg/graph/graph.go:170-174 | Every successor once, ascending. |
| JobGraphRuntime.Graph.Kahn | pkg/graph/graph.go:241-274 | The loop over in-degrees returns that order, or, exactly when there is a cycle, the vertices left out, ascending. |

## Left out

- Goroutines, channel blocking, context cancellation and the gate's forwarders: an input's elements arrive as a queue, and every theorem quantifies over all interleavings of the queues.
- Fault injection: a crash is a step of the models instead.
- Pebble: keyed state is the sorted map of pkg/state/state.go; its sticky error, and so a failing backend, does not occur.
- The values of CRC-32 and FNV-1a: both are arbitrary functions, and nothing proved rests on them. Source generators and the Nexmark event codecs are out too: a source is a seekable sequence, and whether a record is a bid is an arbitrary function of it.
- The rest of pkg/operators/transform.go (Map is Vertices.Mapping), pkg/sinks/memory.go, the field checks of graph.Validate, CheckAgainst and error messages.
- An operator that emits something at its end of stream: none in the repository does. Vertices are put together one behind another; in a graph where one vertex feeds several, each of them is such a line.
- A crash in the middle of what one element makes an operator send is a crash before it for the operator and a shorter stream for whatever is downstream.
- I/O errors of the sink: Write, closing an epoch and renaming succeed, except for a rename whose file is missing; so does syncing, except in PowerLoss, where the sync after a notification may fail. A crash can leave the open staging file missing or holding anything.
- A file system that can lose both names of a renamed file: in PowerLoss a rename not yet synced leaves the file under its old name, its new one or both, so that a sync of either directory makes it durable.
- SinkCoordination.JointRunsAreValid: a sink whose own acknowledgement fails stops in the engine; here it may also go on, which allows more runs.
- A crash inside CommitFinalEpoch, and a first start over a directory with an older job's committed files: outside what the engine promises.
- The checkpoint root's own entry is never synced by the code, so nothing is claimed about a completed checkpoint being visible after a crash; creating the directories is not modelled.
- A committed file is a sequence of records in the sink models; its bytes are the subject of RecordCodec.
- CoordinatorRuntime.Coordinator.Finished: the order of one iteration over the subtasks is used for all checkpoints of the call; Coordination allows a different one for each.
- Coordination.WaiterIsWoken: says that the channel a waiter took is closed, not that the scheduler wakes it; giving up on a cancelled context is not modelled.
- TransactionalSink.Transactional.Restore: a payload naming checkpoint MaxInt64, after which the next epoch is not representable, is excluded, and so is a staging directory holding other spellings of this subtask's names, such as a checkpoint with leading zeros.
- TransactionalSink.Transactional.Snapshot: the epoch after MaxInt64 is excluded.
- TransactionalSink.Transactional.CommitFinalEpoch: the loop's counter does not wrap, which it would at epoch MaxInt64.
- WindowCounting.WindowCount.ProcessElement: the late counter does not wrap. A restored operator starts it again at zero, while the state that Operators.Restored gives keeps it: WindowOperators.AlikeAfter shows that nothing else depends on it.
- Q7.AnswerIsTheBestBid: a value that does not decode joins no window here; in the engine it fails the run, as Q7.RunMaxBid does.
- Q5.HottestAreTheMostBidOn: the filter drops a value that does not decode, which in the engine fails the run; bids with other keys and windows with a saturated end, which the re-key merges, are excluded.
- Operators.OperatorLoop: the state is a value here, its bytes are the subject of StateSnapshot and, for the windowed ones, of the RunAcrossCrashes methods; errors from the operator, the writer and storage, which end the run, are not modelled.
- RecoveryRuns.SnapshotIsTheCut: the fold is stated for operators whose records commute and whose state watermarks leave alone; what windowed operators, which do neither, are restored with is Operators.RestoredIsKept.
- RecoveryRuns.EveryRecordOnce: for the same operators; for the others it is Operators.CrashesDoNotShow.
- Source.ResumeIsTheRest: watermarks and barrier timestamps are left out of the comparison, because the watermark generator starts afresh after a restore.
- SourceRuntime.SourceSubtask.RunToEnd: errors from the source and the emitters, and a cancelled context, are not modelled.
- GateRuntime.InputGate.Recv: the abort a fault injector asks for is not modelled.
- StateSnapshot.WriteTo: failing writes are not modelled, nor is a state that changes during the snapshot.
- StateSnapshot.TakeSnapshot: refuses a state of 2^64 entries or more, whose count the engine's field could not hold either.
- Q7.RunAcrossCrashes: over crashed runs the streams are supposed to decode; what a value that does not makes of a run is Q7.RunMaxBid.
- HotItemStream.RunAcrossCrashes: over crashed runs no record is supposed to be refused; what a refusal makes of a run is HotItemStream.RunHotItems.
- CheckpointStorage.WriteFile: a write that fails leaves the temporary file as it was rather than with part of the data; the file is unsynced either way.
