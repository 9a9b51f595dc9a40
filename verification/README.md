# Verified model of the workflow engine's sandbox and runtime core

A Dafny 4.11 model of the parts of the engine where order, failure and retries meet, with
proofs about every run of them. Check it with `dafny verify dfyconfig.toml`.

**The event pipeline.** Guest code runs in a worker. The worker's bridge mints a CallId for
every frame it opens; the main thread's run sequencer stamps `seq` and `ref` on what arrives
and, when the worker dies, synthesises the missing closes; the sandbox settles the run; the
executor adds the invocation's identity; the event store accumulates an invocation's events
and commits them as one batch. `RunSequencer`, `WorkerBridge`, `WorkerTermination`,
`SandboxRun`, `Executor` and `EventStore` model one stage each. `Pipeline` composes the last
stages: `WorkerDeathStoredAsOneBatch` goes from what a worker did before it died to its
invocation's only commit batch.

**Protocols between worker and main thread.** `HostCalls` (requests, late responses, run
ends) and `Callables` (guest function handles disposed of while calls run) are state
machines whose steps may come in any order.

**Stores, schedulers and algorithms.** `PluginCompose` (dependency order with a cycle
witness), `SandboxStore` (least-recently-used cache with a soft cap), `QueueStore` and
`QueueLifecycle` (FIFO queues in a table; what an upload and a boot delete), `Cron` (clamped
timers), `Scrub` (redaction of secrets; `JsonTree` is the tree walk), `Sentinels`
(references to secrets inside strings).

How it is written: a component whose code updates state in place is a `class` whose methods
are proved equal to a step function on values (`Abs()`); the step functions are then run over
arbitrary sequences of acts, and the results are stated against meanings read off the history
or the input alone, not off the component's own fields. `Basics` and `Events` hold the
shared types.

## What the proofs show about the code

Properties that hold only under a condition are stated with the exact condition:

- `refStack` equals the open frames of `callMap` in insertion order exactly when no open
  reuses the id of a frame that is still open (`StackMatchesIffNoOverlap`); a reused id
  leaves a stale parent behind (`ReusedIdLeavesStaleParent`). Bridge-minted ids never do
  that (`MintedIdsNeverOverlap`).
- CallIds restart at 0 in each run, so a request left over from one run that settles during
  the next can close the next run's frame (`StaleCloseHitsNextRun`); closes are credited
  correctly exactly when no such close meets an open frame (`AttributedIffStaleDropped`).
- An invocation is stored as one batch exactly when its terminal event is its last
  (`SingleBatchIff`). Events emitted after it, such as those of a plugin whose
  `onRunFinished` runs after the trigger plugin's, stay in the accumulator
  (`ReturnedRunIsArchived`).
- An insert that takes effect but reports failure can be retried into the primary key and
  logged as dropped although its rows are stored (`SilentSuccessReportedDropped`). A batch
  that is not reported as committed is stored exactly when that happened to it
  (`UnreportedIffSilentEffect`).
- When a worker dies under its trigger frame, the single batch exists exactly when the
  sandbox was not disposed of while the run was in flight (`DeathStoredAsOneBatch`).
  Otherwise the closes are synthesised too late for the executor, whose invocation was
  already rejected (`DisposedRunClosesTooLate`): nothing is stored, and what did arrive
  stays in the accumulator.
- The comment "stable within a dependency tier" in plugin-compose.ts is not what the queue
  does (`TierNotStable`): the order is fixed by who the last dependency is
  (`OrderIsUnique`). Every tier keeps its input order exactly when, of two plugins of one
  depth, the one listed first has no later last dependency one depth below
  (`TiersStableIff`, a condition on the input); depth order and input order among plugins
  without dependencies always hold.
- A dependency listed twice is not rejected. The loop still ends (`RunQueue`), and a sort
  succeeds exactly when the queue held as many entries as there are plugins (`TopoSort`).
  The entries are the proper ones exactly when no plugin that is taken repeats the last of
  its dependencies (`RepeatedListings`, cyclic inputs included); then success means that
  there is no cycle (`TopoSort`). If some taken plugin repeats it, an acyclic input is
  reported as a cycle without members (`TopoSort`, `SortReportsEmptyCycle`) and a cyclic one
  can be returned as sorted (`SortHidesCycle`).
- A sandbox that the store has handed out is protected from eviction only while a run is in
  flight. Before the store's own shutdown one is disposed of exactly when a request for
  another key finds it idle while the entries requested after it and the busy ones before
  it fill the cache by themselves (`SweptIff`, `DisposedIffDue`), so an invocation can be
  left with a sandbox that is disposed of before its run starts (`HandedOutThenSwept`).
- The queue depth cap is exact for serial puts and off by at most the number of overlapping
  ones; that bound is attained (`DepthBounded`, `DepthBoundAttained`).
- Rows put under a queue name that no manifest declares outlive an upload and vanish at the
  next boot (`StrayRowOutlivesUpload`); without them the incremental deletions are a full
  reconcile (`IncrementalIsReconcile`). A queue shares its tuple key with one of plain
  names exactly when its own owner, repo or queue name holds a space
  (`TupleKeyUniqueIffPlain`).
- A batch is in the table exactly if an insert of it went through that no later prune undid
  (`BatchesLandWhole`), so without prunes a reported commit is a stored batch
  (`CommittedIsStored`).
- A cron entry that stays current is dispatched on the first scheduled instant after each
  dispatch ended (`EntryFollowsSchedule`) unless its schedule could not be read, which stops
  it until the next reconfiguration (`StuckIffFailed`).
- A host call is answered exactly if its handler's reply arrives before a run ends
  (`AnsweredIffDelivered`); a run resolves exactly by a done message
  (`ResolvedIffDone`); every stored event carries the tenant of its own call
  (`RowsOwned`).
- A repeated cron entry key leaves a timer (`RepeatedKeyLeaksTimer`) that no later
  reconfiguration or stop cancels (`LeakedTimerSurvives`); a stop leaves nothing armed
  exactly when there is no such timer (`StopClearsIff`).
- Redaction hides a plaintext in every string exactly when it cannot overlap the marker
  (`SafeIffNeverShows`; `SafePlaintext` for the marker in use). Object keys are not
  redacted (`ShowsIffInKey`).
- A literal that contains NUL can swallow the opening of the next sentinel
  (`NulLiteralCaptures`); resolving is the inverse of writing for every store exactly when
  no position of a literal starts a sentinel (`RoundTripIffUnambiguous`).

## Model

| member | source | states |
|---|---|---|
| RunSequencer.Prefix | packages/sandbox/src/run-sequencer.ts:45-49 | the part of a kind before its first dot, or all of it |
| RunSequencer.Sequencer.OpenWindow | packages/sandbox/src/run-sequencer.ts:62-76 | opening the window discards whatever an earlier run left, but not the last-seen times |
| RunSequencer.Sequencer.Stamped | packages/sandbox/src/run-sequencer.ts:101-137 | one wire event: dropped outside the window, otherwise numbered, parented and tracked |
| RunSequencer.Sequencer.HandleClose | packages/sandbox/src/run-sequencer.ts:139-163 | pop, splice and drop-unknown branches of a close are one removal from stack and map |
| RunSequencer.Sequencer.FinishRun | packages/sandbox/src/run-sequencer.ts:165-213 | with a reason one close per open frame, newest first; all state zeroed |
| RunSequencer.StampedAsMeant | packages/sandbox/src/run-sequencer.ts:101-163 | in any interleaving every event keeps its fields and is numbered by the events accepted before it, a close refers to its own open, anything else to the most recently opened frame still open |
| RunSequencer.StackMatchesIffNoOverlap | packages/sandbox/src/run-sequencer.ts:123-161 | refStack lists the open seqs of callMap in order after every prefix iff no open reuses a live id |
| RunSequencer.TracksRefStackIncreasing | packages/sandbox/src/run-sequencer.ts:126-126 | the stack is strictly increasing |
| RunSequencer.ReusedIdLeavesStaleParent | packages/sandbox/src/run-sequencer.ts:127-127 | a reused open id leaves a parent for which no frame is open |
| RunSequencer.RunEventsNumbered | packages/sandbox/src/run-sequencer.ts:101-213 | the seqs of a whole run, synthesised closes included, are 0, 1, 2, ... |
| RunSequencer.EveryFrameClosedOnce | packages/sandbox/src/run-sequencer.ts:165-213 | on death each opened frame is closed exactly once: by its own close or by one synthesised close with its seq, name and error kind, the reason and the last-seen times |
| RunSequencer.ClosesNewestFirst | packages/sandbox/src/run-sequencer.ts:177-198 | the synthesised closes come in the reverse order of the opens |
| RunSequencer.OldestFrameClosesLast | packages/sandbox/src/run-sequencer.ts:177-198 | if the oldest open frame was opened by event j, the run's last event closes it |
| WorkerBridge.Bridge.Emit | packages/sandbox/src/bridge.ts:623-668 | outside the window nothing is posted and 0 is returned; an open mints the next id |
| WorkerBridge.Bridge.SetRunActive | packages/sandbox/src/bridge.ts:892-894 | opens the window, ids untouched |
| WorkerBridge.Bridge.ClearRunActive | packages/sandbox/src/bridge.ts:895-897 | closes the window, ids untouched |
| WorkerBridge.Bridge.Rebind | packages/sandbox/src/bridge.ts:911-922 | swapping the VM closes the window and restarts the ids |
| WorkerBridge.Bridge.ResetCallIds | packages/sandbox/src/bridge.ts:898-900 | ids restart at 0, the window flag is untouched |
| WorkerBridge.WireMeansActs | packages/sandbox/src/bridge.ts:623-668 | over all worker histories the wire of the latest run is read off the acts: in its window every leaf, every open under the next CallId, and the first settlement of every open as a close |
| WorkerBridge.MintedIdsNeverOverlap | packages/sandbox/src/bridge.ts:623-668 | over all runs of all workers the ids opened within a run never reuse a live one |
| WorkerBridge.DeliveredNeverOverlaps | packages/sandbox/src/sandbox.ts:465-483 | so does whatever prefix arrived before death, with the limit leaf added |
| WorkerBridge.CloseNamesOwnOpen | packages/sandbox/src/plugin.ts:450-551 | a request opened and settled within a run has its close accepted with the seq of its own open |
| WorkerBridge.AttributedIffStaleDropped | packages/sandbox/src/bridge.ts:892-900 | closes are credited to their own opens iff every close of an earlier run meets no open frame |
| WorkerBridge.StaleCloseHitsNextRun | packages/sandbox/src/bridge.ts:898-900 | a request of run 1 that settles in run 2 has its close accepted and stamped as the close of run 2's first frame, which another request opened |
| WorkerTermination.Termination.OnError | packages/sandbox/src/worker-termination.ts:132-139 | only the first error is kept |
| WorkerTermination.Termination.OnExit | packages/sandbox/src/worker-termination.ts:141-146 | an exit reports the classified cause unless disposing |
| WorkerTermination.Termination.ArmCpuBudget | packages/sandbox/src/worker-termination.ts:149-165 | arming clears an earlier expiry and starts a new watch |
| WorkerTermination.Termination.DisarmCpuBudget | packages/sandbox/src/worker-termination.ts:166-171 | disarming stops the watch and forgets no expiry |
| WorkerTermination.Termination.WatchdogFires | packages/sandbox/src/worker-termination.ts:156-164 | expiry records the elapsed time |
| WorkerTermination.Termination.Dispose | packages/sandbox/src/worker-termination.ts:172-178 | disposal silences later signals and disarms the watch |
| WorkerTermination.Termination.OnRestoreFailed | packages/sandbox/src/worker-termination.ts:179-187 | a restore failure reports at once unless disposing |
| WorkerTermination.Termination.CurrentCause | packages/sandbox/src/worker-termination.ts:191-199 | the cause known so far, none when disposing or when nothing happened |
| WorkerTermination.FlagsMeanHistory | packages/sandbox/src/worker-termination.ts:79-200 | for every history the flags say which disposal, first error, live expiry and first restore failure before disposal it holds |
| WorkerTermination.CauseMeansHistory | packages/sandbox/src/worker-termination.ts:191-199 | for every history the answer of cause() is the one read off the signals, and the signals determine it: none while disposing, else restore failure before expired budget before first error |
| WorkerTermination.TerminationReportedOnce | packages/sandbox/src/worker-termination.ts:90-146 | over all signal orders the callback runs at most once, exactly when an exit or restore failure precedes every disposal, with the cause the earlier history determines |
| SandboxRun.Sandbox.StartRun | packages/sandbox/src/sandbox.ts:409-444 | refused when disposed, dead or busy; otherwise the window is opened and the budget armed |
| SandboxRun.Sandbox.OnWire | packages/sandbox/src/sandbox.ts:256-269 | a stamped event is forwarded, a dropped one is not |
| SandboxRun.Sandbox.Settle | packages/sandbox/src/sandbox.ts:448-463 | finalizing disarms, forwards the synthesised events once and settles |
| SandboxRun.Sandbox.OnDone | packages/sandbox/src/sandbox.ts:510-514 | a done message ends the run cleanly and settles it with its payload |
| SandboxRun.Sandbox.Die | packages/sandbox/src/sandbox.ts:485-508 | limit leaf and close reason follow the cause |
| SandboxRun.Sandbox.OnError | packages/sandbox/src/sandbox.ts:516-518 | an error is recorded, then handled as death |
| SandboxRun.Sandbox.OnExit | packages/sandbox/src/sandbox.ts:520-522 | an exit is reported and handled as death of the run in flight |
| SandboxRun.Sandbox.DisposeNow | packages/sandbox/src/sandbox.ts:539-551 | disposal rejects the run in flight without finalizing it |
| SandboxRun.EachRunFinalizesOnce | packages/sandbox/src/sandbox.ts:437-535 | over all orders of done, error, exit, watchdog, restore failure and disposal a run finalizes at most once and forwards its stamped stream plus one close per open frame; how it settles is said by ResolvedIffDone and DeathReason |
| SandboxRun.ResolvedIffDone | packages/sandbox/src/sandbox.ts:510-514 | a run resolves with p iff the done message p arrived while it was in flight; that is its first settlement iff no disposal came before |
| SandboxRun.RecordsMeanActs | packages/sandbox/src/sandbox.ts:437-551 | over all orders of acts the wire events, settlements and timely events of a run are those that the acts between its start and its end give |
| SandboxRun.StartsIff | packages/sandbox/src/sandbox.ts:409-444 | a call of run() starts a run iff there was no disposal, exit or restore failure and the run before has ended |
| SandboxRun.DeathReason | packages/sandbox/src/sandbox.ts:485-508 | over all orders of acts a run has a close reason iff the worker died under it; reason, rejection and limit leaf are those of the cause that the signals raised up to that death determine, or the message of the death if they determine none |
| SandboxRun.DisposedRunClosesTooLate | packages/sandbox/src/sandbox.ts:539-551 | disposal while a frame is open, then the exit, synthesises the frame's close after the run was settled |
| SandboxRun.FlagsFollowSignals | packages/sandbox/src/sandbox.ts:334-341 | the sandbox's termination flags are those of its signal history |
| SandboxRun.CallbackAtMostOnce | packages/sandbox/src/sandbox.ts:539-558 | the termination callback runs at most once and never after disposal |
| EventStore.Archive.AppendToAccumulator | packages/runtime/src/event-store.ts:198-205 | one event is appended to its own invocation's list |
| EventStore.Archive.CommitInvocation | packages/runtime/src/event-store.ts:274-288 | the list leaves the accumulator as one batch before any insert |
| EventStore.Archive.RecordEvent | packages/runtime/src/event-store.ts:326-339 | dropped after stop, otherwise appended and, if terminal, submitted |
| EventStore.Archive.CommitWithRetry | packages/runtime/src/event-store.ts:219-272 | the loop settles the batch within the retry budget, reports success exactly when the last insert did, and then the batch is in the table |
| EventStore.Archive.TryOnce | packages/runtime/src/event-store.ts:226-263 | one insert, the rows it puts in and the status it leaves, for success, failure, failure after effect, and a primary-key clash reported either way |
| EventStore.Archive.Drain | packages/runtime/src/event-store.ts:391-440 | in insertion order the accumulated invocations are completed and submitted until the deadline passes; the others stay |
| EventStore.ChunksPartition | packages/runtime/src/event-store.ts:335-338 | cutting a stream after its terminal events loses and duplicates nothing |
| EventStore.ChunksEndOnce | packages/runtime/src/event-store.ts:336-338 | each batch ends with its only terminal event |
| EventStore.SingleBatchIff | packages/runtime/src/event-store.ts:274-288 | all events land in one batch iff the terminal event is the last |
| EventStore.EventsConserved | packages/runtime/src/event-store.ts:188-339 | over all interleavings batches followed by the accumulator are the invocation's events as the acts give them, once each, in order, cut after terminal events |
| EventStore.LogIsAccepted | packages/runtime/src/event-store.ts:326-339 | what the store accepts is, read off the acts, every event recorded before the stop in order and, per invocation left unfinished and drained, one shutdown event |
| EventStore.BatchesLandWhole | packages/runtime/src/event-store.ts:207-272 | the table is a concatenation of whole batches, each once, without a repeated (id, seq); a batch is in it iff an insert of it went through that no later prune undid |
| EventStore.CommittedIsStored | packages/runtime/src/event-store.ts:226-237 | without prunes every batch reported as committed is in the table with all its events |
| EventStore.StatusMeansAttempts | packages/runtime/src/event-store.ts:219-272 | over all histories a batch is committed iff an insert of it went through and was reported so, dropped iff one failed on the primary key or as the last of the budget, and otherwise has been tried as often as its attempt count says |
| EventStore.RecordSubmitsIff | packages/runtime/src/event-store.ts:326-339 | recording an event of one of the five closing kinds submits the whole invocation, any other only accumulates |
| EventStore.UnreportedIffSilentEffect | packages/runtime/src/event-store.ts:238-271 | a batch not reported as committed is stored iff an insert of it that went through reported failure after taking effect |
| EventStore.SilentSuccessReportedDropped | packages/runtime/src/event-store.ts:240-249 | such a batch can end up logged as dropped |
| EventStore.PruneKeepsRecentInvocations | packages/runtime/src/event-store.ts:295-323 | a row survives pruning iff some row of its invocation is recent |
| EventStore.DrainCompletes | packages/runtime/src/event-store.ts:404-438 | draining adds one trigger.error with the next seq, named and owned like the first event, and empties only that invocation |
| Executor.Invoker.Enqueue | packages/runtime/src/executor/run-queue.ts:19-29 | an invocation takes its turn at the end of the queue, with the default dispatch when none is given |
| Executor.Invoker.RunNext | packages/runtime/src/executor/index.ts:186-214 | a turn starts only when the one before has returned; a refused run settles at once |
| Executor.Invoker.OnEvent | packages/runtime/src/executor/index.ts:123-164 | an event is widened with the id, tenant and dispatch of the active invocation and chained, or dropped without one |
| Executor.Invoker.OnSandbox | packages/runtime/src/executor/index.ts:214-236 | everything forwarded by one sandbox step is chained in order; a settled run clears the active invocation |
| Executor.Invoker.TryReturn | packages/runtime/src/executor/index.ts:237-240 | the invocation returns iff its emit tail is recorded |
| Executor.EmittedInBlocks | packages/runtime/src/executor/index.ts:116-241 | over all schedules of concurrent invocations the emit tail holds one block per invocation, exactly what its own run forwarded, each event with the id, tenant and dispatch of its call |
| Executor.NeverInterleaved | packages/runtime/src/executor/run-queue.ts:12-29 | between two events of an invocation there is none of another |
| Executor.DispatchOnlyOnRequest | packages/runtime/src/executor/index.ts:131-145 | dispatch metadata sits on trigger.request and nowhere else, and is that of the call or the default |
| Executor.TurnsInCallOrder | packages/runtime/src/executor/run-queue.ts:12-29 | the n-th call of invoke is the n-th to begin, under its own id, tenant and dispatch |
| Executor.NextTurnBegins | packages/runtime/src/executor/run-queue.ts:12-29 | the next waiting invocation begins iff all before it have returned |
| Executor.ReturnsIff | packages/runtime/src/executor/index.ts:237-240 | the invocation under way returns iff its run is settled or was refused and everything emitted is recorded |
| Executor.SandboxHistory | packages/runtime/src/executor/index.ts:214-214 | the sandbox under the executor has a history of its own acts, so what holds for sandboxes holds for it |
| Executor.ReturnedMeansRecorded | packages/runtime/src/executor/index.ts:237-240 | when an invocation has returned all its events are recorded |
| Pipeline.ReturnedRunIsArchived | packages/runtime/src/executor/index.ts:146-241 | once returned, the store accepted exactly the run's events and cut them after terminal ones; the rest is accumulated |
| Pipeline.ReturnedRunFieldByField | packages/runtime/src/executor/index.ts:131-145 | once returned, what the store accepted of the k-th call is, field by field, what its run forwarded under the call's own id, tenant and dispatch |
| Pipeline.RowsOwned | packages/runtime/src/executor/index.ts:131-145 | over all histories, shutdown included, every row under an id of the executor carries the tenant of the call that the id belongs to |
| Pipeline.SuccessStoredAsOneBatch | packages/runtime/src/event-store.ts:326-339 | a run that resolved is stored as one batch of its stamped stream with nothing left over iff the stream ends with its only event of a closing kind |
| Pipeline.StagesHistory | packages/runtime/src/executor/index.ts:146-163 | executor and store inside the pipe are runs of the stages modelled apart |
| Pipeline.TriggerPrefix | packages/runtime/src/plugins/trigger.ts:30-37 | the synthesised close of the trigger frame is trigger.error |
| Pipeline.DeathEndsOnce | packages/sandbox/src/run-sequencer.ts:165-213 | a run that dies under its trigger frame ends with that frame's trigger.error and has no earlier terminal event |
| Pipeline.DeathStoredAsOneBatch | packages/sandbox/src/sandbox.ts:485-508 | on worker death under the trigger frame the single commit batch holds every event of the run iff the sandbox was not disposed of first, and otherwise nothing is stored; events are numbered 0..n-1, every frame is closed once, trigger.error is last |
| Pipeline.WorkerDiesUnderTrigger | packages/runtime/src/plugins/trigger.ts:30-37 | what a worker delivered before its trigger token was settled leaves the trigger frame open, with or without the limit leaf |
| Pipeline.WorkerDeathStoredAsOneBatch | packages/sandbox/src/bridge.ts:623-668 | the same from the worker's own history of opens, settlements and run changes to the commit batch |
| HostCalls.Channel.PostHostCall | packages/sandbox/src/worker.ts:226-240 | a call takes a fresh id that is never reused |
| HostCalls.Channel.ResolveHostCall | packages/sandbox/src/worker.ts:242-257 | a response answers its pending call with what it carries, or is dropped |
| HostCalls.Channel.RejectPendingHostCalls | packages/sandbox/src/worker.ts:263-272 | every pending call is rejected and none is pending |
| HostCalls.SettledOnceByOwnAnswer | packages/sandbox/src/worker.ts:220-272 | over all runs and response orders a call settles at most once, and an answer is that of its own handler; when it is answered is said by AnsweredIffDelivered |
| HostCalls.RunEndSettlesAll | packages/sandbox/src/worker.ts:771-786 | at a run's end every call issued so far is settled |
| HostCalls.ResponseTouchesOnlyItsCall | packages/sandbox/src/worker.ts:242-257 | a response, however late, settles no other call and no call twice; that it settles its own is said by DeliverySettles |
| HostCalls.DeliverySettles | packages/sandbox/src/worker.ts:242-257 | a response on its way to an unsettled call answers it with what it carries |
| HostCalls.AnsweredIffDelivered | packages/sandbox/src/worker.ts:220-272 | over all histories a call is answered with (ok, value) iff the first reply of its handler, posted before disposal, said so and was delivered before a run ended, and abandoned iff a run ended first |
| HostCalls.PostedMeans | packages/sandbox/src/sandbox.ts:276-316 | what is posted for a call is what the first reply of its handler said, unless the sandbox was disposed of |
| Callables.Registry.MakeCallable | packages/sandbox/src/bridge.ts:671-679 | a new callable, registered when it has a descriptor |
| Callables.Registry.Invoke | packages/sandbox/src/bridge.ts:696-708 | rejected exactly when disposed, otherwise one more call in flight |
| Callables.Registry.InvokeFinally | packages/sandbox/src/bridge.ts:685-695 | the last call to end releases a handle whose disposal is pending |
| Callables.Registry.DisposeCallable | packages/sandbox/src/bridge.ts:729-740 | idempotent; deferred while calls are in flight |
| Callables.Registry.DrainLeaks | packages/sandbox/src/worker.ts:669-678 | the registry is emptied and every survivor disposed of |
| Callables.CountersMeanHistory | packages/sandbox/src/bridge.ts:671-745 | the counters say what the history says about requests and calls in flight |
| Callables.ReleasedExactlyWhenOver | packages/sandbox/src/bridge.ts:685-740 | over all interleavings the handle is released once, exactly when disposal was requested and no call is in flight; only then are calls rejected |
| Callables.OverForGood | packages/sandbox/src/bridge.ts:704-706 | from then on every later invoke is rejected and nothing is released again |
| Callables.NeverReleasedInFlight | packages/sandbox/src/bridge.ts:685-695 | the releasing step leaves no call in flight |
| Callables.AuditReachesAll | packages/sandbox/src/bridge.ts:880-887 | after the audit every tracked callable is released or will be when its calls end |
| PluginCompose.SerializeDescriptors | packages/sandbox/src/plugin-compose.ts:244-267 | accepted iff names are unique and dependencies exist; otherwise a real collision or missing dependency is named |
| PluginCompose.BuildTopoState | packages/sandbox/src/plugin-compose.ts:275-293 | the maps hold each plugin, its distinct dependencies and its waiting plugins once per listing |
| PluginCompose.InitialReadyQueue | packages/sandbox/src/plugin-compose.ts:295-307 | the plugins without dependencies in input order |
| PluginCompose.Release | packages/sandbox/src/plugin-compose.ts:334-343 | one turn deletes the taken plugin everywhere and appends those now enabled |
| PluginCompose.FindCycle | packages/sandbox/src/plugin-compose.ts:353-384 | terminates; on leftovers it returns the closed path at which the walk along first pending dependencies from the first leftover first comes back |
| PluginCompose.RunQueue | packages/sandbox/src/plugin-compose.ts:322-344 | the work loop ends on every checked input, even with repeated listings, and leaves the queue's history and the pending dependencies |
| PluginCompose.TopoSort | packages/sandbox/src/plugin-compose.ts:319-351 | sorted iff the queue held as many entries as plugins; unless a taken plugin repeats the last of its dependencies, sorted iff acyclic (cyclic inputs included), then a permutation with dependencies first in queue order; any acyclic input: sorted iff nobody repeats it, otherwise an empty cycle; a non-empty cycle is always genuine |
| PluginCompose.LogHoldsEnabled | packages/sandbox/src/plugin-compose.ts:325-344 | whatever is listed how often, a plugin is in the queue exactly when all its dependencies were taken |
| PluginCompose.DryQueueStuck | packages/sandbox/src/plugin-compose.ts:345-349 | when the queue runs dry every leftover waits for a leftover |
| PluginCompose.OrderedIsAcyclic | packages/sandbox/src/plugin-compose.ts:309-318 | a dependency-first order exists only without closed walks |
| PluginCompose.DeeperNeverEarlier | packages/sandbox/src/plugin-compose.ts:295-344 | the order is non-decreasing in the length of dependency chains |
| PluginCompose.RootsKeepInputOrder | packages/sandbox/src/plugin-compose.ts:295-307 | plugins without dependencies come first, in input order |
| PluginCompose.OrderIsUnique | packages/sandbox/src/plugin-compose.ts:319-351 | dependencies first and queue order determine the result |
| PluginCompose.TierNotStable | packages/sandbox/src/plugin-compose.ts:309-313 | two plugins of one tier can come out against their input order |
| PluginCompose.TiersStableIff | packages/sandbox/src/plugin-compose.ts:309-313 | for a sorted result every tier keeps its input order iff of two plugins of one depth the one listed first has no later last dependency one depth below |
| PluginCompose.RepeatedListings | packages/sandbox/src/plugin-compose.ts:281-290 | for cyclic and acyclic inputs: the loop orders nothing twice iff no taken plugin repeats the last of its dependencies, and then orders what it would with every listing made once |
| PluginCompose.RepeatHidesCycle | packages/sandbox/src/plugin-compose.ts:345-349 | a repeated listing can make the length check pass on a cyclic input |
| PluginCompose.SortHidesCycle | packages/sandbox/src/plugin-compose.ts:319-351 | the sort returns a cyclic input of three plugins as sorted, one plugin twice and one missing |
| PluginCompose.RepeatReportsEmptyCycle | packages/sandbox/src/plugin-compose.ts:345-349 | an acyclic input of two plugins on which the sort reports an empty cycle |
| PluginCompose.SortReportsEmptyCycle | packages/sandbox/src/plugin-compose.ts:319-351 | the sort reports a cycle without members for an acyclic input of two plugins |
| SandboxStore.StoreKeyNamesOne | packages/runtime/src/sandbox-store.ts:82-84 | a key names one (owner, sha) when shas hold no slash |
| SandboxStore.Store.GetSandbox | packages/runtime/src/sandbox-store.ts:235-285 | a hit moves to the end and counts, a miss inserts a building entry and sweeps |
| SandboxStore.Store.SweepCache | packages/runtime/src/sandbox-store.ts:196-232 | both loops together are the sweep on values |
| SandboxStore.Store.CollectVictims | packages/runtime/src/sandbox-store.ts:203-219 | the victims are the oldest evictable entries, as many as needed |
| SandboxStore.Store.OnBuildFailed | packages/runtime/src/sandbox-store.ts:275-282 | a failed build drops its own entry if still cached |
| SandboxStore.Store.OnTerminated | packages/runtime/src/sandbox-store.ts:263-266 | a termination drops its own entry if still cached |
| SandboxStore.Store.TakeSnapshot | packages/runtime/src/sandbox-store.ts:308-309 | shutdown takes all entries and empties the cache |
| SandboxStore.SweepExact | packages/runtime/src/sandbox-store.ts:196-232 | after a sweep the size is the cap or the busy entries, whichever is more; only idle entries go, oldest first |
| SandboxStore.CacheInRequestOrder | packages/runtime/src/sandbox-store.ts:235-244 | over all histories one entry per key, in the order of last request |
| SandboxStore.MissEvictsOldestIdle | packages/runtime/src/sandbox-store.ts:245-285 | after any history a miss leaves exactly max(cap, busy) entries on overflow; what leaves was idle and requested longer ago than every idle survivor; survivors keep their order |
| SandboxStore.StaleSignalKeepsNewer | packages/runtime/src/sandbox-store.ts:257-282 | a late termination or failed build never removes a newer entry |
| SandboxStore.DisposedOnceNeverLost | packages/runtime/src/sandbox-store.ts:172-331 | each sandbox is disposed of at most once, never while cached, and a live one is never forgotten |
| SandboxStore.SweptIff | packages/runtime/src/sandbox-store.ts:196-232 | after any history a miss drops and disposes of a cached entry iff it is idle and the entries requested after it plus the busy ones before it number at least the cap |
| SandboxStore.DisposedIffDue | packages/runtime/src/sandbox-store.ts:196-285 | over every history without store disposal a sandbox is disposed of iff some miss found it idle and due, whether handed out or not |
| SandboxStore.HandedOutThenSwept | packages/runtime/src/executor/index.ts:246-259 | with a cap of one the sandbox given to one request is disposed of by the next request for another key before any run on it started |
| SandboxStore.PhaseMeansActs | packages/runtime/src/sandbox-store.ts:256-282 | over all histories the acts say whether an entry is building, failed, idle, active or dead |
| SandboxStore.ActiveNeverSwept | packages/runtime/src/sandbox-store.ts:209-216 | from the start of a run on it to its end or the worker's, no request sweeps a sandbox away |
| SandboxStore.MissBuilds | packages/runtime/src/sandbox-store.ts:245-285 | a miss makes one building entry for the key, cached last |
| SandboxStore.HitHandsOut | packages/runtime/src/sandbox-store.ts:237-244 | a hit makes no entry and hands out the one there is, moved to the end |
| SandboxStore.StoreDisposalReachesAll | packages/runtime/src/sandbox-store.ts:286-331 | store disposal empties the cache into the snapshot, and each sandbox in it is disposed of once it is built |
| QueueStore.Store.CountWhere | packages/runtime/src/queue-store.ts:230-254 | the count of a WHERE clause is the length of its rows in seq order |
| QueueStore.Store.Put | packages/runtime/src/queue-store.ts:256-289 | size and depth errors, otherwise one row under a fresh seq |
| QueueStore.PutAdmittedIff | packages/runtime/src/queue-store.ts:256-289 | a put passes its checks iff the item has at most 1024 bytes and the workflow holds fewer rows than the cap |
| QueueStore.BytesAdd | packages/runtime/src/queue-store.ts:266-267 | byte lengths add up over concatenation |
| QueueStore.BytesOfChar | packages/runtime/src/queue-store.ts:266-267 | one character takes one to four bytes by its range |
| QueueStore.Store.Get | packages/runtime/src/queue-store.ts:291-330 | the row with the smallest seq of its partition is removed and returned |
| QueueStore.Store.RemoveDeclaration | packages/runtime/src/queue-store.ts:362-384 | exactly the rows of the queue, or of the workflow, go, and are counted |
| QueueStore.Store.ReconcileTuples | packages/runtime/src/queue-store.ts:386-418 | in any order of deletions the rows whose tuple key was declared remain, the others are counted |
| QueueStore.InsertAppends | packages/runtime/src/queue-store.ts:274-288 | an insert appends to the views that select it and leaves the others alone |
| QueueStore.PopTakesHead | packages/runtime/src/queue-store.ts:295-324 | a get takes the head of its partition and leaves every other partition alone |
| QueueStore.HeadIsMin | packages/runtime/src/queue-store.ts:315-322 | the head is the row with MIN(seq) |
| QueueStore.CountAndListAgree | packages/runtime/src/queue-store.ts:332-360 | count is the length of the merged sequence, pages walk through it, each partition is its subsequence by key |
| QueueStore.PageIs | packages/runtime/src/queue-store.ts:332-360 | a page has min(limit, rest) rows, namely those at the offset and after it |
| QueueStore.TableIsQueues | packages/runtime/src/queue-store.ts:256-418 | after every history each partition of the table is its own FIFO and a get returns its head |
| QueueStore.DepthBounded | packages/runtime/src/queue-store.ts:245-289 | with at most k overlapping puts a workflow never holds more than cap - 1 + k rows |
| QueueStore.DepthBoundAttained | packages/runtime/src/queue-store.ts:270-288 | that bound is reached |
| QueueStore.TupleKeyInjective | packages/runtime/src/queue-store.ts:210-217 | without spaces in owner, repo and queue a tuple key names one queue |
| QueueStore.TupleKeyCollides | packages/runtime/src/queue-store.ts:210-217 | with a space in the queue name two queues share a key |
| QueueStore.TupleKeyUniqueIffPlain | packages/runtime/src/queue-store.ts:210-217 | a queue has its key to itself among plain names iff its own owner, repo and queue hold no space |
| QueueStore.ReconcileKeepsDeclared | packages/runtime/src/queue-store.ts:398-399 | with plain names a row survives reconcile iff its queue was declared |
| QueueLifecycle.DiffManifests | packages/runtime/src/queue-store-lifecycle.ts:55-81 | lists exactly the removed workflows and, for kept ones, exactly the removed queues |
| QueueLifecycle.ApplyQueueDiff | packages/runtime/src/queue-store-lifecycle.ts:97-137 | one deletion per entry of the diff |
| QueueLifecycle.AnyOrderSame | packages/runtime/src/queue-store-lifecycle.ts:94-96 | the deletions may complete in any order |
| QueueLifecycle.DiffIsUpload | packages/runtime/src/queue-store-lifecycle.ts:100-134 | the deletions are those the two manifests call for |
| QueueLifecycle.UploadKeepsDeclared | packages/runtime/src/queue-store-lifecycle.ts:55-137 | other repos and declared queues are untouched; exactly the declared rows remain iff no row was stray |
| QueueLifecycle.IncrementalIsReconcile | packages/runtime/src/queue-store-lifecycle.ts:55-137 | for the uploaded repo the deletions equal a full reconcile iff no row was stray |
| QueueLifecycle.UploadLeavesNothingToBoot | packages/runtime/src/queue-store-lifecycle.ts:150-181 | if all rows were declared before, a boot after the upload removes nothing |
| QueueLifecycle.StrayRowOutlivesUpload | packages/runtime/src/queue-store-lifecycle.ts:62-79 | a row declared by neither manifest survives the upload and not the next boot |
| QueueLifecycle.LoadedTuples | packages/runtime/src/queue-store-lifecycle.ts:156-175 | the flattened tuples are exactly the declared queues of all loaded manifests |
| QueueLifecycle.ReconcileOnBoot | packages/runtime/src/queue-store-lifecycle.ts:153-181 | no row of a loaded queue goes and, with plain names, every other row does |
| Cron.FiresExactlyOnSchedule | packages/runtime/src/triggers/cron.ts:68-83 | however far the instant, clamped wakes come a day apart without firing and the last is exactly on it |
| Cron.FiringsFollowSchedule | packages/runtime/src/triggers/cron.ts:170-211 | firings are increasing scheduled instants; only those during a running dispatch are skipped |
| Cron.Source.ArmEntry | packages/runtime/src/triggers/cron.ts:118-168 | a clamped timer, or none for a failing schedule |
| Cron.Source.OnFire | packages/runtime/src/triggers/cron.ts:170-186 | a clamped wake re-arms, another dispatches |
| Cron.Source.AfterFire | packages/runtime/src/triggers/cron.ts:200-211 | after the dispatch the current entry of the key is armed for the computed delay, any other is not |
| Cron.Source.CancelEntries | packages/runtime/src/triggers/cron.ts:94-105 | exactly the timers of the given entries are cleared |
| Cron.Source.ReconfigurePair | packages/runtime/src/triggers/cron.ts:223-250 | cancels the pair, then adds and arms the new entries |
| Cron.Source.StopAll | packages/runtime/src/triggers/cron.ts:218-222 | cancels every current entry and forgets them |
| Cron.OneTimerPerEntry | packages/runtime/src/triggers/cron.ts:94-250 | over all interleavings an entry has at most one timer, none while dispatching, and a current entry has one, is dispatching or is stuck (see StuckIffFailed) |
| Cron.StuckIffFailed | packages/runtime/src/triggers/cron.ts:118-155 | an entry is stuck iff the last delay computed for it was none; any other current entry that is not dispatching has its timer |
| Cron.ArmedAsComputed | packages/runtime/src/triggers/cron.ts:118-168 | whenever a delay is computed (made, clamped wake, end of dispatch) the entry is armed for it, cut to a day |
| Cron.EntryFollowsSchedule | packages/runtime/src/triggers/cron.ts:118-211 | over all interleavings with timers on time the dispatches of an entry that stays current start on the first scheduled instants after it was made and after each dispatch ended, and the next is under way or armed for |
| Cron.FollowsIsFires | packages/runtime/src/triggers/cron.ts:170-211 | those instants are the firings of one entry with exact timers |
| Cron.OnlyCurrentEntriesArmed | packages/runtime/src/triggers/cron.ts:201-210 | with distinct keys every armed timer belongs to the current entry of its key |
| Cron.ReconfigureReplaces | packages/runtime/src/triggers/cron.ts:223-250 | the keys of the pair are those of the new list, other pairs and entries are untouched, and only timers of its current entries are cleared |
| Cron.StopIsFinal | packages/runtime/src/triggers/cron.ts:218-222 | after a stop no pair is left; if every timer belonged to a current entry, nothing is armed until the next reconfiguration, whatever dispatches still end |
| Cron.StopClearsIff | packages/runtime/src/triggers/cron.ts:218-222 | a stop leaves nothing armed iff every armed timer belonged to a current entry, as distinct keys ensure |
| Cron.LeakedTimerSurvives | packages/runtime/src/triggers/cron.ts:94-116 | an armed timer of an entry that is no longer current survives every reconfiguration and stop until it wakes |
| Cron.DispatchesOnSchedule | packages/runtime/src/triggers/cron.ts:118-186 | over all interleavings with timers on time a dispatch starts only on a scheduled instant of its entry, and a clamped wake keeps the instant aimed at |
| Cron.RepeatedKeyLeaksTimer | packages/runtime/src/triggers/cron.ts:236-248 | a reconfiguration leaves only current timers iff no armed key is repeated |
| Scrub.Scrubber.constructor | packages/runtime/src/plugins/secrets.ts:176-179 | the non-empty plaintexts, longest first |
| Scrub.Scrubber.AddSecret | packages/runtime/src/plugins/secrets.ts:127-136 | empty and known values change nothing; the list stays longest first |
| Scrub.Scrubber.ScrubString | packages/runtime/src/plugins/secrets.ts:92-103 | the loop with its includes check is the plain fold of replacements; no safe plaintext is left |
| Scrub.Scrubber.OnPost | packages/runtime/src/plugins/secrets.ts:183-188 | the shortcut agrees with the walk; no string of the message shows a safe plaintext |
| Scrub.SortSorts | packages/runtime/src/plugins/secrets.ts:88-90 | longest first and a permutation |
| Scrub.NothingCreated | packages/runtime/src/plugins/secrets.ts:97-101 | replacing one plaintext never creates an occurrence of another |
| Scrub.OwnGone | packages/runtime/src/plugins/secrets.ts:99-99 | replacing a plaintext removes every occurrence |
| Scrub.NoPlaintextRemains | packages/runtime/src/plugins/secrets.ts:92-103 | after scrubbing no registered safe plaintext occurs |
| Scrub.Idempotent | packages/runtime/src/plugins/secrets.ts:92-103 | scrubbing twice is scrubbing once |
| Scrub.CleanUnchanged | packages/runtime/src/plugins/secrets.ts:98-100 | a string without plaintexts is returned as it is |
| Scrub.WholePlaintextRedacted | packages/runtime/src/plugins/secrets.ts:82-90 | longest first redacts a plaintext as a whole even if others are parts of it |
| Scrub.ShortestFirstLeavesRest | packages/runtime/src/plugins/secrets.ts:82-83 | the opposite order leaves the rest readable |
| Scrub.SafePlaintext | packages/runtime/src/plugins/secrets.ts:99-99 | no brackets and no part of the marker's word: safe |
| Scrub.UnsafeLeaks | packages/runtime/src/plugins/secrets.ts:97-101 | a plaintext that can overlap the marker does show for some string |
| Scrub.UnsafeCharLeaks | packages/runtime/src/plugins/secrets.ts:97-101 | so does a single character of the marker |
| Scrub.SafeIffNeverShows | packages/runtime/src/plugins/secrets.ts:88-103 | a plaintext never shows after scrubbing, whatever string and longest-first list, iff it cannot overlap the marker |
| Scrub.ShowsIffInKey | packages/runtime/src/plugins/secrets.ts:112-118 | a posted message shows a safe plaintext iff an object key contains it |
| JsonTree.WalkEverywhere | packages/runtime/src/plugins/secrets.ts:105-120 | same tree, keys and other values; every string at every place is rewritten |
| Sentinels.RoundTrip | packages/runtime/src/triggers/resolve-secret-sentinels.ts:45-60 | NUL-free literals and references come back with exactly the references replaced in one pass; the absent names are the missing ones |
| Sentinels.EncodeResolves | packages/core/src/index.ts:804-811 | exactly identifiers can be encoded, injectively, as NUL-framed text, and an encoded name resolves to its plaintext or stays |
| Sentinels.SentinelFound | packages/core/src/index.ts:800-811 | an encoded name is recognised whatever follows it |
| Sentinels.TwoPasses | packages/runtime/src/triggers/resolve-secret-sentinels.ts:53-59 | sentinels left in place can be resolved later: two passes do what one with both stores does |
| Sentinels.NoOpeningUnchanged | packages/runtime/src/triggers/resolve-secret-sentinels.ts:50-52 | the shortcut agrees with the full scan |
| Sentinels.RoundTripIffUnambiguous | packages/runtime/src/triggers/resolve-secret-sentinels.ts:45-60 | for arbitrary literals the round trip holds for every store iff no position of a literal starts a sentinel |
| Sentinels.UnambiguousRoundTrip | packages/runtime/src/triggers/resolve-secret-sentinels.ts:45-60 | then the missing names are exactly the absent ones, too |
| Sentinels.NulLiteralCaptures | packages/core/src/index.ts:802-802 | a literal ending like an unfinished sentinel swallows the next opening |
| Sentinels.ResolveString | packages/runtime/src/triggers/resolve-secret-sentinels.ts:45-60 | the resolved string, and the missing names added to the set |
| Sentinels.ResolveSecretSentinels | packages/runtime/src/triggers/resolve-secret-sentinels.ts:22-43 | the walked tree, and all missing names added to the set |
| Sentinels.MissingSomewhere | packages/runtime/src/triggers/resolve-secret-sentinels.ts:22-43 | reported are exactly the unknown names of sentinels in some string of the tree |

## Left out

- PluginCompose.TopoSort: which of several cycles it reports is not fixed, because the order of pending dependencies is characterised by membership only.
- PluginCompose.SerializeDescriptors: shape and JSON checks of a descriptor are not modelled.
- Executor: promise chains (`emitTail`, the run queue's `tail`) are modelled as queues; the pre-dispatch `fail` path and the results handed back to callers are not modelled.
- SandboxRun: event payloads, the budget figures of the limit leaf and error texts are opaque; a throw while stamping is not modelled.
- WorkerTermination.Termination.ArmCpuBudget: timer durations are not modelled, the watchdog is a signal that may come at any time while armed.
- WorkerBridge: argument marshalling, snapshot and restore of the VM, and the pending-callables and output counters that raise limit errors.
- SandboxStore: the polling loop of `dispose` and its deadline; building a sandbox and its plugin list; log lines.
- QueueStore: SQL text, JSON parsing of stored items, the host-side key size check and schema validation of items.
- Cron: parsing of cron expressions and time zones (a schedule is any function to the next instant), and the dispatch itself.
- Scrub: a failing walk (a throwing getter) and JavaScript's special treatment of a `__proto__` key.
- QuickJS and handle marshalling, manifest schemas, HTTP, WebSocket, IMAP, mail, fetch and SQL plugins, authentication, key storage, user interface: no part of this model.
