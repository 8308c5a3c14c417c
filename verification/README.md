# Verified core of the agent platform

A Dafny model of the platform's stateful cores, with proofs of what they keep over every input and every run:

- **Workflow engine** (`Graph`, `Templates`, `Resolution`, `Workflow`, `Definition`, `Engine`, `Outcomes`, `Refinement`,
  `Misgrouping`, `Cancellation`): the dependency layering, the template reference check and what templates resolve to, the
  layered and grouped executor, how its nodes end, its agreement with the recursive meaning of a run, and the durable
  cancel flag.
- **Job protocol** (`Jobs`, `JobQueue`, `Leases`, `JobProtocol`, `Deliveries`, `JobRuns`, `Retries`, `Worker`, `Requests`, `SessionTurns`,
  `TurnOverlap`, `TurnRuns`): the transition table, the Redis queue with leases, all interleavings of clients, workers, crashes and
  restarts, what the queue guarantees to workers, and the idempotent session turns with their ends.
- **Storage** (`FileIndex`, `Artifacts`, `Sharing`, `FileLocks`, `Sessions`): the JSONL index as a last-wins map, shared files
  under artifacts, the re-entrant inter-process lock, session tombstones.
- **Projections** (`Governance`, `Versions`, `Listing`): evidence authority and the deduplicated artifact list.

`Common`, `Ordering` (stable insertion sort, string order) and `Text` (split and join) serve the others. State that the program
changes in place is a class whose methods are proved against specification functions; the theorems are about those
functions and about step machines built from them. `dafny verify dfyconfig.toml` checks everything.

## What the proofs found

Most of these are a run from the program's start together with the exact condition under which the property holds.
Where only one direction is proved the entry says so.

- A template `${nodes.X}` or `${nodes}` passes the reference check, because the check looks for a dot behind the name.
  `Misgrouping.WriteInParallelGroup` is an accepted definition of three independent nodes whose run, on every platform
  that judges and runs the calls as described there, puts a call that is no read into a parallel group, because it is
  grouped by other arguments than it is called with. `Templates.StableExactly` is exact for a single lookup. For whole
  runs the condition is sufficient only: a run agrees with its meaning if no template looks at a node outside the
  dependencies (`Refinement.RunRecorded`), which `Workflow.AcceptedAreStable` gives for accepted definitions whose
  templates have the shape `input.*` or `nodes.X.<more>`.
- The result of a finished workflow run can be rolled back, nodes and status, by a cancel request that read the record
  before the end (`Cancellation.LateCancelRollsBack`); it stays exactly if no such request is pending
  (`Cancellation.KeptForeverExactly`).
- A worker whose job was fenced, then retried, can still end the job that another worker is now executing
  (`JobRuns.FencedWorkerEndsJob`); it does so exactly if the job was started again since
  (`JobProtocol.FencedReturnExactly`).
- The late acknowledgement of a reclaimed worker can take the lease and the processing entry of another worker, because
  a retried job is queued again as attempt 1, the very payload the old worker holds (`JobRuns.LateAckTakesLease`; all
  payloads in flight are distinct in that run). It removes nothing exactly if nobody took that payload again and still
  holds it (`Deliveries.LateSettleExactly`), and that takes an explicit enqueue or retry, or the attempt before it given
  back again (`Deliveries.TakenAgainWasQueued`, `Deliveries.SharedWasQueued`).
- A job enqueued twice gives two equal deliveries under one lease; the worker that is turned away removes the lease of
  the one inside, whose delivery nothing would then reclaim (`JobRuns.SharedLeaseLost`, `JobQueue.AckKeepsLeasesExactly`).
  A retry of a delivery that was already reclaimed adds a delivery (`JobQueue.DeliveriesConserved`).
- Two turns of a session can execute at once, in three ways: the run of an earlier turn is attached, which ends the
  session's job without looking at the turn (`TurnRuns.TwoTurnsExecute`); a worker took the delivery every new session
  job is queued with and died, and the next worker fences the job under the turn (`TurnRuns.FenceLetsTwoExecute`); a
  worker entered the job before the turn was opened and ends it (`TurnRuns.WorkerEndLetsTwoExecute`). Among all steps of
  clients, workers, crashes and restarts a second turn can be granted while one executes exactly if some step ends the
  session's job under it: the attachment of another turn's run, a fence by a delivery beyond its first attempt, a mark,
  return or exception of a worker inside the job, a client's end, a restart, or a deletion
  (`TurnOverlap.OneTurnExactly`).
- The test for shared files ignores soft-deleted artifacts; they are safe because each one keeps a reference of its own
  (`Artifacts.RunKeeps`), and lost if that reference could not be written (`Artifacts.LostWithoutReference`).
- The session listing and the grouping by status do not look at the tombstone, so a deletion that could not remove the
  metadata file leaves the session in both (`Sessions.LeftoverIsListed`, `Sessions.ListedAfterDeletionExactly`),
  although every read and every writer refuses it.
- The search for a running turn sees 500 jobs; a granted turn is the only open one exactly if it missed none and the job
  was not paused (`SessionTurns.Turns.ClaimTurn`). Paused is never reached by the modelled steps
  (`JobProtocol.NeverPaused`).

## Model

| member | source | states |
|---|---|---|
| Graph.ExecutionLayers | workflows/service.py:122-134 | layering succeeds if and only if the dependency graph has no cycle; the layers then hold every node once, sorted, dependencies strictly below, and no node could sit lower |
| Graph.LayerIsLongestChain | workflows/service.py:122-134 | a node is in layer k exactly when its longest dependency chain has k steps |
| Graph.DepthIsExact | workflows/service.py:81-88 | the number of layers is within the limit exactly when every dependency chain is |
| Graph.LayeredIsAcyclic | workflows/service.py:122-134 | whatever can be layered has no cycle |
| Graph.StuckHasCycle | workflows/service.py:126-128 | a non-empty remainder in which no node is ready contains a real cycle |
| Graph.Ancestors | workflows/service.py:139-146 | the worklist returns exactly the transitive dependencies, on cyclic graphs too |
| Graph.AncestorsShrink | workflows/service.py:139-146 | without cycles the ancestors of an ancestor are strictly fewer, which founds the recursive meaning |
| Templates.ScanFindsAll | workflows/service.py:147-151 | the reference scan finds a node exactly if some position of the text refers to it; resuming behind a match misses nothing |
| Templates.ReferencesDoNotOverlap | workflows/service.py:150-150 | no reference starts inside another one |
| Templates.TemplateIsReference | workflows/service.py:147-151 | a template that looks below a node is seen by the reference check under that node's name |
| Templates.ResolveAgrees | workflows/service.py:463-478 | resolution, errors included, depends only on the outputs of the nodes its templates look at, whatever else was recorded and in whatever order |
| Resolution.TemplateExactly | workflows/service.py:460-460 | a template stands at a position exactly if `${`, a non-empty brace-free expression and `}` do |
| Resolution.ReferenceExactly | workflows/service.py:150-150 | a reference stands at a position exactly if `${nodes.`, a name of letters, digits, `_` and `-`, and a dot do |
| Resolution.PlainResolves | workflows/service.py:478-478 | a text without templates resolves to itself |
| Resolution.WholeResolves | workflows/service.py:476-477 | a text that is one template resolves to the value found, whatever its type, or to the error |
| Resolution.SplicedResolves | workflows/service.py:476-478 | any other text resolves to what stands before its first template, the value found rendered, and the rest resolved likewise; the first missing value is the error |
| Resolution.FirstTemplate | workflows/service.py:478-478 | every text with a template splits at its first one, so the three cases cover all texts |
| Resolution.ListResolves | workflows/service.py:474-474 | a list resolves item by item, or to the error of the first item that has one |
| Resolution.ObjectResolves | workflows/service.py:473-473 | an object keeps its keys and resolves field by field, or to the error of the first field that has one |
| Resolution.LooksUp | workflows/service.py:463-469 | an expression finds a value exactly if its dotted parts lead from the scope to it through objects; otherwise the error names the expression |
| Resolution.InputField | workflows/service.py:463-469 | `input.k` finds field k of the workflow input |
| Resolution.OutputField | workflows/service.py:463-469 | `nodes.x.output.k` finds field k of what node x put out |
| Templates.StableExactly | workflows/service.py:147-155 | a lookup is independent of undeclared nodes if and only if it looks only at declared ones or below a path no node can have |
| Templates.AcceptedIsStable | workflows/service.py:152-155 | a checked template in a text whose references are covered looks only at covered nodes |
| Templates.CheckedIsStable | workflows/service.py:147-155 | a whole value with checked templates and covered references looks only at covered nodes |
| Templates.BareReferenceEscapes | workflows/service.py:150-155 | for every node name, `${nodes.name}` is invisible to the check although its value depends on that node |
| Templates.CheckedExactly | workflows/service.py:147-151 | the templates that escape the reference check are `nodes` and `nodes.` with one name and nothing behind it |
| Workflow.AttemptedExactly | workflows/service.py:363-392 | a node is attempted if and only if every transitive dependency succeeded |
| Workflow.AcceptedAreStable | workflows/service.py:147-155 | accepted definitions whose templates have the checked shape look only at transitive dependencies |
| Workflow.CalledAfterAncestors | workflows/service.py:308-392 | a tool is called only after the tool of every ancestor was called and succeeded |
| Definition.CheckNodes | workflows/service.py:55-80 | the node pass accepts exactly when every node has an available tool and an id of one to eighty letters, digits, underscores and dashes, no two alike; it then indexes them |
| Definition.CheckDependencies | workflows/service.py:81-84 | accepts exactly the closed graphs without self-dependency |
| Definition.CheckReferences | workflows/service.py:152-155 | accepts exactly when every referenced node is a transitive dependency |
| Definition.Validate | workflows/service.py:47-106 | a definition is accepted if and only if it is acceptable: node count, ids, tools, closed and acyclic graph, chain length within the limit, references covered; its layers are those of its graph |
| Refinement.ResolvesAlone | workflows/service.py:308-315 | arguments and condition resolve against everything recorded as they do against the ancestors alone |
| Refinement.ExecutesMeaning | workflows/service.py:308-350 | executing a node against the recorded outputs gives its recursive meaning |
| Refinement.BlockedAgrees | workflows/service.py:361-372 | the recorded dependency outcomes block a node exactly as its meaning does, with the same list of failed dependencies |
| Engine.SkipBlocked | workflows/service.py:358-391 | records the undecided nodes of a layer with a dependency that did not succeed, and returns the other undecided ones in layer order |
| Refinement.SkipRecorded | workflows/service.py:358-391 | those are exactly the nodes whose meaning is blocked and attempted |
| Engine.GroupLayer | workflows/service.py:393-411 | groups concatenate back to the runnable layer, each is a maximal run of reads or a single write |
| Engine.GroupedIsGood | workflows/service.py:393-411 | the grouping of any runnable list concatenates back to it in maximal runs of reads and single writes |
| Refinement.PreviewIsCall | workflows/service.py:397-403 | the arguments a node was grouped by are those its call is made with |
| Refinement.ReadsInGroup | workflows/service.py:397-416 | every call made in a parallel group is read-only on the arguments it runs with |
| Engine.Complete | workflows/service.py:412-418 | whatever order the nodes of a group finish in, each gets the outcome of executing it against the outputs recorded before the group |
| Engine.RunGroup | workflows/service.py:412-431 | records the nodes of a group in group order, all executed against the outputs from before it |
| Refinement.GroupRecorded | workflows/service.py:412-431 | every prefix of a group is recorded with its meaning |
| Engine.RunLayer | workflows/service.py:358-431 | one layer: the blocked nodes first, then the groups in order |
| Refinement.LayerRecorded | workflows/service.py:358-431 | after a layer exactly its nodes are added, each with its meaning, the blocked ones first and each part in layer order |
| Refinement.CommitKeeps | workflows/service.py:419-430 | recording a node keeps entries, outputs, outcomes and the failure flag in agreement with the meaning |
| Engine.Execute | workflows/service.py:353-436 | for any definition, the executor runs exactly the layers before the first cancelled check and returns cancelled, failed or succeeded accordingly; what its entries and the failure mean is `Outcomes.RunTells` and `Outcomes.FailsExactly` |
| Outcomes.CallDecides | workflows/service.py:315-350 | a called node succeeds, and hands on the tool's output, exactly if the tool answers with succeeded or dry_run; otherwise it hands on an empty object |
| Outcomes.UncalledDecides | workflows/service.py:308-327 | a node whose condition resolves to nothing is skipped without failing; one that does not resolve, cannot be canonicalised or is larger than 1048576 fails; neither hands anything on |
| Outcomes.RunTells | workflows/service.py:353-431 | in every run of any definition an entry is blocked exactly if some dependency has not succeeded before it, and otherwise ends, succeeds and hands on output exactly as the platform answers |
| Outcomes.FailsExactly | workflows/service.py:419-436 | a run is failed exactly if some attempted node neither declined nor got a successful answer |
| Refinement.RunRecorded | workflows/service.py:353-431 | the run of any number of layers records exactly their nodes, each once and with its recursive meaning, in an order fixed by the definition alone, and its parallel calls only read |
| Refinement.ResultMeans | workflows/service.py:353-436 | a run covers every node exactly if it was not cancelled, and then ends failed exactly if an attempted node failed |
| Refinement.ScheduleMembers | workflows/service.py:353-431 | the first k layers of that order hold exactly the nodes below layer k, each once |
| Misgrouping.WriteInParallelGroup | workflows/service.py:393-418 | for any three node ids in order there is an accepted definition whose run, on every platform that judges and runs the calls as described, makes a call that is no read in a parallel group, with other arguments than it was grouped by |
| Misgrouping.SampleJudges | workflows/service.py:393-418 | there is such a platform for every node, pair of tools and output |
| Cancellation.RunStore.Save | workflows/service.py:481-497 | a save replaces the record but keeps a cancel flag that is already durable |
| Cancellation.RunStore.ReadForCancel | workflows/service.py:533-538 | a cancel request takes a flagged snapshot of unfinished runs only |
| Cancellation.CancelIsForever | workflows/service.py:353-356 | once durable the flag survives every save from every stale snapshot and no further layer starts |
| Cancellation.CancelRequestLands | workflows/service.py:533-538 | a cancel request that read an unfinished run makes the flag durable whatever was saved in between |
| Cancellation.RunKeeps | workflows/service.py:481-497 | in every interleaving the executor is where its schedule says, every stored or read copy is an earlier state of its record, and cancel requests hold only unfinished ones |
| Cancellation.StoredIsPrefix | workflows/service.py:418-436 | in every interleaving the stored nodes are a prefix of the executor's and those of the schedule; once stopped it has recorded whole layers, cancelled exactly if some are left |
| Cancellation.StartsInOrder | workflows/service.py:351-437 | in every interleaving layers start in order, each once, and a stopped run is failed exactly if its executor finished with a failure |
| Cancellation.StoppedRecordsLayers | workflows/service.py:353-436 | with the engine's schedule a stopped run, however cancelled, has recorded exactly the nodes below the layer it stopped at, each once |
| Cancellation.LastSaveRestores | workflows/service.py:432-436 | the executor's last save stores its terminal status and all its nodes, whatever a stale cancel request overwrote before |
| Cancellation.KeptForeverExactly | workflows/service.py:533-555 | in every run the stored result is kept in all continuations if and only if no cancel request holds a snapshot from before the end |
| Cancellation.LateCancelRollsBack | workflows/service.py:533-538 | a run from the start in which a cancel request puts a completed run back to running with nothing recorded |
| Jobs.JobStore.ClaimForExecution | jobs/store.py:107-132 | claims exactly queued jobs; the claimed record is running with error, cancel request and end cleared, and nothing else changes |
| Jobs.JobStore.FenceReclaimed | jobs/store.py:135-173 | fails exactly the running job of a delivery beyond its first attempt, with its turn closed and its request kept; nothing else changes |
| Jobs.JobStore.RequestCancellation | jobs/store.py:176-206 | marks a running job, not yet marked and in the expected turn if one is given; nothing else changes |
| Jobs.JobStore.ReconcileRunning | jobs/store.py:325-396 | exactly the jobs running since before the start end, cancelled if that was asked for and failed otherwise, with their turn closed, and are counted; no other job changes |
| Jobs.MarksDecide | jobs/manager.py:139-204 | which statuses each mark accepts and the whole record it writes: running always, succeeded from running, cancelled from all but succeeded, failed unless created, succeeded or cancelled, with the error cut at 500 characters |
| Jobs.QueueingDecides | jobs/manager.py:82-137 | a job is queued again only from created, queued or failed; an unforced retry also needs a retry left, counts it and clears error and cancel request |
| JobQueue.RedisJobQueue.Enqueue | jobs/queue.py:93-97 | pushes a first attempt to the head of the queue |
| JobQueue.RedisJobQueue.Claim | jobs/queue.py:99-108 | moves the oldest delivery to processing under a lease |
| JobQueue.RedisJobQueue.Acknowledge | jobs/queue.py:110-112 | releases one processing entry and its lease |
| JobQueue.RedisJobQueue.RetryDelivery | jobs/queue.py:114-116 | releases a delivery and queues its next attempt |
| JobQueue.RedisJobQueue.Beat | jobs/queue.py:118-124 | renews a lease exactly if it is still held |
| JobQueue.RedisJobQueue.ReclaimStale | jobs/queue.py:126-146 | reclaims exactly the leases last renewed more seconds ago than the allowed age and than one, each once, in any order, and counts the ones put back |
| Leases.ReclaimedByAge | jobs/queue.py:99-146 | whatever happens to other deliveries, a reclaim leaves a taken or renewed delivery with its worker for as many seconds as the allowed age, at least one, and afterwards takes it away and queues it one attempt higher if it names a job |
| JobQueue.ReclaimMoves | jobs/queue.py:126-146 | reclaimed deliveries leave processing and leases and come back to the queue once, the others stay; leases match afterwards if and only if none was processed twice |
| JobQueue.BumpedAttempts | jobs/queue.py:143-145 | everything put back carries a strictly larger attempt number than the delivery it comes from |
| JobQueue.LateAckExactly | jobs/queue.py:110-112 | an acknowledgement changes nothing if and only if the delivery is neither processed nor leased |
| JobQueue.ReclaimedIsGone | jobs/queue.py:126-146 | in a sound queue a reclaimed payload is nowhere in flight any more |
| JobQueue.LeasedAfter | jobs/queue.py:99-146 | after every run a payload is leased exactly if it was taken and not released since |
| JobQueue.LateAckRemovesNothing | jobs/queue.py:110-146 | the late acknowledgement of a reclaimed delivery removes nothing if and only if nobody took that very payload again and still has it |
| JobQueue.TakenWasPushed | jobs/queue.py:93-146 | a payload that is gone is taken again only after an operation pushed it |
| JobQueue.AckKeepsLeasesExactly | jobs/queue.py:110-112 | leases match processing after an acknowledgement if and only if the payload was not held twice |
| JobQueue.SoundExactly | jobs/queue.py:93-146 | an operation keeps deliveries unique and leased if and only if what it pushes is not in flight |
| JobQueue.SoundForever | jobs/queue.py:93-146 | over every run every delivery is in exactly one list and leases match processing throughout, if and only if no payload is pushed while in flight |
| JobQueue.OneChange | jobs/queue.py:93-146 | how each operation changes the number of deliveries of a job |
| JobQueue.DeliveriesConserved | jobs/queue.py:93-146 | over every run deliveries change exactly by those enqueued, released, or retried after being reclaimed |
| JobProtocol.RunKeeps | jobs/worker.py:50-113 | in every interleaving each job's status history is legal, gapless and ends in its status, and a worker inside a job got there by its own recorded claim |
| JobProtocol.StartsWithinQueueings | jobs/store.py:107-132 | every start in a legal history uses up one queueing |
| JobProtocol.StartsAtMostQueued | jobs/store.py:107-132 | in every run a job starts through the queue at most as often as it was set to queued |
| JobProtocol.RequeueBetween | jobs/manager.py:14-45 | the only way from running back to queued is to fail and then be queued explicitly |
| JobProtocol.TwoInside | jobs/worker.py:50-113 | two workers are inside one job only if it failed out of running and was explicitly queued again after the first entered and before the second did |
| JobProtocol.LeavesFailed | jobs/manager.py:14-45 | a job leaves failed only by queueing, reactivation or cancellation |
| JobProtocol.RestartedBefore | jobs/manager.py:39-45 | between a failure and a later success lies a new claim or a reactivation |
| JobProtocol.FencedNeedsRestart | jobs/store.py:135-173 | after a fence no step of any worker makes the job succeeded unless it was started again in between |
| JobProtocol.FencedReturnExactly | jobs/runner.py:32-44 | in every run a fenced worker that returns makes the job succeeded if and only if the job was claimed or reactivated after the fence and has not failed, been cancelled or queued since |
| JobRuns.LateReturnEndsRetriedJob | jobs/runner.py:32-40 | from every state with a worker in a failed job that can be retried, an empty queue and an idle second worker, there is a run in which the first worker succeeds the job while the second is inside |
| JobRuns.ThenFenced | jobs/worker.py:62-84 | a run from the start to a worker left inside a fenced job |
| JobRuns.FencedWorkerEndsJob | jobs/runner.py:32-40 | a run from the start in which a fenced worker's return ends the job that another worker is executing |
| JobRuns.LateAckTakesLease | jobs/queue.py:110-112 | a run from the start, with distinct payloads in flight, in which a reclaimed worker's acknowledgement takes the lease and the entry of the worker inside the job |
| JobRuns.SharedLeaseLost | jobs/queue.py:93-112 | a run from the start in which two deliveries of a job queued twice share a lease and the executing worker loses it |
| JobRuns.GivenBackTwice | jobs/worker.py:98-105 | a run from the start in which a second worker gets the payload of attempt 2 with no enqueue or retry after the first took it, because a reclaimed worker gives attempt 1 back |
| Deliveries.QueueFollows | jobs/worker.py:50-113 | every run of the protocol is a run of the queue, so every queue theorem holds of it |
| Deliveries.SettleKeepsLeasesExactly | jobs/worker.py:98-109 | settling leaves the lease of every other worker as it was if and only if no other worker holds the same leased payload |
| Deliveries.LateSettleExactly | jobs/worker.py:98-109 | over every run, the late settling of a reclaimed delivery changes no lease, and with matching leases nothing at all, if and only if nobody took that payload again and still has it |
| Deliveries.TakenAgainWasQueued | jobs/manager.py:82-136 | in every run a payload out of flight is taken again only if some step queued it again: for a first attempt an enqueue or retry of that job by that principal, otherwise the attempt before it given back |
| Deliveries.SharedWasQueued | jobs/manager.py:82-136 | a second worker comes to hold a payload only behind a step that queued it again, if no further copy was in the queue |
| JobProtocol.FencedOnlySettles | jobs/worker.py:77-87 | a worker that is acknowledging starts nothing until it takes another delivery |
| Retries.RetriesWithinLimit | jobs/manager.py:122-137 | in every run a job counts exactly the unforced retries of its history, and never more than its limit left when it was created |
| Retries.ReturnDecides | jobs/runner.py:32-44 | how a returned body ends the job and its delivery, by the status the job has then |
| Retries.RaiseDecides | jobs/runner.py:41-44 | a body that raises fails the job if that is allowed, otherwise its delivery is retried unless the job is gone |
| Retries.MarkDecides | jobs/manager.py:155-204 | a body that marks its job stays inside; a refused mark gives the delivery back |
| Retries.FenceDecides | jobs/worker.py:77-100 | a delivery goes on exactly if its job was seen and is not a running one on a later attempt |
| JobProtocol.NeverPaused | jobs/manager.py:14-45 | no modelled step ever pauses a job |
| Worker.RunJob | jobs/runner.py:12-44 | undisturbed, a queued job ends as its body asks for, any other job is left alone, and no exception escapes |
| Worker.RunOnce | jobs/worker.py:50-113 | one iteration reclaims exactly the leases older than the lease time, releases the delivery it took, fences instead of running exactly when a redelivered job still runs, and touches no other job |
| Requests.DropOldest | jobs/lifecycle.py:164-170 | dropping the overflow of the sorted terminal records leaves at most 256, none older than a dropped one |
| Requests.PruneDecides | jobs/lifecycle.py:76-170 | a record that has not ended stays; one that ended more than 604800 seconds ago goes; a younger one stays unless 256 others that are no older do, and with at most 256 such records none goes |
| Requests.FoldsOwnTurnOnly | jobs/lifecycle.py:101-122 | a running claim is folded exactly as its own job shows; the outcome of a later turn is never taken for it |
| Requests.ReconciledAge | jobs/lifecycle.py:124-130 | reconciling changes only a running claim, which then ended when its job did, or now |
| SessionTurns.Turns.Prune | jobs/lifecycle.py:133-170 | at most 256 ended records remain, none of them from more than 604800 seconds ago; every other record is kept reconciled, unless it ended and 256 that are no older remain |
| SessionTurns.Turns.RunningTurn | jobs/lifecycle.py:173-193 | finds a listed job of the session that runs an open turn whenever there is one |
| SessionTurns.Turns.BeginTurn | jobs/lifecycle.py:408-457 | opens the turn on a listed job of the session, or on a new one exactly when none is listed |
| SessionTurns.Turns.ClaimTurn | jobs/lifecycle.py:195-302 | granted exactly when the key is not registered and no listed job of the session runs an open turn; afterwards exactly the granted job does, if and only if the search missed no open turn and the job was not paused; a known key returns its state, another input is a conflict |
| SessionTurns.Turns.FinishTurn | jobs/lifecycle.py:318-358 | ends the record of its own job as cancelled, succeeded or failed and prunes before and after |
| SessionTurns.GrantedTwice | jobs/lifecycle.py:195-302 | in every sequence of steps, between two grants of a key its record was removed with the session, or more than 604800 seconds after it ended, or crowded out by 256 ended records that were no older |
| SessionTurns.EndedIsKnown | jobs/lifecycle.py:218-250 | a request that ended at most 604800 seconds ago, among at most 256 such ones, is answered with its job and how it ended; with another input it is a conflict |
| SessionTurns.TurnGiven | jobs/lifecycle.py:408-457 | what a granted turn makes of its job: running with this turn open, a new one on its first attempt, an old one with its session and retries kept |
| SessionTurns.NeverGrantedWhilePresent | jobs/lifecycle.py:226-250 | in every sequence of steps, while a record exists no claim on its key executes; another input than the registered one is a conflict, the same one returns the registered job |
| SessionTurns.NeverRunsAgain | jobs/lifecycle.py:89-130 | while a record exists it keeps its input and job, and once terminal it never runs again |
| SessionTurns.SucceededBecause | jobs/lifecycle.py:89-130 | in every sequence of steps a record becomes succeeded only by its own finish or because its job succeeded, uncancelled, in a turn of this very request; a later turn's outcome is never taken for it |
| TurnOverlap.SessionJob.FinishSnapshot | jobs/lifecycle.py:558-620 | closes the job's turn unless it belongs to another request, and cancels the job if that was asked for |
| TurnOverlap.SessionJob.AttachRun | jobs/lifecycle.py:623-687 | brings the job to running and ends it, or only cancels it if that was asked for |
| TurnOverlap.CurrentExactly | jobs/lifecycle.py:173-193 | from a state whose executing turn is the open one, a step of any client, worker, crash, restart or turn exposes the session to a second grant if and only if it ends the session's job under an executing turn |
| TurnOverlap.OneTurnExactly | jobs/lifecycle.py:195-302 | over every run from the start of a session, no turn can be granted while one executes, if and only if no attachment of another turn, fence beyond the first attempt, worker's mark, return or exception, client's end, restart or deletion ends the session's job under an executing turn; then at most one turn executes |
| TurnOverlap.OpenStep | jobs/store.py:135-173 | among all steps of the job protocol exactly those ending ones close an open turn |
| TurnOverlap.ExposedOverlaps | jobs/lifecycle.py:251-302 | an exposed session grants its next request while the other turn executes, on a new job if the old one is gone |
| TurnRuns.TwoTurnsExecute | jobs/lifecycle.py:623-687 | a run from the creation of the session's job in which an attachment lets two turns execute at once |
| TurnRuns.FenceLetsTwoExecute | jobs/worker.py:62-84 | such a run without any attachment, in which a worker dies and the redelivery is fenced under the turn |
| TurnRuns.WorkerEndLetsTwoExecute | jobs/runner.py:12-40 | such a run without attachment or fence, in which a worker that entered first ends the job under the turn |
| TurnRuns.LiftedRuns | jobs/worker.py:50-113 | every run of the job protocol is a run beside the session's turns |
| TurnOverlap.SnapshotExactly | jobs/lifecycle.py:576-585 | the snapshot of a request leaves an open turn alone if and only if both have keys and the keys differ |
| FileIndex.WriteReadBack | storage/index.py:383-415 | writing lines and reading them back yields the same records; the final newline only adds a blank line |
| FileIndex.KeepLastIsLatest | storage/index.py:137-146 | keeping the last occurrence of each id in place is the map ordered by last write |
| FileIndex.LatestIsMap | storage/index.py:137-146 | what is read holds each id once and none without id |
| FileIndex.PutIsUpdate | storage/index.py:86-115 | writing a record changes its own key and no other |
| FileIndex.UpdateLatest | storage/index.py:149-180 | rewriting every version in the log updates the map in place |
| FileIndex.GetUpdated | storage/index.py:149-180 | an update changes the entry of its own file and no other, and keeps a map |
| FileIndex.UpdateDecides | storage/index.py:149-180 | an update overwrites the given fields in the entry of its file and changes no other entry |
| FileIndex.DropLatest | storage/index.py:183-207 | dropping every version removes the key and leaves the rest in order |
| FileIndex.GetAlive | storage/index.py:226-240 | after compaction a key is found exactly if its last version is live; no older version resurfaces |
| FileIndex.FoundIs | storage/index.py:226-240 | what is found is stored under that file id, and after compaction a file is found exactly if its last version is not soft_deleted, deleted or purged |
| FileIndex.AppendedIsFound | storage/index.py:86-115 | a record with a file id is what its file reads as right after it was appended |
| FileIndex.CompactedView | storage/index.py:210-252 | the compacted file reads as the live part of the map, and compacting again changes nothing |
| FileIndex.LastPositions | storage/index.py:137-145 | the remembered positions are exactly those of the last records |
| FileIndex.UpdateLines | storage/index.py:159-180 | the rewritten lines parse to the updated records, malformed lines kept, and a match is reported exactly if there is one |
| FileIndex.DropLines | storage/index.py:189-207 | the kept lines parse to the records of the other files, malformed lines kept |
| FileIndex.LiveOnly | storage/index.py:226-240 | keeps exactly the live entries and finds no duplicate in what was read |
| FileIndex.CountLines | storage/index.py:223-224 | the number of lines that are not blank |
| FileIndex.FileIndex.ReadRecords | storage/index.py:118-146 | returns the last-wins map the file stands for |
| FileIndex.FileIndex.Append | storage/index.py:86-115 | the log grows by one record and the map by one write at its end |
| FileIndex.FileIndex.Update | storage/index.py:149-180 | the log and the map are updated in one key; without a match the file is untouched |
| FileIndex.FileIndex.Delete | storage/index.py:183-207 | every version of one file is gone, the rest of the map unchanged |
| FileIndex.FileIndex.Compact | storage/index.py:210-252 | the file holds exactly the live map, and the counts before, after and removed account for every line and entry |
| Artifacts.Workspace.SaveArtifact | artifacts/store.py:328-400 | a new artifact shares an active file or gets its own, with a reference of its own and one to the file it was made from |
| Artifacts.Workspace.RemoveReferences | storage/reference_index.py:56-62 | exactly the references with the given ids are gone, in order |
| Artifacts.Workspace.DeleteArtifact | artifacts/store.py:536-593 | soft deletion changes the lifecycle alone; hard deletion removes the record and its references, and the file only if nothing else needs it |
| Artifacts.Workspace.PromoteArtifact | artifacts/store.py:626-643 | promotes exactly known artifacts that may have the scope, also soft-deleted ones |
| Artifacts.Workspace.DeleteEach | storage/data_management.py:168-173 | hard-deletes the listed artifacts in order |
| Artifacts.Workspace.DeleteManagedFile | storage/data_management.py:150-187 | plain deletion refuses a file in use; forced deletion takes artifacts and references with it; the error tells whether the file was missing, in use or is still there |
| Artifacts.HardDeleteKeeps | artifacts/store.py:536-593 | hard deletion keeps every other artifact's file and protecting reference |
| Sharing.HardDeleteDecides | artifacts/store.py:536-583 | a hard delete removes the artifact and exactly the references it owns, and its file exactly if no other live artifact and no foreign reference is on it and it can be unlinked |
| Sharing.LastTakesFile | artifacts/store.py:536-583 | hard-deleting every artifact on a file, in any order, removes the file if and only if no other owner refers to it |
| Sharing.SaveShares | artifacts/store.py:328-400 | a saved artifact shares a file exactly if that is an active one asked for and the artifact is no secret; nothing else changes |
| Sharing.LifecycleDecides | artifacts/store.py:584-588 | a soft delete or promotion touches the lifecycle of the one record |
| Sharing.PlainDeleteDecides | storage/data_management.py:150-187 | a plain deletion removes a file exactly if no artifact of any lifecycle and no reference is on it |
| Sharing.ForceDeleteDecides | storage/data_management.py:168-187 | a forced deletion removes every artifact on the file with the references it owns, every reference to the file, and the file if it can be unlinked; nothing else |
| Artifacts.ForceDeleteKeeps | storage/data_management.py:150-187 | forced deletion keeps the invariant and removes the file if it can be removed |
| Artifacts.SaveKeeps | artifacts/store.py:328-400 | saving keeps the invariant, on a shared file too |
| Artifacts.RunKeeps | storage/data_management.py:150-187 | every run keeps ids unique, files present and every artifact protected by a reference of its own |
| Artifacts.FilesNeverLost | artifacts/store.py:536-593 | in every run from the empty workspace each artifact record of any lifecycle still has its file record |
| Artifacts.LostWithoutReference | artifacts/store.py:390-400 | a run from the empty workspace in which an artifact whose reference could not be written is promoted after its file was removed with another artifact |
| FileLocks.StepGood | storage/locking.py:33-108 | every step of every thread, failures and crashes included, keeps lock, counts and frames in agreement |
| FileLocks.RunGood | storage/locking.py:33-108 | so does every run |
| FileLocks.MutualExclusion | storage/locking.py:33-108 | in every run at most one thread of all processes is inside, and it holds the process lock |
| FileLocks.CountsAgree | storage/locking.py:41-53 | the process lock is held exactly while the depth is positive, and between calls held count and thread-lock count equal the depth |
| FileLocks.FailedAcquisition | storage/locking.py:49-58 | a failed acquisition leaves the thread holding nothing and everyone else's locks as they were |
| FileLocks.EntersAgain | storage/locking.py:40-48 | in every run a thread inside can enter again at once, one deeper and under the same process lock, and never opens the file again |
| FileLocks.EntersFirst | storage/locking.py:45-54 | in every run a thread outside cannot re-enter; with the file open it gets in exactly if no thread of any process is inside |
| Sessions.MergeExtends | storage/session_store.py:293-299 | merging run ids extends the list at its end, without duplicates, by exactly the missing non-empty ids |
| Sessions.SessionStore.EnsureSession | storage/session_store.py:137-165 | returns the record or creates one, never for a tombstoned session |
| Sessions.SessionStore.GetSession | storage/session_store.py:167-175 | reads nothing of a tombstoned session |
| Sessions.SessionStore.Update | storage/session_store.py:316-341 | a present, untombstoned record takes a given title and a known status and keeps its runs |
| Sessions.SessionStore.AddRun | storage/session_store.py:446-464 | appends a new run id once, and only to an existing session |
| Sessions.SessionStore.CollectRuns | storage/session_store.py:279-284 | the run ids of the messages, oldest first, each once |
| Sessions.RunsOldestFirst | storage/session_store.py:279-284 | of two runs found the one listed first has a message no later than any of the other |
| Sessions.SessionStore.CollectTitle | storage/session_store.py:286-290 | the first words of the earliest user message that has any |
| Sessions.TitleIsFirstSaid | storage/session_store.py:286-290 | the title found is the first 60 characters of what the user said first, empty only if nothing was said |
| Sessions.SessionStore.MergeRuns | storage/session_store.py:296-299 | extends the stored run ids by the ones found |
| Sessions.SessionStore.Repair | storage/session_store.py:250-314 | rebuilds title and run ids into the present record, and nothing once tombstoned |
| Sessions.SessionStore.ListEntry | storage/session_store.py:200-246 | shows the record after any due repair, subject to the status filter, and does not consult the tombstone of an intact one |
| Sessions.SessionStore.DeletePermanently | storage/session_store.py:347-442 | the tombstone is set first; success is reported exactly if there was data and all of it is gone |
| Sessions.ArrivedIsKept | storage/session_store.py:250-464 | in every sequence of steps only a deletion takes messages or the request registry away |
| Sessions.TombstoneIsForever | storage/session_store.py:88-101 | after the tombstone every read returns nothing in every later state, and leftover metadata is never changed, only removed by a later deletion |
| Sessions.ListedAfterDeletionExactly | storage/session_store.py:200-246 | a deleted session is listed, and counted in its status group, if and only if no deletion could remove its metadata file and it passes the filter |
| Sessions.LeftoverIsListed | storage/session_store.py:200-216 | a run from the start after which reads refuse the session while the listing and the grouping by status show it |
| Sessions.SessionStore.StatusGroup | storage/session_store.py:676-707 | the status group and count a session is in, read from its metadata alone |
| Sessions.StepExtends | storage/session_store.py:293-314 | every step keeps the run list duplicate-free and only extends it |
| Sessions.RunsOnlyGrow | storage/session_store.py:446-464 | until the tombstone each earlier run list is a prefix of each later one, and none holds a duplicate |
| Governance.GroupStreams | artifacts/governance.py:41-46 | the streams hold exactly the keyed records, in input order |
| Governance.ProjectStream | artifacts/governance.py:48-79 | every version of a stream gets its projection and nothing else changes |
| Governance.BuildGovernance | artifacts/governance.py:39-80 | exactly the evidence records are projected, each by its place in its sorted stream |
| Versions.ProjectionTold | artifacts/governance.py:39-80 | the whole projection of an evidence record, said without sorting: its version is one more than the number created before it in its stream, the authority is the last complete record or the last of all where none is complete, and the status follows |
| Versions.KeyNames | artifacts/governance.py:23-32 | which stream a record belongs to: that of its evidence key unless empty or redacted, or else that of its producer, or run, and role |
| Governance.StreamOrderFree | artifacts/governance.py:49-49 | the sorted stream of records with unique ids does not depend on input order |
| Governance.OrderFree | artifacts/governance.py:39-80 | neither does the whole projection |
| Governance.OneCurrent | artifacts/governance.py:50-60 | exactly one version of a stream is current: authoritative exactly if some version is complete, and then no complete one is later; otherwise the latest |
| Governance.IncompleteNeverDisplaces | artifacts/governance.py:50-60 | adding an incomplete record, wherever it sorts, never changes a complete authority |
| Governance.OneCurrentPerStream | artifacts/governance.py:83-97 | authoritative and provisional records together are as many as the streams |
| Governance.EvidenceAndDeliverables | artifacts/governance.py:83-97 | evidence records and deliverables account for every record |
| Governance.CountDeliverables | artifacts/governance.py:96-96 | deliverables are exactly the records without a stream |
| Governance.Summary | artifacts/governance.py:83-97 | the counts are those of the projection; statuses and deliverables add up to all records, current ones to all streams |
| Listing.Scan | artifacts/store.py:247-255 | remembers the last position of every display key and the key of every shown record |
| Listing.Dedupe | artifacts/store.py:241-266 | the list holds exactly the last record of each display key, in order |
| Listing.ShownExactly | artifacts/store.py:220-266 | the list shows everything that is no report, a generic report exactly if its day has no named one and no later generic one, a named report exactly if no later one has its title and day |
| Listing.OrderKept | artifacts/store.py:257-266 | the list is the records at ascending positions, exactly those last of their key |
| Listing.KeyShown | artifacts/store.py:247-255 | every display key of any record is shown, by a record not before it |
| Listing.GenericDropped | artifacts/store.py:220-238 | a generic report is missing exactly on a day with a named report or behind a later generic one of that day |
| Listing.SameNamedDays | artifacts/store.py:242-246 | deduplication keeps the set of days with named reports |
| Listing.Idempotent | artifacts/store.py:241-266 | deduplicating twice is deduplicating once |
| Text.SplitJoin | storage/index.py:383-400 | splitting joined lines without newlines returns the lines |

## Left out

- Files, JSON encoding, Redis wire calls, HTTP, WebSocket and metrics are plumbing; `FileIndex.Codec` assumes only that a rendered record is one non-blank line that parses back.
- Tools, argument canonicalisation and the read-only test are functions of their arguments (`Workflow.Platform`); tools that share hidden state, the budget controller, timestamps, summaries and redaction of recorded entries are not modelled. The read-only test is applied to resolved arguments before canonicalisation, as in the source.
- Refinement.RunRecorded: asks that no template looks at a node outside the transitive dependencies (`TemplatesStable`), which the source's own check does not ensure; exact for each lookup (`Templates.StableExactly`), sufficient for a run.
- Refinement.ResolvesAlone: asks the same of templates.
- Refinement.ExecutesMeaning: asks the same of templates.
- Refinement.PreviewIsCall: asks the same of templates; `Misgrouping.WriteInParallelGroup` is what can happen otherwise.
- Refinement.ReadsInGroup: asks the same of templates.
- Refinement.GroupRecorded: asks the same of templates.
- Refinement.LayerRecorded: asks the same of templates.
- Refinement.ResultMeans: asks the same of templates.
- Definition.CheckNodes: leaves out the payload type checks and the search for static secrets.
- Definition.Validate: leaves out the payload type checks, the name, version, status and policy fields and the search for static secrets.
- Cancellation: one run with one executor; corrupt run files and hard deletion of runs are not modelled. The executor may save at any moment, which covers its saves after each group.
- Jobs: `mark_*`, `retry_job` and `cancel_job` read, check and write without one lock in the source and are taken as one step each; progress, logs, events and run lists of a job are not modelled.
- JobProtocol: `retry_job(force=True)` and soft deletion of jobs are not steps; a key is not created again after its job was deleted; crashes inside one queue method are not modelled.
- JobRuns.LateReturnEndsRetriedJob: from states with an empty queue and an idle second worker, which is where `JobRuns.ThenFenced` leads.
- Worker.RunOnce: one worker without interference and one workspace; interference is what JobProtocol covers. The file-queue iteration lock and the deletion of network inspection jobs are not modelled.
- SessionTurns.Turns.ClaimTurn: job creation is taken to succeed, and the provisional user message is not modelled. The listing is any list of jobs, so the search limit of 500 needs no assumption.
- SessionTurns.Turns.FinishTurn: run id, trace id and error text are left out.
- Requests: registry keys are the request ids themselves, so collisions of their SHA-256 names and malformed record files do not occur.
- TurnOverlap: the session's search finds its own job; two jobs of one session are not modelled. Opening a turn, the snapshot and the attachment are one step each although the source reads and writes them without one lock; stage updates, run lists and artifact references of the job are left out. A restart is a step on the job and does not stop the turns of other processes.
- Artifacts.RunKeeps: assumes that adding a reference succeeds (`Artifacts.LostWithoutReference` shows why) and that new file and reference ids are new; index compaction is not a step.
- Artifacts.Workspace.SaveArtifact: the refusals of content and the failure of the file store, which leave everything unchanged, are left out.
- Artifacts.Workspace.DeleteArtifact: cleanup by relative path of artifacts without a file record, knowledge sources and run indexes are left out.
- Artifacts.Workspace.PromoteArtifact: the new scope of the artifact is not recorded.
- FileIndex.FileIndex.Update: the claim about the map is for updates that do not rename the file; the claim about the log is for all.
- FileLocks: nested use through separate lock objects; one lock object entered twice is not modelled, nor are time-outs as durations.
- Sessions: `create_session` uses a new random id and acts as EnsureSession on it; metadata, timestamps and unreadable records are left out.
- Sessions.SessionStore.ListEntry: the filter for internal sessions, the order and the limit of the listing are left out.
- Sessions.SessionStore.DeletePermanently: run record files are one flag.
- Governance.BuildGovernance: ids are unique, as the artifact index keeps them; text fields are already stripped.
- Listing.Dedupe: ids are unique, as the artifact index keeps them; titles are already normalised.
- Memory governance, prompt rendering, extension state, release slots, providers and the frontend are outside the model.
