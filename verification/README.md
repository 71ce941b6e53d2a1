# Verified models of the embodied-inference schedulers, buffers and filters

This project models the hard parts of an inference runtime for robots: the C++ operator-graph scheduler, the
newest-wins request scheduler, the action buffer and the action processors, and the Python micro-pipeline, batching
scheduler, quantizer, token merger, prefix cache, framing and attention-mask builder. `dafny verify dfyconfig.toml`
checks all of it.

How the pieces fit together:

- **Concurrency** is a transition system: one step per critical section (or per future operation), a run is any
  alternating sequence of states and steps, and every theorem is about every run. `OperatorRun`, `MicroPipeline`,
  `RequestScheduler` and `BatchScheduler` define the steps. The code in its own form (fields, loops, critical sections)
  is a class whose methods are proved to be steps or paths of steps: `OperatorPool.Pool`,
  `MicroPipelineWorker.Pipeline`, `RequestScheduler.Scheduler`, `BatchWorker.InferenceScheduler`. Each of these methods
  also states its new state outright, so a step means what the code does and not merely what the transition function says.
- **Sequential state** is a class whose methods are tied to functions on values (`ActionBuffer.Buffer`,
  `PrefixCache.Plugin`, `ActionQuant.Plugin`, `TokenMerge.Plugin`, `Framing.Socket`); the theorems are about those functions over whole histories.
- **Loops over data** are methods with invariants, tied to a specification that does not mention the loop.

Files, one component each: `OperatorGraph` (validation), `OperatorRun`, `OperatorRunInvariants`,
`OperatorRunTheorems`, `OperatorPool` (the worker pool), `MicroPipeline`, `MicroPipelineInvariants`,
`MicroPipelineTheorems`, `MicroPipelineCancellation`, `MicroPipelineOrder`, `MicroPipelineDelivery`,
`MicroPipelineWorker`, `RequestScheduler`, `RequestFates`,
`BatchScheduler`, `BatchInvariants`, `BatchTheorems`, `BatchRequests`, `BatchWorker`, `ActionBuffer`, `ActionProcessors`, `ShapeCheck`, `ActionQuant`, `TokenMerge`, `TextMask`,
`PrefixCache`, `Framing`; `Collections` and `Status` hold shared definitions.

Conventions: floats are exact reals plus the three non-finite values of IEEE 754; integers are unbounded except where the source's
64-bit arithmetic matters (control steps and tensor shapes), which is written out; operator functions, stages, runners,
prefixers, the JSON codec and the choice of the most similar pair are arbitrary total functions; the clock is advanced
by a step of the environment.

## Where the code does not do what one would expect

Each of these is a property that looks right and is false of the code. The model follows the code; a lemma gives a
concrete failing input or run and another states exactly when the property holds.

- Token merging does not always end. With `keep <= protected < n` the single unprotected row left is merged with itself
  forever; `TokenMerge.TerminatesIff` shows that this is the only case, and `TokenMerge.CompressCanDiverge` that a
  permitted configuration reaches it.
- Cancelling a Python future after its `cancelled()` check can kill the worker thread that sets it, because setting a
  cancelled future raises out of the loop; when it was the only one, other requests are stuck for ever
  (`MicroPipelineCancellation.LateCancellationStrands` with `MicroPipelineCancellation.DeadForever`,
  `BatchTheorems.LateCancellationStrands` and `BatchTheorems.ExpiryCancellationStrands` with
  `BatchTheorems.DeadForever`). In the pipeline a worker is lost if and only if the cancelled item was
  being worked on at the last stage or at a stage that raises on it (`MicroPipelineCancellation.DoomedIffFatal`); in
  the batching scheduler if and only if the request was past its test and not yet set (`BatchTheorems.DoomedIffLate`).
- A control step can be popped twice: the largest 64-bit step, because the minimum saturates there
  (`ActionBuffer.MaximumCanRepeat`). Below it pops strictly increase (`ActionBuffer.PopsIncrease`).
- The slew limit can be exceeded at step 0 when the robot starts outside the box
  (`ActionProcessors.FirstStepCanJump`). `ActionProcessors.FilteredIsSafe` states exactly when: the limit holds if and
  only if the box is within one delta of the start.
- The quantizer does not reconstruct every calibrated channel within half a scale (`ActionQuant.FarRangeFails`): it does
  so if and only if the range comes within half a scale of zero, or, for a constant channel, is no further from zero
  than the largest code and a half (`ActionQuant.RangeReconstructsIff`, `ActionQuant.ConstantChannels`).
- The safety filter does not always deliver finite numbers: a non-finite proprioceptive state can pass through it
  (`ActionProcessors.NonFiniteStartPasses`). An output is finite if and only if some action of its dimension up to it
  recovers the start state (`ActionProcessors.OutputFiniteIff`); all outputs are finite if and only if the first row of
  actions recovers every dimension (`ActionProcessors.AllFiniteIff`).
- The terminal stage is not the single place where a future is resolved, as a comment in `micro_pipeline.py`
  (lines 98-100) has it: a stage that raises resolves it too (`MicroPipelineCancellation.FirstStageResolves`). A pending
  future is resolved exactly when a worker ends a stage on it that is the last one or raises
  (`MicroPipelineCancellation.ResolvedWhere`).

## Model

| member | source | states |
|---|---|---|
| OperatorGraph.Validate | src/operator_scheduler.cpp:47-85 | accepts exactly the graphs whose dependencies are in range, duplicate-free and admit a rank function, equivalently have no cycle; otherwise the error names the first defect in scan order, and a cycle is reported only when the scan is clean |
| OperatorGraph.Scan | src/operator_scheduler.cpp:48-62 | in-degrees equal the dependency counts, or the first defect met in scan order |
| OperatorGraph.Roots | src/operator_scheduler.cpp:63-66 | queues exactly the nodes that wait for nothing, each once |
| OperatorGraph.Release | src/operator_scheduler.cpp:72-79 | after the inner loop every counter counts the dependencies not yet visited, no counter underflows, and exactly the newly free nodes were queued |
| OperatorGraph.Visit | src/operator_scheduler.cpp:63-80 | visits each node at most once, dependencies first, and stops only when every unvisited node depends on an unvisited node |
| OperatorGraph.ExhaustedDecides | src/operator_scheduler.cpp:81-84 | the visit reaches all nodes if and only if the graph has a rank function |
| OperatorGraph.StuckHasCycle | src/operator_scheduler.cpp:81-83 | a set of nodes each depending on a node of the set contains a cycle (pigeonhole on a walk) |
| OperatorGraph.RankAlongPath | src/operator_scheduler.cpp:47-85 | ranks grow along every dependency path, so a ranked graph has no cycle |
| OperatorGraph.AcyclicMeansNoCycle | src/operator_scheduler.cpp:81-84 | the two readings of acyclic agree: a rank function exists if and only if there is no cycle |
| OperatorGraph.OrderRanks | src/operator_scheduler.cpp:67-84 | a complete topological order is a rank function |
| OperatorRun.RunningIsSumOfLanes | src/operator_scheduler.cpp:131-135 | the running workers are the sum of the workers on the four lanes |
| OperatorRunInvariants.InvStep | src/operator_scheduler.cpp:141-216 | every step of every worker keeps the lane, node, running, failure and wakeup invariants together |
| OperatorRunInvariants.RunInv | src/operator_scheduler.cpp:96-224 | every state of every run of a validated graph satisfies the invariant |
| OperatorRunInvariants.FreedIsFree | src/operator_scheduler.cpp:205-211 | after a completion the ready heap is again exactly the nodes not started that wait for nothing |
| OperatorRunInvariants.WakeStep | src/operator_scheduler.cpp:146-156 | no step puts or leaves a worker asleep while the wait predicate holds unless a notification is on its way |
| OperatorRunTheorems.NoDeadlock | src/operator_scheduler.cpp:141-224 | until every worker has exited, some worker can take a step that is neither a spin nor a spurious wakeup |
| OperatorRunTheorems.WorkIsEnabled | src/operator_scheduler.cpp:141-224 | while nodes remain and nothing has failed, a pick, a finish or a notification is enabled |
| OperatorRunTheorems.NoLostWakeup | src/operator_scheduler.cpp:145-156 | a sleeper whose wait predicate holds is about to be notified by another worker |
| OperatorRunTheorems.ProgressDecreases | src/operator_scheduler.cpp:141-216 | every step except a spin strictly decreases a measure; a spin changes nothing |
| OperatorRunTheorems.RunsAreBounded | src/operator_scheduler.cpp:141-224 | a run has at most (2w+1)*3n + w steps other than spins, for n operators and w workers |
| OperatorRunTheorems.PicksAndFinishes | src/operator_scheduler.cpp:158-213 | picks equal operators started (at most n) and finishes equal picks minus operators running, so at most 2n of them |
| OperatorRunTheorems.StartsAfterDependencies | src/operator_scheduler.cpp:117-127 | in every interleaving an operator starts once and only after all its dependencies completed |
| OperatorRunTheorems.StartsByPriority | src/operator_scheduler.cpp:109-176 | whenever an operator starts, every other operator of the graph that has not started, whose dependencies have all completed and whose device has a free place, has a smaller priority, or the same and a larger id |
| OperatorRunTheorems.StartableIffCandidate | src/operator_scheduler.cpp:117-174 | the heap and the lane counters know exactly the startable operators of the graph |
| OperatorRunTheorems.NothingStartsAfterFailure | src/operator_scheduler.cpp:200-204 | once stopped, nothing starts, nothing completes and the recorded failure never changes |
| OperatorRunTheorems.NoDescendantRuns | src/operator_scheduler.cpp:195-213 | no operator downstream of the failed one starts, at any point of the run |
| OperatorRunTheorems.LaneSafety | src/operator_scheduler.cpp:131-169 | at most cpu_workers, gpu_workers, npu_workers and io_workers operators of the cpu, gpu, npu and io device run at once and the four counters say how many; running equals the workers running and is at most the peak, which is at most the pool, one worker for each place |
| OperatorRunTheorems.WorkConservation | src/operator_scheduler.cpp:218-222 | a ready operator whose lane has room always has a worker that is neither running nor exited |
| OperatorRunTheorems.PeakIsExact | src/operator_scheduler.cpp:169-169 | the reported peak is the maximum of running over the run: never exceeded and attained |
| OperatorRunTheorems.FirstFailureIsRecorded | src/operator_scheduler.cpp:200-204 | the failure recorded is that of the first bad finish in the run, with its operator and status; none is recorded if and only if there was no bad finish |
| OperatorRunTheorems.CompletedIsWholeGraph | src/operator_scheduler.cpp:204-211 | when all workers exit without a stop, every node completed exactly once, in topological order |
| OperatorRunTheorems.RunIsCorrect | src/operator_scheduler.cpp:224-231 | a run that can go no further without a spurious wakeup has joined all workers; it succeeds if and only if no operator failed, and then reports the name of every operator once in topological order and the largest number that ever ran at once; otherwise it returns the code of the first bad status, with the name of its operator before the message |
| OperatorPool.SelectCandidate | src/operator_scheduler.cpp:158-176 | selects, among the ready operators whose lane has room, the one of largest priority and then smallest id, and puts all deferred ones back; or finds that none fits and leaves the heap as it was |
| OperatorPool.BuildChildren | src/operator_scheduler.cpp:117-122 | counters equal the open dependencies; children lists are exact and duplicate-free |
| OperatorPool.ReadyRoots | src/operator_scheduler.cpp:124-127 | the roots are the nodes that wait for nothing |
| OperatorPool.ReleaseChildren | src/operator_scheduler.cpp:207-211 | counters stay exact, never underflow, and exactly the operators freed by the completion are pushed |
| OperatorPool.Pool.constructor | src/operator_scheduler.cpp:117-139 | one worker for each place of each lane, and the operators without dependencies ready: the initial state of the transition system |
| OperatorPool.Pool.TopSection | src/operator_scheduler.cpp:145-177 | the first critical section exits exactly when stopped or finished, blocks exactly when nothing is ready, spins exactly when nothing ready fits, and otherwise moves one operator from the heap to its lane; it is that step of the system |
| OperatorPool.Pool.FinishSection | src/operator_scheduler.cpp:195-213 | the second critical section is a finish step: the lane is given back, a first failure is recorded and stops the run, a success before any failure completes the operator and readies exactly those whose last dependency it was |
| OperatorPool.Pool.Complete | src/operator_scheduler.cpp:204-211 | recording a completion keeps the counters exact and frees exactly the waiting children |
| OperatorPool.Pool.NotifyAll | src/operator_scheduler.cpp:214-214 | the notification wakes every sleeper |
| MicroPipelineInvariants.RunInv | python/embodied_infer_deploy/plugins/micro_pipeline.py:97-185 | in every state of every run each request is in exactly one place and each item carries the composition of the stages it has passed |
| MicroPipelineInvariants.PlacesStep | python/embodied_infer_deploy/plugins/micro_pipeline.py:119-172 | no step duplicates or drops a request: waiting, queued, held, accounted and lost partition the submissions |
| MicroPipelineInvariants.ComposeSnoc | python/embodied_infer_deploy/plugins/micro_pipeline.py:137-146 | running one more stage after a prefix of the stages is the longer composition |
| MicroPipelineTheorems.RefinesComposition | python/embodied_infer_deploy/plugins/micro_pipeline.py:97-172 | a resolved future holds the in-order composition of all stages on the payload carried for it, or the exception that composition raises |
| MicroPipelineTheorems.ClientGetsComposition | python/embodied_infer_deploy/plugins/micro_pipeline.py:158-172 | a client that submitted a payload finds in its future, whenever it is resolved, the in-order composition of all stages on that payload, or the exception that composition raises |
| MicroPipelineTheorems.PayloadIsCarried | python/embodied_infer_deploy/plugins/micro_pipeline.py:171-171 | the pipeline carries for every future the payload of the submission that handed it out |
| MicroPipelineTheorems.FutureWasSubmitted | python/embodied_infer_deploy/plugins/micro_pipeline.py:165-172 | every future was handed out by a submission |
| MicroPipelineTheorems.ResolvedOnce | python/embodied_infer_deploy/plugins/micro_pipeline.py:137-146 | a future that holds a result or an exception never changes again |
| MicroPipelineTheorems.HeldIsUnresolved | python/embodied_infer_deploy/plugins/micro_pipeline.py:129-146 | a worker never holds an item whose future is already resolved |
| MicroPipelineTheorems.OneHolder | python/embodied_infer_deploy/plugins/micro_pipeline.py:129-152 | two workers never hold the same request |
| MicroPipelineTheorems.QueuesBounded | python/embodied_infer_deploy/plugins/micro_pipeline.py:101-104 | every queue stays within max_in_flight, and the extra last queue is never used |
| MicroPipelineTheorems.InFlightIsExact | python/embodied_infer_deploy/plugins/micro_pipeline.py:154-171 | submitted minus processed is exactly the requests waiting, inside the stages, lost, or counted and then refused after close |
| MicroPipelineTheorems.StageCanMove | python/embodied_infer_deploy/plugins/micro_pipeline.py:128-152 | before close an occupied stage, however full the queues behind it, implies an enabled internal step: backpressure cannot deadlock |
| MicroPipelineTheorems.NoDeadlock | python/embodied_infer_deploy/plugins/micro_pipeline.py:119-172 | before close a non-empty pipeline with live workers can always take an internal step |
| MicroPipelineTheorems.ClosedWorkersEnd | python/embodied_infer_deploy/plugins/micro_pipeline.py:128-152 | after close every live worker has a step of its own, finishing its item or leaving, and leaving loses exactly the item it could not put |
| MicroPipelineTheorems.RunsAreBounded | python/embodied_infer_deploy/plugins/micro_pipeline.py:119-172 | a run has at most 4k+1 internal steps per submitted request, for k stages |
| MicroPipelineCancellation.EveryRequestResolves | python/embodied_infer_deploy/plugins/micro_pipeline.py:119-172 | before close and without fatal cancellation, when no internal step is left every submitted request is resolved or cancelled by its client |
| MicroPipelineCancellation.DoomedIffFatal | python/embodied_infer_deploy/plugins/micro_pipeline.py:134-146 | in every run some worker is dead, or working on a cancelled future it will set, if and only if some earlier cancellation was fatal: its item was being worked on at the last stage or at a stage that raises on it |
| MicroPipelineCancellation.DeadIffFatal | python/embodied_infer_deploy/plugins/micro_pipeline.py:134-146 | when no request can be moved, some worker is dead if and only if some cancellation was fatal |
| MicroPipelineCancellation.ResolvedWhere | python/embodied_infer_deploy/plugins/micro_pipeline.py:137-146 | a pending future is resolved in a step exactly when a worker ends a stage on it that is the last one or raises |
| MicroPipelineCancellation.FirstStageResolves | python/embodied_infer_deploy/plugins/micro_pipeline.py:137-142 | a run in which a stage that is not the terminal one resolves the future |
| MicroPipelineCancellation.TimelyRunsStayIntact | python/embodied_infer_deploy/plugins/micro_pipeline.py:134-146 | before close and without fatal cancellation no worker is lost; cancellations while a stage works that neither is last nor raises are harmless |
| MicroPipelineTheorems.IntactMeansNothingLost | python/embodied_infer_deploy/plugins/micro_pipeline.py:119-152 | while all workers live no request was ever lost |
| MicroPipelineOrder.ResultsInOrder | python/embodied_infer_deploy/plugins/micro_pipeline.py:105-152 | with one worker per stage the tickets delivered increase, and precede those of everything still queued or held by a worker |
| MicroPipelineDelivery.TicketsAreRequests | python/embodied_infer_deploy/plugins/micro_pipeline.py:128-171 | with any number of workers every request arrives at most once, every item inside carries the ticket of its own request, and the log of deliveries lists exactly the requests whose futures hold a result |
| MicroPipelineDelivery.FirstComeFirstServed | python/embodied_infer_deploy/plugins/micro_pipeline.py:105-152 | with one worker per stage, of two requests that both get a result the one that arrived first gets it first: at any time at which the later one has its result, so has the earlier one |
| MicroPipelineCancellation.LateCancellationStrands | python/embodied_infer_deploy/plugins/micro_pipeline.py:134-146 | a run in which one fatal cancellation leaves another request pending with no step enabled |
| MicroPipelineCancellation.DeadForever | python/embodied_infer_deploy/plugins/micro_pipeline.py:128-152 | once no worker is left there never is one again and no future is ever resolved |
| MicroPipelineWorker.Pipeline.constructor | python/embodied_infer_deploy/plugins/micro_pipeline.py:97-117 | starts with empty queues and idle workers |
| MicroPipelineWorker.Pipeline.Submit | python/embodied_infer_deploy/plugins/micro_pipeline.py:158-172 | a new pending future for this payload, counted and waiting for room in the first queue; once close has dropped the queues the submission is counted and raises |
| MicroPipelineWorker.Pipeline.PutFirst | python/embodied_infer_deploy/plugins/micro_pipeline.py:171-171 | is the enqueue step of a waiting client |
| MicroPipelineWorker.Pipeline.CheckItem | python/embodied_infer_deploy/plugins/micro_pipeline.py:134-136 | is the check step: a cancelled item is dropped and counted |
| MicroPipelineWorker.Pipeline.RunStage | python/embodied_infer_deploy/plugins/micro_pipeline.py:137-146 | the value goes on, or the last stage or an exception sets the future and counts the item, or the future was cancelled and the worker dies |
| MicroPipelineWorker.Pipeline.PutNext | python/embodied_infer_deploy/plugins/micro_pipeline.py:147-152 | is the put step into the next queue |
| MicroPipelineWorker.Pipeline.Serve | python/embodied_infer_deploy/plugins/micro_pipeline.py:128-152 | one iteration, whatever clients and all other workers do between its steps: the item taken is dropped if it is cancelled at its check; otherwise the stage runs on it and its future gets the outcome, or its value goes into the next queue or waits for room there, or the worker is dead because the future it sets was cancelled meanwhile |
| MicroPipelineWorker.Pipeline.Close | python/embodied_infer_deploy/plugins/micro_pipeline.py:178-181 | sets the stop flag once |
| MicroPipelineWorker.Pipeline.ClearQueues | python/embodied_infer_deploy/plugins/micro_pipeline.py:182-185 | is the last step of close, after which submissions raise |
| RequestScheduler.RunInv | src/scheduler.cpp:23-95 | every state of every run keeps the order, promise, queue and wakeup invariants |
| RequestScheduler.PromisesSetOnce | src/scheduler.cpp:23-95 | no promise is set twice, and every promise is set exactly once when the worker has stopped |
| RequestScheduler.QueueIsLatest | src/scheduler.cpp:36-51 | the queue never exceeds its capacity; under keep-latest an open scheduler's queue is a contiguous run of submissions ending at the latest |
| RequestScheduler.ExecutesInOrder | src/scheduler.cpp:75-90 | requests reach the engine in submission order, each at most once |
| RequestScheduler.ShutdownCompletes | src/scheduler.cpp:57-90 | after shutdown at most pending notifications + 3 internal steps follow, whatever clients do, and when none is left, not counting on spurious wakeups, the worker has stopped and every promise is set exactly once |
| RequestScheduler.NoLostWakeup | src/scheduler.cpp:51-86 | a worker asleep although its wait predicate holds is about to be notified, by a client that queued a request or by shutdown |
| RequestScheduler.NoDeadlock | src/scheduler.cpp:75-90 | while requests are queued, one is in flight or shutdown has begun, the worker moves or is about to be notified |
| RequestScheduler.RunsAreBounded | src/scheduler.cpp:23-90 | a run has at most six internal steps for each submission, four for shutdown and one to begin with |
| RequestScheduler.DropsAreJustified | src/scheduler.cpp:36-51 | under keep-latest only a request with capacity newer submissions is superseded and none is rejected; under reject-newest none is superseded |
| RequestScheduler.SubmissionsAreConserved | src/scheduler.cpp:23-95 | submissions = executed + in flight + queued + superseded + rejected + cancelled, and the dropped metric = superseded + rejected |
| RequestFates.FatesHaveCauses | src/scheduler.cpp:29-88 | in every run a request was executed, superseded, rejected, shut down or refused if and only if the worker resolved it in flight, a submission to a full keep-latest queue found it at the front, it was submitted to a full reject-newest queue, it was queued when shutdown closed the scheduler, or it was submitted after that |
| RequestFates.ExecutedIffTaken | src/scheduler.cpp:84-88 | exactly the requests the worker took and is no longer running have the answer of the engine |
| RequestFates.TakenHaveSteps | src/scheduler.cpp:84-85 | exactly the requests found at the front of the queue by a take are taken |
| RequestFates.UnsetIffInside | src/scheduler.cpp:23-95 | a submitted promise is unset exactly while its request is queued or in flight |
| RequestFates.SubmissionsAndShutdown | src/scheduler.cpp:23-62 | one promise for each submission, and closed exactly after a shutdown |
| RequestScheduler.Scheduler.Submit | src/scheduler.cpp:23-52 | one of four outcomes, with the whole new state: refused when closed, queued when there is room, rejected, or queued in place of the superseded oldest request |
| RequestScheduler.Scheduler.NotifyOne | src/scheduler.cpp:53-53 | is the notification of a client, which wakes a sleeping worker |
| RequestScheduler.Scheduler.MakeRoom | src/scheduler.cpp:43-48 | supersedes from the front until one more request fits: the latest capacity - 1 stay and every dropped one is counted |
| RequestScheduler.Scheduler.Shutdown | src/scheduler.cpp:57-68 | the first call closes, gives exactly the queued promises the cancellation and empties the queue; later calls change nothing |
| RequestScheduler.Scheduler.NotifyAll | src/scheduler.cpp:69-69 | is the notification of shutdown |
| RequestScheduler.Scheduler.CancelQueued | src/scheduler.cpp:64-67 | cancels every queued request and empties the queue |
| RequestScheduler.Scheduler.WorkerSection | src/scheduler.cpp:79-86 | takes the oldest request if there is one, else stops if closed, else goes to sleep |
| RequestScheduler.Scheduler.ResolveTaken | src/scheduler.cpp:87-88 | the unset promise of the request in flight gets the answer of the engine, and nothing else changes but the worker |
| BatchInvariants.RunInv | python/embodied_infer_deploy/core/scheduler.py:125-217 | every state of every run keeps the queue, worker, held-request, accounting, outcome and nothing-forgotten invariants |
| BatchTheorems.LeavesInOrder | python/embodied_infer_deploy/core/scheduler.py:127-179 | requests leave the queue first in, first out, and the queue stays within its bound |
| BatchTheorems.BatchesAreBounded | python/embodied_infer_deploy/core/scheduler.py:164-202 | each batch handed to the runner has between 1 and max_batch_size requests |
| BatchTheorems.DispatchedWereChecked | python/embodied_infer_deploy/core/scheduler.py:181-202 | each request in a batch was found neither cancelled nor expired at an earlier check step of the run |
| BatchTheorems.KeptWereChecked | python/embodied_infer_deploy/core/scheduler.py:181-195 | the same for every request the worker keeps after its check |
| BatchTheorems.OutputsAreAligned | python/embodied_infer_deploy/core/scheduler.py:199-217 | when a batch is counted as completed, the runner had returned to that dispatched batch one output for each request, the counter grows by its size, and request i holds exactly output i of the reply |
| BatchTheorems.FailedBatchHoldsException | python/embodied_infer_deploy/core/scheduler.py:199-213 | when the worker counts a batch as failed, every request of it holds the error the runner raised on that dispatched batch, or, if it returned, the wrong number of outputs and the right one |
| BatchTheorems.OutcomesHaveOrigins | python/embodied_infer_deploy/core/scheduler.py:181-217 | every outcome of every run has its origin: a result is entry i of a full reply to a dispatched batch whose entry i is the request, a fault is what the runner raised on its batch, an expiry follows a check that found the deadline passed |
| BatchTheorems.CompletedBySettle | python/embodied_infer_deploy/core/scheduler.py:214-217 | the completed counter grows only by a whole batch, all of whose futures hold their own output |
| BatchTheorems.FailedBySettle | python/embodied_infer_deploy/core/scheduler.py:208-213 | the worker's failed counter grows only by a whole batch, all of whose futures hold the one exception |
| BatchTheorems.ResolvedOnce | python/embodied_infer_deploy/core/scheduler.py:181-217 | no future that holds a result or an exception is ever set again |
| BatchTheorems.TakenAreAccounted | python/embodied_infer_deploy/core/scheduler.py:128-217 | every request taken is counted once across completed, worker-failed, expired, cancelled, in hand and stranded; failed = worker-failed + rejected |
| BatchRequests.StatisticsAreExact | python/embodied_infer_deploy/core/scheduler.py:91-100 | in every run expired is the number of futures with the timeout; between batches of a live worker completed is the number of results, and failed the number of runner exceptions plus the refused submissions |
| BatchRequests.DeadlineIsKept | python/embodied_infer_deploy/core/scheduler.py:113-127 | a request keeps the deadline it was submitted with |
| BatchRequests.RequestWasAccepted | python/embodied_infer_deploy/core/scheduler.py:125-137 | every request was accepted by a submission that found room |
| BatchRequests.ExpiresOnItsDeadline | python/embodied_infer_deploy/core/scheduler.py:185-195 | at its check a request expires if and only if the deadline it was submitted with is not later than the time that has passed |
| BatchRequests.ClockAndRefusals | python/embodied_infer_deploy/core/scheduler.py:128-134 | the clock is the time that has passed, and refusals count the submissions that found the queue full |
| BatchTheorems.WorkerCanStep | python/embodied_infer_deploy/core/scheduler.py:155-217 | before close a live worker with anything queued or in hand has a step |
| BatchTheorems.StoppedWorkerLeaves | python/embodied_infer_deploy/core/scheduler.py:155-217 | after close a live worker finishes the batch in its hands and then leaves, changing nothing else |
| BatchTheorems.RunsAreBounded | python/embodied_infer_deploy/core/scheduler.py:155-217 | a run takes at most eight worker steps for each accepted request, and eight more for the stop sentinel |
| BatchTheorems.EveryRequestSettles | python/embodied_infer_deploy/core/scheduler.py:155-217 | before close and without late cancellation, when no worker step is left every accepted request has an outcome or was cancelled by its client |
| BatchTheorems.DoomedIffLate | python/embodied_infer_deploy/core/scheduler.py:183-217 | in every run the worker is dead, or a request it is committed to set is cancelled, if and only if some request was cancelled between its cancelled() test and the setting of its future, expiry included |
| BatchTheorems.DeadIffLate | python/embodied_infer_deploy/core/scheduler.py:183-217 | when the worker can do nothing more it is dead if and only if there was a late cancellation |
| BatchTheorems.DeadForever | python/embodied_infer_deploy/core/scheduler.py:155-217 | a dead worker stays dead, takes no step, and no future gets an outcome again |
| BatchTheorems.ExpiryCancellationStrands | python/embodied_infer_deploy/core/scheduler.py:183-194 | a run in which an expired request is cancelled between its test and its exception, and the next request is never served |
| BatchTheorems.LateCancellationStrands | python/embodied_infer_deploy/core/scheduler.py:199-215 | a run in which a request is cancelled while the runner works on it, and the next request is never served |
| BatchTheorems.TimelyRunsKeepTheWorker | python/embodied_infer_deploy/core/scheduler.py:183-217 | without late cancellation the worker never dies and strands nothing |
| BatchWorker.InferenceScheduler.Submit | python/embodied_infer_deploy/core/scheduler.py:102-137 | a full queue refuses and counts a failure; otherwise a pending future with this deadline is queued and counted |
| BatchWorker.InferenceScheduler.Close | python/embodied_infer_deploy/core/scheduler.py:139-146 | is a close step once, without effect afterwards |
| BatchWorker.InferenceScheduler.Collect | python/embodied_infer_deploy/core/scheduler.py:157-179 | is a path of collecting steps; the batch is the front of the queue in order, until it is full, the window closes, the queue is empty or a sentinel comes; exit exactly on a leading sentinel |
| BatchWorker.InferenceScheduler.CheckBatch | python/embodied_infer_deploy/core/scheduler.py:181-195 | whatever clients, the clock and close do between its steps, keeps exactly the requests that are neither cancelled nor expired in the state of their own turn, in order, and gives those expired in their turn the exception; or one of these was cancelled before it could be set and the worker is dead |
| BatchWorker.InferenceScheduler.CheckItem | python/embodied_infer_deploy/core/scheduler.py:183-195 | is the check step of one request |
| BatchWorker.InferenceScheduler.ExpireItem | python/embodied_infer_deploy/core/scheduler.py:189-194 | is the expiry step, including the death of the worker |
| BatchWorker.InferenceScheduler.StartBatch | python/embodied_infer_deploy/core/scheduler.py:197-202 | is the dispatch step; an empty batch goes back to the queue |
| BatchWorker.InferenceScheduler.TakeReply | python/embodied_infer_deploy/core/scheduler.py:199-208 | the error the runner raised fails the batch; one output for each request resolves it; any other number fails it with both numbers |
| BatchWorker.InferenceScheduler.SettleBatch | python/embodied_infer_deploy/core/scheduler.py:208-217 | whatever happens between its steps, gives every request its own output or the one exception and counts the batch, or the worker dies; it dies if and only if some request of the batch ends up cancelled |
| ActionBuffer.BufferHoldsFreshest | src/action_buffer.cpp:15-80 | over any history of push, pop and clear, a buffered step holds exactly the row of the most recently accepted chunk since the last clear that covers it |
| ActionBuffer.BufferedIff | src/action_buffer.cpp:26-80 | over any history a step is buffered if and only if some accepted chunk offered it at or above the minimum and since then no clear, no pop at or past it and no cut to capacity removed it |
| ActionBuffer.PushBuffers | src/action_buffer.cpp:32-53 | after an accepted push a step is buffered if and only if it was before or is covered at or above the minimum, and fewer than maximum_buffered_steps of the steps before it are; covered steps hold the row of the chunk |
| ActionBuffer.PopKeepsLater | src/action_buffer.cpp:59-72 | a pop drops its own step and the earlier ones, and keeps every later action as it is |
| ActionBuffer.MinimumIff | src/action_buffer.cpp:60-64 | a step is below the minimum exactly when it or a later one has been requested since the last clear, the saturated maximum excepted |
| ActionBuffer.AcceptsIff | src/action_buffer.cpp:16-31 | a chunk is accepted if and only if the buffer and the chunk have the right shape and no well-formed chunk with a larger request id was pushed since the last clear |
| ActionBuffer.FreshestIsLast | src/action_buffer.cpp:26-49 | the freshest chunk for a step is the accepted chunk covering it after which there was neither a clear nor another such chunk |
| ActionBuffer.PushIsTruncatedMerge | src/action_buffer.cpp:26-54 | an accepted push leaves the maximum_buffered_steps smallest steps of the merge, and no buffered action is newer than the chunk, so the id guard of line 46 is always true |
| ActionBuffer.InsertMerges | src/action_buffer.cpp:32-49 | the insertion loop is the pointwise merge of the chunk over the buffer at or above the minimum, with 64-bit wrap-around of control steps |
| ActionBuffer.TruncateKeepsSmallest | src/action_buffer.cpp:51-53 | erasing from the far end keeps the smallest steps with their rows |
| ActionBuffer.KeepsSmallestIsUnique | src/action_buffer.cpp:51-53 | keeping the smallest steps determines the buffer |
| ActionBuffer.PopReturnsFreshest | src/action_buffer.cpp:57-73 | a successful pop returns, entry for entry, the row of the freshest chunk that lies as far from its first row as the step from its first step, modulo 2^64, with its request id and representation |
| ActionBuffer.NothingReintroduced | src/action_buffer.cpp:27-36 | until a clear, no chunk brings back a step at or before one already requested (except the largest 64-bit step) |
| ActionBuffer.PopsIncrease | src/action_buffer.cpp:57-80 | between clears a successful pop comes after every earlier requested step if and only if that step is below the largest 64-bit value |
| ActionBuffer.MaximumCanRepeat | src/action_buffer.cpp:60-64 | the largest 64-bit step can be popped twice |
| ActionBuffer.ReplayInv | src/action_buffer.cpp:15-80 | on every history the buffer is within capacity, keyed by control step, at or above the minimum and no newer than the latest id |
| ActionBuffer.Buffer.Push | src/action_buffer.cpp:15-55 | the three rejections in order, each exactly when it applies and leaving the buffer alone; otherwise the covered steps at or above the minimum are merged in and the smallest steps kept |
| ActionBuffer.Buffer.MergeRows | src/action_buffer.cpp:32-49 | the loop computes the insertion of all rows |
| ActionBuffer.Buffer.EvictLargest | src/action_buffer.cpp:51-53 | the loop computes the truncation |
| ActionBuffer.Buffer.Pop | src/action_buffer.cpp:57-73 | returns the action of the step, or not-ready exactly when it is not buffered; keeps exactly the later actions and raises the minimum with saturation |
| ActionBuffer.Buffer.Clear | src/action_buffer.cpp:75-80 | back to the initial state |
| ShapeCheck.CheckShape | src/processors.cpp:103-117 | accepts if and only if all extents are positive and their unbounded product is the data length; reports an invalid shape if and only if an extent is not positive or the product exceeds 64 bits |
| ShapeCheck.GuardIsExact | src/processors.cpp:106-108 | the division guard fires exactly when the product would exceed 64 bits |
| ActionProcessors.FilteredIsSafe | src/processors.cpp:184-226 | every output is in its box; it is within maximum_delta of the previous value always after step 0, and at step 0 if and only if the box is within reach of the start |
| ActionProcessors.OutputsRespectConfiguration | src/processors.cpp:191-224 | the output for dimension d of every step respects the bounds configured for d (or the single one, or none), and its distance to the step before respects the slew limit of d |
| ActionProcessors.LimitsAreConfigured | src/processors.cpp:203-215 | the limits applied to a dimension are its configured entries, and they are inconsistent exactly when a configured lower bound exceeds the upper one or a slew limit is negative |
| ActionProcessors.NonFiniteHoldsStill | src/processors.cpp:195-201 | an action that is not finite repeats the output of the step before; at step 0 it gives the point of the box nearest to the start |
| ActionProcessors.FaultIff | src/processors.cpp:195-215 | an entry is faulty exactly when it is not finite and those are rejected, or its dimension has inconsistent bounds |
| ActionProcessors.FirstStepCanJump | src/processors.cpp:217-221 | a start outside the box makes the first action exceed the slew limit |
| ActionProcessors.FilteredIsNearest | src/processors.cpp:217-221 | each output is the nearest point of box and slew window, whenever they meet |
| ActionProcessors.LimitIsNearest | src/processors.cpp:217-221 | the three clamps give the unique nearest point of the intersection |
| ActionProcessors.LimitIsSafe | src/processors.cpp:217-221 | the three clamps always end in the box, and in the window exactly when it meets the box |
| ActionProcessors.FirstClampIsRedundant | src/processors.cpp:217-221 | the first of the three clamps changes nothing |
| ActionProcessors.FilterIsIdempotent | src/processors.cpp:191-225 | filtering a filtered trajectory changes nothing |
| ActionProcessors.OutputFiniteIff | src/processors.cpp:184-226 | for any start state, an output is finite (and then in its box) if and only if some action of its dimension up to it recovers the start state, a condition on the start state, the bounds and the actions alone |
| ActionProcessors.AllFiniteIff | src/processors.cpp:184-226 | all outputs of a non-empty trajectory are finite if and only if the first row of actions recovers every dimension of the start state |
| ActionProcessors.StuckOrFinite | src/processors.cpp:184-226 | a dimension is exactly its start state until some action recovers it, and finite from then on |
| ActionProcessors.RecoveredIsSafe | src/processors.cpp:191-225 | once a dimension is finite it stays so, in its box and within maximum_delta of the value before, whatever it started from |
| ActionProcessors.FiniteStartAgrees | src/processors.cpp:184-226 | from a finite start state the floating-point filter is the filter on reals |
| ActionProcessors.FiniteIffRecovers | src/processors.cpp:194-223 | the three clamps on IEEE 754 values give a finite result exactly in the named cases |
| ActionProcessors.NonFiniteStartPasses | src/processors.cpp:184-223 | a NaN state with a NaN action passes when non-finite actions are not rejected, and an infinite state overrides a finite action even when they are |
| ActionProcessors.UnchangedIffSafe | src/processors.cpp:191-225 | from a start within reach, a trajectory passes unchanged if and only if it is finite and safe at every entry |
| ActionProcessors.DecodedIsPrefixSum | src/processors.cpp:139-149 | a decoded entry is the start state plus all deltas of its dimension up to and including its step |
| ActionProcessors.GentleTrajectoriesPass | src/processors.cpp:126-226 | deltas within the slew limit whose sums stay in the box decode to a trajectory that the filter leaves unchanged |
| ActionProcessors.DecodeDeltas | src/processors.cpp:126-152 | which inputs are rejected unchanged, and the in-place array of prefix sums otherwise |
| ActionProcessors.DecodeRows | src/processors.cpp:139-149 | the nested loops rewrite the array into the decoded trajectory |
| ActionProcessors.FilterActions | src/processors.cpp:157-227 | for any proprioceptive state, finite or not: representation, shape and bound-size errors are reported in that order and leave the chunk untouched; otherwise entries are filtered in order from the reported state (zero where it is too short) up to the first faulty one, whose fault is the status |
| ActionProcessors.FilterRows | src/processors.cpp:191-226 | the nested loops filter in place and stop at the first non-finite value (when rejected) or inconsistent bound |
| ActionQuant.RangeReconstructsIff | python/embodied_infer_deploy/plugins/action_quant.py:121-160 | a fitted channel reconstructs every value of its range within half a scale if and only if the range is representable: within half a scale of zero if its weights differ, no further from zero than the largest code and a half if they are constant |
| ActionQuant.ConstantReconstructsIff | python/embodied_infer_deploy/plugins/action_quant.py:123-126 | the constant case, which the source fits with scale one |
| ActionQuant.ConstantChannels | python/embodied_infer_deploy/plugins/action_quant.py:123-126 | a constant 5.25 comes back at eight bits, a constant 300 does not |
| ActionQuant.RangeAroundZeroReconstructs | python/embodied_infer_deploy/plugins/action_quant.py:121-160 | in particular whenever the range contains zero |
| ActionQuant.ReconstructsIff | python/embodied_infer_deploy/plugins/action_quant.py:141-159 | a value is reconstructed within half a scale if and only if it lies within half a scale of the representable interval |
| ActionQuant.ClipErrorBound | python/embodied_infer_deploy/plugins/action_quant.py:143-144 | rounding ties to even and then clipping is within a half exactly on the half-widened code range, the tie at qmax+1 included |
| ActionQuant.TieIsClipped | python/embodied_infer_deploy/plugins/action_quant.py:143-144 | a calibrated maximum whose code reaches qmax+1 is clipped and still within half a scale |
| ActionQuant.FarRangeFails | python/embodied_infer_deploy/plugins/action_quant.py:124-126 | a range far from zero is not reconstructed |
| ActionQuant.CodesRoundTrip | python/embodied_infer_deploy/plugins/action_quant.py:132-160 | quantize(dequantize(q)) = q for every code in range |
| ActionQuant.QuantizeIsMonotone | python/embodied_infer_deploy/plugins/action_quant.py:143-144 | quantization preserves order |
| ActionQuant.AllocateBits | python/embodied_infer_deploy/plugins/action_quant.py:111-115 | exactly the selected channels get the wide code |
| ActionQuant.SensitiveAreMostImportant | python/embodied_infer_deploy/plugins/action_quant.py:112-115 | no unselected channel is more important than a selected one, and the selection has the configured size, capped by the channels |
| ActionQuant.SensitiveShare | python/embodied_infer_deploy/plugins/action_quant.py:112-115 | the number of wide channels is the configured share to within a half, at least one and at most all |
| ActionQuant.RowRange | python/embodied_infer_deploy/plugins/action_quant.py:117-118 | minimum and maximum of a channel |
| ActionQuant.Fit | python/embodied_infer_deploy/plugins/action_quant.py:117-126 | every channel is calibrated to its own range, with a positive scale and a zero point within the codes |
| ActionQuant.CalibratedWeightsReconstruct | python/embodied_infer_deploy/plugins/action_quant.py:117-160 | every calibrated weight of a channel whose range contains zero survives the round trip within half a scale |
| ActionQuant.QuantizeMatrix | python/embodied_infer_deploy/plugins/action_quant.py:132-145 | rejects a channel mismatch, otherwise quantizes channel by channel into codes in range |
| ActionQuant.RowCodesRoundTrip | python/embodied_infer_deploy/plugins/action_quant.py:132-160 | a whole row of codes survives dequantize and quantize |
| ActionQuant.SecondPassIsExact | python/embodied_infer_deploy/plugins/action_quant.py:132-160 | quantizing and dequantizing a second time loses nothing more |
| ActionQuant.Plugin.FitWeights | python/embodied_infer_deploy/plugins/action_quant.py:103-130 | rejects importance scores of the wrong length and keeps the old state; otherwise stores channels calibrated to their rows with the width their importance earned |
| ActionQuant.Plugin.QuantizeWeights | python/embodied_infer_deploy/plugins/action_quant.py:132-145 | not fitted, wrong channels, or every row quantized with its own channel |
| ActionQuant.Plugin.DequantizeCodes | python/embodied_infer_deploy/plugins/action_quant.py:147-160 | not fitted, wrong channels, or every row dequantized with its own channel |
| ActionQuant.Plugin.Reconstruct | python/embodied_infer_deploy/plugins/action_quant.py:162-166 | not fitted, wrong channels, or every row through its channel and back; on the fitted weights a channel, constant or not, comes back within half its scale if and only if its range is representable at its width |
| ActionQuant.Plugin.MeanErrors | python/embodied_infer_deploy/plugins/action_quant.py:162-167 | the mean squared round-trip error of each channel |
| ActionQuant.MeanSquareOfConstant | python/embodied_infer_deploy/plugins/action_quant.py:167-167 | a row that is off by x everywhere, in either direction, has mean squared error x * x |
| ActionQuant.MeanSquareConcat | python/embodied_infer_deploy/plugins/action_quant.py:167-167 | the mean error of two rows together is the mean of their errors weighted by their lengths |
| ActionQuant.ChannelReconstructsIff | python/embodied_infer_deploy/plugins/action_quant.py:117-160 | all weights of a calibrated channel, constant or not, survive the round trip within half the scale if and only if its range is representable |
| ActionQuant.ChannelErrorBound | python/embodied_infer_deploy/plugins/action_quant.py:162-167 | the error reported for a representable channel is at most a quarter of the squared scale |
| ActionQuant.DequantizeMatrix | python/embodied_infer_deploy/plugins/action_quant.py:147-160 | rejects a channel mismatch, otherwise dequantizes channel by channel |
| TokenMerge.CosineMerge | python/embodied_infer_deploy/plugins/token_merge.py:56-73 | whenever it ends: exactly keep rows after exactly n - keep iterations (or the input, if already short enough), the protected prefix untouched, and the other rows built from disjoint groups that use every unprotected row exactly once |
| TokenMerge.TerminatesIff | python/embodied_infer_deploy/plugins/token_merge.py:60-72 | the loop ends if and only if not keep <= protected < n |
| TokenMerge.ShrinksToKeep | python/embodied_infer_deploy/plugins/token_merge.py:60-72 | with keep above protected each iteration removes exactly one row until keep are left |
| TokenMerge.HopelessStays | python/embodied_infer_deploy/plugins/token_merge.py:60-72 | with keep <= protected < n the stream never gets down to the protected rows |
| TokenMerge.CompressCanDiverge | python/embodied_infer_deploy/plugins/token_merge.py:119-127 | a permitted configuration reaches the endless loop |
| TokenMerge.RowsAreConvex | python/embodied_infer_deploy/plugins/token_merge.py:67-72 | every merged row is a convex combination of the input rows of its group: weights non-negative, summing to one, positive exactly inside the group |
| TokenMerge.StepLineage | python/embodied_infer_deploy/plugins/token_merge.py:61-72 | one merge joins two groups and keeps every unprotected input row in exactly one group |
| TokenMerge.StepPlaces | python/embodied_infer_deploy/plugins/token_merge.py:61-72 | one merge keeps the protected rows, closes the others up in order over the two that were picked, and puts the mean of those two last |
| TokenMerge.ProtectedAreMostSalient | python/embodied_infer_deploy/plugins/token_merge.py:120-125 | no row that may be merged is more salient than a protected one |
| TokenMerge.Plugin.Compress | python/embodied_infer_deploy/plugins/token_merge.py:102-131 | disabled or zero-ratio streams pass unchanged; otherwise the stream, reordered by saliency if given, is merged to the computed length with its protected prefix intact, and both counters advance |
| TextMask.BuildMask | python/embodied_infer_deploy/models/turbovla/split_tensorrt.py:230-241 | the loop builds the mask and the position ids of the interval classes, for any increasing special positions |
| TextMask.MaskIsIntervalEquivalence | python/embodied_infer_deploy/models/turbovla/split_tensorrt.py:230-241 | the mask is reflexive, symmetric and transitive, its classes are contiguous, and every position id is the offset from the start of its class |
| TextMask.ClassesAreIntervals | python/embodied_infer_deploy/models/turbovla/split_tensorrt.py:234-241 | everything between the start of a class and a member belongs to the class |
| TextMask.BlockJoins | python/embodied_infer_deploy/models/turbovla/split_tensorrt.py:239-240 | a closing special position joins exactly the positions after the previous one |
| TextMask.MaskIsBlocks | python/embodied_infer_deploy/models/turbovla/split_tensorrt.py:230-241 | two positions see each other if and only if they are equal or one block between consecutive special positions, closed by an inner one, holds both; a position in a block is numbered from its start, any other is numbered zero |
| TextMask.SameClassIffSameBlock | python/embodied_infer_deploy/models/turbovla/split_tensorrt.py:234-241 | the same after any number of special positions |
| TextMask.CloseBlock | python/embodied_infer_deploy/models/turbovla/split_tensorrt.py:238-240 | the in-place writes of a closing special position add exactly one more block |
| TextMask.MarkBoundary | python/embodied_infer_deploy/models/turbovla/split_tensorrt.py:235-237 | the boundary branch writes what is already there |
| PrefixCache.CacheIsMostRecent | python/embodied_infer_deploy/plugins/prefix_cache.py:94-130 | over any history of gets and puts the cache holds exactly the max_entries most recently touched distinct keys, in order of recency |
| PrefixCache.RecencyIsLastTouch | python/embodied_infer_deploy/plugins/prefix_cache.py:94-130 | the order of recency lists exactly the touched keys, each once, and of two keys the later one has been touched since the earlier one last was |
| PrefixCache.CachedIsLastStored | python/embodied_infer_deploy/plugins/prefix_cache.py:94-130 | over any history, puts included, a cached prefix is the one last stored under its key by a put or by a get that missed |
| PrefixCache.HitsAreRecent | python/embodied_infer_deploy/plugins/prefix_cache.py:116-121 | the hits are the gets whose key was among the max_entries most recently touched |
| PrefixCache.LargerCacheIncludes | python/embodied_infer_deploy/plugins/prefix_cache.py:94-130 | on the same history a larger cache contains the smaller one and never has fewer hits |
| PrefixCache.StatisticsAddUp | python/embodied_infer_deploy/plugins/prefix_cache.py:116-126 | hits plus misses equal the gets |
| PrefixCache.PrefixesAreComputed | python/embodied_infer_deploy/plugins/prefix_cache.py:105-130 | without explicit puts every cached prefix is the prefixer's result for an earlier text with the same key |
| PrefixCache.SameKeyIffSameWords | python/embodied_infer_deploy/plugins/prefix_cache.py:83-87 | two texts share a normalised key if and only if they have the same words; normalising twice changes nothing |
| PrefixCache.SplitOfJoin | python/embodied_infer_deploy/plugins/prefix_cache.py:83-87 | splitting the joined words gives the words back |
| PrefixCache.SplitIs | python/embodied_infer_deploy/plugins/prefix_cache.py:86-86 | what split does, completely: nothing has no words, a text without white space is one word, and white space separates the words on both sides of it |
| PrefixCache.NormalizeIsStripped | python/embodied_infer_deploy/plugins/prefix_cache.py:86-86 | the normalised key has no white space at either end, so the final strip does nothing, and only single blanks inside |
| PrefixCache.Plugin.GetOrCompute | python/embodied_infer_deploy/plugins/prefix_cache.py:105-130 | disabled, hit, fallback and computed cases, with the new cache and counters of each |
| PrefixCache.Plugin.Put | python/embodied_infer_deploy/plugins/prefix_cache.py:94-103 | stores at the recent end and evicts the oldest, leaving the statistics alone |
| PrefixCache.Plugin.Shrink | python/embodied_infer_deploy/plugins/prefix_cache.py:128-129 | the loop evicts from the old end until the cache fits |
| Framing.StreamRoundTrip | python/embodied_infer_deploy/protocol.py:312-340 | parsing the bytes of any list of frames with metadata in bounds gives the same metadata (with blob_sizes) and blobs in order, consuming exactly their bytes |
| Framing.RecvFrames | python/embodied_infer_deploy/protocol.py:325-340 | repeated recv_frame on a fragmented connection is parsing the byte stream, frame after frame, errors included |
| Framing.RecvMessages | python/embodied_infer_deploy/protocol.py:302-340 | however the bytes of a list of frames are cut into fragments, receiving that many frames gives their messages in order and leaves exactly the bytes after them |
| Framing.FrameRoundTrip | python/embodied_infer_deploy/protocol.py:312-340 | one frame, whatever follows it on the stream |
| Framing.ReceivedIff | python/embodied_infer_deploy/protocol.py:325-340 | whatever the bytes, a message is received, leaving a rest, if and only if the bytes are a frame with that message (magic, length within bounds, metadata that decodes, blobs of the announced sizes) followed by that rest |
| Framing.RejectedIff | python/embodied_infer_deploy/protocol.py:331-338 | a wrong magic, an announced length out of bounds and metadata that does not decode are each reported exactly when the bytes say so |
| Framing.FrameLayout | python/embodied_infer_deploy/protocol.py:319-322 | the bytes sent are the magic, the big-endian length, the metadata and the blobs, in that order |
| Framing.BlobsRoundTrip | python/embodied_infer_deploy/protocol.py:339-339 | the blobs are recovered from their concatenation and sizes |
| Framing.UnpackOfPack | python/embodied_infer_deploy/protocol.py:322-333 | the four-byte big-endian length round trips |
| Framing.WireIsInjective | python/embodied_infer_deploy/protocol.py:312-340 | two lists of frames, of whatever lengths, with the same bytes are received the same |
| Framing.RecvExact | python/embodied_infer_deploy/protocol.py:302-309 | however the bytes are fragmented, returns exactly the next bytes, and fails exactly when the stream ends before them |
| Framing.RecvFrame | python/embodied_infer_deploy/protocol.py:325-340 | however the bytes are fragmented, agrees with parsing the whole byte stream, on every input and every error |
| Framing.RecvBlobs | python/embodied_infer_deploy/protocol.py:339-339 | the blob loop agrees with parsing the byte stream |
| Framing.Socket.Recv | python/embodied_infer_deploy/protocol.py:305-305 | returns a prefix of the stream, empty only at its end |

## Left out

- `OperatorGraph::add`, the capacity check of the scheduler's constructor, and the returns of `run` before the workers start (invalid graph, already cancelled or expired, empty graph): one branch each.
- Cancellation and deadline during `run`, and exceptions of operator functions: they are one of the statuses with which an operator may finish.
- Threads, mutexes and the condition variable themselves: a critical section is one step, and a spurious wakeup that finds the predicate false is no step at all.
- Fairness and spinning: a worker that finds every lane full takes a step that changes nothing, so termination counts the other steps only.
- The join of shutdown: it returns once the worker has stopped.
- The answer of the engine: a promise is marked as set with it; what the engine computes is not modelled.
- MicroPipelineWorker.Pipeline.Submit: is for the native mode; the fallback mode returns the payload at once. Counting a submission and looking up the first queue are one step.
- In the Python models, setting a future and counting it are one step.
- BatchTheorems.EveryRequestSettles: is about an open scheduler; requests left in the queue after close are not resolved by design of the loop. The same holds for MicroPipelineCancellation.EveryRequestResolves.
- An idle Python worker may take another item after the stop flag is set, as it may when close comes between its test and its get. The theorems over runs allow for it; the theorems that a step is enabled are about open schedulers, or, after close, about leaving.
- Parsing of payloads, timeouts and metrics of the batching scheduler: the deadline is a parameter of submission.
- Rounding and overflow of floating-point arithmetic in the filter, the quantizer and the merger: finite values are exact reals.
- ActionProcessors.FilterActions: assumes finite configured bounds; an absent bound is an absent option.
- Wrap-around of `steps * action_dim` in the buffer and the processors: lengths are the true product.
- The image and proprioception checks of `ObservationValidator`, and the non-finite test of extra tensors: one branch each.
- The channel axis handling of the quantizer: operations take the channel matrix.
- ActionQuant.Plugin.MeanErrors: requires non-empty channels, because the mean of an empty channel is not a number.
- ActionQuant.Fit: requires non-empty channels, because the minimum of an empty channel raises in numpy.
- ActionQuant.AllocateBits: takes the result of argsort as a parameter, so ties may be broken in any way.
- TokenMerge.CosineMerge: requires that the input is not in the endless case, which is exactly the termination condition proved beside it, and takes the most similar pair as an arbitrary choice of two distinct rows.
- TokenMerge.Plugin.Compress: takes the ranking of the tokens as a parameter, so ties may be broken in any way; inputs that are not two-dimensional arrays and injected mergers are not modelled.
- TextMask.BuildMask: takes the length as a parameter, 256 in the source, and the special positions as given; tokenisation is not modelled.
- PrefixCache.Plugin.GetOrCompute: is one step, so two threads computing the same key at the same time are not modelled; the key function is a parameter, either the identity or the normalisation.
- `lookup`, `reset` and the reported statistics of the prefix cache, and `size` of the action buffer: they only read or reset.
- `pack_array`, `unpack_array`, the message envelope and every transport, server and command line: input and output around libraries that are not part of this model.
- JSON: an arbitrary codec that round trips metadata and reports its blob sizes.
- Registries, configuration parsing, device backends, fused operators, routing and hardware adapters: no behaviour that spans several operations.
