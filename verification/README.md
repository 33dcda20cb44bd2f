# KernelQ: verified model

KernelQ is a job orchestrator: a Python control plane admits and schedules jobs, Go workers execute
them, and two Kafka topics connect the two.  This project models its hard parts in Dafny and proves
what they promise.

**Schedulers.**  `WeightCycle` builds one lap of turns from GCD-reduced weights.  `TenantRotation` is
the pointer that walks it and skips idle tenants; waiting bounds and shares are proved there, for
every interleaving of arrivals and turns.  `TenantQueues` adds the queues of jobs, with FIFO or
best-first choice within a tenant.  The classes in `WeightedRoundRobin`, `ComposedScheduler` and
`PriorityScheduler` are proved to be runs of that machine.  `SchedulerMetrics`, `CompareSchedulers` and
`PolicyRunners` prove that four policies on one workload report the same totals, and exactly when.

**Durable lifecycle.**  `JobRepository` is the jobs table with one atomic step per SQL statement;
`BatchedSelection` is `ORDER BY ... LIMIT` applied repeatedly.  `DispatchBudget` proves budgets over
every run of claims, worker results, retry scans, replays and API writes; `JobApi` is cancel and retry;
`ConcurrentClaims` interleaves the lock and commit steps of any number of scheduler sessions.

**At-least-once pipeline.**  `IdempotencyKeys` and `ClaimStore` are the claim keys and the store with
time to live.  `SchedulerTick`, `DispatchHandler` and `ResultConsumer` are the three stages that claim
before acting, and `Pipeline` composes them with topics that may duplicate and reorder.

**Worker intake.**  `KafkaConsumer` interleaves the poller and the worker pool around a bounded
channel; `Backpressure` is the watermark policy; `JobMetrics` is the nearest-rank report.

Where the code does not do what is hoped for, the model keeps the code, gives an input that shows it
and states the exact condition:

- Neither message type carries an attempt, so all results of a job share one claim key: a retry count
  of n takes result claims at least n - 1 TTLs apart (`Pipeline.RetriesNeedTime`), within one TTL it
  stops at 1 (`Pipeline.RetriesStopAtOne`), and one redelivered result taken at 0, ttl, 2 ttl, ...
  brings it to any n up to the limit (`Pipeline.RetriesGetThere`).  One job id is executed once per
  live execution claim.
- The documentation calls terminal states final; the repository's writes leave them, in exactly the
  cases of `DispatchBudget.TerminalLeft`; `DispatchBudget.StaleResultRevives` is a run that does.
- Policies that look dispatched jobs up by id report what the composed policy reports exactly when the
  lookup keeps each tenant's number of jobs and the sum of the creation times
  (`CompareSchedulers.ConservationLaw`); a shared id can break that
  (`CompareSchedulers.SharedIdBreaksTheLaw`) or not (`CompareSchedulers.TwinsKeepTheLaw`).
- `cleanup_expired` on a clock that later goes back lets two claims overlap
  (`ClaimStore.BackwardCleanupOverlaps`), exactly in the runs where a claim comes before an expiry that
  a cleanup has taken to be past (`ClaimStore.ExclusiveExactly`).
- Overlapping backpressure evaluations can count one pause twice (`Backpressure.OverlapCountsTwice`);
  pauses minus resumes is the flag exactly when the pause and resume calls that changed nothing balance
  (`Backpressure.OverlapBalance`).
- Python and Go build the same execution key exactly when Go's trim leaves no U+001C..U+001F at either
  end (`IdempotencyKeys.ExecutionKeysAgree`, `IdempotencyKeys.ExecutionKeysCanDiffer`).
- A tick that meets a blank job id, or has a TTL that is not positive, raises after its rows were
  already moved to dispatched (`SchedulerTick.RunOnce`).

## Model

| member | source | states |
|---|---|---|
| WeightCycle.BuildWeightCycle | control_plane/kernelq/scheduler_weighted_rr.py:49-63 | the built list is the lap whose slots, order, proportions and minimality the next rows prove |
| WeightCycle.CycleSlots | control_plane/kernelq/scheduler_weighted_rr.py:44-63 | every tenant holds exactly weight/gcd slots, at least one, and nobody else holds any |
| WeightCycle.CycleInOrder | control_plane/kernelq/scheduler_weighted_rr.py:49-63 | the lap follows insertion order: all slots of a tenant come before all slots of a later one; with CycleSlots this fixes the lap |
| WeightCycle.CycleCoprime | control_plane/kernelq/scheduler_weighted_rr.py:44-46 | the slot counts have no common divisor but 1 |
| WeightCycle.CycleIsProportional | control_plane/kernelq/scheduler_weighted_rr.py:49-63 | any two tenants have slots in the ratio of their weights |
| WeightCycle.CycleIsShortest | control_plane/kernelq/scheduler_weighted_rr.py:49-63 | every list of turns with these proportions is a whole number of laps of slots, so none is shorter |
| TenantRotation.OneLap | control_plane/kernelq/scheduler_weighted_rr.py:110-120 | from any pointer position one lap visits each tenant exactly its number of slots |
| TenantRotation.TurnVisits | control_plane/kernelq/scheduler_weighted_rr.py:110-120 | while a tenant waits, a turn serves somebody and passes over none of that tenant's slots except the one it serves |
| TenantRotation.WindowVisits | control_plane/kernelq/scheduler_weighted_rr.py:110-120 | need + ceil(need/c)(n-c) consecutive slots, from any position, contain `need` slots of a tenant with c of n |
| TenantRotation.BoundedWait | control_plane/kernelq/scheduler_weighted_rr.py:100-123 | a tenant with `need` jobs waiting is served that often within the bound, whatever arrives meanwhile |
| TenantRotation.ExactShare | control_plane/kernelq/scheduler_weighted_rr.py:100-123 | over whole laps with everyone backlogged each tenant is served exactly laps times its slots |
| TenantRotation.TurnsFollowLap | control_plane/kernelq/scheduler_weighted_rr.py:110-120 | with everyone backlogged the turns follow the lap slot by slot from the pointer on |
| TenantRotation.WeightedFairness | control_plane/kernelq/scheduler_weighted_rr.py:100-123 | two always-backlogged tenants' services, cross-scaled by slots, differ by at most one lap's worth, whatever the others do |
| TenantRotation.IdleIffEmpty | control_plane/kernelq/scheduler_weighted_rr.py:100-123 | a turn serves nobody exactly when nothing waits |
| TenantQueues.SameTenants | control_plane/kernelq/scheduler_composed.py:134-211 | from equal rotations, the FIFO and the best-first scheduler serve the same tenant at every dequeue of any run |
| TenantQueues.HeadNoneIffEmpty | control_plane/kernelq/scheduler_weighted_rr.py:100-148 | dequeue and peek answer None exactly when size is 0 |
| TenantQueues.StepSize | control_plane/kernelq/scheduler_weighted_rr.py:90-148 | each accepted enqueue adds one to the size and each answered dequeue removes one |
| TenantQueues.RunConserves | control_plane/kernelq/scheduler_composed.py:111-149 | over any run, waiting before plus added equals handed out plus still waiting, job by job |
| TenantQueues.FifoOrder | control_plane/kernelq/scheduler_weighted_rr.py:90-123 | a tenant's handed-out jobs followed by its queue are its old queue followed by its arrivals |
| TenantQueues.JobWaitsAtMost | control_plane/kernelq/scheduler_weighted_rr.py:100-123 | the job with k of its tenant's jobs ahead is returned within (k+1) + ceil((k+1)/c)(n-c) dequeues |
| TenantQueues.DrainEmpties | control_plane/kernelq/scheduler_weighted_rr.py:100-123 | n dequeues of n waiting jobs return a job each and leave nothing |
| WeightedRoundRobin.InitialValid | control_plane/kernelq/scheduler_weighted_rr.py:75-88 | positive weights give a well-formed empty scheduler |
| WeightedRoundRobin.WeightedRoundRobinScheduler.constructor | control_plane/kernelq/scheduler_weighted_rr.py:75-88 | empty queues, the built lap, pointer 0 |
| WeightedRoundRobin.WeightedRoundRobinScheduler.New | control_plane/kernelq/scheduler_weighted_rr.py:75-88 | succeeds exactly on non-empty positive weights, else names the first offending tenant |
| WeightedRoundRobin.WeightedRoundRobinScheduler.Enqueue | control_plane/kernelq/scheduler_weighted_rr.py:90-98 | appends to the tenant's queue, or refuses an unknown tenant and changes nothing |
| WeightedRoundRobin.WeightedRoundRobinScheduler.WalkToBusySlot | control_plane/kernelq/scheduler_weighted_rr.py:110-120 | finds the first busy slot, leaves the pointer after it, and restores it after a lap without one |
| WeightedRoundRobin.WeightedRoundRobinScheduler.Dequeue | control_plane/kernelq/scheduler_weighted_rr.py:100-123 | one FIFO step of the machine: answer, new pointer and new queues |
| WeightedRoundRobin.WeightedRoundRobinScheduler.Peek | control_plane/kernelq/scheduler_weighted_rr.py:125-143 | what the next dequeue returns, changing nothing |
| WeightedRoundRobin.WeightedRoundRobinScheduler.Size | control_plane/kernelq/scheduler_weighted_rr.py:145-148 | the number of jobs waiting over all tenants |
| WeightedRoundRobin.WaitFromWeights | control_plane/kernelq/scheduler_weighted_rr.py:49-123 | the waiting bound in terms of the configured weights |
| WeightedRoundRobin.ShareFromWeights | control_plane/kernelq/scheduler_weighted_rr.py:49-123 | over whole laps with everyone backlogged a tenant gets exactly its reduced weight per lap |
| WeightedRoundRobin.FreshFollowsWeights | control_plane/kernelq/scheduler_weighted_rr.py:75-123 | while everyone has work, the k-th dequeue of a fresh scheduler answers a job of the tenant in the k-th slot of the lap |
| ComposedScheduler.Scheduler.constructor | control_plane/kernelq/scheduler_composed.py:80-109 | the same fresh state as weighted round robin, with the capacity |
| ComposedScheduler.Scheduler.New | control_plane/kernelq/scheduler_composed.py:80-109 | succeeds exactly on a positive capacity and non-blank, positively weighted tenants; else the first failed check is named |
| ComposedScheduler.Scheduler.Size | control_plane/kernelq/scheduler_composed.py:167-169 | the number of jobs waiting over all tenants |
| ComposedScheduler.Scheduler.Enqueue | control_plane/kernelq/scheduler_composed.py:111-132 | invalid, then full, then accepted; only acceptance changes the state and the capacity is never exceeded |
| ComposedScheduler.Scheduler.NextTenantAdvance | control_plane/kernelq/scheduler_composed.py:179-195 | the rotation's tenant, with the pointer moved past its slot; unchanged when idle |
| ComposedScheduler.Scheduler.NextTenantNoAdvance | control_plane/kernelq/scheduler_composed.py:197-211 | the same tenant without moving the pointer |
| ComposedScheduler.Scheduler.BestJobIndex | control_plane/kernelq/scheduler_composed.py:213-243 | nothing in the queue is preferred to the pick, and ties go to the earliest position |
| ComposedScheduler.Scheduler.Dequeue | control_plane/kernelq/scheduler_composed.py:134-149 | one best-first step of the machine |
| ComposedScheduler.Scheduler.Peek | control_plane/kernelq/scheduler_composed.py:151-165 | what the next dequeue returns, changing nothing |
| ComposedScheduler.AdmittedRunIsRun | control_plane/kernelq/scheduler_composed.py:111-149 | any run with admission is a run of its accepted operations and never holds more than the capacity |
| ComposedScheduler.DrainSorted | control_plane/kernelq/scheduler_composed.py:134-149 | in any stretch of dequeues each tenant's jobs come out in the order of the fields (-priority, created_at, job_id) |
| PriorityScheduler.HeapPush | control_plane/kernelq/scheduler_priority.py:55-59 | heapq.heappush by its specification: the job is added and a least one is in front |
| PriorityScheduler.HeapPop | control_plane/kernelq/scheduler_priority.py:61-71 | heapq.heappop by its specification: a least job leaves |
| PriorityScheduler.Scheduler.Enqueue | control_plane/kernelq/scheduler_priority.py:55-59 | exactly the job is added |
| PriorityScheduler.Scheduler.Dequeue | control_plane/kernelq/scheduler_priority.py:61-71 | None exactly when empty, else a best job of those held, and only it leaves: one step of the heap's trace |
| PriorityScheduler.Scheduler.Peek | control_plane/kernelq/scheduler_priority.py:73-82 | the job the next dequeue returns |
| PriorityScheduler.Scheduler.Size | control_plane/kernelq/scheduler_priority.py:84-87 | the number of jobs held |
| PriorityScheduler.AnswersAreTrace | control_plane/kernelq/scheduler_composed.py:134-149 | with one tenant the composed scheduler's answers are ones a least-first heap can give, for every run |
| PriorityScheduler.ComposedIsPriority | control_plane/kernelq/scheduler_composed.py:134-149 | with one tenant a list of answers is one the heap can give to a run if and only if it is the composed scheduler's |
| PriorityScheduler.AdmittedIsPriority | control_plane/kernelq/scheduler_composed.py:111-149 | the same with bounded admission in front |
| SchedulerMetrics.SchedulerMetrics.RecordEnqueueResult | control_plane/kernelq/scheduler_metrics.py:55-69 | exactly the counter of the verdict grows, by one |
| SchedulerMetrics.SchedulerMetrics.RecordDispatch | control_plane/kernelq/scheduler_metrics.py:71-97 | the totals and both breakdowns take in one job and its wait |
| SchedulerMetrics.TallySums | control_plane/kernelq/scheduler_metrics.py:71-97 | n dispatches at ticks 0..n-1 wait n(n-1)/2 less the creation times in all; a tenant is counted once per job |
| SchedulerMetrics.TallyGroups | control_plane/kernelq/scheduler_metrics.py:71-97 | each breakdown counts, and adds up the waits of, exactly the jobs of its tenant or priority |
| SchedulerMetrics.AverageMeans | control_plane/kernelq/scheduler_metrics.py:99-103 | an average times its count is the sum, and nothing averages to 0 |
| SchedulerMetrics.TallyPermuted | control_plane/kernelq/scheduler_metrics.py:71-103 | counts per tenant and per priority and the total wait do not depend on the dispatch order |
| CompareSchedulers.LookupExact | control_plane/scripts/compare_schedulers.py:84-123 | recording jobs looked up by id records the admitted multiset if and only if ids identify the admitted jobs |
| CompareSchedulers.AdmittedExactly | control_plane/scripts/compare_schedulers.py:68-109 | the first `capacity` valid jobs are admitted, further valid ones are rejected as full and the others as invalid |
| CompareSchedulers.ReportMeans | control_plane/scripts/compare_schedulers.py:116-123 | each reported average times the number of its jobs is the sum of their waits |
| CompareSchedulers.SummaryExact | control_plane/scripts/compare_schedulers.py:84-256 | two equally long dispatch lists give one summary if and only if they agree in jobs per tenant and in the sum of creation times |
| CompareSchedulers.ConservationLaw | control_plane/scripts/compare_schedulers.py:84-256 | the lookup policies and composed report one summary if and only if lookup keeps those sums; ids that identify the admitted jobs suffice |
| CompareSchedulers.TwinsKeepTheLaw | control_plane/scripts/compare_schedulers.py:84-256 | two jobs sharing an id and differing in priority keep the summary, so identifying ids are not needed |
| CompareSchedulers.SharedIdBreaksTheLaw | control_plane/scripts/compare_schedulers.py:84-256 | two admitted jobs of different tenants under one id make the summaries differ |
| CompareSchedulers.SharedIdExample | control_plane/scripts/compare_schedulers.py:68-70 | such a pair exists |
| PolicyRunners.RunFifo | control_plane/scripts/compare_schedulers.py:84-123 | the report of the admitted jobs in arrival order; rejections follow from the workload alone |
| PolicyRunners.RunPriority | control_plane/scripts/compare_schedulers.py:126-171 | the report of the admitted jobs in the order of (-priority, created_at, job_id), none lost or added |
| PolicyRunners.RunWeightedRoundRobin | control_plane/scripts/compare_schedulers.py:174-219 | the report of draining the admitted jobs through the FIFO rotation, none lost or added |
| PolicyRunners.RunComposed | control_plane/scripts/compare_schedulers.py:222-256 | the report of draining the admitted jobs through the best-first rotation, none lost or added |
| PolicyRunners.Compare | control_plane/scripts/compare_schedulers.py:259-271 | the three lookup policies always agree in rejections, counts per tenant and average wait; composed agrees with them if and only if lookup keeps jobs per tenant and the sum of creation times |
| BatchedSelection.Select | control_plane/kernelq/job_repository.py:325-352 | ORDER BY ... LIMIT: distinct rows in key order, as many as allowed, none sorting after a row left out |
| BatchedSelection.DrainIsSort | control_plane/kernelq/job_repository.py:534-589 | m selections of at most `limit` list the first min(k, m*limit) of k rows in key order |
| BatchedSelection.DrainExhausts | control_plane/kernelq/job_repository.py:534-589 | k rows are exhausted exactly from ceil(k/limit) selections on |
| JobRepository.JobRepository.CreateJob | control_plane/kernelq/job_repository.py:98-131 | a new row with retry_count 0, or a duplicate error and no change |
| JobRepository.JobRepository.GetJob | control_plane/kernelq/job_repository.py:133-149 | the row, or None exactly when there is none |
| JobRepository.JobRepository.UpdateJobState | control_plane/kernelq/job_repository.py:151-192 | writes the state with no guard on the current one; touches no other row |
| JobRepository.JobRepository.ScheduleRetry | control_plane/kernelq/job_repository.py:194-263 | retries left: count one and schedule it for now + delay; none left: dead-letter; the outcome says which |
| JobRepository.JobRepository.RequeueDueRetries | control_plane/kernelq/job_repository.py:265-312 | exactly the first `limit` due, unlocked rows by (retry_after, created_at) become queued |
| JobRepository.JobRepository.DeleteJob | control_plane/kernelq/job_repository.py:314-323 | removes the row and says whether there was one |
| JobRepository.JobRepository.ListSchedulableJobs | control_plane/kernelq/job_repository.py:325-352 | the first `limit` of all queued rows, higher priority first, then older, ahead of every queued row left out |
| JobRepository.JobRepository.RequeueDeadLetteredJob | control_plane/kernelq/job_repository.py:455-490 | only a dead-lettered row is requeued, its retry_after cleared, its retry_count kept |
| JobRepository.JobRepository.MarkJobDispatched | control_plane/kernelq/job_repository.py:492-532 | only a queued row is dispatched; its first dispatch time is now, and one already set stays |
| JobRepository.JobRepository.ClaimSchedulableJobs | control_plane/kernelq/job_repository.py:534-589 | exactly the first `limit` of all queued, unlocked rows, higher priority first, then older, become dispatched and are returned in order |
| JobRepository.ClaimsAreSorted | control_plane/kernelq/job_repository.py:534-589 | successive claims list the queued rows by priority descending then age, ahead of every row left, and exhaust k rows in exactly ceil(k/limit) claims |
| JobRepository.ScansAreSorted | control_plane/kernelq/job_repository.py:265-312 | scans at any times, on any clock, requeue waiting rows in (retry_after, created_at) order, ahead of all rows left, none before its own scan reaches its retry_after |
| JobRepository.DueRowsAreReached | control_plane/kernelq/job_repository.py:265-312 | k rows due at t are all requeued by ceil(k/limit) scans at t or later, whatever becomes due meanwhile |
| JobRepository.ScansAtOnce | control_plane/kernelq/job_repository.py:265-312 | at one instant k due rows take exactly ceil(k/limit) scans |
| DispatchBudget.StepBudget | control_plane/kernelq/job_repository.py:151-312 | a dispatch is paid for by readiness, a granted retry, a replay or an API retry; dispatched_at once set stays |
| DispatchBudget.ClaimIsStep | control_plane/kernelq/job_repository.py:534-589 | the repository's claim is a step of the run machine |
| DispatchBudget.ScanIsStep | control_plane/kernelq/job_repository.py:265-312 | so is its retry scan |
| DispatchBudget.MarkIsStep | control_plane/kernelq/job_repository.py:492-532 | so is mark_job_dispatched |
| DispatchBudget.ReplayIsStep | control_plane/kernelq/job_repository.py:455-490 | so is the dead-letter replay |
| DispatchBudget.RunBudget | control_plane/kernelq/job_repository.py:151-312 | the same over any run: retry_count is the number of retries granted and never passes max_retries |
| DispatchBudget.CreatedRowBudget | control_plane/kernelq/job_repository.py:98-131 | a row created queued is dispatched at most 1 + max_retries + replays + API retries times |
| DispatchBudget.BudgetAttained | control_plane/kernelq/job_repository.py:194-312 | for every limit some run dispatches a row exactly 1 + max_retries times |
| DispatchBudget.TerminalLeft | control_plane/kernelq/job_repository.py:151-263 | the exact steps by which a row leaves a terminal state |
| DispatchBudget.StaleResultRevives | control_plane/kernelq/job_repository.py:172-312 | a run from an empty table in which a succeeded job is rescheduled by a stale retryable result and dispatched again |
| JobApi.ChangeState | control_plane/api.py:281-376 | 404 exactly without a row; cancel succeeds exactly on created, queued, running or retry_scheduled rows and retry exactly on failed ones; only the state is written; undisturbed, it is its read step then its write step |
| ConcurrentClaims.StepValid | control_plane/kernelq/job_repository.py:534-589 | batches locked by different sessions stay disjoint and hold queued rows only |
| ConcurrentClaims.CommitFrame | control_plane/kernelq/job_repository.py:534-589 | a commit changes only its locked queued rows, and no dispatch time already set |
| ConcurrentClaims.StepFrame | control_plane/kernelq/job_repository.py:534-589 | locking and giving up change no row; only a commit changes rows it locked, and another writer its own row |
| ConcurrentClaims.QueueBalance | control_plane/kernelq/job_repository.py:534-589 | in every interleaving claims + withdrawals + still queued = entries + queued at the start |
| ConcurrentClaims.NoDoubleClaim | control_plane/kernelq/job_repository.py:534-589 | two claims return one job only if it re-entered the queue in between |
| ConcurrentClaims.ClaimIsLockCommit | control_plane/kernelq/job_repository.py:534-589 | the one-transaction claim is a possible lock step followed by its commit |
| ClaimStore.InMemoryIdempotencyStore.TryClaim | control_plane/kernelq/idempotency_store.py:84-96 | granted exactly when the key is free; a grant holds it until now + ttl; bad arguments change nothing |
| ClaimStore.InMemoryIdempotencyStore.CleanupExpired | control_plane/kernelq/idempotency_store.py:98-113 | exactly the expired keys go, and their number is returned |
| ClaimStore.GrantsAreExclusive | control_plane/kernelq/idempotency_store.py:84-113 | the intervals [t, t+ttl) granted for one key are disjoint and in order, for any mix of TTLs |
| ClaimStore.BackwardCleanupOverlaps | control_plane/kernelq/idempotency_store.py:98-113 | with a cleanup and a clock that goes back they can overlap |
| ClaimStore.CleanupChangesAnswer | control_plane/kernelq/idempotency_store.py:98-113 | one cleanup changes one answer exactly when the clock goes back past a removed expiry |
| ClaimStore.ExclusiveExactly | control_plane/kernelq/idempotency_store.py:84-113 | over any run from an empty store, on any clock: grants of a key are disjoint if and only if cleanups change no answer, if and only if no claim comes before an expiry a cleanup took to be past |
| ClaimStore.CleanupsDoNotMatter | control_plane/kernelq/idempotency_store.py:84-113 | on a non-decreasing clock cleanups inserted anywhere change no answer |
| IdempotencyKeys.StageKeyInjective | control_plane/kernelq/idempotency_keys.py:45-75 | equal keys exactly for equal stripped ids and attempts, colons and digits included |
| IdempotencyKeys.EventKeyInjective | control_plane/kernelq/idempotency_keys.py:78-85 | equal event keys exactly for equal stripped event ids |
| IdempotencyKeys.KeyExamples | control_plane/kernelq/idempotency_keys.py:45-75 | the documented keys of job-abc |
| IdempotencyKeys.GoKeyInjective | worker/internal/worker/execution_idempotency_key.go:12-20 | the same for the Go execution key |
| IdempotencyKeys.StagesDisjoint | control_plane/kernelq/idempotency_keys.py:45-75 | keys of different stages never collide |
| IdempotencyKeys.EventKeysDisjoint | control_plane/kernelq/idempotency_keys.py:45-85 | nor do stage keys and event keys |
| IdempotencyKeys.NamespaceInjective | control_plane/kernelq/idempotency_store.py:133-137 | a fixed namespace keeps keys apart |
| IdempotencyKeys.ExecutionKeysAgree | worker/internal/worker/execution_idempotency_key.go:12-20 | Go and Python keys agree if and only if Go's trim leaves no separator at an end |
| IdempotencyKeys.ExecutionKeysCanDiffer | worker/internal/worker/execution_idempotency_key.go:12-20 | an id on which they differ |
| SchedulerTick.PublishOne | control_plane/kernelq/scheduler_tick.py:125-157 | one job: duplicate, published or failed, and the claim it leaves |
| SchedulerTick.PublishAll | control_plane/kernelq/scheduler_tick.py:125-157 | returns exactly when no job would raise, with every job in exactly one of the three counts |
| SchedulerTick.CountsMean | control_plane/kernelq/scheduler_tick.py:125-157 | published counts the attempts that were delivered, publish errors those that were not, duplicates the rest |
| SchedulerTick.Publish | control_plane/kernelq/scheduler_tick.py:119-168 | the publishing half: what is reported, when it raises, and the store it leaves |
| SchedulerTick.RunOnce | control_plane/kernelq/scheduler_tick.py:92-168 | the claimed batch is the first rows in scheduling order; its counts are those of the publish loop and add up to it; when it raises and what is then already written |
| SchedulerTick.TicksInARow | control_plane/kernelq/scheduler_tick.py:125-157 | the outcomes of ticks sharing a store are those of one sequence of passes |
| SchedulerTick.OneAttemptPerClaim | control_plane/kernelq/scheduler_tick.py:125-157 | over any ticks sharing a store, each with its own TTL, two passes for one job id and retry count that are not duplicates are at least the first one's TTL apart, delivered or not |
| SchedulerTick.DuplicateHasReason | control_plane/kernelq/scheduler_tick.py:125-157 | from an empty store a pass is a duplicate only after an attempt for the same job id and retry count whose claim has not ended |
| DispatchHandler.StepValid | worker/internal/worker/handler.go:95-242 | every step of any call keeps the invariant tying tickets, claims, executions and publications |
| DispatchHandler.RunValid | worker/internal/worker/handler.go:95-242 | so does every run |
| DispatchHandler.ExecutesOncePerClaim | worker/internal/worker/handler.go:112-182 | in every interleaving executions of one key fall under claims taken at least a TTL apart; without expiry, at most one |
| DispatchHandler.ClaimExactly | worker/internal/worker/handler.go:112-146 | over any run without store errors a call gets its key if no granted claim of it is live, and is skipped as a duplicate otherwise |
| DispatchHandler.CountersExact | worker/internal/worker/handler.go:124-146 | over any run the duplicate and error counters are the numbers of calls that ended that way |
| DispatchHandler.CallHistory | worker/internal/worker/handler.go:95-235 | a call stopped before execution did not execute; only tasks with a job id, a tenant and a priority of at least 0 execute; every publication follows a reportable execution of the same call |
| DispatchHandler.AfterClaimFaultHolds | worker/internal/worker/handler.go:147-149 | in every reachable state a call stopped by an after-claim fault leaves its key unclaimable until its claim ends, and for good without expiry |
| DispatchHandler.BeforeClaimFaultFrees | worker/internal/worker/handler.go:107-109 | over any run without store errors a key whose calls all stopped before their claim is free |
| DispatchHandler.FaultExactly | worker/internal/faults/config.go:233-268 | a step ends with a fault exactly when its call is at the configured point, faults are left and a delay was cancelled; that spends one |
| DispatchHandler.FaultsBounded | worker/internal/faults/config.go:233-268 | calls ended by faults plus faults left never exceed the configured count |
| DispatchHandler.MoveIsAdvance | worker/internal/worker/handler.go:95-235 | a call run alone takes steps of the concurrent machine |
| DispatchHandler.DispatchEventHandler.Inject | worker/internal/faults/config.go:233-268 | fires only at its point while faults are left, and spends one |
| DispatchHandler.DispatchEventHandler.TryClaim | worker/internal/worker/handler.go:112-146 | the claim step: bad key, store error, duplicate, or a grant for a TTL |
| DispatchHandler.DispatchEventHandler.ClaimPhase | worker/internal/worker/handler.go:103-150 | the steps up to the point where the job may run |
| DispatchHandler.DispatchEventHandler.ExecutePhase | worker/internal/worker/handler.go:152-213 | the steps up to the point where the result may be published |
| DispatchHandler.DispatchEventHandler.PublishPhase | worker/internal/worker/handler.go:213-235 | the publishing steps |
| DispatchHandler.DispatchEventHandler.Handle | worker/internal/worker/handler.go:95-235 | handle is the machine's steps in a row, to the outcome it returns, whatever the store, executor, producer and clock answer at each point |
| ResultConsumer.HandlerStepMeans | control_plane/kernelq/result_handler.py:29-64 | succeeded and terminal failure are written as such; a retryable failure schedules a retry in 60 seconds and counts it, or dead-letters; nothing else changes |
| ResultConsumer.ResultKeyIsStageKey | control_plane/kernelq/result_consumer.py:107-108 | the result key is the one the key builder makes, and an event is accepted exactly when the builder accepts it |
| ResultConsumer.ResultConsumerRunner.Handle | control_plane/kernelq/result_handler.py:29-64 | does exactly that to an existing job, nothing without one, and says whether it exists |
| ResultConsumer.ResultConsumerRunner.ProcessMessage | control_plane/kernelq/result_consumer.py:94-125 | claim before handling: a granted result changes its job as its status says; duplicates change only their counter; a missing job leaves the claim taken and counts as neither |
| Pipeline.StepValid | worker/internal/worker/handler.go:112-182 | every step of the whole pipeline keeps its invariant |
| Pipeline.RunValid | worker/internal/worker/handler.go:112-182 | so does every run |
| Pipeline.PublishIsPass | control_plane/kernelq/scheduler_tick.py:125-157 | a publish step is a pass of the scheduler's loop; only an attempt that arrives adds to the topic |
| Pipeline.ConsumeMeans | control_plane/kernelq/result_consumer.py:107-125 | a result whose key is taken changes nothing; a granted one changes its job as its status says |
| Pipeline.JobExecutedOnce | worker/internal/worker/handler.go:112-182 | with both topics duplicating and reordering, executions of one trimmed job id fall under claims taken at least a TTL apart; without expiry, at most one |
| Pipeline.ResultTakenOnce | control_plane/kernelq/result_consumer.py:107-125 | results of one stripped job id are applied under non-overlapping claims, and each was reported by an execution of a published message |
| Pipeline.ReportIsAnswer | worker/internal/worker/result_event.go:35-43 | a reported result carries the outcome its executor returned, for the job it was given |
| Pipeline.RetriesNeedTime | control_plane/kernelq/result_event.py:117 | the wire carries no attempt, so in every reachable state a retry_count of n > 0 had two results taken at least n - 1 TTLs apart |
| Pipeline.RetriesStopAtOne | control_plane/kernelq/result_consumer.py:107-125 | a job whose results were all taken within less than a TTL has a retry_count of at most 1 |
| Pipeline.RetriesGetThere | control_plane/kernelq/result_consumer.py:107-125 | for every job, limit and n up to it some run takes one result at 0, ttl, 2 ttl, ... and reaches retry_count n, so the bound is tight |
| KafkaConsumer.StepKeeps | worker/internal/worker/kafka_consumer.go:119-217 | every step of the poller or of a worker keeps each message in exactly one place and the counters in balance |
| KafkaConsumer.InFlightBound | worker/internal/worker/worker_pool.go:134-194 | enqueued but unfinished items never exceed capacity + workers |
| KafkaConsumer.ReturnedCounts | worker/internal/worker/kafka_consumer.go:119-217 | when Run has returned: seen = processed + errors + drops, drops at most full errors, enqueued = processed + handler errors, dead letters = errors |
| KafkaConsumer.CountersMeanAnswers | worker/internal/worker/worker_pool.go:159-194 | when Run has returned, processed is the number of successful handler calls, errors that of failed ones and undecodable messages, and the dead-letter, full and broker counters are what was answered |
| KafkaConsumer.ChannelIsFifo | worker/internal/worker/worker_pool.go:134-194 | workers receive messages in the order in which they were enqueued |
| KafkaConsumer.CanReturn | worker/internal/worker/worker_pool.go:144-194 | from every state cancelling lets the channel drain, the workers exit and Run return |
| KafkaConsumer.Run | worker/internal/worker/kafka_consumer.go:119-178 | all of these hold for every interleaving, with every message accounted for |
| KafkaConsumer.WorkerPool.constructor | worker/internal/worker/worker_pool.go:90-117 | an empty channel; a capacity that is not positive becomes the default |
| KafkaConsumer.WorkerPool.Enqueue | worker/internal/worker/worker_pool.go:134-141 | refused exactly when full, else appended |
| KafkaConsumer.Consumer.HandleProcessingError | worker/internal/worker/kafka_consumer.go:350-385 | one error, and with a DLQ exactly one dead letter or dead-letter error |
| KafkaConsumer.Consumer.Sleep | worker/internal/worker/kafka_consumer.go:205-212 | the back-off: only worker steps of the machine happen |
| KafkaConsumer.Consumer.RetryEnqueue | worker/internal/worker/kafka_consumer.go:205-217 | a refusal, the back-off and the second try are a run of the machine, ending enqueued or dropped |
| KafkaConsumer.Consumer.EnqueueKafkaMessage | worker/internal/worker/kafka_consumer.go:181-217 | one message is a run of the machine from poll to poll: seen, then exactly one of undecodable, enqueued or dropped after a second refusal |
| Backpressure.NewPolicy | worker/internal/worker/backpressure_policy.go:19-44 | accepted ratios are kept, others fall back to valid defaults |
| Backpressure.Hysteresis | worker/internal/worker/backpressure_policy.go:47-64 | low watermark strictly below high; empty never pauses and allows resume; full pauses; never both |
| Backpressure.WatermarksExact | worker/internal/worker/backpressure_policy.go:47-64 | pause exactly from capacity times the high ratio on, resume exactly up to capacity times the low ratio |
| Backpressure.EvaluateMeans | worker/internal/worker/kafka_consumer.go:221-257 | after an evaluation: paused at or above the high watermark, not paused at or below the low one, unchanged in between; each change counted once |
| Backpressure.InMemoryPauseResumeController.Pause | worker/internal/worker/pause_resume_controller.go:30-40 | paused afterwards, however it was |
| Backpressure.InMemoryPauseResumeController.Resume | worker/internal/worker/pause_resume_controller.go:43-53 | not paused afterwards, however it was |
| Backpressure.BackpressureDriver.MaybeApply | worker/internal/worker/kafka_consumer.go:221-257 | one evaluation of flag and counters |
| Backpressure.EventsAlternate | worker/internal/worker/kafka_consumer.go:221-257 | over any run of evaluations pauses and resumes alternate and their difference is the flag |
| Backpressure.OverlapBalance | worker/internal/worker/kafka_consumer.go:221-257 | for any number of evaluators in any interleaving: pauses - resumes + pending counts - flag = idle pause calls - idle resume calls; at rest the difference is the flag if and only if those balance |
| Backpressure.ExtraCallsBounded | worker/internal/worker/kafka_consumer.go:221-257 | n evaluators make at most n - 1 idle calls per change of the flag; one evaluator makes none |
| Backpressure.AloneIsEvaluate | worker/internal/worker/kafka_consumer.go:221-257 | an evaluation nobody overlaps is one atomic evaluation |
| Backpressure.OverlapCountsTwice | worker/internal/worker/kafka_consumer.go:221-257 | a run of two evaluators in which one pause is counted twice |
| JobMetrics.PercentileIsNearestRank | control_plane/kernelq/job_metrics.py:42-56 | for p in 0..100, the least observation with at least p% of the observations at or below it |
| JobMetrics.PercentileMonotone | control_plane/kernelq/job_metrics.py:42-56 | percentiles grow with p |
| JobMetrics.WaitMeans | control_plane/kernelq/job_metrics.py:79-95 | exactly which jobs contribute a wait, and which wait |
| JobMetrics.DurationMeans | control_plane/kernelq/job_metrics.py:97-99 | exactly which jobs contribute a completion time, and which one |
| JobMetrics.MeanMeans | control_plane/kernelq/job_metrics.py:101-106 | a mean times the number of values is their sum |
| JobMetrics.CompletedMeans | control_plane/kernelq/job_metrics.py:79-84 | the completed count is the number of succeeded, failed and dead-lettered jobs |
| JobMetrics.ComputeJobDurationMetrics | control_plane/kernelq/job_metrics.py:59-120 | count, averages and the three percentiles of the non-negative waits of completed jobs, 0 if none; p50 <= p95 <= p99 |
| JobMetrics.PercentilesIgnoreOrder | control_plane/kernelq/job_metrics.py:72-111 | the percentiles do not depend on the order of the jobs |

## Left out

- HTTP routing, request models, SQL text and connections, the Kafka, Redis, gRPC and OpenTelemetry clients, JSON and logging: only the row-level effect of a statement, one atomic set-if-absent and valid or invalid messages are kept.
- Floating point: ratios, averages, waits and clocks are exact reals, so binary64 rounding in `math.ceil(p / 100.0 * n)` and in the watermarks is not modelled.
- PriorityScheduler.HeapPush: heapq is given by its specification, not by sift operations; tuples that compare equal hold equal jobs, so no order on jobs is needed.
- JobMetrics.ComputeJobDurationMetrics: list.sort is given by its specification.
- SchedulerMetrics.SchedulerMetrics.RecordDispatch: the queue depth peak and the metrics snapshot are not modelled.
- PolicyRunners.RunWeightedRoundRobin: the allowed tenants are those with weights, as the script's only caller passes them; FIFOScheduler is a plain sequence, and fields a policy's job type lacks are blanked.
- ConcurrentClaims.StepValid: sessions are interleaved lock and commit steps on values, not database internals; a writer of a locked row waits.
- DispatchHandler.StepValid: goroutines are interleaved atomic steps over shared values; Go's memory model, the panic fault mode and process death are not modelled.
- Pipeline.StepValid: the dispatch and result topics are sets of accepted messages; any accepted message may be delivered any number of times, and a tick may try any message, which covers more runs than the code has.
- KafkaConsumer.Run: the poller and the workers move in an order given as input; offsets, commits, headers and the synchronous processing path are not modelled.
- KafkaConsumer.Consumer.EnqueueKafkaMessage: run by itself it lets workers move only during the back-off; the machine lets them move anywhere.
- Backpressure.BackpressureDriver.MaybeApply: the in-memory controller does not stop polling, so nothing is claimed about intake while paused.
- SchedulerTick.RunOnce: publish error texts are reduced to their count; skipped_count is always 0 in the source and is not kept.
- Liveness: nothing says that a retry is eventually executed, that an API retry becomes due, or that a failed publish is recovered.
- JobRepository.JobRepository.CreateJob: payload columns and the listing and inspection queries are not modelled.
- BoundedQueue, RetryScanner, configuration loaders, Prometheus text, smoke, seed and benchmark scripts, deployment files: one-step or finite claims only.
