# Verified models of Helipod's components

Helipod is a reactive backend whose features are components: tables plus mutations that run as atomic
transactions. This project models the state-keeping cores of five components in Dafny and proves what they
promise.

- **Durable workflows** (`Replay`, `Workflow`, `WorkflowSafety`, `WorkflowRuns`, `Saga`, `SagaRuns`, `LateSteps`,
  `WorkflowEffects`, `WorkflowJobs`, `WorkflowEngine`). A handler is run again from the top on every poll against
  a journal. The main results: any interleaving of polls, callbacks, signals and cancels is explained by one
  straight run of the handler; a running workflow always has something that can move it; the journal is dense and
  append-only; a failed run pays exactly what it owes, in falling order, if and only if no compensable step can
  still succeed when it fails. `WorkflowJobs` joins it to the scheduler: every run of the job table, crashes and retries included,
  is a path of the job steps that the workflow model allows.
- **Scheduler** (`Jobs`, `JobRuns`, `Scheduler`, `Cron`, `Cadence`, `Wake`). Job rows with claims, leases,
  retries and callbacks; cron catch-up in closed form against stepping; the self-rescheduling cadence chain;
  the driver loop as a concurrent protocol.
- **Triggers** (`ChangeLog`, `Triggers`, `TriggerDrivers`). A durable cursor over an append-only log, with any
  number of driver instances: no watched change is ever skipped.
- **Authz** (`Roles`, `AuthzGroups`, `Authz`, `AuthzTables`). Role expansion is the inheritance closure, and the
  materialised index decides exactly what the assigned roles grant, after any sequence of boots and mutations,
  given that no two places share a group key; that condition is exact.
- **Sessions and counters** (`Sessions`, `Windows`). Refresh-token rotation over whole runs, and the bound that
  fixed windows put on any sliding stretch.

Each core has the same shape. A datatype is the state, one pure function per mutation is the step, `RunOf`
folds a list of events, and the theorems hold for every run. Where the source updates rows in place, a class
with those fields carries the same operations as methods with loops, and each method is proved to take the
state to what the step function says.

A handler is a function from the answers it has received to its next move: return, throw, or await one step or
a `Promise.all` of several, caught or not. Handlers that wait otherwise are left out (see below). The outside
world is a function from step numbers to results.

## Assumptions

- Every mutation is one atomic step, a mutation that throws leaves the tables as they were, and the clock does
  not go backwards.
- Reads inside a transaction see its own writes. The query engine does this for indexed reads
  (packages/query-engine/src/query-runtime.ts:103-128), although the comment at
  components/authz/src/effective-permissions.ts:46-51 says that it does not; the model of the authz mutations
  gives the same result either way.
- A body of an internal workflow job commits at least once before the job retires, and internal jobs do not
  dead-letter. It may commit again, also after the job was retired, because it does not look at the job row.
  The saga theorem alone assumes that each commits once; `Saga.SecondCommitPaysTwice` shows why.
- The notice of a commit arrives with the commit, for `Wake.IdleMeansNothingWasDue`.
- A calendar schedule is an unbounded set of times with its successor and predecessor functions.
- The change log is ascending, and below the stable bound it does not change.
- Generated tokens are new, and the token hash is injective. No two configurations of one run share a hash, and
  no two places of one run share a group key (names without NUL are enough: `Authz.NulFreeRun`).
- Clocks, random delays, generated tokens, handler outcomes and crashes are parameters or events.

## Where the code does not meet the simple statement

Each of these has runs that show it, and the exact condition where one was found.

- An uncaught fan-out fails with whichever member settled first, so the outcome of a run is unique if and only
  if no such fan-out can fail in two different ways (`Replay.OutcomeUniqueIffUnambiguous`,
  `Replay.FanOutFailsTwoWays`).
- A per-poll cap of zero strands every workflow that awaits a step (`WorkflowRuns.ZeroCapStrands`).
- A failed run pays everything it owes, once and in order, if and only if no compensable step is still in flight
  or has an unreported success when it fails (`SagaRuns.SagaPaysIffCalm`). Every handler that opens with an
  uncaught fan-out has runs that fall outside (`LateSteps.LateSiblingIsUnpaid`, `LateSteps.LateSuccessBreaksOrder`).
  A cancel is never outside, because it drops what is in flight: such a step may still succeed, is never
  journaled as settled and never compensated (`SagaRuns.CanceledInFlightIsDropped`,
  `SagaRuns.ClaimedOutlivesCancel`).
- A policy-only change is lost at boot if and only if the cadence is dead (`Cadence.BootAppliesPolicyIff`,
  `Cadence.PolicyCanBeLost`).
- A pass that ends leaves a wake unserved if and only if one is pending and `stop` has come
  (`Wake.PassLosesAWakeIff`, `Wake.StopCanLoseAWake`).
- A `batchSize` of zero turns every scan into the tip-peek idiom and skips changes (`ChangeLog.ReadLogCompleteIff`,
  `Triggers.ZeroBatchSkips`).
- The key lookup and the role check agree on a permission if and only if it has one colon, or a `*` after the
  first (`Roles.KeysAgreeIff`), and on a configured pattern if and only if its names have no colon
  (`Roles.NamesAgreeIff`).
- Boot rebuilds the index correctly under every configuration if and only if no two assigned places share a
  group key (`Authz.BootIndexesIffDistinct`). Where two do, a permission taken from a role survives in the second
  place, `can` still says yes although no role held there grants it, and `rebuild` leaves it so
  (`Authz.StaleGrant`).
- `rebuild` compares with the hash that boot has already stamped, so it changes nothing in any run
  (`Authz.RebuildIsNoop`), even where the index is wrong and recomputing it would put it right
  (`Authz.RebuildRepairsNothing`).
- The sharp bound of a fixed window on a sliding stretch is twice the cap minus one (`Windows.BoundIsReached`).

## Model

| member | source | states |
|---|---|---|
| Replay.PollStops | components/workflow/src/replay.ts:166-246 | a poll that goes on has consumed a journal row per move, so it ends within the journal's length plus one |
| Replay.CursorGrows | components/workflow/src/replay.ts:181-200 | requests are numbered in call order without overlap, and every earlier move of a straight run was an await |
| Replay.OnTraceUnique | components/workflow/src/replay.ts:181-200 | a step number belongs to one request of the straight run |
| Replay.SettleAgrees | components/workflow/src/replay.ts:202-246 | what lets a fan-out continue early is what the full results give; an early throw is the error of some failing member |
| Replay.AwaitGives | components/workflow/src/replay.ts:181-200 | the straight run goes on from an await unless a call of it fails uncaught, and gives each call its own result in call order, or the error that was caught |
| Replay.PollReadsTheJournal | components/workflow/src/replay.ts:181-246 | one move of a poll, for any handler and journal: it goes on with exactly the values of the calls' own rows, or the caught failure; fails with the first failed row, or with a contradiction; else waits |
| Replay.ReplayRefinesStraightRun | components/workflow/src/replay.ts:166-246 | a poll of a consistent journal never mismatches; it finishes as the straight run finishes, or emits exactly the next requests of the straight run, all of those it is then waiting for |
| Replay.OutcomeUniqueIffUnambiguous | components/workflow/src/replay.ts:202-234 | a run has one outcome if and only if no uncaught fan-out can fail in two ways |
| Replay.FanOutFailsTwoWays | components/workflow/src/replay.ts:202-234 | every handler that opens with an uncaught fan-out has two outcomes in a world where two members fail differently |
| Replay.ClockOnlyMovesTimers | components/workflow/src/replay.ts:186-200 | two polls of one journal at different times differ in due times of new steps only |
| Replay.RequestAll | components/workflow/src/replay.ts:181-200 | the synchronous burst of one await: cached, pending and new answers at consecutive numbers, cut at the first mismatch |
| Replay.DriveOnce | components/workflow/src/replay.ts:202-246 | one await as a loop equals one step of the replay function |
| Replay.DriveHandler | components/workflow/src/replay.ts:166-246 | the whole poll as a loop equals the replay function |
| WorkflowSafety.FailKeeps | components/workflow/src/modules.ts:146-157 | failing or entering the unwind keeps the invariant of a run |
| WorkflowSafety.DispatchKeeps | components/workflow/src/modules.ts:236-299 | journaling and dispatching one new step keeps rows, jobs and waiting events in step |
| WorkflowSafety.DispatchAllShape | components/workflow/src/modules.ts:236-299 | a capped wave appends that many pending rows and touches nothing but rows, jobs and events |
| WorkflowSafety.AdvanceKeeps | components/workflow/src/modules.ts:187-303 | after a poll the journal is consistent with the world and the outcome is the straight run's; still running means a pending step |
| WorkflowSafety.FinishStepKeeps | components/workflow/src/modules.ts:320-345 | settling a step records the world's result and leaves an advance behind |
| WorkflowSafety.UnwindKeeps | components/workflow/src/modules.ts:377-417 | a compensation dispatch keeps the invariant |
| WorkflowSafety.FinishCompensationKeeps | components/workflow/src/modules.ts:435-463 | a finished compensation keeps the invariant |
| WorkflowSafety.SendKeeps | components/workflow/src/events.ts:59-84 | delivering an event settles a pending wait of that name and keeps waits and events paired |
| WorkflowSafety.CancelKeeps | components/workflow/src/facade.ts:81-150 | a cancel bumps the generation, cancels live jobs and keeps the invariant |
| WorkflowSafety.RunInv | components/workflow/src/modules.ts:187-463 | the invariant holds after every run |
| WorkflowRuns.EveryRunHasAWorld | components/workflow/src/modules.ts:320-345 | whatever happened, one fixed world of step results explains it, because a step settles once |
| WorkflowRuns.DurableRunIsAStraightRun | components/workflow/src/modules.ts:187-345 | every run is a straight run of its handler in some world: same requests in order, same results; completed with its result, failed with its error at the root of the cause, or unwinding a cancel |
| WorkflowRuns.NeverStranded | components/workflow/src/modules.ts:187-345 | a running workflow has a live advance, a step whose job or callback is live, or a wait with its own event row; waits and waiting events are equal in number by name |
| WorkflowRuns.ZeroCapStrands | components/workflow/src/modules.ts:236-299 | with a cap of zero the first poll of a handler that awaits leaves nothing that can move |
| WorkflowRuns.JournalIsDenseAndAppendOnly | components/workflow/src/modules.ts:196-299 | step numbers are positions; name, kind, args, options and settled outcomes never change |
| WorkflowRuns.StepDispatchedOnce | components/workflow/src/modules.ts:236-299 | no step has two jobs, and its job runs the journaled call |
| WorkflowRuns.CanceledJournalIsFinal | components/workflow/src/facade.ts:114-149 | once a cancel bumped the generation no job or callback step changes its outcome |
| WorkflowEffects.PollDispatches | components/workflow/src/modules.ts:236-299 | a poll that suspends journals the next requests up to the cap, each pending and with a live job of its own that runs that call; the job of a sleep is due at the clock plus its delay |
| WorkflowEffects.PollEnds | components/workflow/src/modules.ts:210-217 | a poll that ends completes the run with the handler's result, or fails it with its error, or starts an unwind if something is to be undone |
| WorkflowEffects.NothingIsLeftUnpolled | components/workflow/src/modules.ts:320-345 | after every run that is still going a poll is due, or the handler run on the journal waits for a step that has not settled |
| WorkflowEffects.ReportSettles | components/workflow/src/modules.ts:320-345 | a report of the current generation journals its step as it ended, makes a poll due and touches no other row; an older one changes nothing |
| WorkflowEffects.CompensationSettles | components/workflow/src/modules.ts:435-463 | after a success the step is compensated and the unwind goes on; else the run has failed at that step with that error and the cause it was unwinding from |
| WorkflowEffects.SendDelivers | components/workflow/src/events.ts:59-84 | an event settles the earliest wait for it with its payload; one nobody waits for changes nothing |
| WorkflowEffects.CancelDecides | components/workflow/src/facade.ts:81-150 | exactly the unclaimed jobs of pending steps are dead, each with one canceled report; the run is canceled, or unwinds if asked to and something is to be undone; any other run is left alone |
| WorkflowEffects.StatusOnlyMovesOn | components/workflow/src/modules.ts:187-463 | a completed run stays completed with its result, and an ended or unwinding run never goes on or completes |
| Saga.SagaUnwinds | components/workflow/src/modules.ts:377-463 | every once-committing run from a calm failure or cancel is somewhere in the plan: a prefix dispatched, at most one outstanding, ended exactly by exhaustion or by a failed payment, whatever other steps settle late |
| Saga.DispatchOrder | components/workflow/src/modules.ts:377-417 | each dispatch is the payment of its step with journaled args and result, in strictly falling step number |
| Saga.PlanIsComplete | components/workflow/src/modules.ts:377-417 | the plan has each successful step that declared a compensation once, and no other |
| Saga.ExhaustedUnwind | components/workflow/src/modules.ts:388-398 | an unwind that runs out reaches its target with every owed step compensated and nothing owed since |
| Saga.HaltedUnwind | components/workflow/src/modules.ts:435-463 | a failed compensation ends the run at that step, keeps the first cause and leaves all lower steps untouched |
| Saga.CancelEntersCalmly | components/workflow/src/facade.ts:81-150 | a compensating cancel enters the unwind with every forward step silenced |
| Saga.EveryUnwindIsEntered | components/workflow/src/modules.ts:146-157 | any step of any run that fails it or starts an unwind enters with one live `_compensate`, or with nothing owed |
| Saga.SecondCommitPaysTwice | components/workflow/src/modules.ts:377-417 | in every run that is unwinding with something owed, two more commits of any `_compensate` job send the same payment twice |
| SagaRuns.SagaPaysIffCalm | components/workflow/src/modules.ts:146-157 | at whatever step a run leaves `running` by failure or for an unwind: every once-committing continuation pays each journaled compensable success once, in falling order, and ends owing nothing, if and only if no compensable step can still succeed |
| SagaRuns.UnwindingSettles | components/workflow/src/modules.ts:377-463 | wherever an unwind stands, payments fell strictly, carried the journaled args and result, and nothing above them is owed |
| SagaRuns.LateSuccessIsNotPaid | components/workflow/src/modules.ts:320-345 | where a compensable step can still succeed, some once-committing continuation leaves it unpaid or out of order |
| SagaRuns.CanceledInFlightIsDropped | components/workflow/src/facade.ts:114-149 | a step in flight at a cancel is never settled and never compensated in any later state |
| SagaRuns.ClaimedOutlivesCancel | components/workflow/src/facade.ts:114-149 | in every run with a claimed step in flight, the cancel, the step's success and its report are a run, at the end of which the report is spent and the step neither settled nor compensated |
| LateSteps.LateSiblingIsReachable | components/workflow/src/modules.ts:146-157 | every handler that opens with an uncaught fan-out has a run that fails while a compensable sibling is in flight |
| LateSteps.LateSiblingIsUnpaid | components/workflow/src/modules.ts:320-345 | and then a once-committing continuation that breaks the promise |
| LateSteps.LateSuccessBreaksOrder | components/workflow/src/modules.ts:320-345 | and, with an earlier compensable success, a run in which a higher step becomes owed while a lower one is being compensated |
| WorkflowJobs.EventLeads | components/scheduler/src/modules.ts:155-232 | one scheduler event, whatever it does to the rows, is a path of enqueues and enabled `Finish` steps of the workflow |
| WorkflowJobs.SchedulerRunIsAPath | components/scheduler/src/modules.ts:115-232 | so is every scheduler run over a workflow's jobs: a step is live exactly while its row is not terminal, and each ended one has its callback |
| WorkflowEngine.Engine.Poll | components/workflow/src/modules.ts:187-303 | `_advance` in place takes the run to what the step function says |
| WorkflowEngine.Engine.DispatchSteps | components/workflow/src/modules.ts:236-299 | the dispatch loop inserts rows, jobs and event rows one by one as the step function does |
| WorkflowEngine.Engine.Fail | components/workflow/src/modules.ts:146-157 | `failOrCompensate` in place |
| WorkflowEngine.Engine.StepDone | components/workflow/src/modules.ts:320-345 | `_stepDone` in place, a no-op for another generation |
| WorkflowEngine.Engine.Compensate | components/workflow/src/modules.ts:377-417 | `_compensate` in place: the backwards search and the dispatch |
| WorkflowEngine.Engine.CompensateDone | components/workflow/src/modules.ts:435-463 | `_compensateDone` in place |
| WorkflowEngine.Engine.Cancel | components/workflow/src/facade.ts:81-150 | `cancel` in place: the loop over the steps, the generation bump and the target |
| WorkflowEngine.Engine.SendEvent | components/workflow/src/events.ts:59-84 | `sendEventImpl` in place |
| JobRuns.ClaimKeeps | components/scheduler/src/modules.ts:115-135 | a claim keeps budget, lease and callback invariants |
| JobRuns.CompleteKeeps | components/scheduler/src/modules.ts:155-232 | a completion keeps them on each of its branches |
| JobRuns.ReclaimKeeps | components/scheduler/src/modules.ts:512-572 | a sweep keeps them for any batch of distinct claimed rows |
| JobRuns.CancelAllKeeps | components/scheduler/src/facade.ts:255-285 | a cascade keeps them |
| JobRuns.DispatchesAreClaims | components/scheduler/src/modules.ts:115-135 | the counted claims are the claims of the run |
| JobRuns.BoundedDispatch | components/scheduler/src/modules.ts:115-232 | crashes included, at most max(1, maxFailures) claims; claims are attempts, plus one while in progress or after success; a lease exactly while in progress |
| JobRuns.ExactlyOneCallback | components/scheduler/src/facade.ts:212-224 | a terminal job with `onComplete` has one callback job of the right kind, any other has none |
| JobRuns.SettlesWithItsCallback | components/scheduler/src/facade.ts:212-224 | the very step that ends a job enqueues its one report; before it there is none |
| JobRuns.AttemptDecides | components/scheduler/src/modules.ts:155-232 | a failed attempt ends the job if and only if the error is not retryable or its dispatches have reached the budget, else it is due again after the backoff; a success ends it; the report carries the very value or error; no other row changes |
| JobRuns.SweepDecides | components/scheduler/src/modules.ts:512-572 | a sweep ends a job of its batch if and only if it is an action or its dispatches have reached the budget, and reports the expired lease; else it is due at once |
| JobRuns.EnqueueDecides | components/scheduler/src/facade.ts:117-184 | one new pending job with what was asked, due when asked, unless its key is taken |
| JobRuns.DefaultBudget | components/scheduler/src/facade.ts:117-184 | without a retry option an action is dispatched once in any run and a mutation at most four times |
| JobRuns.LeaseProtects | components/scheduler/src/modules.ts:115-135 | no sweep takes a job within thirty seconds of its last dispatch |
| JobRuns.TerminalIsFinal | components/scheduler/src/modules.ts:155-232 | a terminal row never changes again |
| JobRuns.EnqueueIsIdempotent | components/scheduler/src/facade.ts:117-184 | enqueuing again under the same key finds the same job and inserts nothing |
| JobRuns.SweepAt | components/scheduler/src/modules.ts:512-572 | a sweep treats each row of its batch once and leaves every other row alone |
| JobRuns.CrashedActionNeverReruns | components/scheduler/src/modules.ts:512-572 | an action whose lease expired fails, whatever its budget |
| JobRuns.CascadeIsExact | components/scheduler/src/facade.ts:255-285 | in whatever order they are found, exactly the pending descendants are canceled and every other existing row is unchanged |
| Scheduler.JobTable.ClaimJob | components/scheduler/src/modules.ts:115-135 | `_claim` in place |
| Scheduler.JobTable.CompleteJob | components/scheduler/src/modules.ts:155-232 | `_complete` in place takes the table to what `JobRuns.AttemptDecides` describes |
| Scheduler.JobTable.Sweep | components/scheduler/src/modules.ts:512-572 | the reclaim loop in place |
| Scheduler.JobTable.EnqueueJob | components/scheduler/src/facade.ts:117-184 | the shared enqueue path in place, with the key lookup |
| Scheduler.JobTable.VisitChildren | components/scheduler/src/facade.ts:265-283 | one turn of the breadth-first walk keeps the walk's invariant and misses no child |
| Scheduler.JobTable.Cancel | components/scheduler/src/facade.ts:255-285 | the walk ends on cyclic parents too and cancels exactly the pending descendants, each once |
| Cron.BacklogIsAllOccurrences | components/scheduler/src/crons.ts:154-183 | stepping visits exactly the occurrences after the anchor up to now |
| Cron.BacklogRange | components/scheduler/src/crons.ts:154-183 | in rising order, and the next run after the last is past now |
| Cron.IntervalBacklog | components/scheduler/src/modules.ts:345-390 | the quotient counts the backlog of an interval, and its i-th time is the anchor plus i periods |
| Cron.CalendarBacklog | components/scheduler/src/modules.ts:391-448 | the previous-run function gives the last due time of a calendar, and the next run after it is the next run after now |
| Cron.IntervalTick | components/scheduler/src/modules.ts:318-448 | the closed form of an interval equals the walk |
| Cron.CalendarTick | components/scheduler/src/modules.ts:318-448 | the closed form of a calendar equals the walk |
| Cron.CronTick | components/scheduler/src/modules.ts:318-448 | for every spec and policy: same fired times, next run and anchor as walking one occurrence at a time |
| Cron.TickReanchors | components/scheduler/src/modules.ts:318-448 | the new anchor is at most now, now is before the next run, which is the first occurrence after the new anchor |
| Cron.PhaseNeverDrifts | components/scheduler/src/modules.ts:468-487 | however the ticks fall, the anchor is where one walk would have put it |
| Cron.FiredRises | components/scheduler/src/modules.ts:468-487 | over all ticks fired times strictly increase |
| Cron.FireAllMissesNoneIffUntruncated | components/scheduler/src/modules.ts:318-448 | `fireAll` fires everything due if and only if no backlog exceeded the cap |
| Cron.FireOnceIsFresh | components/scheduler/src/modules.ts:318-448 | with `fireOnce` a tick fires at most once, and the last fire is always the last occurrence so far |
| Cron.SkipFiresWhatIsOnTime | components/scheduler/src/modules.ts:318-448 | with `skip` exactly the occurrences that were alone due at their tick fire |
| Cadence.TickEnqueuesAll | components/scheduler/src/modules.ts:318-487 | a moving tick gives every chosen occurrence its own job, swallowed by no key, re-anchors at the last occurrence and names a new job due at the next |
| Cadence.EachJobMovesOnce | components/scheduler/src/modules.ts:318-329 | across ticks, crashes, reclaims, late commits, boots and spec changes only the named job moves a cron, and each job at most once |
| Cadence.NamedJobIsDueNext | components/scheduler/src/crons.ts:197-232 | the named cadence job was born due at the first occurrence after the anchor |
| Cadence.WorkStrictlyIncreases | components/scheduler/src/modules.ts:468-487 | over the life of a cron, reconfigured or not, fire times strictly increase |
| Cadence.SecondCommitIsNoop | components/scheduler/src/modules.ts:318-329 | re-running a tick that committed changes nothing |
| Cadence.BootLeavesOneChain | components/scheduler/src/crons.ts:236-369 | after any run that ends in a boot a registered cron has one live cadence job, due next, that alone can move it; an unchanged one keeps its phase and its live job, a changed one starts anew and its pending job is canceled |
| Cadence.BootDropsTheRest | components/scheduler/src/crons.ts:248-261 | a cron that is no longer registered loses its row, its pending cadence job is canceled, and no job can move it |
| Cadence.DroppedIsQuiet | components/scheduler/src/crons.ts:248-261 | whatever runs later, nothing fires until it is registered again |
| Cadence.LifeIsOneRun | components/scheduler/src/modules.ts:318-487 | since it was last registered anew, anchor and fired times are what its ticks give on one schedule, whatever crashes, second commits and boots there were |
| Cadence.CadenceKeepsPhase | components/scheduler/src/modules.ts:468-487 | so the anchor is the last occurrence, counted from the registration, at the last tick |
| Cadence.BootAppliesPolicyIff | components/scheduler/src/crons.ts:331-366 | the registered policy takes effect if and only if it is not a policy-only change of a dead cadence |
| Cadence.PolicyCanBeLost | components/scheduler/src/crons.ts:331-366 | a run, for every definition and pair of policies, whose last boot keeps the old policy |
| Cadence.CronTable.RunCadence | components/scheduler/src/modules.ts:318-487 | `_cronTick` in place, a no-op for any job but the named one |
| Cadence.CronTable.Reconcile | components/scheduler/src/crons.ts:236-369 | `reconcileCrons` in place, with the stale row it spreads |
| Wake.WakeIsRemembered | components/scheduler/src/driver.ts:96-134 | `pendingWake` says exactly whether a wake is unserved, and an idle driver holds one only after `stop` |
| Wake.NoLostWake | components/scheduler/src/driver.ts:96-185 | every wake before `stop`, the notice of the driver's own claim included, is followed by a peek that starts no earlier, in every interleaving with the loop exit and the `finally` |
| Wake.DriverProgress | components/scheduler/src/driver.ts:136-185 | every own step starts a peek or brings the end of the pass nearer |
| Wake.AlwaysDrained | components/scheduler/src/driver.ts:136-185 | with no wake pending, what the last peek returned is what is left to work off, and nothing at a clean exit |
| Wake.IdleMeansNothingWasDue | components/scheduler/src/driver.ts:136-185 | a driver that goes idle without error had nothing due at its last peek |
| Wake.BatchIsWorkedOff | components/scheduler/src/driver.ts:143-174 | a peeked batch is worked off in order and to its end |
| Wake.TryTakesTheNext | components/scheduler/src/driver.ts:145-147 | each try takes the next job of the batch, if still due, and no other |
| Wake.PassLosesAWakeIff | components/scheduler/src/driver.ts:121-131 | a pass that ends leaves a wake unserved if and only if one is pending and the driver is stopped |
| Wake.StopCanLoseAWake | components/scheduler/src/driver.ts:108-134 | a run in which that happens |
| Wake.DriverLoop.WakeUp | components/scheduler/src/driver.ts:96-106 | `wake` on the closure variables |
| Wake.DriverLoop.Iterate | components/scheduler/src/driver.ts:108-134 | `iterate` on the closure variables |
| Wake.DriverLoop.CheckLoop | components/scheduler/src/driver.ts:136-185 | the test at the bottom of the do/while, with a wake that came meanwhile |
| Wake.DriverLoop.Settle | components/scheduler/src/driver.ts:108-134 | the `finally`: clear the flight, run again if a wake is pending |
| ChangeLog.ReadLogComplete | packages/runtime-embedded/src/runtime.ts:830-910 | a scan with a positive limit returns exactly the watched changes up to where it says it got, and moves forward |
| ChangeLog.ReadLogCompleteIff | packages/runtime-embedded/src/runtime.ts:830-910 | a scan skips nothing if and only if its limit is positive or nothing watched was in range |
| ChangeLog.OverBudget | components/triggers/src/driver.ts:331-340 | the first index at which the budget is exceeded, never the first change |
| ChangeLog.GroupStart | components/triggers/src/driver.ts:343-345 | where the commit at the cut begins |
| ChangeLog.FirstGroupEnd | components/triggers/src/driver.ts:347-351 | where the first commit ends |
| ChangeLog.CutToByteBudget | components/triggers/src/driver.ts:327-356 | a non-empty prefix that splits no commit, fits the budget or is one commit, advances below everything left out, and leaves nothing out that would have fitted |
| Triggers.ScanKeeps | components/triggers/src/driver.ts:173-184 | a quiet scan covers what it scanned, and a cut batch holds all it would advance over |
| Triggers.DeliveryKeeps | components/triggers/src/modules.ts:88-102 | a successful call covers its batch, and an advance moves to a covered position or not at all |
| Triggers.EnsureKeeps | components/triggers/src/boot.ts:98-115 | a new cursor starts at zero or at the tip peeked before it, an existing one is used as it is; nothing is skipped by either |
| Triggers.OperatorKeeps | components/triggers/src/modules.ts:143-173 | pausing and resuming move no cursor and uncover nothing |
| Triggers.NoSkippedChange | components/triggers/src/driver.ts:153-224 | for any number of instances and any interleaving, every watched change between the first and the stored cursor was part of a successful handler call, and nothing else ever was |
| Triggers.CursorNeverGoesBack | components/triggers/src/modules.ts:88-102 | the stored cursor never goes back and keeps its origin, stale advances included |
| Triggers.StartsAtTheTip | components/triggers/src/boot.ts:98-115 | a cursor starts at zero if asked to, else at a tip the log had before there was a cursor |
| Triggers.PausedIff | components/triggers/src/modules.ts:115-173 | the row is paused if and only if since the last resume it was paused, the breaker tripped, or eight calls failed in a row; its failure count is that streak |
| Triggers.PausedStartsNothing | components/triggers/src/driver.ts:166-168 | from a pause until a resume, an instance without a scan under way starts none |
| Triggers.PausedDeliversNothing | components/triggers/src/driver.ts:166-168 | and once all instances are idle, nothing is delivered and the cursor stands still |
| Triggers.ZeroBatchSkips | components/triggers/src/driver.ts:173-181 | a run with batch size zero whose cursor passes an undelivered change |
| TriggerDrivers.CutIsARange | components/triggers/src/driver.ts:327-356 | a safe cut sends exactly the watched changes up to where the cursor may move |
| TriggerDrivers.TriggerDriver.AdvanceCursor | components/triggers/src/modules.ts:88-102 | move and clear the failures, or nothing if the row is elsewhere |
| TriggerDrivers.TriggerDriver.RecordFailure | components/triggers/src/modules.ts:115-134 | count the failure and pause at the eighth in a row |
| TriggerDrivers.TriggerDriver.Turn | components/triggers/src/driver.ts:173-223 | one turn of the drain loop moves the cursor or stops, and sends what it moved over |
| TriggerDrivers.TriggerDriver.RunOnePass | components/triggers/src/driver.ts:153-224 | a pass leaves a paused or backing-off trigger alone if and only if it is one; else every delivery but the last went through and the last says how it ended, everything moved over was sent once and in order, and the row, the failure count and the backoff are what that leaves |
| Windows.AnyStretchIsBounded | components/auth/src/functions.ts:386-404 | any stretch of one window length accepts at most twice the cap minus one |
| Windows.BoundIsReached | components/auth/src/functions.ts:386-404 | for every cap and width a run reaches that bound |
| Windows.RejectedOnlyWhenFull | components/auth/src/functions.ts:395-399 | a call is turned away only when cap calls were accepted within the last window length |
| Windows.BreakerAgreesWithThrottle | components/triggers/src/driver.ts:233-241 | counting every delivery trips exactly where counting accepted calls rejects |
| Windows.BreakerIsBounded | components/triggers/src/driver.ts:233-241 | in any stretch of one window length the breaker lets at most twice the cap minus one deliveries through |
| Windows.Throttle.SignInAnonymously | components/auth/src/functions.ts:386-404 | the counter row in place; zero disables |
| Windows.Breaker.RecordDelivery | components/triggers/src/driver.ts:233-241 | the in-memory window in place |
| Roles.KeysAgree | components/authz/src/effective-permissions.ts:15-20 | for a well-formed permission the looked-up keys are exactly the patterns that grant it |
| Roles.KeysAgreeIff | components/authz/src/effective-permissions.ts:15-20 | lookup and role check agree on all colon-free patterns if and only if the permission is well formed |
| Roles.NamesAgreeIff | components/authz/src/roles.ts:11-19 | lookup and role check agree on a configured pattern for all well-formed permissions if and only if its names have no colon |
| Roles.ExpandRole | components/authz/src/roles.ts:21-33 | one call returns the patterns of the roles it was first to see and leaves no parent of theirs unseen; it ends on cycles |
| Roles.ExpandFresh | components/authz/src/roles.ts:21-33 | from nothing seen, exactly the direct patterns of all roles reachable through `inherits` |
| Roles.ExpandRolePatterns | components/authz/src/effective-permissions.ts:7-12 | the closure, or an error above a thousand patterns |
| Roles.DecideRole | components/authz/src/roles.ts:11-19 | the loop answers whether some pattern of the closure grants the permission |
| Authz.IndexAgrees | components/authz/src/effective-permissions.ts:77-122 | after any run whose places have distinct keys the index, rebuilt as written, holds exactly the patterns of the assigned roles under the booted configuration |
| Authz.NulFreeRun | components/authz/src/effective-permissions.ts:95 | names without NUL give distinct keys over the whole run |
| Authz.BootIndexesIffDistinct | components/authz/src/effective-permissions.ts:87-114 | after any run the rebuild gives the index under every configuration if and only if no two assigned places share a key |
| Authz.StaleGrant | components/authz/src/effective-permissions.ts:104-114 | whenever two scopes share a key, a run in which a permission taken from a role survives a boot: its row stays, `can` says yes, no role a user other than the administrator holds there or globally grants it, and the administrator's `rebuild` leaves it |
| Authz.HeldIff | components/authz/src/context.ts:30-37 | an index lookup at a place succeeds if and only if a role assigned there grants the permission |
| Authz.CanDecidesRoles | components/authz/src/context.ts:21-47 | `can` is yes if and only if a role held globally or in the scope grants the permission |
| Authz.ScopesWithIff | components/authz/src/context.ts:52-62 | `scopesWith`, with a type or without, lists exactly the scopes in which a role of the user grants the permission |
| Authz.AssignIff | components/authz/src/functions.ts:30-38 | after any run a role is assigned if and only if the scope is whole, a role the caller holds globally or there grants `authz:manage`, and the role is not too big; then that one assignment is added, else nothing changes |
| Authz.RevokeIff | components/authz/src/functions.ts:40-51 | likewise for revoking, which takes that one assignment away |
| Authz.RebuildIff | components/authz/src/functions.ts:53-57 | `rebuild` goes through if and only if a global role of the caller grants `authz:manage` |
| Authz.BootIff | components/authz/src/effective-permissions.ts:77-122 | a boot succeeds if and only if the hash is unchanged or no assigned role is too big; assignments stay |
| Authz.BootstrapIff | components/authz/src/functions.ts:59-86 | the first admin can be made if and only if the role grants management, is not too big, and no assignment anywhere grants it; then it is assigned globally |
| Authz.RevokeUndoesAssign | components/authz/src/functions.ts:30-51 | revoking a role just assigned restores both tables, shared patterns included |
| Authz.RebuildIsNoop | components/authz/src/functions.ts:53-57 | `rebuild` changes nothing after any run, whatever hashes or keys collide |
| Authz.RebuildRepairsNothing | components/authz/src/effective-permissions.ts:81-85 | whenever two configurations share a hash, a run in which the index is wrong, `rebuild` is allowed, recomputing would repair it and the call does not |
| Authz.BootAgreesIff | components/authz/src/effective-permissions.ts:81-85 | where keys are distinct, a boot leaves an index that agrees if and only if the hash moved or both configurations give the roles of each place the same patterns |
| AuthzGroups.NulFreeIsDistinct | components/authz/src/effective-permissions.ts:95 | places without NUL characters have different keys |
| AuthzGroups.RegroupedIsIndex | components/authz/src/effective-permissions.ts:87-114 | grouping by key, dropping and rebuilding gives the index when keys are distinct, whatever the rows were |
| AuthzGroups.RegroupedIffDistinct | components/authz/src/effective-permissions.ts:87-114 | it does so under every configuration if and only if they are |
| AuthzGroups.LeftAlone | components/authz/src/effective-permissions.ts:104-114 | a place that is not the first of its group keeps the rows it had |
| AuthzGroups.NulCollides | components/authz/src/effective-permissions.ts:95 | any name with a NUL can be cut two ways into places that share a key |
| AuthzTables.Tables.UpsertPatterns | components/authz/src/effective-permissions.ts:38-44 | inserts exactly the missing patterns, no row twice, nothing at all above the limit |
| AuthzTables.Tables.ReconcileScope | components/authz/src/effective-permissions.ts:52-66 | the place's rows become exactly what the remaining roles grant, other places are untouched |
| AuthzTables.Tables.GroupByPlace | components/authz/src/effective-permissions.ts:87-102 | one group per key with the roles of its assignments |
| AuthzTables.Tables.DropUngrouped | components/authz/src/effective-permissions.ts:104-109 | drops exactly the rows whose key has no group |
| AuthzTables.Tables.ReconcileGroups | components/authz/src/effective-permissions.ts:111-114 | rebuilds each grouped place and no other |
| AuthzTables.Tables.ReconcileAll | components/authz/src/effective-permissions.ts:77-122 | the whole rebuild as written, collisions included; an error changes nothing; no row is ever duplicated |
| AuthzTables.Tables.HoldsOne | components/authz/src/context.ts:30-37 | the early-return loop of `held` |
| AuthzTables.Tables.CheckCan | components/authz/src/context.ts:40-47 | `can` with the global fallback; an absent or empty caller can do nothing |
| AuthzTables.Tables.AssignTo | components/authz/src/functions.ts:30-38 | `assignRole` in place with its errors and rollback |
| AuthzTables.Tables.RevokeFrom | components/authz/src/functions.ts:40-51 | `revokeRole` in place with its errors and rollback |
| AuthzTables.Tables.BootstrapFirstAdmin | components/authz/src/functions.ts:59-86 | `bootstrapFirstAdmin` in place with its gate |
| Sessions.Find | components/auth/src/functions.ts:318-321 | an index lookup returns the first matching live session, or nothing if there is none |
| Sessions.ColumnsMean | components/auth/src/functions.ts:68-93 | the three stored hashes point at the newest two refresh tokens and the newest access token of a live session |
| Sessions.RefreshDecides | components/auth/src/functions.ts:314-377 | after any run the answer to a refresh token is fixed by its place in the history (newest of a live session, the one before, neither) and by when the session was minted and last refreshed |
| Sessions.RefreshEffects | components/auth/src/functions.ts:314-377 | the newest token of a session in life moves that session on, the one before ends it once the grace is over, and no other session changes |
| Sessions.PairWorks | components/auth/src/functions.ts:322-350 | a pair that was handed out, by a mint or a refresh, works while its session is left alone: the access token names the user of the mint for exactly one access lifetime, the refresh token can be exchanged for one refresh lifetime but not past mint plus total |
| Sessions.SessionsAreMints | components/auth/src/functions.ts:68-93 | each session keeps the user and the instant of its own mint |
| Sessions.SignOutEnds | components/auth/src/functions.ts:302-306 | `signOut` ends the session whose newest access token it is given, expired or not, and no other |
| Sessions.ExchangedAtMostOnce | components/auth/src/functions.ts:314-350 | over a run no refresh token is exchanged twice |
| Sessions.CeilingIsFixed | components/auth/src/functions.ts:322-340 | the absolute expiry is mint plus the total lifetime for good |
| Sessions.AccessDecides | components/auth/src/functions.ts:308-312 | an access token is accepted if and only if it is the newest of a live session and at most one access lifetime old; it names the user of the mint, and never after mint plus total plus access lifetime |
| Sessions.EndedIsFinal | components/auth/src/functions.ts:352-373 | once a session ended, no later run accepts any token it ever handed out |
| Sessions.MintKeeps | components/auth/src/functions.ts:68-93 | a mint starts a chain of its own and keeps every token of every other session in its place |
| Sessions.FreshPairWorks | components/auth/src/functions.ts:68-93 | after a mint both tokens work: the access token names the user, the refresh token can be exchanged |
| Sessions.SessionTable.MintSession | components/auth/src/functions.ts:68-93 | `mintSession` in place is the mint step of any run with that table, and both tokens it hands out work |
| Sessions.SessionTable.GetUserId | components/auth/src/functions.ts:308-312 | the user of a live unexpired token |
| Sessions.SessionTable.EndByToken | components/auth/src/functions.ts:302-306 | `signOut` deletes the token's session and no other |
| Sessions.SessionTable.RefreshPair | components/auth/src/functions.ts:314-377 | rotation, ceiling, grace and reuse in place; the deletion on reuse stays although the call fails |

## Left out

- The handler API beyond what `Offered` lists, `status` queries and action contexts: plumbing with no hard property.
- Handlers whose request order depends on completion order, and handlers that wait other than by awaiting one step or a `Promise.all`: `Promise.allSettled` or `race`, or a step started and awaited later.
- `fireWorkflowOnComplete`: `start` never stores an `onComplete`, so the call is always a no-op.
- Job tables that several workflows share: `WorkflowJobs` takes the rows of one. Commits of internal jobs are the workflow's own `Dispatch` steps, not scheduler events.
- Microtasks and timers behind `drainMicrotasks`: only their stated effect, run until settled or blocked.
- Backoff arithmetic and jitter, `cron-parser` calendars and time zones: a non-negative delay and an abstract schedule.
- `_peekDue` ordering, the lease sweep timer and the beat timer: they decide when, not what.
- `iterate` and `runPass` of the trigger driver: the same loop as the scheduler's, which is modelled in `Wake`.
- `lastError` and `pausedReason` of a cursor, `deviceLabel` and `createdAt` of a session: stored and never read by the modelled code.
- `configHash` and `stableStringify`: the hash is a parameter, and collisions are an explicit hypothesis.
- Role names that hit JavaScript prototype properties, and role definitions with non-array resource values.
- Authz relations and row policies: a table lookup and a predicate, easy members.
- Legacy session rows without hashes or ceilings, and sign-up, sign-in, email, OAuth, passkey and MFA flows: calls into libraries.
- `revokeOtherSessions` and `listSessions`: `Revoke` events cover any deletion of rows.
- Notifications, blob stores, admin API, CLI, dashboard, sync and storage engines: I/O wrappers, or lifecycles that repeat the scheduler's.
- TriggerDrivers.TriggerDriver.RunOnePass: a pass with nobody else at the row; interleavings are covered by `Triggers`.
