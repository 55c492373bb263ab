/**
 One workflow run as a state machine (components/workflow/src/modules.ts, facade.ts, events.ts).

 Every mutation is one atomic step.  The scheduler is seen through its promises only: a job's body
 commits at least once before the job is retired, perhaps again later, and a step job that settles
 enqueues its callback in the same step (`WorkflowJobs` takes runs of the scheduler to these steps).  A live
 internal job is one whose body is still to commit; no step looks at when the scheduler retires it.
 */
module Workflow {
  import opened Options
  import opened Replay

  datatype JobResult = Succeeded(value: Value) | FailedWith(error: string) | WasCanceled

  function ToResult(r: JobResult): StepResult {
    match r
    case Succeeded(v) => Ok(v)
    case FailedWith(e) => Err(e)
    case WasCanceled => Err("canceled")
  }

  function ToState(r: JobResult): StepState {
    match r
    case Succeeded(v) => Success(v)
    case FailedWith(e) => Failure(e)
    case WasCanceled => Failure("canceled")
  }

  /** What a scheduler job does for this run. */
  datatype Task =
    | Advance
    | RunStep(step: nat, gen: nat, path: string, args: Value, runAt: Option<int>, retry: Option<nat>)
    | StepDone(step: nat, gen: nat, result: JobResult)
    | Compensate
    | RunCompensation(step: nat, gen: nat, path: string, args: Value, output: Value, retry: Option<nat>)
    | CompensateDone(step: nat, gen: nat, result: JobResult)

  datatype Job = Job(task: Task, live: bool)

  datatype EventRow = EventRow(name: string, waiting: bool)

  datatype Status = Running | Completed(result: Value) | Compensating | Failed | Canceled

  /** The `error` column; `HaltedAt` is the text that wraps the original error of an unwind. */
  datatype Cause =
    | NoError
    | HandlerError(message: string)
    | ByRequest
    | HaltedAt(step: nat, message: string, original: Cause)

  datatype Target = ToFailed | ToCanceled

  datatype Run = Run(
    status: Status,
    gen: nat,
    cause: Cause,
    target: Target,
    rows: seq<Row>,
    events: seq<EventRow>,
    jobs: seq<Job>)

  const STALLED: string := "workflow suspended with no pending step"

  function Enqueue(s: Run, t: Task): Run { s.(jobs := s.jobs + [Job(t, true)]) }

  function Start(): Run { Run(Running, 0, NoError, ToFailed, [], [], [Job(Advance, true)]) }

  /** A successful step whose declared compensation has not run; an empty path counts as none. */
  predicate Owed(row: Row) {
    row.state.Success? && row.opts.compensate.Some? && row.opts.compensate.value != "" && !row.compensated
  }

  predicate AnyOwed(rows: seq<Row>) { exists i :: 0 <= i < |rows| && Owed(rows[i]) }

  predicate AnyPending(rows: seq<Row>) { exists i :: 0 <= i < |rows| && rows[i].state.Pending? }

  function FindStep(rows: seq<Row>, n: nat, from: nat := 0): (r: Option<nat>)
    requires from <= |rows|
    ensures r.Some? ==> from <= r.value < |rows| && rows[r.value].stepNumber == n
    ensures r.None? ==> forall i :: from <= i < |rows| ==> rows[i].stepNumber != n
    decreases |rows| - from
  {
    if from == |rows| then None
    else if rows[from].stepNumber == n then Some(from)
    else FindStep(rows, n, from + 1)
  }

  function FailOrCompensate(s: Run, error: string): Run {
    if !AnyOwed(s.rows) then s.(status := Status.Failed, cause := HandlerError(error))
    else Enqueue(s.(status := Compensating, cause := HandlerError(error), target := ToFailed), Compensate)
  }

  function NewRow(ns: NewStep, job: Option<nat>): Row {
    Row(ns.stepNumber, ns.req.kind, ns.req.name, ns.req.args, Pending, ns.req.opts, job, false, None)
  }

  function StepTask(ns: NewStep, gen: nat): Task {
    RunStep(ns.stepNumber, gen, ns.req.name, ns.req.args, ns.runAt, ns.req.opts.maxAttempts)
  }

  /** Journals one new step and dispatches it; an awaited event parks without a job. */
  function DispatchOne(s: Run, ns: NewStep): Run {
    if ns.req.kind == WaitForEvent then
      s.(rows := s.rows + [NewRow(ns, None)], events := s.events + [EventRow(ns.req.name, true)])
    else
      s.(rows := s.rows + [NewRow(ns, Some(|s.jobs|))], jobs := s.jobs + [Job(StepTask(ns, s.gen), true)])
  }

  function DispatchAll(s: Run, ns: seq<NewStep>, n: nat): Run
    requires n <= |ns|
  {
    if n == 0 then s else DispatchOne(DispatchAll(s, ns, n - 1), ns[n - 1])
  }

  function Least(a: nat, b: nat): nat { if a < b then a else b }

  function AdvanceRun(s: Run, h: Handler, cap: nat, now: int): Run {
    if !s.status.Running? then s
    else match RunReplay(h, s.rows, now)
      case Completed(v) => s.(status := Status.Completed(v))
      case Failed(e) => FailOrCompensate(s, e)
      case Suspended(ns) =>
        if ns == [] && !AnyPending(s.rows) then FailOrCompensate(s, STALLED)
        else DispatchAll(s, ns, Least(cap, |ns|))
  }

  function FinishStep(s: Run, step: nat, gen: nat, r: JobResult): Run {
    if gen != s.gen then s
    else match FindStep(s.rows, step)
      case None => s
      case Some(i) => Enqueue(s.(rows := s.rows[i := s.rows[i].(state := ToState(r))]), Advance)
  }

  /** The owed row with the highest step number among the first `n`. */
  function LastOwed(rows: seq<Row>, n: nat): (r: Option<nat>)
    requires n <= |rows|
    ensures r.Some? ==> r.value < n && Owed(rows[r.value])
    ensures r.Some? ==> forall i :: 0 <= i < n && Owed(rows[i]) ==> rows[i].stepNumber <= rows[r.value].stepNumber
    ensures r.None? ==> forall i :: 0 <= i < n ==> !Owed(rows[i])
  {
    if n == 0 then None
    else match LastOwed(rows, n - 1)
      case None => if Owed(rows[n - 1]) then Some(n - 1) else None
      case Some(i) => if Owed(rows[n - 1]) && rows[i].stepNumber < rows[n - 1].stepNumber then Some(n - 1) else Some(i)
  }

  function Unwind(s: Run): Run {
    if !s.status.Compensating? then s
    else match LastOwed(s.rows, |s.rows|)
      case None => s.(status := if s.target.ToCanceled? then Canceled else Status.Failed)
      case Some(i) =>
        var row := s.rows[i];
        Enqueue(s.(rows := s.rows[i := row.(compensationJob := Some(|s.jobs|))]),
                RunCompensation(row.stepNumber, s.gen, row.opts.compensate.value, row.args, row.state.value,
                                row.opts.maxAttempts))
  }

  function FinishCompensation(s: Run, step: nat, gen: nat, r: JobResult): Run {
    if gen != s.gen then s
    else match FindStep(s.rows, step)
      case None => s
      case Some(i) =>
        if r.Succeeded? then Enqueue(s.(rows := s.rows[i := s.rows[i].(compensated := true)]), Compensate)
        else s.(status := Status.Failed, cause := HaltedAt(step, ToResult(r).error, s.cause))
  }

  /** The completion callback the scheduler enqueues when a job of this run settles. */
  function Callback(t: Task, r: JobResult): Option<Task> {
    match t
    case RunStep(n, g, _, _, _, _) => Some(StepDone(n, g, r))
    case RunCompensation(n, g, _, _, _, _) => Some(CompensateDone(n, g, r))
    case _ => None
  }

  function Retire(s: Run, j: nat): Run
    requires j < |s.jobs|
  {
    s.(jobs := s.jobs[j := s.jobs[j].(live := false)])
  }

  function Settle1(s: Run, j: nat, r: JobResult): Run
    requires j < |s.jobs| && Callback(s.jobs[j].task, r).Some?
  {
    Enqueue(Retire(s, j), Callback(s.jobs[j].task, r).value)
  }

  /** The scheduler's cancel of one job: only a job that is not claimed yet can be canceled. */
  function CancelJob(s: Run, job: Option<nat>, unclaimed: set<nat>): Run {
    if job.Some? && job.value < |s.jobs| && job.value in unclaimed && s.jobs[job.value].live
       && Callback(s.jobs[job.value].task, WasCanceled).Some?
    then Settle1(s, job.value, WasCanceled)
    else s
  }

  function CancelRow(s: Run, row: Row, unclaimed: set<nat>): Run {
    var s1 := if row.state.Pending? then CancelJob(s, row.job, unclaimed) else s;
    if !row.compensated then CancelJob(s1, row.compensationJob, unclaimed) else s1
  }

  /** Cancels the jobs of the first `n` rows. */
  function CancelJobs(s: Run, n: nat, unclaimed: set<nat>): (r: Run)
    requires n <= |s.rows|
    ensures r == s.(jobs := r.jobs)
  {
    if n == 0 then s else CancelRow(CancelJobs(s, n - 1, unclaimed), s.rows[n - 1], unclaimed)
  }

  function CancelRun(s: Run, compensate: bool, unclaimed: set<nat>): Run {
    if !s.status.Running? then s
    else
      var s1 := CancelJobs(s, |s.rows|, unclaimed);
      if !compensate || !AnyOwed(s.rows) then s1.(status := Canceled, gen := s.gen + 1)
      else Enqueue(s1.(status := Compensating, gen := s.gen + 1, cause := ByRequest, target := ToCanceled), Compensate)
  }

  function FindWaiting(events: seq<EventRow>, name: string, from: nat := 0): (r: Option<nat>)
    requires from <= |events|
    ensures r.Some? ==> from <= r.value < |events| && events[r.value] == EventRow(name, true)
    ensures r.None? ==> forall i :: from <= i < |events| ==> events[i] != EventRow(name, true)
    decreases |events| - from
  {
    if from == |events| then None
    else if events[from] == EventRow(name, true) then Some(from)
    else FindWaiting(events, name, from + 1)
  }

  predicate Awaiting(row: Row, name: string) {
    row.kind == WaitForEvent && row.name == name && row.state.Pending?
  }

  function FindAwaiting(rows: seq<Row>, name: string, from: nat := 0): (r: Option<nat>)
    requires from <= |rows|
    ensures r.Some? ==> from <= r.value < |rows| && Awaiting(rows[r.value], name)
    ensures r.Some? ==> forall i :: from <= i < r.value ==> !Awaiting(rows[i], name)
    ensures r.None? ==> forall i :: from <= i < |rows| ==> !Awaiting(rows[i], name)
    decreases |rows| - from
  {
    if from == |rows| then None
    else if Awaiting(rows[from], name) then Some(from)
    else FindAwaiting(rows, name, from + 1)
  }

  function SendEvent(s: Run, name: string, payload: Value): Run {
    match FindWaiting(s.events, name)
    case None => s
    case Some(e) =>
      var s1 := s.(events := s.events[e := EventRow(name, false)]);
      Enqueue(match FindAwaiting(s.rows, name)
              case None => s1
              case Some(i) => s1.(rows := s.rows[i := s.rows[i].(state := Success(payload))]),
              Advance)
  }

  // ---------------------------------------------------------------------------------------------
  // Runs
  // ---------------------------------------------------------------------------------------------

  datatype Event =
    | Dispatch(job: nat, retire: bool, now: int)
    | Finish(job: nat, result: JobResult)
    | Send(name: string, payload: Value)
    | Cancel(compensate: bool, unclaimed: set<nat>)

  /** The body of an internal job. */
  function Perform(s: Run, t: Task, h: Handler, cap: nat, now: int): Run {
    match t
    case Advance => AdvanceRun(s, h, cap, now)
    case StepDone(n, g, r) => FinishStep(s, n, g, r)
    case Compensate => Unwind(s)
    case CompensateDone(n, g, r) => FinishCompensation(s, n, g, r)
    case _ => s
  }

  predicate Internal(t: Task) { t.Advance? || t.StepDone? || t.Compensate? || t.CompensateDone? }

  predicate Enabled(s: Run, e: Event) {
    match e
    // A body does not look at its job row, so it can still commit after the job was retired.
    case Dispatch(j, _, _) => j < |s.jobs| && Internal(s.jobs[j].task)
    case Finish(j, r) => j < |s.jobs| && s.jobs[j].live && Callback(s.jobs[j].task, r).Some?
    case _ => true
  }

  function Next(s: Run, e: Event, h: Handler, cap: nat): (r: Run)
    requires Enabled(s, e)
    ensures |r.jobs| >= |s.jobs|
  {
    match e
    case Dispatch(j, retire, now) =>
      var s1 := Perform(s, s.jobs[j].task, h, cap, now);
      JobsGrow(s, s.jobs[j].task, h, cap, now);
      if retire then Retire(s1, j) else s1
    case Finish(j, r) => Settle1(s, j, r)
    case Send(name, payload) => SendEvent(s, name, payload)
    case Cancel(compensate, unclaimed) =>
      CancelGrows(s, |s.rows|, unclaimed);
      CancelRun(s, compensate, unclaimed)
  }

  lemma {:induction false} DispatchGrows(s: Run, ns: seq<NewStep>, n: nat)
    requires n <= |ns|
    ensures s.jobs <= DispatchAll(s, ns, n).jobs
  {
    if n > 0 {
      DispatchGrows(s, ns, n - 1);
    }
  }

  lemma JobsGrow(s: Run, t: Task, h: Handler, cap: nat, now: int)
    ensures s.jobs <= Perform(s, t, h, cap, now).jobs
  {
    if t.Advance? && s.status.Running? && RunReplay(h, s.rows, now).Suspended? {
      var ns := RunReplay(h, s.rows, now).newSteps;
      DispatchGrows(s, ns, Least(cap, |ns|));
    }
  }

  lemma {:induction false} CancelGrows(s: Run, n: nat, unclaimed: set<nat>)
    requires n <= |s.rows|
    ensures |CancelJobs(s, n, unclaimed).jobs| >= |s.jobs|
  {
    if n > 0 {
      CancelGrows(s, n - 1, unclaimed);
    }
  }
}
