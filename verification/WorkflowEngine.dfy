/**
 The mutations of components/workflow/src/modules.ts, facade.ts and events.ts in their own form: rows
 are read and replaced in place, and loops insert rows and jobs one by one.  Each is proved to do what
 the state machine in `Workflow` says.
 */
module WorkflowEngine {
  import opened Options
  import opened Replay
  import opened Workflow

  class Engine {
    const handler: Handler
    const maxParallelism: nat
    var status: Status
    var gen: nat
    var cause: Cause
    var target: Target
    var rows: seq<Row>
    var events: seq<EventRow>
    var jobs: seq<Job>

    function View(): Run
      reads this
    {
      Run(status, gen, cause, target, rows, events, jobs)
    }

    /** `ctx.workflow.start`. */
    constructor (h: Handler, cap: nat)
      ensures View() == Start() && handler == h && maxParallelism == cap
    {
      handler, maxParallelism := h, cap;
      status, gen, cause, target := Running, 0, NoError, ToFailed;
      rows, events, jobs := [], [], [Job(Advance, true)];
    }

    method Schedule(t: Task) returns (id: nat)
      modifies this`jobs
      ensures View() == Enqueue(old(View()), t) && id == old(|jobs|)
    {
      id := |jobs|;
      jobs := jobs + [Job(t, true)];
    }

    method HasOwed() returns (b: bool)
      ensures b == AnyOwed(rows)
    {
      var i := 0;
      while i < |rows|
        invariant 0 <= i <= |rows| && forall j :: 0 <= j < i ==> !Owed(rows[j])
      {
        if Owed(rows[i]) {
          return true;
        }
        i := i + 1;
      }
      return false;
    }

    method HasPending() returns (b: bool)
      ensures b == AnyPending(rows)
    {
      var i := 0;
      while i < |rows|
        invariant 0 <= i <= |rows| && forall j :: 0 <= j < i ==> !rows[j].state.Pending?
      {
        if rows[i].state.Pending? {
          return true;
        }
        i := i + 1;
      }
      return false;
    }

    method Fail(error: string)
      modifies this
      ensures View() == FailOrCompensate(old(View()), error)
    {
      var owed := HasOwed();
      if !owed {
        status, cause := Status.Failed, HandlerError(error);
      } else {
        status, cause, target := Compensating, HandlerError(error), ToFailed;
        var _ := Schedule(Task.Compensate);
      }
    }

    /** `workflow:_advance`. */
    method Poll(now: int)
      modifies this
      ensures View() == AdvanceRun(old(View()), handler, maxParallelism, now)
    {
      if !status.Running? {
        return;
      }
      var outcome := DriveHandler(handler, rows, now);
      match outcome
      case Completed(v) =>
        status := Status.Completed(v);
      case Failed(e) =>
        Fail(e);
      case Suspended(ns) =>
        var pending := HasPending();
        if ns == [] && !pending {
          Fail(STALLED);
        } else {
          DispatchSteps(ns, Least(maxParallelism, |ns|));
        }
    }

    /** The dispatch loop: journal a step, dispatch its job, then stamp the job's id on the row. */
    method DispatchSteps(ns: seq<NewStep>, n: nat)
      requires n <= |ns|
      modifies this
      ensures View() == DispatchAll(old(View()), ns, n)
    {
      var i := 0;
      while i < n
        invariant 0 <= i <= n
        invariant View() == DispatchAll(old(View()), ns, i)
      {
        var step := ns[i];
        rows := rows + [NewRow(step, None)];
        if step.req.kind == WaitForEvent {
          events := events + [EventRow(step.req.name, true)];
        } else {
          var id := Schedule(StepTask(step, gen));
          rows := rows[|rows| - 1 := rows[|rows| - 1].(job := Some(id))];
        }
        assert View() == DispatchOne(DispatchAll(old(View()), ns, i), step);
        i := i + 1;
      }
    }

    /** `workflow:_stepDone`. */
    method StepDone(step: nat, generation: nat, r: JobResult)
      modifies this
      ensures View() == FinishStep(old(View()), step, generation, r)
    {
      if gen != generation {
        return;
      }
      var i := 0;
      while i < |rows| && rows[i].stepNumber != step
        invariant 0 <= i <= |rows| && FindStep(rows, step) == FindStep(rows, step, i)
      {
        i := i + 1;
      }
      if i == |rows| {
        return;
      }
      rows := rows[i := rows[i].(state := ToState(r))];
      var _ := Schedule(Advance);
    }

    /** `workflow:_compensate`. */
    method Compensate()
      modifies this
      ensures View() == Unwind(old(View()))
    {
      if !status.Compensating? {
        return;
      }
      var next: Option<nat> := None;
      var i := 0;
      while i < |rows|
        invariant 0 <= i <= |rows| && next == LastOwed(rows, i)
      {
        if Owed(rows[i]) && (next.None? || rows[next.value].stepNumber < rows[i].stepNumber) {
          next := Some(i);
        }
        i := i + 1;
      }
      if next.None? {
        status := if target.ToCanceled? then Canceled else Status.Failed;
        return;
      }
      var row := rows[next.value];
      var id := Schedule(RunCompensation(row.stepNumber, gen, row.opts.compensate.value, row.args, row.state.value,
                                         row.opts.maxAttempts));
      rows := rows[next.value := row.(compensationJob := Some(id))];
    }

    /** `workflow:_compensateDone`. */
    method CompensateDone(step: nat, generation: nat, r: JobResult)
      modifies this
      ensures View() == FinishCompensation(old(View()), step, generation, r)
    {
      if gen != generation {
        return;
      }
      var i := 0;
      while i < |rows| && rows[i].stepNumber != step
        invariant 0 <= i <= |rows| && FindStep(rows, step) == FindStep(rows, step, i)
      {
        i := i + 1;
      }
      if i == |rows| {
        return;
      }
      if r.Succeeded? {
        rows := rows[i := rows[i].(compensated := true)];
        var _ := Schedule(Task.Compensate);
      } else {
        status, cause := Status.Failed, HaltedAt(step, ToResult(r).error, cause);
      }
    }

    /** The scheduler's cancel, on a job of this run. */
    method CancelOne(job: Option<nat>, unclaimed: set<nat>)
      modifies this`jobs
      ensures View() == CancelJob(old(View()), job, unclaimed)
    {
      if job.Some? && job.value < |jobs| && job.value in unclaimed && jobs[job.value].live {
        var callback := Callback(jobs[job.value].task, WasCanceled);
        if callback.Some? {
          jobs := jobs[job.value := jobs[job.value].(live := false)];
          var _ := Schedule(callback.value);
        }
      }
    }

    /** `ctx.workflow.cancel`. */
    method Cancel(compensate: bool, unclaimed: set<nat>)
      modifies this
      ensures View() == CancelRun(old(View()), compensate, unclaimed)
    {
      if !status.Running? {
        return;
      }
      var i := 0;
      while i < |rows|
        invariant 0 <= i <= |rows| && rows == old(rows)
        invariant View() == CancelJobs(old(View()), i, unclaimed)
      {
        if rows[i].state.Pending? {
          CancelOne(rows[i].job, unclaimed);
        }
        if !rows[i].compensated {
          CancelOne(rows[i].compensationJob, unclaimed);
        }
        i := i + 1;
      }
      var owed := HasOwed();
      if !compensate || !owed {
        status, gen := Canceled, gen + 1;
      } else {
        status, gen, cause, target := Compensating, gen + 1, ByRequest, ToCanceled;
        var _ := Schedule(Task.Compensate);
      }
    }

    /** `ctx.workflow.sendEvent`. */
    method SendEvent(name: string, payload: Value)
      modifies this
      ensures View() == Workflow.SendEvent(old(View()), name, payload)
    {
      var e := 0;
      while e < |events| && events[e] != EventRow(name, true)
        invariant 0 <= e <= |events| && FindWaiting(events, name) == FindWaiting(events, name, e)
      {
        e := e + 1;
      }
      if e == |events| {
        return;
      }
      events := events[e := EventRow(name, false)];
      var i := 0;
      while i < |rows| && !Awaiting(rows[i], name)
        invariant 0 <= i <= |rows| && FindAwaiting(rows, name) == FindAwaiting(rows, name, i)
      {
        i := i + 1;
      }
      if i < |rows| {
        rows := rows[i := rows[i].(state := Success(payload))];
      }
      var _ := Schedule(Advance);
    }
  }
}
