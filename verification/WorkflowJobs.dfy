/**
 The scheduler under a workflow run (components/scheduler/src/modules.ts:115-232, 512-572, facade.ts:117-285,
 components/workflow/src/modules.ts:284-299, 398-413): what a run of the job table does to the jobs of one
 workflow is a sequence of enqueues and of enabled `Finish` steps.
 */
module WorkflowJobs {
  import opened Options
  import opened Replay
  import opened Workflow
  import J = Jobs
  import R = JobRuns

  function FromResult(r: J.Result): JobResult {
    match r
    case Succeeded(v) => Succeeded(v)
    case FailedWith(e) => FailedWith(e)
    case WasCanceled => WasCanceled
  }

  /** Jobs with a completion callback: the steps and the compensations. */
  predicate HasCallback(t: Task) { t.RunStep? || t.RunCompensation? }

  /** What each job the workflow enqueued itself is for, by its row id. */
  type Tasks = nat -> Task

  /** A report is the callback of the job it reports. */
  function TaskOf(tasks: Tasks, id: nat, args: J.Args): Task {
    match args
    case Work(_) => tasks(id)
    case Report(of, _, r) => if HasCallback(tasks(of)) then Callback(tasks(of), FromResult(r)).value else tasks(id)
  }

  /** A step is live until its row is terminal, an internal job until its body has committed. */
  predicate LiveAs(task: Task, state: J.State, committed: bool) {
    if HasCallback(task) then !J.Terminal(state) else !committed
  }

  function Seen(job: J.Job, tasks: Tasks, id: nat, done: set<nat>): Job {
    var task := TaskOf(tasks, id, job.args);
    Job(task, LiveAs(task, job.state, id in done))
  }

  /** The job table as the workflow sees it; `done` are the internal jobs that have committed. */
  function Project(t: J.Table, tasks: Tasks, done: set<nat>): (r: seq<Job>)
    ensures |r| == |t| && forall id: nat :: id < |t| ==> r[id] == Seen(t[id], tasks, id, done)
  {
    seq(|t|, id requires 0 <= id < |t| => Seen(t[id], tasks, id, done))
  }

  /** Steps and compensations are enqueued with `onComplete`, internal jobs without. */
  ghost predicate Labelled(t: J.Table, tasks: Tasks) {
    forall id: nat :: id < |t| && t[id].args.Work? ==> (t[id].onComplete.Some? <==> HasCallback(tasks(id)))
  }

  /** ... and then reports have no callback of their own, and are of jobs that have one. */
  ghost predicate Coherent(t: J.Table, tasks: Tasks) {
    forall id: nat :: id < |t| ==> RowCoherent(t[id], tasks, id)
  }

  predicate RowCoherent(job: J.Job, tasks: Tasks, id: nat) {
    match job.args
    case Work(_) => job.onComplete.Some? <==> HasCallback(tasks(id))
    case Report(of, _, _) => job.onComplete.None? && HasCallback(tasks(of))
  }

  // ---------------------------------------------------------------------------------------------
  // Moves of the workflow's job list
  // ---------------------------------------------------------------------------------------------

  datatype Move = Added(task: Task) | Finished(job: nat, result: JobResult)

  predicate CanMove(s: Run, m: Move) {
    m.Finished? ==> Enabled(s, Finish(m.job, m.result))
  }

  /** `Finished` is the `Finish` step of a run, `Added` the enqueue that the other steps do. */
  function Moved(s: Run, m: Move): Run
    requires CanMove(s, m)
  {
    match m
    case Added(t) => Enqueue(s, t)
    case Finished(j, r) => Settle1(s, j, r)
  }

  function Path(s: Run, moves: seq<Move>): Option<Run> {
    if moves == [] then Some(s)
    else
      match Path(s, moves[..|moves| - 1])
      case None => None
      case Some(s1) => if CanMove(s1, moves[|moves| - 1]) then Some(Moved(s1, moves[|moves| - 1])) else None
  }

  lemma {:induction false} PathOn(s: Run, a: seq<Move>, b: seq<Move>)
    requires Path(s, a).Some?
    ensures Path(s, a + b) == Path(Path(s, a).value, b)
  {
    if b == [] {
      assert a + b == a;
    } else {
      var n := |b| - 1;
      PathOn(s, a, b[..n]);
      assert (a + b)[..|a + b| - 1] == a + b[..n];
    }
  }

  /** `moves` lead from a run that sees `t` to one that sees `t'`, and nothing else of the run changes. */
  ghost predicate Leads(s: Run, moves: seq<Move>, t: J.Table, t': J.Table, tasks: Tasks, done: set<nat>) {
    && s.jobs == Project(t, tasks, done)
    && Path(s, moves) == Some(s.(jobs := Project(t', tasks, done)))
  }

  lemma LeadsOn(s: Run, a: seq<Move>, b: seq<Move>, t: J.Table, t': J.Table, t'': J.Table, tasks: Tasks, done: set<nat>)
    requires Leads(s, a, t, t', tasks, done) && Leads(s.(jobs := Project(t', tasks, done)), b, t', t'', tasks, done)
    ensures Leads(s, a + b, t, t'', tasks, done)
  {
    PathOn(s, a, b);
  }

  lemma LeadsNowhere(s: Run, t: J.Table, t': J.Table, tasks: Tasks, done: set<nat>)
    requires s.jobs == Project(t, tasks, done) == Project(t', tasks, done)
    ensures Leads(s, [], t, t', tasks, done)
  {
  }

  lemma LeadsByOne(s: Run, m: Move, t: J.Table, t': J.Table, tasks: Tasks, done: set<nat>)
    requires s.jobs == Project(t, tasks, done) && CanMove(s, m) && Moved(s, m).jobs == Project(t', tasks, done)
    ensures Leads(s, [m], t, t', tasks, done)
  {
    assert [m][..0] == [];
  }

  // ---------------------------------------------------------------------------------------------
  // One row
  // ---------------------------------------------------------------------------------------------

  /** A row that is claimed, released or retried looks the same. */
  lemma SameSeen(t: J.Table, id: nat, job: J.Job, tasks: Tasks, done: set<nat>)
    requires id < |t| && job.args == t[id].args && !J.Terminal(t[id].state) && !J.Terminal(job.state)
    ensures Project(t[id := job], tasks, done) == Project(t, tasks, done)
  {
  }

  lemma InsertLeads(s: Run, t: J.Table, job: J.Job, tasks: Tasks, done: set<nat>)
    requires s.jobs == Project(t, tasks, done) && job.args.Work? && job.state.Pending? && |t| !in done
    ensures Leads(s, [Added(tasks(|t|))], t, t + [job], tasks, done)
  {
    assert Moved(s, Added(tasks(|t|))).jobs == Project(t + [job], tasks, done);
    LeadsByOne(s, Added(tasks(|t|)), t, t + [job], tasks, done);
  }

  /** A terminal row: the `Finish` step for a step or compensation, nothing for an internal job. */
  function EndMoves(job: J.Job, id: nat, r: J.Result): seq<Move> {
    if job.onComplete.Some? then [Finished(id, FromResult(r))] else []
  }

  lemma EndLeads(s: Run, t: J.Table, id: nat, job: J.Job, r: J.Result, now: int, tasks: Tasks, done: set<nat>)
    requires Coherent(t, tasks) && s.jobs == Project(t, tasks, done) && |t| !in done
    requires id < |t| && !J.Terminal(t[id].state) && J.Terminal(job.state)
    requires job.args == t[id].args && job.onComplete == t[id].onComplete
    ensures Leads(s, EndMoves(job, id, r), t, J.Finish(t, id, job, r, now), tasks, done)
    ensures Coherent(J.Finish(t, id, job, r, now), tasks)
  {
    var t' := J.Finish(t, id, job, r, now);
    assert RowCoherent(t[id], tasks, id);
    if job.onComplete.Some? {
      assert HasCallback(tasks(id)) && s.jobs[id] == Job(tasks(id), true);
      var m := Finished(id, FromResult(r));
      assert Moved(s, m).jobs == Project(t', tasks, done);
      LeadsByOne(s, m, t, t', tasks, done);
    } else {
      assert Project(t', tasks, done) == Project(t, tasks, done);
    }
  }

  // ---------------------------------------------------------------------------------------------
  // Whole events and runs
  // ---------------------------------------------------------------------------------------------

  ghost predicate Before(done: set<nat>, t: J.Table) { forall id :: id in done ==> id < |t| }

  lemma CompleteLeads(s: Run, t: J.Table, id: nat, a: J.Attempt, now: int, backoff: nat, tasks: Tasks, done: set<nat>)
    returns (moves: seq<Move>)
    requires Coherent(t, tasks) && s.jobs == Project(t, tasks, done) && Before(done, t)
    ensures Leads(s, moves, t, J.Complete(t, id, a, now, backoff), tasks, done)
    ensures Coherent(J.Complete(t, id, a, now, backoff), tasks)
  {
    moves := [];
    var t' := J.Complete(t, id, a, now, backoff);
    if id >= |t| || !t[id].state.InProgress? {
      LeadsNowhere(s, t, t', tasks, done);
      return;
    }
    var job := t[id];
    var attempts := job.attempts + 1;
    if a.Returned? {
      EndLeads(s, t, id, job.(state := J.Success), J.Succeeded(a.value), now, tasks, done);
      moves := EndMoves(job, id, J.Succeeded(a.value));
    } else if attempts >= job.maxFailures || !a.retryable {
      var dead := job.(state := J.Failed, attempts := attempts);
      EndLeads(s, t, id, dead, J.FailedWith(a.error), now, tasks, done);
      moves := EndMoves(job, id, J.FailedWith(a.error));
    } else {
      var again := J.Released(job.(state := J.Pending, attempts := attempts, nextTs := now + backoff));
      SameSeen(t, id, again, tasks, done);
      LeadsNowhere(s, t, t', tasks, done);
    }
  }

  lemma ReclaimOneLeads(s: Run, t: J.Table, id: nat, now: int, tasks: Tasks, done: set<nat>) returns (moves: seq<Move>)
    requires Coherent(t, tasks) && s.jobs == Project(t, tasks, done) && Before(done, t)
    requires id < |t| && t[id].state.InProgress?
    ensures Leads(s, moves, t, J.ReclaimOne(t, id, now), tasks, done)
    ensures Coherent(J.ReclaimOne(t, id, now), tasks) && Before(done, J.ReclaimOne(t, id, now))
  {
    var job := t[id];
    var attempts := job.attempts + 1;
    if job.kind.Mutation? && attempts < job.maxFailures {
      var again := J.Released(job.(state := J.Pending, attempts := attempts, nextTs := now));
      SameSeen(t, id, again, tasks, done);
      LeadsNowhere(s, t, t[id := again], tasks, done);
      moves := [];
    } else {
      var dead := job.(state := J.Failed, attempts := attempts);
      EndLeads(s, t, id, dead, J.FailedWith(J.LEASE_EXPIRED), now, tasks, done);
      moves := EndMoves(job, id, J.FailedWith(J.LEASE_EXPIRED));
    }
  }

  lemma {:induction false} ReclaimLeads(s: Run, t: J.Table, batch: seq<nat>, now: int, tasks: Tasks, done: set<nat>)
    returns (moves: seq<Move>)
    requires Coherent(t, tasks) && s.jobs == Project(t, tasks, done) && Before(done, t) && J.Distinct(batch)
    requires forall i :: 0 <= i < |batch| ==> batch[i] < |t| && t[batch[i]].state.InProgress?
    ensures Leads(s, moves, t, J.Reclaim(t, batch, now), tasks, done)
    ensures Coherent(J.Reclaim(t, batch, now), tasks) && Before(done, J.Reclaim(t, batch, now))
  {
    if batch == [] {
      LeadsNowhere(s, t, t, tasks, done);
      moves := [];
    } else {
      var n := |batch| - 1;
      var t1 := J.Reclaim(t, batch[..n], now);
      var a := ReclaimLeads(s, t, batch[..n], now, tasks, done);
      R.SweepAt(t, batch[..n], now, batch[n]);
      var b := ReclaimOneLeads(s.(jobs := Project(t1, tasks, done)), t1, batch[n], now, tasks, done);
      LeadsOn(s, a, b, t, t1, J.Reclaim(t, batch, now), tasks, done);
      moves := a + b;
    }
  }

  lemma {:induction false} CancelLeads(s: Run, t: J.Table, order: seq<nat>, now: int, tasks: Tasks, done: set<nat>)
    returns (moves: seq<Move>)
    requires Coherent(t, tasks) && s.jobs == Project(t, tasks, done) && Before(done, t) && J.Distinct(order)
    requires forall i :: 0 <= i < |order| ==> order[i] < |t| && t[order[i]].state.Pending?
    ensures Leads(s, moves, t, J.CancelAll(t, order, now), tasks, done)
    ensures Coherent(J.CancelAll(t, order, now), tasks) && Before(done, J.CancelAll(t, order, now))
  {
    if order == [] {
      LeadsNowhere(s, t, t, tasks, done);
      moves := [];
    } else {
      var n := |order| - 1;
      var t1, id := J.CancelAll(t, order[..n], now), order[n];
      var a := CancelLeads(s, t, order[..n], now, tasks, done);
      R.CanceledAt(t, order[..n], now, id);
      var s1 := s.(jobs := Project(t1, tasks, done));
      EndLeads(s1, t1, id, t1[id].(state := J.Canceled), J.WasCanceled, now, tasks, done);
      var b := EndMoves(t1[id], id, J.WasCanceled);
      LeadsOn(s, a, b, t, t1, J.CancelAll(t, order, now), tasks, done);
      moves := a + b;
    }
  }

  /** What one event of the scheduler does to the jobs of the workflow is a path of its own steps. */
  lemma EventLeads(s: Run, sched: R.Sched, e: R.Event, tasks: Tasks, done: set<nat>) returns (moves: seq<Move>)
    requires R.Enabled(sched, e) && Coherent(sched.jobs, tasks) && Before(done, sched.jobs)
    requires s.jobs == Project(sched.jobs, tasks, done) && Labelled(R.Next(sched, e).jobs, tasks)
    ensures Leads(s, moves, sched.jobs, R.Next(sched, e).jobs, tasks, done) && Coherent(R.Next(sched, e).jobs, tasks)
  {
    var t := sched.jobs;
    var t' := R.Next(sched, e).jobs;
    match e
    case Enqueued(path, kind, payload, opts, now) =>
      if t' == t {
        LeadsNowhere(s, t, t', tasks, done);
        moves := [];
      } else {
        InsertLeads(s, t, J.NewJob(path, kind, J.Work(payload), opts, now), tasks, done);
        moves := [Added(tasks(|t|))];
      }
    case Inserted(job) =>
      InsertLeads(s, t, job, tasks, done);
      moves := [Added(tasks(|t|))];
    case Claimed(id, now) =>
      if t' != t { SameSeen(t, id, t'[id], tasks, done); }
      LeadsNowhere(s, t, t', tasks, done);
      moves := [];
    case Completed(id, a, now, backoff) => moves := CompleteLeads(s, t, id, a, now, backoff, tasks, done);
    case Swept(batch, now) => moves := ReclaimLeads(s, t, batch, now, tasks, done);
    case CanceledFrom(_, order, now) => moves := CancelLeads(s, t, order, now, tasks, done);
  }

  /** What the rows of the last table say was so before. */
  lemma LabelledBefore(sched: R.Sched, e: R.Event, tasks: Tasks)
    requires R.Enabled(sched, e) && Labelled(R.Next(sched, e).jobs, tasks)
    ensures Labelled(sched.jobs, tasks)
  {
    forall id: nat | id < |sched.jobs| && sched.jobs[id].args.Work?
      ensures sched.jobs[id].onComplete.Some? <==> HasCallback(tasks(id))
    {
      R.ArgsKept(sched, e, id);
    }
  }

  /**
   Every run of the scheduler over the jobs of a workflow, crashes, retries, sweeps and cascades included, is a
   path of enqueues and enabled `Finish` steps of the workflow: at its end the workflow sees each step and
   compensation live exactly while its row is not terminal, and the callback of each that is not.
   */
  lemma {:induction false} SchedulerRunIsAPath(s: Run, events: seq<R.Event>, tasks: Tasks) returns (moves: seq<Move>)
    requires s.jobs == [] && R.RunOf(events).Some? && Labelled(R.RunOf(events).value.jobs, tasks)
    ensures var t := R.RunOf(events).value.jobs; Leads(s, moves, [], t, tasks, {}) && Coherent(t, tasks)
  {
    if events == [] {
      LeadsNowhere(s, [], [], tasks, {});
      moves := [];
    } else {
      var n := |events| - 1;
      var sched := R.RunOf(events[..n]).value;
      LabelledBefore(sched, events[n], tasks);
      var a := SchedulerRunIsAPath(s, events[..n], tasks);
      var b := EventLeads(s.(jobs := Project(sched.jobs, tasks, {})), sched, events[n], tasks, {});
      LeadsOn(s, a, b, [], sched.jobs, R.RunOf(events).value.jobs, tasks, {});
      moves := a + b;
    }
  }
}
