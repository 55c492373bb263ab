/**
 What every run of a workflow keeps: the journal is a prefix of the straight run, a running workflow
 is never stranded, and settled steps never change.
 */
module WorkflowSafety {
  import opened Options
  import opened Replay
  import opened Workflow

  // ---------------------------------------------------------------------------------------------
  // The invariant
  // ---------------------------------------------------------------------------------------------

  /** The error a run left `running` with, before any halted unwind wrapped it. */
  function Root(c: Cause): Cause { if c.HaltedAt? then Root(c.original) else c }

  /** An unwind towards `failed` began with an error of the handler, one towards `canceled` with a request. */
  predicate Blamed(s: Run) { if s.target.ToCanceled? then Root(s.cause).ByRequest? else Root(s.cause).HandlerError? }

  /** A job refers to the row it was dispatched for, and a current callback carries the world's result. */
  ghost predicate JobOk(w: World, s: Run, j: nat)
    requires j < |s.jobs|
  {
    match s.jobs[j].task
    case RunStep(n, g, path, args, _, retry) =>
      && g == 0 && n < |s.rows|
      && s.rows[n].kind != WaitForEvent && s.rows[n].job == Some(j)
      && path == s.rows[n].name && args == s.rows[n].args && retry == s.rows[n].opts.maxAttempts
    case StepDone(n, g, r) =>
      g == 0 && n < |s.rows| && s.rows[n].kind != WaitForEvent && (s.gen == 0 ==> ToResult(r) == w(n))
    case Compensate => !s.status.Running? && Blamed(s)
    case RunCompensation(n, g, _, _, _, _) => !s.status.Running? && Blamed(s) && g == s.gen && n < |s.rows|
    case CompensateDone(n, g, _) => !s.status.Running? && Blamed(s) && g == s.gen && n < |s.rows|
    case Advance => true
  }

  ghost predicate JobsOk(w: World, s: Run) {
    forall j: nat :: j < |s.jobs| ==> JobOk(w, s, j)
  }

  /** The job that runs step `n` is still live. */
  predicate JobLive(s: Run, n: nat) {
    n < |s.rows| && s.rows[n].job.Some? && IsLiveStep(s, s.rows[n].job.value, n)
  }

  predicate IsLiveStep(s: Run, j: nat, n: nat) {
    j < |s.jobs| && s.jobs[j].live && s.jobs[j].task.RunStep? && s.jobs[j].task.step == n
  }

  /** ... or its callback is, with the run's generation. */
  ghost predicate CallbackLive(s: Run, n: nat) {
    exists c: nat :: IsLiveCallback(s, c, n)
  }

  predicate IsLiveCallback(s: Run, c: nat, n: nat) {
    c < |s.jobs| && s.jobs[c].live && s.jobs[c].task.StepDone? && s.jobs[c].task.step == n &&
      s.jobs[c].task.gen == s.gen
  }

  ghost predicate Served(s: Run, n: nat)
    requires n < |s.rows|
  {
    s.rows[n].state.Pending? && s.rows[n].kind != WaitForEvent ==> JobLive(s, n) || CallbackLive(s, n)
  }

  ghost predicate AllServed(s: Run) {
    s.gen == 0 ==> forall n: nat :: n < |s.rows| ==> Served(s, n)
  }

  function WaitingEvents(events: seq<EventRow>, name: string): nat {
    if events == [] then 0
    else
      var n := |events| - 1;
      WaitingEvents(events[..n], name) + if events[n] == EventRow(name, true) then 1 else 0
  }

  function PendingWaits(rows: seq<Row>, name: string): nat {
    if rows == [] then 0
    else
      var n := |rows| - 1;
      PendingWaits(rows[..n], name) + if Awaiting(rows[n], name) then 1 else 0
  }

  /** Of every name there are as many waiting events as pending waits. */
  ghost predicate WaitsPaired(s: Run) {
    forall name: string :: WaitingEvents(s.events, name) == PendingWaits(s.rows, name)
  }

  ghost predicate AdvanceLive(s: Run) { exists j: nat :: IsLiveAdvance(s, j) }

  predicate IsLiveAdvance(s: Run, j: nat) { j < |s.jobs| && s.jobs[j].live && s.jobs[j].task.Advance? }

  ghost predicate Lively(s: Run) { s.status.Running? ==> AdvanceLive(s) || AnyPending(s.rows) }

  /** Nothing has been undone while the run is still going forward. */
  ghost predicate ForwardOnly(s: Run) {
    s.status.Running? ==>
      && s.gen == 0 && s.cause == NoError && s.target.ToFailed?
      && forall n :: 0 <= n < |s.rows| ==> !s.rows[n].compensated && s.rows[n].compensationJob.None?
  }

  /** The run ended, or is ending, the way the straight run ends, unless it was canceled. */
  ghost predicate OutcomeOk(h: Handler, w: World, s: Run) {
    && (s.status.Completed? ==> StraightOutcome(h, w, Outcome.Completed(s.status.result)))
    && (s.status.Failed? || s.status.Compensating? ==> Blamed(s))
    && (Root(s.cause).HandlerError? ==> StraightOutcome(h, w, Outcome.Failed(Root(s.cause).message)))
  }

  /** The part of the invariant that is about rows, jobs and events. */
  ghost predicate Core(h: Handler, w: World, s: Run) {
    && Consistent(h, w, s.rows)
    && s.gen <= 1
    && ForwardOnly(s)
    && JobsOk(w, s)
    && AllServed(s)
    && WaitsPaired(s)
  }

  ghost predicate Inv(h: Handler, w: World, s: Run) {
    Core(h, w, s) && Lively(s) && OutcomeOk(h, w, s)
  }

  /** The event settles each step the way the world does. */
  ghost predicate Agrees(w: World, s: Run, e: Event)
    requires Enabled(s, e)
  {
    match e
    case Finish(j, r) => s.gen == 0 && s.jobs[j].task.RunStep? ==> ToResult(r) == w(s.jobs[j].task.step)
    case Send(name, payload) =>
      FindWaiting(s.events, name).Some? && FindAwaiting(s.rows, name).Some? ==>
        w(FindAwaiting(s.rows, name).value) == Ok(payload)
    case _ => true
  }

  // ---------------------------------------------------------------------------------------------
  // Small steps
  // ---------------------------------------------------------------------------------------------

  lemma InitialInv(h: Handler, w: World)
    ensures Inv(h, w, Start())
  {
    assert IsLiveAdvance(Start(), 0);
  }

  lemma EnqueueKeeps(h: Handler, w: World, s: Run, t: Task, s': Run)
    requires Core(h, w, s) && s' == Enqueue(s, t)
    requires t.Advance? || (t.Compensate? && !s.status.Running? && Blamed(s))
    ensures Core(h, w, s')
    ensures t.Advance? ==> AdvanceLive(s')
  {
    forall j: nat | j < |s'.jobs| ensures JobOk(w, s', j) {
      if j < |s.jobs| { assert JobOk(w, s, j); }
    }
    ServedByMore(s, s');
    if t.Advance? { assert IsLiveAdvance(s', |s.jobs|); }
  }

  lemma ServedByMore(s: Run, s': Run)
    requires AllServed(s) && s.jobs <= s'.jobs && s'.gen == s.gen && s'.rows == s.rows
    ensures AllServed(s')
  {
    if s.gen == 0 {
      forall n: nat | n < |s'.rows| ensures Served(s', n) {
        assert Served(s, n);
        if CallbackLive(s, n) {
          var c: nat :| IsLiveCallback(s, c, n);
          assert IsLiveCallback(s', c, n);
        }
      }
    }
  }

  /** The columns fixed when a step is journaled. */
  predicate SameCall(a: Row, b: Row) {
    && a.stepNumber == b.stepNumber && a.kind == b.kind && a.name == b.name && a.args == b.args
    && a.opts == b.opts && a.job == b.job
  }

  /** `b` is `a` with nothing forgotten. */
  predicate RowGrows(a: Row, b: Row) {
    SameCall(a, b) && (a.state.Pending? || b.state == a.state)
  }

  ghost predicate StateOk(w: World, n: nat, st: StepState) {
    (st.Success? ==> w(n) == Ok(st.value)) && (st.Failure? ==> w(n) == Err(st.error))
  }

  function One(b: bool): nat { if b then 1 else 0 }

  lemma {:induction false} PendingWaitsUpdate(rows: seq<Row>, i: nat, row: Row, name: string)
    requires i < |rows|
    ensures PendingWaits(rows[i := row], name) + One(Awaiting(rows[i], name)) ==
            PendingWaits(rows, name) + One(Awaiting(row, name))
  {
    var n := |rows| - 1;
    if i < n {
      PendingWaitsUpdate(rows[..n], i, row, name);
      assert rows[i := row][..n] == rows[..n][i := row];
    } else {
      assert rows[i := row][..n] == rows[..n];
    }
  }

  lemma {:induction false} WaitingEventsUpdate(events: seq<EventRow>, i: nat, e: EventRow, name: string)
    requires i < |events|
    ensures WaitingEvents(events[i := e], name) + One(events[i] == EventRow(name, true)) ==
            WaitingEvents(events, name) + One(e == EventRow(name, true))
  {
    var n := |events| - 1;
    if i < n {
      WaitingEventsUpdate(events[..n], i, e, name);
      assert events[i := e][..n] == events[..n][i := e];
    } else {
      assert events[i := e][..n] == events[..n];
    }
  }

  lemma RowsConsistent(h: Handler, w: World, rows: seq<Row>, i: nat, row: Row, rows': seq<Row>)
    requires Consistent(h, w, rows) && i < |rows| && rows' == rows[i := row]
    requires SameCall(rows[i], row) && StateOk(w, i, row.state)
    ensures Consistent(h, w, rows')
  {
  }

  lemma RowJobs(w: World, s: Run, i: nat, row: Row, s': Run)
    requires JobsOk(w, s) && i < |s.rows| && SameCall(s.rows[i], row) && s' == s.(rows := s.rows[i := row])
    ensures JobsOk(w, s')
  {
    forall j: nat | j < |s'.jobs| ensures JobOk(w, s', j) {
      assert JobOk(w, s, j);
    }
  }

  lemma RowServed(s: Run, i: nat, row: Row, s': Run)
    requires AllServed(s) && i < |s.rows| && RowGrows(s.rows[i], row) && s' == s.(rows := s.rows[i := row])
    ensures AllServed(s')
  {
    if s.gen == 0 {
      forall n: nat | n < |s'.rows| ensures Served(s', n) {
        assert Served(s, n);
        if CallbackLive(s, n) {
          var c: nat :| IsLiveCallback(s, c, n);
          assert IsLiveCallback(s', c, n);
        }
      }
    }
  }

  lemma RowWaits(s: Run, i: nat, row: Row, s': Run)
    requires WaitsPaired(s) && i < |s.rows| && s' == s.(rows := s.rows[i := row])
    requires row.kind == s.rows[i].kind && row.name == s.rows[i].name
    requires row.kind == WaitForEvent ==> row.state == s.rows[i].state
    ensures WaitsPaired(s')
  {
    forall name: string ensures WaitingEvents(s'.events, name) == PendingWaits(s'.rows, name) {
      PendingWaitsUpdate(s.rows, i, row, name);
      assert WaitingEvents(s.events, name) == PendingWaits(s.rows, name);
    }
  }

  /** Replacing one row by a grown one keeps every part of the invariant that is about rows and jobs. */
  lemma RowKeeps(h: Handler, w: World, s: Run, i: nat, row: Row, s': Run)
    requires Consistent(h, w, s.rows) && JobsOk(w, s) && AllServed(s) && WaitsPaired(s)
    requires i < |s.rows| && s' == s.(rows := s.rows[i := row])
    requires RowGrows(s.rows[i], row) && StateOk(w, i, row.state)
    requires row.kind == WaitForEvent ==> row.state == s.rows[i].state
    ensures Consistent(h, w, s'.rows) && JobsOk(w, s') && AllServed(s') && WaitsPaired(s')
  {
    RowsConsistent(h, w, s.rows, i, row, s'.rows);
    RowJobs(w, s, i, row, s');
    RowServed(s, i, row, s');
    RowWaits(s, i, row, s');
  }

  /** Retiring an internal job is harmless once the step it reports is settled. */
  lemma RetireKeeps(h: Handler, w: World, s: Run, j: nat)
    requires Inv(h, w, s) && j < |s.jobs|
    requires s.jobs[j].task.Advance? ==> Lively(Retire(s, j))
    requires s.jobs[j].task.StepDone? && s.gen == 0 ==>
               s.jobs[j].task.step < |s.rows| && !s.rows[s.jobs[j].task.step].state.Pending?
    requires !s.jobs[j].task.RunStep?
    ensures Inv(h, w, Retire(s, j))
  {
    var s' := Retire(s, j);
    forall k: nat | k < |s'.jobs| ensures JobOk(w, s', k) {
      assert JobOk(w, s, k);
    }
    if s.gen == 0 {
      forall n: nat | n < |s'.rows| ensures Served(s', n) {
        assert Served(s, n);
        if CallbackLive(s, n) && s.rows[n].state.Pending? {
          var c: nat :| IsLiveCallback(s, c, n);
          assert IsLiveCallback(s', c, n);
        }
      }
    }
    if !s.jobs[j].task.Advance? && AdvanceLive(s) {
      var k: nat :| IsLiveAdvance(s, k);
      assert IsLiveAdvance(s', k);
    }
  }

  // ---------------------------------------------------------------------------------------------
  // `_stepDone`
  // ---------------------------------------------------------------------------------------------

  lemma FindDense(h: Handler, w: World, rows: seq<Row>, n: nat)
    requires Consistent(h, w, rows)
    ensures FindStep(rows, n) == if n < |rows| then Some(n) else None
  {
    var r := FindStep(rows, n);
    if r.Some? { assert RowConsistent(h, w, r.value, rows[r.value]); }
    if n < |rows| { assert RowConsistent(h, w, n, rows[n]); }
  }

  lemma FinishStepKeeps(h: Handler, w: World, s: Run, n: nat, g: nat, r: JobResult)
    requires Inv(h, w, s)
    requires g == 0 && n < |s.rows| && s.rows[n].kind != WaitForEvent && (s.gen == 0 ==> ToResult(r) == w(n))
    ensures Inv(h, w, FinishStep(s, n, g, r))
    ensures s.gen == 0 ==> !FinishStep(s, n, g, r).rows[n].state.Pending?
  {
    if g == s.gen {
      FindDense(h, w, s.rows, n);
      var row := s.rows[n].(state := ToState(r));
      assert RowConsistent(h, w, n, s.rows[n]);
      var s1 := s.(rows := s.rows[n := row]);
      RowKeeps(h, w, s, n, row, s1);
      EnqueueKeeps(h, w, s1, Advance, Enqueue(s1, Advance));
    }
  }

  // ---------------------------------------------------------------------------------------------
  // `_advance`
  // ---------------------------------------------------------------------------------------------

  lemma ServedByAppend(s: Run, s': Run)
    requires AllServed(s) && s.jobs <= s'.jobs && s'.gen == s.gen && |s'.rows| == |s.rows| + 1 && s.rows <= s'.rows
    requires s.gen == 0 ==> Served(s', |s.rows|)
    ensures AllServed(s')
  {
    if s.gen == 0 {
      forall n: nat | n < |s'.rows| ensures Served(s', n) {
        if n < |s.rows| {
          assert Served(s, n) && s'.rows[n] == s.rows[n];
          if CallbackLive(s, n) {
            var c: nat :| IsLiveCallback(s, c, n);
            assert IsLiveCallback(s', c, n);
          }
        }
      }
    }
  }

  lemma DispatchJobs(w: World, s: Run, ns: NewStep, s': Run)
    requires JobsOk(w, s) && s.gen == 0 && ns.stepNumber == |s.rows| && s' == DispatchOne(s, ns)
    ensures JobsOk(w, s')
  {
    forall j: nat | j < |s'.jobs| ensures JobOk(w, s', j) {
      if j < |s.jobs| { assert JobOk(w, s, j); }
    }
  }

  lemma DispatchWaits(s: Run, ns: NewStep, s': Run)
    requires WaitsPaired(s) && s' == DispatchOne(s, ns)
    ensures WaitsPaired(s')
  {
  }

  lemma DispatchConsistent(h: Handler, w: World, rows: seq<Row>, row: Row, req: Request)
    requires Consistent(h, w, rows) && row.stepNumber == |rows| && row.state.Pending?
    requires OnTrace(h, w, |rows|, req) && Matches(row, req) && row.opts == req.opts
    ensures Consistent(h, w, rows + [row])
  {
  }

  lemma DispatchKeeps(h: Handler, w: World, s: Run, ns: NewStep, s': Run)
    requires Core(h, w, s) && s.gen == 0 && s' == DispatchOne(s, ns)
    requires ns.stepNumber == |s.rows| && OnTrace(h, w, |s.rows|, ns.req)
    ensures Core(h, w, s') && |s'.rows| == |s.rows| + 1 && s'.rows[|s.rows|].state.Pending?
  {
    DispatchConsistent(h, w, s.rows, s'.rows[|s.rows|], ns.req);
    DispatchJobs(w, s, ns, s');
    DispatchWaits(s, ns, s');
    if ns.req.kind != WaitForEvent { assert JobLive(s', |s.rows|); }
    ServedByAppend(s, s');
  }

  /** Dispatching appends pending rows and touches nothing but rows, jobs and events. */
  lemma {:induction false} DispatchAllShape(s: Run, ns: seq<NewStep>, n: nat, s': Run)
    requires n <= |ns| && s' == DispatchAll(s, ns, n)
    ensures |s'.rows| == |s.rows| + n && s.rows <= s'.rows
    ensures s' == s.(rows := s'.rows, jobs := s'.jobs, events := s'.events)
    ensures n > 0 ==> AnyPending(s'.rows)
  {
    if n > 0 {
      DispatchAllShape(s, ns, n - 1, DispatchAll(s, ns, n - 1));
      assert s'.rows[|s.rows| + n - 1].state.Pending?;
    }
  }

  /** Dispatching the i-th new step in its turn keeps `p`. */
  ghost predicate DispatchInvariant(p: Run -> bool, s: Run, ns: seq<NewStep>) {
    forall i: nat, t: Run ::
      i < |ns| && p(t) && t.gen == s.gen && |t.rows| == |s.rows| + i ==> p(DispatchOne(t, ns[i]))
  }

  lemma {:induction false} DispatchInduction(p: Run -> bool, s: Run, ns: seq<NewStep>, n: nat)
    requires p(s) && n <= |ns| && DispatchInvariant(p, s, ns)
    ensures p(DispatchAll(s, ns, n))
  {
    if n > 0 {
      var s1 := DispatchAll(s, ns, n - 1);
      DispatchInduction(p, s, ns, n - 1);
      DispatchAllShape(s, ns, n - 1, s1);
      assert p(DispatchOne(s1, ns[n - 1]));
    }
  }

  lemma DispatchAllKeeps(h: Handler, w: World, s: Run, ns: seq<NewStep>, n: nat, now: int, s': Run)
    requires Core(h, w, s) && s.gen == 0 && n <= |ns| && s' == DispatchAll(s, ns, n)
    requires Continues(TraceOf(h, w), |s.rows|, ns, now)
    ensures Core(h, w, s')
  {
    var p := (t: Run) => Core(h, w, t);
    forall i: nat, t: Run | i < |ns| && p(t) && t.gen == s.gen && |t.rows| == |s.rows| + i
      ensures p(DispatchOne(t, ns[i]))
    {
      NextContinues(h, w, |s.rows|, ns, i, now);
      DispatchKeeps(h, w, t, ns[i], DispatchOne(t, ns[i]));
    }
    DispatchInduction(p, s, ns, n);
  }

  lemma NextContinues(h: Handler, w: World, from: nat, ns: seq<NewStep>, i: nat, now: int)
    requires Continues(TraceOf(h, w), from, ns, now) && i < |ns|
    ensures ns[i].stepNumber == from + i && OnTrace(h, w, from + i, ns[i].req)
  {
  }

  lemma FailKeeps(h: Handler, w: World, s: Run, e: string, s': Run)
    requires Inv(h, w, s) && s.status.Running? && StraightOutcome(h, w, Outcome.Failed(e))
    requires s' == FailOrCompensate(s, e)
    ensures Inv(h, w, s')
  {
    var s1 := if AnyOwed(s.rows)
      then s.(status := Compensating, cause := HandlerError(e), target := ToFailed)
      else s.(status := Status.Failed, cause := HandlerError(e));
    StatusKeeps(h, w, s, s1);
    if AnyOwed(s.rows) {
      EnqueueKeeps(h, w, s1, Compensate, s');
    }
  }

  /** Leaving `running` keeps rows, jobs and events valid. */
  lemma StatusKeeps(h: Handler, w: World, s: Run, s': Run)
    requires Core(h, w, s) && s.status.Running? && !s'.status.Running?
    requires s' == s.(status := s'.status, cause := s'.cause, target := s'.target)
    ensures Core(h, w, s')
  {
    forall j: nat | j < |s'.jobs| ensures JobOk(w, s', j) {
      assert JobOk(w, s, j);
    }
    ServedByMore(s, s');
  }

  lemma AdvanceKeeps(h: Handler, w: World, s: Run, cap: nat, now: int, s': Run)
    requires Inv(h, w, s) && cap >= 1 && s' == AdvanceRun(s, h, cap, now)
    ensures Core(h, w, s') && OutcomeOk(h, w, s')
    ensures s'.status.Running? ==> AnyPending(s'.rows)
  {
    if s.status.Running? {
      ReplayRefinesStraightRun(h, w, s.rows, now);
      match RunReplay(h, s.rows, now)
      case Completed(v) => StatusKeeps(h, w, s, s');
      case Failed(e) => FailKeeps(h, w, s, e, s');
      case Suspended(ns) =>
        assert ns == [] ==> AnyPending(s.rows);
        DispatchAllKeeps(h, w, s, ns, Least(cap, |ns|), now, s');
        DispatchAllShape(s, ns, Least(cap, |ns|), s');
    }
  }

  // ---------------------------------------------------------------------------------------------
  // `_compensate`, `_compensateDone`, the scheduler's completions, `sendEvent` and `cancel`
  // ---------------------------------------------------------------------------------------------

  lemma UnwindKeeps(h: Handler, w: World, s: Run, s': Run)
    requires Inv(h, w, s) && s' == Unwind(s)
    ensures Inv(h, w, s')
  {
    if s.status.Compensating? {
      match LastOwed(s.rows, |s.rows|)
      case None => TerminalKeeps(h, w, s, s');
      case Some(i) =>
        var row := s.rows[i].(compensationJob := Some(|s.jobs|));
        var s1 := s.(rows := s.rows[i := row]);
        assert RowConsistent(h, w, i, s.rows[i]);
        RowKeeps(h, w, s, i, row, s1);
        CompensationEnqueued(h, w, s1, s');
    }
  }

  lemma CompensationEnqueued(h: Handler, w: World, s: Run, s': Run)
    requires Core(h, w, s) && !s.status.Running? && Blamed(s) && |s'.jobs| == |s.jobs| + 1
    requires s' == s.(jobs := s.jobs + [s'.jobs[|s.jobs|]])
    requires s'.jobs[|s.jobs|].task.RunCompensation?
    requires s'.jobs[|s.jobs|].task.gen == s.gen && s'.jobs[|s.jobs|].task.step < |s.rows|
    ensures Core(h, w, s')
  {
    forall j: nat | j < |s'.jobs| ensures JobOk(w, s', j) {
      if j < |s.jobs| { assert JobOk(w, s, j); }
    }
    ServedByMore(s, s');
  }

  lemma TerminalKeeps(h: Handler, w: World, s: Run, s': Run)
    requires Core(h, w, s) && !s.status.Running? && !s'.status.Running?
    requires s' == s.(status := s'.status, cause := s'.cause) && Root(s'.cause) == Root(s.cause)
    ensures Core(h, w, s')
  {
    forall j: nat | j < |s'.jobs| ensures JobOk(w, s', j) {
      assert JobOk(w, s, j);
    }
    ServedByMore(s, s');
  }

  lemma FinishCompensationKeeps(h: Handler, w: World, s: Run, n: nat, g: nat, r: JobResult, s': Run)
    requires Inv(h, w, s) && s' == FinishCompensation(s, n, g, r)
    requires !s.status.Running? && Blamed(s) && g == s.gen && n < |s.rows|
    ensures Inv(h, w, s')
  {
    FindDense(h, w, s.rows, n);
    if r.Succeeded? {
      var row := s.rows[n].(compensated := true);
      var s1 := s.(rows := s.rows[n := row]);
      assert RowConsistent(h, w, n, s.rows[n]);
      RowKeeps(h, w, s, n, row, s1);
      EnqueueKeeps(h, w, s1, Compensate, s');
    } else {
      TerminalKeeps(h, w, s, s');
    }
  }

  /** A job settles: it is retired and its callback enqueued in one step. */
  lemma SettleKeeps(h: Handler, w: World, s: Run, j: nat, r: JobResult, s': Run)
    requires Core(h, w, s) && j < |s.jobs| && Callback(s.jobs[j].task, r).Some? && s' == Settle1(s, j, r)
    requires s.gen == 0 && s.jobs[j].task.RunStep? ==> ToResult(r) == w(s.jobs[j].task.step)
    ensures Core(h, w, s')
  {
    forall k: nat | k < |s'.jobs| ensures JobOk(w, s', k) {
      assert JobOk(w, s, j);
      if k < |s.jobs| { assert JobOk(w, s, k); }
    }
    if s.gen == 0 {
      forall n: nat | n < |s'.rows| ensures Served(s', n) {
        assert Served(s, n) && JobOk(w, s, j);
        if JobLive(s, n) && s.rows[n].job == Some(j) {
          assert IsLiveCallback(s', |s.jobs|, n);
        } else if CallbackLive(s, n) {
          var c: nat :| IsLiveCallback(s, c, n);
          assert IsLiveCallback(s', c, n);
        }
      }
    }
  }

  lemma SettleLively(s: Run, j: nat, r: JobResult)
    requires Lively(s) && j < |s.jobs| && Callback(s.jobs[j].task, r).Some?
    ensures Lively(Settle1(s, j, r))
  {
    if AdvanceLive(s) {
      var k: nat :| IsLiveAdvance(s, k);
      assert IsLiveAdvance(Settle1(s, j, r), k);
    }
  }

  lemma SendKeeps(h: Handler, w: World, s: Run, name: string, payload: Value, s': Run)
    requires Inv(h, w, s) && s' == SendEvent(s, name, payload)
    requires FindWaiting(s.events, name).Some? && FindAwaiting(s.rows, name).Some? ==>
               w(FindAwaiting(s.rows, name).value) == Ok(payload)
    ensures Inv(h, w, s')
  {
    if FindWaiting(s.events, name).Some? {
      var e := FindWaiting(s.events, name).value;
      EventHasWait(s, name, e);
      var i := FindAwaiting(s.rows, name).value;
      var row := s.rows[i].(state := Success(payload));
      var s1 := s.(rows := s.rows[i := row], events := s.events[e := EventRow(name, false)]);
      assert RowConsistent(h, w, i, s.rows[i]);
      RowsConsistent(h, w, s.rows, i, row, s1.rows);
      RowJobs(w, s, i, row, s.(rows := s1.rows));
      RowServed(s, i, row, s.(rows := s1.rows));
      EventRowsOnly(w, s.(rows := s1.rows), s1);
      BothSettle(s, i, row, e, name, s1);
      EnqueueKeeps(h, w, s1, Advance, s');
    }
  }

  /** Paired counts: a waiting event has a pending wait to resolve. */
  lemma EventHasWait(s: Run, name: string, e: nat)
    requires WaitsPaired(s) && e < |s.events| && s.events[e] == EventRow(name, true)
    ensures FindAwaiting(s.rows, name).Some?
  {
    WaitingEventsUpdate(s.events, e, EventRow(name, false), name);
    assert WaitingEvents(s.events, name) == PendingWaits(s.rows, name);
    if FindAwaiting(s.rows, name).None? {
      NoPendingWaits(s.rows, name);
    }
  }

  lemma {:induction false} NoPendingWaits(rows: seq<Row>, name: string)
    requires forall i :: 0 <= i < |rows| ==> !Awaiting(rows[i], name)
    ensures PendingWaits(rows, name) == 0
  {
    if rows != [] { NoPendingWaits(rows[..|rows| - 1], name); }
  }

  lemma EventRowsOnly(w: World, s: Run, s': Run)
    requires JobsOk(w, s) && AllServed(s) && s' == s.(events := s'.events)
    ensures JobsOk(w, s') && AllServed(s')
  {
    forall j: nat | j < |s'.jobs| ensures JobOk(w, s', j) {
      assert JobOk(w, s, j);
    }
    ServedByMore(s, s');
  }

  lemma BothSettle(s: Run, i: nat, row: Row, e: nat, name: string, s': Run)
    requires WaitsPaired(s) && i < |s.rows| && e < |s.events|
    requires Awaiting(s.rows[i], name) && s.events[e] == EventRow(name, true) && !row.state.Pending?
    requires s' == s.(rows := s.rows[i := row], events := s.events[e := EventRow(name, false)])
    ensures WaitsPaired(s')
  {
    forall other: string ensures WaitingEvents(s'.events, other) == PendingWaits(s'.rows, other) {
      PendingWaitsUpdate(s.rows, i, row, other);
      WaitingEventsUpdate(s.events, e, EventRow(name, false), other);
      assert WaitingEvents(s.events, other) == PendingWaits(s.rows, other);
    }
  }

  /** While a cancel walks the rows, every job still refers to its row. */
  lemma {:induction false} CancelJobsKeeps(h: Handler, w: World, s: Run, n: nat, unclaimed: set<nat>, s': Run)
    requires JobsOk(w, s) && s.gen == 1 && n <= |s.rows| && s' == CancelJobs(s, n, unclaimed)
    ensures JobsOk(w, s')
  {
    if n > 0 {
      var s1 := CancelJobs(s, n - 1, unclaimed);
      CancelJobsKeeps(h, w, s, n - 1, unclaimed, s1);
      var row := s.rows[n - 1];
      var s2 := if row.state.Pending? then CancelJob(s1, row.job, unclaimed) else s1;
      CancelJobKeeps(w, s1, row.job, unclaimed, CancelJob(s1, row.job, unclaimed));
      CancelJobKeeps(w, s2, row.compensationJob, unclaimed, CancelJob(s2, row.compensationJob, unclaimed));
    }
  }

  lemma CancelJobKeeps(w: World, s: Run, job: Option<nat>, unclaimed: set<nat>, s': Run)
    requires JobsOk(w, s) && s.gen == 1 && s' == CancelJob(s, job, unclaimed)
    ensures JobsOk(w, s')
  {
    forall k: nat | k < |s'.jobs| ensures JobOk(w, s', k) {
      if k < |s.jobs| {
        assert JobOk(w, s, k);
      } else {
        assert JobOk(w, s, job.value);
      }
    }
  }

  lemma {:induction false} CancelIgnoresHeader(s: Run, t: Run, n: nat, unclaimed: set<nat>)
    requires n <= |s.rows| && t.rows == s.rows && t.jobs == s.jobs
    ensures CancelJobs(t, n, unclaimed).jobs == CancelJobs(s, n, unclaimed).jobs
  {
    if n > 0 { CancelIgnoresHeader(s, t, n - 1, unclaimed); }
  }

  /** A running workflow has only forward jobs, which do not look at the header. */
  lemma HeaderKeeps(w: World, s: Run, s0: Run)
    requires JobsOk(w, s) && s.status.Running?
    requires s0 == s.(status := s0.status, gen := 1, cause := s0.cause, target := s0.target)
    ensures JobsOk(w, s0)
  {
    forall j: nat | j < |s0.jobs| ensures JobOk(w, s0, j) {
      assert JobOk(w, s, j);
    }
  }

  /** The state of a cancel before a `_compensate` is enqueued. */
  lemma CancelWalkKeeps(h: Handler, w: World, s: Run, s0: Run, unclaimed: set<nat>, s1: Run)
    requires Core(h, w, s) && s.status.Running? && !s0.status.Running?
    requires s0 == s.(status := s0.status, gen := 1, cause := s0.cause, target := s0.target)
    requires s1 == CancelJobs(s0, |s.rows|, unclaimed)
    ensures Core(h, w, s1) && s1.jobs == CancelJobs(s, |s.rows|, unclaimed).jobs && s1 == s0.(jobs := s1.jobs)
  {
    HeaderKeeps(w, s, s0);
    CancelJobsKeeps(h, w, s0, |s.rows|, unclaimed, s1);
    CancelIgnoresHeader(s, s0, |s.rows|, unclaimed);
  }

  lemma CancelKeeps(h: Handler, w: World, s: Run, compensate: bool, unclaimed: set<nat>, s': Run)
    requires Inv(h, w, s) && s' == CancelRun(s, compensate, unclaimed)
    ensures Inv(h, w, s')
  {
    if s.status.Running? {
      var s0 := s.(status := s'.status, gen := 1, cause := s'.cause, target := s'.target);
      var s1 := CancelJobs(s0, |s.rows|, unclaimed);
      CancelWalkKeeps(h, w, s, s0, unclaimed, s1);
      if s'.status.Compensating? {
        EnqueueKeeps(h, w, s1, Compensate, s');
      }
    }
  }

  // ---------------------------------------------------------------------------------------------
  // Whole runs
  // ---------------------------------------------------------------------------------------------

  lemma PerformKeeps(h: Handler, w: World, s: Run, j: nat, cap: nat, now: int, s': Run)
    requires Inv(h, w, s) && cap >= 1 && j < |s.jobs| && s' == Perform(s, s.jobs[j].task, h, cap, now)
    requires !s.jobs[j].task.Advance? && Internal(s.jobs[j].task)
    ensures Inv(h, w, s')
    ensures s.jobs[j].task.StepDone? && s.gen == 0 ==>
              s.jobs[j].task.step < |s'.rows| && !s'.rows[s.jobs[j].task.step].state.Pending?
  {
    assert JobOk(w, s, j);
    match s.jobs[j].task
    case StepDone(n, g, r) => FinishStepKeeps(h, w, s, n, g, r);
    case Compensate => UnwindKeeps(h, w, s, s');
    case CompensateDone(n, g, r) => FinishCompensationKeeps(h, w, s, n, g, r, s');
  }

  lemma NextKeeps(h: Handler, w: World, s: Run, e: Event, cap: nat)
    requires Inv(h, w, s) && cap >= 1 && Enabled(s, e) && Agrees(w, s, e)
    ensures Inv(h, w, Next(s, e, h, cap))
  {
    match e
    case Dispatch(j, retire, now) =>
      var s1 := Perform(s, s.jobs[j].task, h, cap, now);
      JobsGrow(s, s.jobs[j].task, h, cap, now);
      assert s1.jobs[j] == s.jobs[j];
      if s.jobs[j].task.Advance? {
        AdvanceKeeps(h, w, s, cap, now, s1);
      } else {
        PerformKeeps(h, w, s, j, cap, now, s1);
      }
      if retire { RetireKeeps(h, w, s1, j); }
    case Finish(j, r) =>
      SettleKeeps(h, w, s, j, r, Settle1(s, j, r));
      SettleLively(s, j, r);
    case Send(name, payload) => SendKeeps(h, w, s, name, payload, SendEvent(s, name, payload));
    case Cancel(compensate, unclaimed) =>
      CancelKeeps(h, w, s, compensate, unclaimed, CancelRun(s, compensate, unclaimed));
  }

  /** The state after the events, if each was enabled in turn. */
  function RunOf(h: Handler, cap: nat, events: seq<Event>): Option<Run> {
    if events == [] then Some(Start())
    else
      var n := |events| - 1;
      match RunOf(h, cap, events[..n])
      case None => None
      case Some(s) => if Enabled(s, events[n]) then Some(Next(s, events[n], h, cap)) else None
  }

  lemma RunSteps(h: Handler, cap: nat, events: seq<Event>, s: Run, e: Event, s': Run)
    requires RunOf(h, cap, events) == Some(s) && Enabled(s, e) && s' == Next(s, e, h, cap)
    ensures RunOf(h, cap, events + [e]) == Some(s')
  {
    assert (events + [e])[..|events|] == events;
  }

  /** The world agrees with everything that settled in the run. */
  ghost predicate AgreesAll(h: Handler, cap: nat, w: World, events: seq<Event>)
    requires RunOf(h, cap, events).Some?
  {
    if events == [] then true
    else
      var n := |events| - 1;
      AgreesAll(h, cap, w, events[..n]) && Agrees(w, RunOf(h, cap, events[..n]).value, events[n])
  }

  lemma {:induction false} RunInv(h: Handler, cap: nat, w: World, events: seq<Event>)
    requires cap >= 1 && RunOf(h, cap, events).Some? && AgreesAll(h, cap, w, events)
    ensures Inv(h, w, RunOf(h, cap, events).value)
  {
    if events == [] {
      InitialInv(h, w);
    } else {
      var n := |events| - 1;
      RunInv(h, cap, w, events[..n]);
      NextKeeps(h, w, RunOf(h, cap, events[..n]).value, events[n], cap);
    }
  }
}
