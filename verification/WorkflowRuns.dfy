/** The promises of durable workflows, stated over every run. */
module WorkflowRuns {
  import opened Options
  import opened Replay
  import opened Workflow
  import opened WorkflowSafety

  // ---------------------------------------------------------------------------------------------
  // The journal is append-only
  // ---------------------------------------------------------------------------------------------

  ghost predicate JournalGrows(a: seq<Row>, b: seq<Row>) {
    |a| <= |b| && forall n :: 0 <= n < |a| ==> RowGrows(a[n], b[n])
  }

  lemma FinishStepGrows(h: Handler, w: World, s: Run, n: nat, g: nat, r: JobResult)
    requires Inv(h, w, s) && n < |s.rows| && (s.gen == g ==> ToResult(r) == w(n))
    ensures JournalGrows(s.rows, FinishStep(s, n, g, r).rows)
  {
  }

  lemma AdvanceGrows(s: Run, h: Handler, cap: nat, now: int)
    ensures JournalGrows(s.rows, AdvanceRun(s, h, cap, now).rows)
  {
    if s.status.Running? && RunReplay(h, s.rows, now).Suspended? {
      var ns := RunReplay(h, s.rows, now).newSteps;
      DispatchAllShape(s, ns, Least(cap, |ns|), DispatchAll(s, ns, Least(cap, |ns|)));
    }
  }

  lemma UnwindGrows(s: Run)
    ensures JournalGrows(s.rows, Unwind(s).rows)
  {
  }

  lemma FinishCompensationGrows(s: Run, n: nat, g: nat, r: JobResult)
    ensures JournalGrows(s.rows, FinishCompensation(s, n, g, r).rows)
  {
  }

  lemma PerformGrows(h: Handler, w: World, s: Run, j: nat, cap: nat, now: int, s': Run)
    requires Inv(h, w, s) && j < |s.jobs| && s' == Perform(s, s.jobs[j].task, h, cap, now)
    ensures JournalGrows(s.rows, s'.rows)
  {
    assert JobOk(w, s, j);
    match s.jobs[j].task
    case Advance => AdvanceGrows(s, h, cap, now);
    case StepDone(n, g, r) => FinishStepGrows(h, w, s, n, g, r);
    case Compensate => UnwindGrows(s);
    case CompensateDone(n, g, r) => FinishCompensationGrows(s, n, g, r);
    case _ =>
  }

  lemma CancelKeepsRows(s: Run, compensate: bool, unclaimed: set<nat>)
    ensures JournalGrows(s.rows, CancelRun(s, compensate, unclaimed).rows)
  {
  }

  lemma SendGrows(s: Run, name: string, payload: Value)
    ensures JournalGrows(s.rows, SendEvent(s, name, payload).rows)
  {
  }

  lemma NextGrows(h: Handler, w: World, s: Run, e: Event, cap: nat)
    requires Inv(h, w, s) && cap >= 1 && Enabled(s, e)
    ensures JournalGrows(s.rows, Next(s, e, h, cap).rows)
  {
    match e
    case Dispatch(j, _, now) => PerformGrows(h, w, s, j, cap, now, Perform(s, s.jobs[j].task, h, cap, now));
    case Finish(_, _) =>
    case Send(name, payload) => SendGrows(s, name, payload);
    case Cancel(compensate, unclaimed) => CancelKeepsRows(s, compensate, unclaimed);
  }

  lemma {:induction false} RunGrows(h: Handler, cap: nat, w: World, events: seq<Event>, m: nat)
    requires cap >= 1 && RunOf(h, cap, events).Some? && AgreesAll(h, cap, w, events) && m <= |events|
    ensures RunOf(h, cap, events[..m]).Some? && AgreesAll(h, cap, w, events[..m])
    ensures JournalGrows(RunOf(h, cap, events[..m]).value.rows, RunOf(h, cap, events).value.rows)
  {
    if m == |events| {
      assert events[..m] == events;
    } else {
      var n := |events| - 1;
      assert events[..n][..m] == events[..m];
      RunGrows(h, cap, w, events[..n], m);
      RunInv(h, cap, w, events[..n]);
      NextGrows(h, w, RunOf(h, cap, events[..n]).value, events[n], cap);
    }
  }

  // ---------------------------------------------------------------------------------------------
  // Every run has a world
  // ---------------------------------------------------------------------------------------------

  predicate ReportsStep(s: Run, c: nat, n: nat) {
    c < |s.jobs| && s.jobs[c].task.StepDone? && s.jobs[c].task.step == n
  }

  ghost predicate Reported(s: Run, n: nat) { exists c: nat :: ReportsStep(s, c, n) }

  predicate Signalled(s: Run, n: nat) {
    n < |s.rows| && s.rows[n].kind == WaitForEvent && s.rows[n].state.Success?
  }

  /** A step whose job is live has not been reported: it settles at most once. */
  ghost predicate Exclusive(s: Run) {
    forall j: nat, c: nat, n: nat :: IsLiveStep(s, j, n) ==> !ReportsStep(s, c, n)
  }

  /** Jobs that neither run nor report a step. */
  predicate Neutral(t: Task) { !t.RunStep? && !t.StepDone? }

  lemma NeutralKeeps(s: Run, s': Run)
    requires Exclusive(s) && s.jobs <= s'.jobs
    requires forall j :: |s.jobs| <= j < |s'.jobs| ==> Neutral(s'.jobs[j].task)
    ensures Exclusive(s')
  {
    forall j: nat, c: nat, n: nat | IsLiveStep(s', j, n) ensures !ReportsStep(s', c, n) {
      assert IsLiveStep(s, j, n);
      assert !ReportsStep(s, c, n);
    }
  }

  lemma RetireExclusive(s: Run, j: nat)
    requires Exclusive(s) && j < |s.jobs|
    ensures Exclusive(Retire(s, j))
  {
    var s' := Retire(s, j);
    forall k: nat, c: nat, n: nat | IsLiveStep(s', k, n) ensures !ReportsStep(s', c, n) {
      assert IsLiveStep(s, k, n) && !ReportsStep(s, c, n);
    }
  }

  lemma DispatchOneExclusive(w: World, s: Run, ns: NewStep, s': Run)
    requires JobsOk(w, s) && Exclusive(s) && ns.stepNumber == |s.rows| && s' == DispatchOne(s, ns)
    ensures Exclusive(s')
  {
    forall j: nat, c: nat, m: nat | IsLiveStep(s', j, m) ensures !ReportsStep(s', c, m) {
      if ReportsStep(s', c, m) {
        assert ReportsStep(s, c, m) && JobOk(w, s, c);
        assert IsLiveStep(s, j, m);
      }
    }
  }

  lemma DispatchExclusive(h: Handler, w: World, s: Run, ns: seq<NewStep>, n: nat, now: int, s': Run)
    requires Core(h, w, s) && s.gen == 0 && n <= |ns| && s' == DispatchAll(s, ns, n) && Exclusive(s)
    requires Continues(TraceOf(h, w), |s.rows|, ns, now)
    ensures Exclusive(s')
  {
    var p := (t: Run) => JobsOk(w, t) && Exclusive(t);
    forall i: nat, t: Run | i < |ns| && p(t) && t.gen == s.gen && |t.rows| == |s.rows| + i
      ensures p(DispatchOne(t, ns[i]))
    {
      NextContinues(h, w, |s.rows|, ns, i, now);
      DispatchJobs(w, t, ns[i], DispatchOne(t, ns[i]));
      DispatchOneExclusive(w, t, ns[i], DispatchOne(t, ns[i]));
    }
    DispatchInduction(p, s, ns, n);
  }

  lemma SettleExclusive(w: World, s: Run, j: nat, r: JobResult, s': Run)
    requires JobsOk(w, s) && Exclusive(s)
    requires j < |s.jobs| && Callback(s.jobs[j].task, r).Some? && s' == Settle1(s, j, r)
    ensures Exclusive(s')
  {
    forall k: nat, c: nat, n: nat | IsLiveStep(s', k, n) ensures !ReportsStep(s', c, n) {
      assert IsLiveStep(s, k, n);
      assert !ReportsStep(s, c, n);
      assert JobOk(w, s, k) && JobOk(w, s, j);
    }
  }

  lemma {:induction false} CancelExclusive(h: Handler, w: World, s: Run, n: nat, unclaimed: set<nat>, s': Run)
    requires JobsOk(w, s) && s.gen == 1 && Exclusive(s) && n <= |s.rows| && s' == CancelJobs(s, n, unclaimed)
    ensures Exclusive(s')
  {
    if n > 0 {
      var s1 := CancelJobs(s, n - 1, unclaimed);
      CancelExclusive(h, w, s, n - 1, unclaimed, s1);
      CancelJobsKeeps(h, w, s, n - 1, unclaimed, s1);
      var row := s.rows[n - 1];
      var s2 := if row.state.Pending? then CancelJob(s1, row.job, unclaimed) else s1;
      CancelJobKeeps(w, s1, row.job, unclaimed, CancelJob(s1, row.job, unclaimed));
      if s2 != s1 { SettleExclusive(w, s1, row.job.value, WasCanceled, s2); }
      if s' != s2 { SettleExclusive(w, s2, row.compensationJob.value, WasCanceled, s'); }
    }
  }

  lemma AdvanceExclusive(h: Handler, w: World, s: Run, cap: nat, now: int, s': Run)
    requires Inv(h, w, s) && Exclusive(s) && s' == AdvanceRun(s, h, cap, now)
    ensures Exclusive(s')
  {
    if s.status.Running? && RunReplay(h, s.rows, now).Suspended? {
      var ns := RunReplay(h, s.rows, now).newSteps;
      ReplayRefinesStraightRun(h, w, s.rows, now);
      assert ns == [] ==> AnyPending(s.rows);
      DispatchExclusive(h, w, s, ns, Least(cap, |ns|), now, s');
    } else {
      NeutralKeeps(s, s');
    }
  }

  /** The other internal bodies enqueue nothing that runs or reports a step. */
  lemma OtherBodies(s: Run, t: Task, h: Handler, cap: nat, now: int, s': Run)
    requires !t.Advance? && s' == Perform(s, t, h, cap, now)
    ensures s.jobs <= s'.jobs
    ensures forall j :: |s.jobs| <= j < |s'.jobs| ==> Neutral(s'.jobs[j].task)
  {
    match t
    case StepDone(n, g, r) => assert s' == FinishStep(s, n, g, r);
    case CompensateDone(n, g, r) => assert s' == FinishCompensation(s, n, g, r);
    case _ =>
  }

  lemma PerformExclusive(h: Handler, w: World, s: Run, j: nat, cap: nat, now: int, s': Run)
    requires Inv(h, w, s) && Exclusive(s) && j < |s.jobs| && s' == Perform(s, s.jobs[j].task, h, cap, now)
    ensures Exclusive(s')
  {
    if s.jobs[j].task.Advance? {
      AdvanceExclusive(h, w, s, cap, now, s');
    } else {
      OtherBodies(s, s.jobs[j].task, h, cap, now, s');
      NeutralKeeps(s, s');
    }
  }

  lemma NextExclusive(h: Handler, w: World, s: Run, e: Event, cap: nat, s': Run)
    requires Inv(h, w, s) && cap >= 1 && Exclusive(s) && Enabled(s, e) && s' == Next(s, e, h, cap)
    ensures Exclusive(s')
  {
    match e
    case Dispatch(j, retire, now) =>
      var s1 := Perform(s, s.jobs[j].task, h, cap, now);
      JobsGrow(s, s.jobs[j].task, h, cap, now);
      PerformExclusive(h, w, s, j, cap, now, s1);
      if retire { RetireExclusive(s1, j); }
    case Finish(j, r) => SettleExclusive(w, s, j, r, s');
    case Send(_, _) => NeutralKeeps(s, s');
    case Cancel(_, unclaimed) =>
      if s.status.Running? {
        var s0 := s.(status := s'.status, gen := 1, cause := s'.cause, target := s'.target);
        forall j: nat | j < |s0.jobs| ensures JobOk(w, s0, j) { assert JobOk(w, s, j); }
        var s1 := CancelJobs(s0, |s.rows|, unclaimed);
        NeutralKeeps(s, s0);
        CancelExclusive(h, w, s0, |s.rows|, unclaimed, s1);
        CancelIgnoresHeader(s, s0, |s.rows|, unclaimed);
        NeutralKeeps(s1, s');
      }
  }

  lemma {:induction false} RunExclusive(h: Handler, cap: nat, w: World, events: seq<Event>)
    requires cap >= 1 && RunOf(h, cap, events).Some? && AgreesAll(h, cap, w, events)
    ensures Exclusive(RunOf(h, cap, events).value)
  {
    if events != [] {
      var n := |events| - 1;
      RunExclusive(h, cap, w, events[..n]);
      RunInv(h, cap, w, events[..n]);
      NextExclusive(h, w, RunOf(h, cap, events[..n]).value, events[n], cap, RunOf(h, cap, events).value);
    }
  }

  ghost predicate SettledIn(s: Run, n: nat) { Reported(s, n) || Signalled(s, n) }

  lemma {:induction false} CancelJobsTasks(s: Run, n: nat, unclaimed: set<nat>, j: nat)
    requires n <= |s.rows| && j < |s.jobs|
    ensures j < |CancelJobs(s, n, unclaimed).jobs| && CancelJobs(s, n, unclaimed).jobs[j].task == s.jobs[j].task
  {
    if n > 0 { CancelJobsTasks(s, n - 1, unclaimed, j); }
  }

  /** A job keeps its task for good. */
  lemma TasksKept(s: Run, e: Event, h: Handler, cap: nat, j: nat)
    requires Enabled(s, e) && j < |s.jobs|
    ensures Next(s, e, h, cap).jobs[j].task == s.jobs[j].task
  {
    match e
    case Dispatch(k, _, now) => JobsGrow(s, s.jobs[k].task, h, cap, now);
    case Cancel(_, unclaimed) => CancelJobsTasks(s, |s.rows|, unclaimed, j);
    case _ =>
  }

  lemma SettledStays(h: Handler, w: World, s: Run, e: Event, cap: nat, n: nat)
    requires Inv(h, w, s) && cap >= 1 && Enabled(s, e) && SettledIn(s, n)
    ensures SettledIn(Next(s, e, h, cap), n)
  {
    var s' := Next(s, e, h, cap);
    if Reported(s, n) {
      var c: nat :| ReportsStep(s, c, n);
      TasksKept(s, e, h, cap, c);
      assert ReportsStep(s', c, n);
    } else {
      NextGrows(h, w, s, e, cap);
      assert RowGrows(s.rows[n], s'.rows[n]);
    }
  }

  /** Only the settled steps of a run say anything about its world. */
  lemma {:induction false} AgreesElsewhere(h: Handler, cap: nat, w: World, w': World, events: seq<Event>)
    requires cap >= 1 && RunOf(h, cap, events).Some? && AgreesAll(h, cap, w, events)
    requires forall n: nat :: SettledIn(RunOf(h, cap, events).value, n) ==> w'(n) == w(n)
    ensures AgreesAll(h, cap, w', events)
  {
    if events != [] {
      var m := |events| - 1;
      var s, e, s' := RunOf(h, cap, events[..m]).value, events[m], RunOf(h, cap, events).value;
      RunInv(h, cap, w, events[..m]);
      forall n: nat | SettledIn(s, n) ensures w'(n) == w(n) {
        SettledStays(h, w, s, e, cap, n);
      }
      AgreesElsewhere(h, cap, w, w', events[..m]);
      AgreesMeans(w, s, e);
      AgreesMeans(w', s, e);
      if SettledBy(s, e).Some? { SettlesRecorded(s, e, h, cap); }
    }
  }

  /** The step an event settles, if any. */
  function SettledBy(s: Run, e: Event): Option<nat>
    requires Enabled(s, e)
  {
    match e
    case Finish(j, _) => if s.gen == 0 && s.jobs[j].task.RunStep? then Some(s.jobs[j].task.step) else None
    case Send(name, _) => if FindWaiting(s.events, name).Some? then FindAwaiting(s.rows, name) else None
    case _ => None
  }

  function ResultOf(e: Event): StepResult {
    match e
    case Finish(_, r) => ToResult(r)
    case Send(_, payload) => Ok(payload)
    case _ => Ok("")
  }

  lemma AgreesMeans(w: World, s: Run, e: Event)
    requires Enabled(s, e)
    ensures Agrees(w, s, e) <==> (SettledBy(s, e).Some? ==> w(SettledBy(s, e).value) == ResultOf(e))
  {
  }

  lemma SettlesRecorded(s: Run, e: Event, h: Handler, cap: nat)
    requires Enabled(s, e) && SettledBy(s, e).Some?
    ensures SettledIn(Next(s, e, h, cap), SettledBy(s, e).value)
  {
    var s' := Next(s, e, h, cap);
    if e.Finish? {
      assert ReportsStep(s', |s.jobs|, SettledBy(s, e).value);
    }
  }

  lemma ReportedRuns(w: World, s: Run, n: nat)
    requires JobsOk(w, s)
    ensures Reported(s, n) ==> n < |s.rows| && s.rows[n].kind != WaitForEvent
  {
    forall c: nat | ReportsStep(s, c, n) ensures n < |s.rows| && s.rows[n].kind != WaitForEvent {
      assert JobOk(w, s, c);
    }
  }

  lemma SettlesOnce(h: Handler, w: World, s: Run, e: Event)
    requires Inv(h, w, s) && Exclusive(s) && Enabled(s, e) && SettledBy(s, e).Some?
    ensures !SettledIn(s, SettledBy(s, e).value)
  {
    var n := SettledBy(s, e).value;
    ReportedRuns(w, s, n);
    if e.Finish? {
      assert IsLiveStep(s, e.job, n) && JobOk(w, s, e.job);
    }
  }

  /** Whatever happened, some fixed world explains it. */
  lemma {:induction false} EveryRunHasAWorld(h: Handler, cap: nat, events: seq<Event>) returns (w: World)
    requires cap >= 1 && RunOf(h, cap, events).Some?
    ensures AgreesAll(h, cap, w, events)
  {
    if events == [] {
      w := (n: nat) => Ok("");
    } else {
      var m := |events| - 1;
      var w0 := EveryRunHasAWorld(h, cap, events[..m]);
      var s, e := RunOf(h, cap, events[..m]).value, events[m];
      w := w0;
      if SettledBy(s, e).Some? {
        var n := SettledBy(s, e).value;
        RunInv(h, cap, w0, events[..m]);
        RunExclusive(h, cap, w0, events[..m]);
        SettlesOnce(h, w0, s, e);
        w := (i: nat) => if i == n then ResultOf(e) else w0(i);
        AgreesElsewhere(h, cap, w0, w, events[..m]);
      }
      AgreesMeans(w, s, e);
    }
  }

  // ---------------------------------------------------------------------------------------------
  // The theorems
  // ---------------------------------------------------------------------------------------------

  /**
   Replay refines direct execution.  For every handler and every interleaving of polls, callbacks,
   signals and cancels there is a world in which the handler, run once from top to bottom, makes the
   journaled requests in order with the journaled results, and ends the way the run ended.
   */
  lemma DurableRunIsAStraightRun(h: Handler, cap: nat, events: seq<Event>) returns (w: World)
    requires cap >= 1 && RunOf(h, cap, events).Some?
    ensures AgreesAll(h, cap, w, events)
    ensures Consistent(h, w, RunOf(h, cap, events).value.rows)
    ensures var s := RunOf(h, cap, events).value;
            && (s.status.Completed? ==> StraightOutcome(h, w, Outcome.Completed(s.status.result)))
            && (s.status.Failed? || s.status.Compensating? ==>
                 if s.target.ToCanceled? then Root(s.cause).ByRequest?
                 else Root(s.cause).HandlerError? && StraightOutcome(h, w, Outcome.Failed(Root(s.cause).message)))
  {
    w := EveryRunHasAWorld(h, cap, events);
    RunInv(h, cap, w, events);
  }

  /** What can still move a running workflow: a live job, a live callback, or an event to wait for. */
  ghost predicate CanMove(s: Run, n: nat)
    requires n < |s.rows|
  {
    && s.rows[n].state.Pending?
    && if s.rows[n].kind == WaitForEvent
       then exists e :: 0 <= e < |s.events| && s.events[e] == EventRow(s.rows[n].name, true)
       else JobLive(s, n) || CallbackLive(s, n)
  }

  lemma {:induction false} WaitCounted(rows: seq<Row>, n: nat)
    requires n < |rows| && Awaiting(rows[n], rows[n].name)
    ensures PendingWaits(rows, rows[n].name) >= 1
  {
    if n < |rows| - 1 { WaitCounted(rows[..|rows| - 1], n); }
  }

  lemma {:induction false} SomeWaiting(events: seq<EventRow>, name: string)
    requires WaitingEvents(events, name) >= 1
    ensures exists e :: 0 <= e < |events| && events[e] == EventRow(name, true)
  {
    var n := |events| - 1;
    if events[n] != EventRow(name, true) {
      SomeWaiting(events[..n], name);
      var e :| 0 <= e < n && events[..n][e] == EventRow(name, true);
      assert events[e] == EventRow(name, true);
    }
  }

  /** A running workflow is never stranded, given a fan-out cap of at least one. */
  lemma NeverStranded(h: Handler, cap: nat, events: seq<Event>)
    requires cap >= 1 && RunOf(h, cap, events).Some? && RunOf(h, cap, events).value.status.Running?
    ensures var s := RunOf(h, cap, events).value;
            && (AdvanceLive(s) || exists n: nat :: n < |s.rows| && CanMove(s, n))
            && WaitsPaired(s)
  {
    var w := EveryRunHasAWorld(h, cap, events);
    RunInv(h, cap, w, events);
    var s := RunOf(h, cap, events).value;
    if !AdvanceLive(s) {
      var n :| 0 <= n < |s.rows| && s.rows[n].state.Pending?;
      assert Served(s, n);
      if s.rows[n].kind == WaitForEvent {
        WaitCounted(s.rows, n);
        assert WaitingEvents(s.events, s.rows[n].name) == PendingWaits(s.rows, s.rows[n].name);
        SomeWaiting(s.events, s.rows[n].name);
      }
      assert CanMove(s, n);
    }
  }

  lemma FirstPollEmits(h: Handler, now: int)
    requires h([]).Await?
    ensures RunReplay(h, [], now).Suspended? && RunReplay(h, [], now).newSteps != []
  {
    var reqs := h([]).Reqs();
    var tickets := Tickets([], 0, reqs);
    assert tickets[0] == Blocked;
    assert Settle(tickets, h([]).catches).Waiting?;
    assert Polled(h, [], now, 0) == At(Point([], 0), []);
    assert Polled(h, [], now, 1) == Poll(h, [], now, Point([], 0), []);
  }

  /** With a cap of zero the first poll of any handler that awaits a step strands the run. */
  lemma ZeroCapStrands(h: Handler, now: int)
    requires h([]).Await?
    ensures RunOf(h, 0, [Dispatch(0, true, now)]) == Some(Start().(jobs := [Job(Advance, false)]))
  {
    var events := [Dispatch(0, true, now)];
    FirstPollEmits(h, now);
    var ns := RunReplay(h, [], now).newSteps;
    assert DispatchAll(Start(), ns, 0) == Start();
    assert AdvanceRun(Start(), h, 0, now) == Start();
    assert Next(Start(), events[0], h, 0) == Retire(Start(), 0);
    assert events[..|events| - 1] == [];
    assert RunOf(h, 0, events) == Some(Retire(Start(), 0));
    assert Retire(Start(), 0).jobs == [Job(Advance, false)];
  }

  /** Step numbers are positions, and what an earlier state journaled every later state still has. */
  lemma JournalIsDenseAndAppendOnly(h: Handler, cap: nat, events: seq<Event>, m: nat)
    requires cap >= 1 && RunOf(h, cap, events).Some? && m <= |events|
    ensures RunOf(h, cap, events[..m]).Some?
    ensures JournalGrows(RunOf(h, cap, events[..m]).value.rows, RunOf(h, cap, events).value.rows)
    ensures var rows := RunOf(h, cap, events).value.rows;
            forall n :: 0 <= n < |rows| ==> rows[n].stepNumber == n
  {
    var w := EveryRunHasAWorld(h, cap, events);
    RunGrows(h, cap, w, events, m);
    RunInv(h, cap, w, events);
    var rows := RunOf(h, cap, events).value.rows;
    forall n | 0 <= n < |rows| ensures rows[n].stepNumber == n {
      assert RowConsistent(h, w, n, rows[n]);
    }
  }

  /** No step is dispatched twice, and the job that runs it runs the journaled call. */
  lemma StepDispatchedOnce(h: Handler, cap: nat, events: seq<Event>, j: nat, k: nat)
    requires cap >= 1 && RunOf(h, cap, events).Some?
    requires var jobs := RunOf(h, cap, events).value.jobs;
             && j < |jobs| && k < |jobs| && jobs[j].task.RunStep? && jobs[k].task.RunStep?
             && jobs[j].task.step == jobs[k].task.step
    ensures j == k
    ensures var s := RunOf(h, cap, events).value;
            var t := s.jobs[j].task;
            t.step < |s.rows| && t.path == s.rows[t.step].name && t.args == s.rows[t.step].args
  {
    var w := EveryRunHasAWorld(h, cap, events);
    RunInv(h, cap, w, events);
    var s := RunOf(h, cap, events).value;
    assert JobOk(w, s, j) && JobOk(w, s, k);
  }

  /** Nothing but a signal touches a step once the generation is bumped. */
  ghost predicate Frozen(a: seq<Row>, b: seq<Row>) {
    |a| == |b| && forall n :: 0 <= n < |a| && a[n].kind != WaitForEvent ==>
      SameCall(a[n], b[n]) && b[n].state == a[n].state
  }

  lemma PerformFrozen(h: Handler, w: World, s: Run, j: nat, cap: nat, now: int)
    requires JobsOk(w, s) && !s.status.Running? && s.gen == 1 && j < |s.jobs|
    ensures var s' := Perform(s, s.jobs[j].task, h, cap, now); s'.gen == 1 && Frozen(s.rows, s'.rows)
  {
    assert JobOk(w, s, j);
  }

  lemma NextFrozen(h: Handler, w: World, s: Run, e: Event, cap: nat)
    requires Inv(h, w, s) && s.gen == 1 && Enabled(s, e)
    ensures Next(s, e, h, cap).gen == 1 && Frozen(s.rows, Next(s, e, h, cap).rows)
  {
    match e
    case Dispatch(j, _, now) => PerformFrozen(h, w, s, j, cap, now);
    case _ =>
  }

  /** After a cancel no older callback changes any step: the forward journal is final. */
  lemma {:induction false} CanceledJournalIsFinal(h: Handler, cap: nat, events: seq<Event>, m: nat)
    requires cap >= 1 && RunOf(h, cap, events).Some? && m <= |events|
    requires RunOf(h, cap, events[..m]).Some? && RunOf(h, cap, events[..m]).value.gen == 1
    ensures RunOf(h, cap, events).value.gen == 1
    ensures Frozen(RunOf(h, cap, events[..m]).value.rows, RunOf(h, cap, events).value.rows)
  {
    if m == |events| {
      assert events[..m] == events;
    } else {
      var n := |events| - 1;
      assert events[..n][..m] == events[..m];
      CanceledJournalIsFinal(h, cap, events[..n], m);
      var w := EveryRunHasAWorld(h, cap, events[..n]);
      RunInv(h, cap, w, events[..n]);
      NextFrozen(h, w, RunOf(h, cap, events[..n]).value, events[n], cap);
    }
  }
}
