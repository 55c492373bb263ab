/**
 When a failed run pays all its debts (components/workflow/src/modules.ts:146-157, 320-463, facade.ts:81-150).
 A late success of a compensable step is what can go wrong, and nothing else.
 */
module SagaRuns {
  import opened Options
  import opened Replay
  import opened Workflow
  import opened WorkflowSafety
  import opened WorkflowRuns
  import opened Saga

  // ---------------------------------------------------------------------------------------------
  // What a saga promises
  // ---------------------------------------------------------------------------------------------

  /** The payment of a row, whether or not it was made. */
  predicate Pays(t: Task, row: Row) {
    && row.state.Success? && Compensable(row) && t.RunCompensation?
    && t == RunCompensation(row.stepNumber, t.gen, row.opts.compensate.value, row.args, row.state.value,
                            row.opts.maxAttempts)
  }

  ghost predicate WasSent(out: seq<Task>, n: int)
    requires forall i :: 0 <= i < |out| ==> out[i].RunCompensation?
  {
    exists i :: 0 <= i < |out| && out[i].step == n
  }

  ghost predicate NothingIsOwed(s: Run) { forall n :: 0 <= n < |s.rows| ==> !Owed(s.rows[n]) }

  /**
   Compensations went out in strictly falling step number, so none twice, each with the journaled arguments
   and result of its step; what counts as compensated was among them; whatever is still owed comes below them;
   and a run that is over, and whose unwind no failed compensation halted, owes nothing.
   */
  ghost predicate Settles(s: Run) {
    var out := Dispatched(s.jobs);
    && (forall i, k :: 0 <= i < k < |out| ==> out[i].step > out[k].step)
    && (forall i :: 0 <= i < |out| ==> out[i].step < |s.rows| && Pays(out[i], s.rows[out[i].step]))
    && (forall n :: 0 <= n < |s.rows| && s.rows[n].compensated ==> WasSent(out, n))
    && (forall n, i :: 0 <= n < |s.rows| && Owed(s.rows[n]) && 0 <= i < |out| ==> n <= out[i].step)
    && (!s.status.Compensating? && !s.cause.HaltedAt? ==> NothingIsOwed(s))
  }

  lemma DispatchedAt(s0: Run, s: Run, paid: nat, sent: nat, i: nat)
    requires Entered(s0) && Unwinding(s0, s, paid, sent) && i < sent
    ensures i < |Dispatched(s.jobs)| == sent
    ensures var t := Dispatched(s.jobs)[i]; t.step == Order(s0)[i] && t.step < |s.rows| && Pays(t, s.rows[t.step])
  {
    DispatchOrder(s0, s, paid, sent);
    var n := Order(s0)[i];
    assert RowAt(s0, s0.rows[n], s.rows[n], n, paid, sent);
  }

  lemma CompensatedWasSent(s0: Run, s: Run, paid: nat, sent: nat, n: nat)
    requires Entered(s0) && Unwinding(s0, s, paid, sent) && n < |s.rows| && s.rows[n].compensated
    ensures WasSent(Dispatched(s.jobs), n)
  {
    assert RowAt(s0, s0.rows[n], s.rows[n], n, paid, sent);
    var i :| 0 <= i < paid && Order(s0)[i] == n;
    DispatchedAt(s0, s, paid, sent, i);
  }

  lemma FallsBelow(order: seq<nat>, paid: nat, i: nat, n: nat)
    requires i <= paid <= |order| && n in order[paid..] && forall k, l :: 0 <= k < l < |order| ==> order[k] > order[l]
    ensures n <= order[i]
  {
    var k :| paid <= k < |order| && order[k] == n;
  }

  lemma OwedBelow(s0: Run, s: Run, paid: nat, sent: nat, n: nat, i: nat)
    requires Entered(s0) && paid <= sent <= |Order(s0)| && RowsAt(s0, s, paid, sent)
    requires n < |s.rows| && Owed(s.rows[n]) && i < sent <= paid + 1
    ensures n <= Order(s0)[i]
  {
    OwedRest(s0, s, paid, sent, n);
    OwedDownIs(s0.rows, |s0.rows|);
    FallsBelow(Order(s0), paid, i, n);
  }

  lemma OwedAtEnd(s0: Run, s: Run, paid: nat, sent: nat)
    requires Entered(s0) && Unwinding(s0, s, paid, sent) && !s.status.Compensating? && !s.cause.HaltedAt?
    ensures NothingIsOwed(s)
  {
    forall n | 0 <= n < |s.rows| ensures !Owed(s.rows[n]) {
      OwedRest(s0, s, paid, sent, n);
    }
  }

  lemma UnwindingSettles(s0: Run, s: Run, paid: nat, sent: nat)
    requires Entered(s0) && Unwinding(s0, s, paid, sent)
    ensures Settles(s)
  {
    var out := Dispatched(s.jobs);
    DispatchOrder(s0, s, paid, sent);
    forall i | 0 <= i < |out|
      ensures out[i].step < |s.rows| && Pays(out[i], s.rows[out[i].step]) && out[i].step == Order(s0)[i]
    {
      DispatchedAt(s0, s, paid, sent, i);
    }
    forall n, i | 0 <= n < |s.rows| && Owed(s.rows[n]) && 0 <= i < |out| ensures n <= out[i].step {
      OwedBelow(s0, s, paid, sent, n, i);
    }
    forall n | 0 <= n < |s.rows| && s.rows[n].compensated ensures WasSent(out, n) {
      CompensatedWasSent(s0, s, paid, sent, n);
    }
    if !s.status.Compensating? && !s.cause.HaltedAt? { OwedAtEnd(s0, s, paid, sent); }
  }

  // ---------------------------------------------------------------------------------------------
  // The bad run
  // ---------------------------------------------------------------------------------------------

  /** One more event that an orderly continuation may take. */
  lemma GoesOn(s0: Run, h: Handler, cap: nat, more: seq<Event>, s: Run, e: Event, s': Run)
    requires RunFrom(s0, h, cap, more) == Some(s) && CommitsOnce(s0, h, cap, more)
    requires Enabled(s, e) && Once(s, e) && s' == Next(s, e, h, cap)
    ensures RunFrom(s0, h, cap, more + [e]) == Some(s') && CommitsOnce(s0, h, cap, more + [e])
  {
    assert (more + [e])[..|more|] == more;
  }

  /** What the unwind leaves alone: a forward job and a row outside its plan. */
  predicate Apart(a: Run, b: Run, j: nat, n: nat) {
    && j < |a.jobs| && j < |b.jobs| && b.jobs[j] == a.jobs[j]
    && n < |a.rows| && n < |b.rows| && b.rows[n] == a.rows[n] && b.gen == a.gen
  }

  lemma CompensateApart(s: Run, t: nat, j: nat, n: nat)
    requires t < |s.jobs| && j < |s.jobs| && j != t && n < |s.rows| && !Owed(s.rows[n])
    ensures Apart(s, Retire(Unwind(s), t), j, n)
  {
  }

  lemma RecordApart(s: Run, t: nat, m: nat, g: nat, r: JobResult, j: nat, n: nat)
    requires t < |s.jobs| && j < |s.jobs| && j != t && n < |s.rows| && n != m && FindStep(s.rows, m) == Some(m)
    ensures Apart(s, Retire(FinishCompensation(s, m, g, r), t), j, n)
  {
  }

  /** A step of the token leaves them alone. */
  lemma TokenApart(s0: Run, s: Run, t: nat, e: Event, h: Handler, cap: nat, paid: nat, sent: nat, j: nat, n: nat,
                   s': Run)
    requires Entered(s0) && Unwinding(s0, s, paid, sent)
    requires Token(s, t) && TokenAt(s0, s, t, paid, sent) && Enabled(s, e) && Once(s, e) && s' == Next(s, e, h, cap)
    requires (e.Dispatch? || e.Finish?) && e.job == t
    requires j < |s.jobs| && j != t && n < |s.rows| && n !in Order(s0)
    ensures Apart(s, s', j, n)
  {
    OwedRest(s0, s, paid, sent, n);
    match s.jobs[t].task
    case Compensate => CompensateApart(s, t, j, n);
    case RunCompensation(_, _, _, _, _, _) =>
    case CompensateDone(m, g, r) =>
      FindStepDense(s0, s, paid, sent, m);
      RecordApart(s, t, m, g, r, j, n);
  }

  lemma ApartOn(a: Run, b: Run, c: Run, j: nat, n: nat)
    requires Apart(a, b, j, n) && Apart(b, c, j, n)
    ensures Apart(a, c, j, n)
  {
  }

  /** What the bad run keeps while the unwind goes on: a forward job and its row, and orderly events. */
  ghost predicate Underway(s0: Run, h: Handler, cap: nat, more: seq<Event>, s: Run, j: nat, n: nat) {
    && RunFrom(s0, h, cap, more) == Some(s) && CommitsOnce(s0, h, cap, more) && Apart(s0, s, j, n)
    && !IsUnwindTask(s.jobs[j].task) && n !in Order(s0)
  }

  lemma TokenUnderway(s0: Run, h: Handler, cap: nat, more: seq<Event>, s: Run, t: nat, e: Event, paid: nat, sent: nat,
                      j: nat, n: nat, s': Run)
    requires Entered(s0) && Unwinding(s0, s, paid, sent) && s.status.Compensating?
    requires Underway(s0, h, cap, more, s, j, n)
    requires Token(s, t) && TokenAt(s0, s, t, paid, sent)
    requires (e.Dispatch? || e.Finish?) && e.job == t && Enabled(s, e) && Once(s, e) && s' == Next(s, e, h, cap)
    ensures Underway(s0, h, cap, more + [e], s', j, n)
  {
    TokenApart(s0, s, t, e, h, cap, paid, sent, j, n, s');
    ApartOn(s0, s, s', j, n);
    GoesOn(s0, h, cap, more, s, e, s');
  }

  /** From a `_compensate` that has something to pay, the payment can go out, succeed and be recorded. */
  lemma PayOne(s0: Run, h: Handler, cap: nat, more: seq<Event>, s: Run, t: nat, paid: nat, j: nat, n: nat)
    returns (more': seq<Event>, s': Run, t': nat)
    requires Entered(s0) && Unwinding(s0, s, paid, paid) && s.status.Compensating? && paid < |Order(s0)|
    requires Token(s, t) && s.jobs[t].task.Compensate? && Underway(s0, h, cap, more, s, j, n)
    ensures Underway(s0, h, cap, more', s', j, n)
    ensures Unwinding(s0, s', paid + 1, paid + 1) && s'.status.Compensating? && Token(s', t')
    ensures s'.jobs[t'].task.Compensate?
  {
    var e1 := Dispatch(t, true, 0);
    var s1 := Next(s, e1, h, cap);
    PayHead(s0, s, t, paid, s1);
    TokenUnderway(s0, h, cap, more, s, t, e1, paid, paid, j, n, s1);
    var more1, s2, t2 := SettleOne(s0, h, cap, more + [e1], s1, |s.jobs|, paid, j, n);
    var e3 := Dispatch(t2, true, 0);
    s' := Next(s2, e3, h, cap);
    PaymentMade(s0, s2, t2, paid, s');
    TokenUnderway(s0, h, cap, more1, s2, t2, e3, paid, paid + 1, j, n, s');
    more', t' := more1 + [e3], |s2.jobs|;
  }

  lemma SettleOne(s0: Run, h: Handler, cap: nat, more: seq<Event>, s: Run, t: nat, paid: nat, j: nat, n: nat)
    returns (more': seq<Event>, s': Run, t': nat)
    requires Entered(s0) && Unwinding(s0, s, paid, paid + 1) && s.status.Compensating?
    requires Token(s, t) && TokenAt(s0, s, t, paid, paid + 1) && s.jobs[t].task.RunCompensation?
    requires Underway(s0, h, cap, more, s, j, n)
    ensures Underway(s0, h, cap, more', s', j, n)
    ensures Unwinding(s0, s', paid, paid + 1) && s'.status.Compensating? && Token(s', t')
    ensures TokenAt(s0, s', t', paid, paid + 1)
    ensures s'.jobs[t'].task.CompensateDone? && s'.jobs[t'].task.result.Succeeded?
  {
    var e := Finish(t, Succeeded(""));
    s' := Next(s, e, h, cap);
    PaymentSettles(s0, s, t, Succeeded(""), paid, s');
    TokenUnderway(s0, h, cap, more, s, t, e, paid, paid + 1, j, n, s');
    more', t' := more + [e], |s.jobs|;
  }

  /** The unwind can run out while a forward job stays in flight. */
  lemma {:induction false} RunsOut(s0: Run, h: Handler, cap: nat, more: seq<Event>, s: Run, t: nat, paid: nat, j: nat,
                                   n: nat)
    returns (more': seq<Event>, s': Run)
    requires Entered(s0) && Unwinding(s0, s, paid, paid) && s.status.Compensating?
    requires Token(s, t) && s.jobs[t].task.Compensate? && Underway(s0, h, cap, more, s, j, n)
    ensures Underway(s0, h, cap, more', s', j, n)
    ensures Unwinding(s0, s', |Order(s0)|, |Order(s0)|) && !s'.status.Compensating?
    decreases |Order(s0)| - paid
  {
    if paid == |Order(s0)| {
      var e := Dispatch(t, true, 0);
      s', more' := Next(s, e, h, cap), more + [e];
      NothingOwed(s0, s, t, paid, s');
      TokenUnderway(s0, h, cap, more, s, t, e, paid, paid, j, n, s');
      OwedNow(s0, s, paid, paid);
    } else {
      var more1, s1, t1 := PayOne(s0, h, cap, more, s, t, paid, j, n);
      more', s' := RunsOut(s0, h, cap, more1, s1, t1, paid + 1, j, n);
    }
  }

  /** A report of a pending compensable step, delivered to a run that is over, leaves a debt nobody will pay. */
  lemma LateReport(s0: Run, h: Handler, cap: nat, more: seq<Event>, s: Run, c: nat)
    returns (more': seq<Event>)
    requires RunFrom(s0, h, cap, more) == Some(s) && CommitsOnce(s0, h, cap, more)
    requires !s.status.Running? && !s.status.Compensating? && !s.cause.HaltedAt? && Dense(s.rows)
    requires MayOwe(s, c) && s.jobs[c].task.StepDone? && !s.rows[s.jobs[c].task.step].compensated
    ensures RunFrom(s0, h, cap, more').Some? && CommitsOnce(s0, h, cap, more')
    ensures !Settles(RunFrom(s0, h, cap, more').value)
  {
    var e := Dispatch(c, true, 0);
    var n := s.jobs[c].task.step;
    var s' := Next(s, e, h, cap);
    DenseFind(s.rows, n);
    GoesOn(s0, h, cap, more, s, e, s');
    assert Owed(s'.rows[n]);
    more' := more + [e];
  }

  lemma DenseFind(rows: seq<Row>, n: nat)
    requires Dense(rows) && n < |rows|
    ensures FindStep(rows, n) == Some(n)
  {
    assert rows[n].stepNumber == n;
  }

  /** A step in flight reports success first. */
  lemma LateStep(s0: Run, h: Handler, cap: nat, more: seq<Event>, s: Run, j: nat)
    returns (more': seq<Event>)
    requires RunFrom(s0, h, cap, more) == Some(s) && CommitsOnce(s0, h, cap, more)
    requires !s.status.Running? && !s.status.Compensating? && !s.cause.HaltedAt? && Dense(s.rows)
    requires MayOwe(s, j) && !s.rows[s.jobs[j].task.step].compensated
    ensures RunFrom(s0, h, cap, more').Some? && CommitsOnce(s0, h, cap, more')
    ensures !Settles(RunFrom(s0, h, cap, more').value)
  {
    if s.jobs[j].task.StepDone? {
      more' := LateReport(s0, h, cap, more, s, j);
    } else {
      var e := Finish(j, Succeeded(""));
      var s' := Next(s, e, h, cap);
      GoesOn(s0, h, cap, more, s, e, s');
      assert MayOwe(s', |s.jobs|);
      more' := LateReport(s0, h, cap, more + [e], s', |s.jobs|);
    }
  }

  lemma UnwoundIsDense(s0: Run, s: Run, paid: nat, sent: nat)
    requires Entered(s0) && Unwinding(s0, s, paid, sent)
    ensures Dense(s.rows)
  {
    forall n | 0 <= n < |s.rows| ensures s.rows[n].stepNumber == n { OwedRest(s0, s, paid, sent, n); }
  }

  /** Where a compensable step can still succeed, some orderly continuation leaves it unpaid for good. */
  lemma LateSuccessIsNotPaid(s0: Run, h: Handler, cap: nat, j: nat) returns (more: seq<Event>)
    requires Entered(s0) && MayOwe(s0, j) && !s0.cause.HaltedAt?
    ensures RunFrom(s0, h, cap, more).Some? && CommitsOnce(s0, h, cap, more)
    ensures !Settles(RunFrom(s0, h, cap, more).value)
  {
    var n := s0.jobs[j].task.step;
    PlanIsComplete(s0, n);
    StartsUnwinding(s0);
    if s0.status.Compensating? {
      var t: nat :| Token(s0, t) && s0.jobs[t].task.Compensate?;
      var more1, s := RunsOut(s0, h, cap, [], s0, t, 0, j, n);
      UnwoundIsDense(s0, s, |Order(s0)|, |Order(s0)|);
      more := LateStep(s0, h, cap, more1, s, j);
    } else {
      more := LateStep(s0, h, cap, [], s0, j);
    }
  }

  // ---------------------------------------------------------------------------------------------
  // The theorem
  // ---------------------------------------------------------------------------------------------

  /** An orderly continuation of the run that keeps the promise. */
  ghost predicate GoesWell(s0: Run, h: Handler, cap: nat, more: seq<Event>) {
    RunFrom(s0, h, cap, more).Some? && CommitsOnce(s0, h, cap, more) ==> Settles(RunFrom(s0, h, cap, more).value)
  }

  /** The run has just left `running`, by a failure or for an unwind. */
  ghost predicate JustLeft(h: Handler, cap: nat, pre: seq<Event>) {
    && pre != [] && RunOf(h, cap, pre).Some? && RunOf(h, cap, pre[..|pre| - 1]).Some?
    && RunOf(h, cap, pre[..|pre| - 1]).value.status.Running?
    && (RunOf(h, cap, pre).value.status.Failed? || RunOf(h, cap, pre).value.status.Compensating?)
  }

  lemma CalmGoesWell(h: Handler, cap: nat, pre: seq<Event>, more: seq<Event>)
    requires cap >= 1 && RunOf(h, cap, pre).Some?
    requires Entered(RunOf(h, cap, pre).value) && Calm(RunOf(h, cap, pre).value)
    ensures GoesWell(RunOf(h, cap, pre).value, h, cap, more)
  {
    var s0 := RunOf(h, cap, pre).value;
    if RunFrom(s0, h, cap, more).Some? && CommitsOnce(s0, h, cap, more) {
      RunGoesOn(h, cap, pre, more);
      var paid, sent := SagaUnwinds(h, cap, pre, more);
      UnwindingSettles(s0, RunOf(h, cap, pre + more).value, paid, sent);
    }
  }

  lemma JustLeftIsEntered(h: Handler, cap: nat, pre: seq<Event>)
    requires cap >= 1 && UsesStepApi(h) && JustLeft(h, cap, pre)
    ensures Entered(RunOf(h, cap, pre).value) && !RunOf(h, cap, pre).value.cause.HaltedAt?
  {
    var n := |pre| - 1;
    var s, s' := RunOf(h, cap, pre[..n]).value, RunOf(h, cap, pre).value;
    EveryUnwindIsEntered(h, cap, pre[..n], pre[n], s');
    var w := EveryRunHasAWorld(h, cap, pre[..n]);
    RunInv(h, cap, w, pre[..n]);
    if !pre[n].Cancel? {
      NoUnwindYet(w, s);
      PollBlames(s, pre[n], h, cap, s');
    }
  }

  lemma PollBlames(s: Run, e: Event, h: Handler, cap: nat, s': Run)
    requires s.status.Running? && Enabled(s, e) && !e.Cancel? && s' == Next(s, e, h, cap)
    requires s'.status.Compensating? || s'.status.Failed?
    requires forall j :: 0 <= j < |s.jobs| ==> !IsUnwindTask(s.jobs[j].task)
    ensures s'.cause.HandlerError?
  {
    if e.Dispatch? && s.jobs[e.job].task.Advance? && RunReplay(h, s.rows, e.now).Suspended? {
      var ns := RunReplay(h, s.rows, e.now).newSteps;
      DispatchKeepsStatus(s, ns, Least(cap, |ns|));
    }
  }

  /**
   The saga, exactly.  At whatever step a run leaves `running` by a failure or for an unwind: every
   continuation in which internal jobs commit once pays each journaled compensable success once, in falling
   order, and ends owing nothing, if and only if no compensable step can still succeed.
   */
  lemma SagaPaysIffCalm(h: Handler, cap: nat, pre: seq<Event>)
    requires cap >= 1 && UsesStepApi(h) && JustLeft(h, cap, pre)
    ensures Calm(RunOf(h, cap, pre).value) <==> forall more :: GoesWell(RunOf(h, cap, pre).value, h, cap, more)
  {
    var s0 := RunOf(h, cap, pre).value;
    JustLeftIsEntered(h, cap, pre);
    if Calm(s0) {
      forall more ensures GoesWell(s0, h, cap, more) { CalmGoesWell(h, cap, pre, more); }
    } else {
      var j: nat :| MayOwe(s0, j);
      var more := LateSuccessIsNotPaid(s0, h, cap, j);
      assert !GoesWell(s0, h, cap, more);
    }
  }

  // ---------------------------------------------------------------------------------------------
  // What a cancel does instead
  // ---------------------------------------------------------------------------------------------

  predicate PaysStep(t: Task, n: nat) { (t.RunCompensation? || t.CompensateDone?) && t.step == n }

  /** Step `n` of a running workflow has been dispatched and not settled. */
  predicate InFlight(s: Run, n: nat) {
    s.status.Running? && n < |s.rows| && s.rows[n].state.Pending? && s.rows[n].kind != WaitForEvent
  }

  /** Step `n` is in flight for good: never settled, never compensated. */
  ghost predicate Dropped(s: Run, n: nat) {
    && !s.status.Running? && s.gen == 1 && n < |s.rows|
    && s.rows[n].state.Pending? && s.rows[n].kind != WaitForEvent
    && !s.rows[n].compensated && s.rows[n].compensationJob.None?
    && forall j :: 0 <= j < |s.jobs| ==> !PaysStep(s.jobs[j].task, n)
  }

  lemma DroppedByUnwind(h: Handler, w: World, s: Run, n: nat)
    requires Inv(h, w, s) && Dropped(s, n)
    ensures Dropped(Unwind(s), n)
  {
    if s.status.Compensating? && LastOwed(s.rows, |s.rows|).Some? {
      var i := LastOwed(s.rows, |s.rows|).value;
      assert RowConsistent(h, w, i, s.rows[i]);
    }
  }

  lemma DroppedByRecord(h: Handler, w: World, s: Run, m: nat, g: nat, r: JobResult, n: nat)
    requires Inv(h, w, s) && Dropped(s, n) && m < |s.rows| && m != n
    ensures Dropped(FinishCompensation(s, m, g, r), n)
  {
    FindDense(h, w, s.rows, m);
  }

  lemma DroppedByBody(h: Handler, w: World, s: Run, j: nat, cap: nat, now: int, n: nat)
    requires Inv(h, w, s) && Dropped(s, n) && j < |s.jobs|
    ensures Dropped(Perform(s, s.jobs[j].task, h, cap, now), n)
  {
    assert JobOk(w, s, j) && !PaysStep(s.jobs[j].task, n);
    match s.jobs[j].task
    case Compensate => DroppedByUnwind(h, w, s, n);
    case CompensateDone(m, g, r) => DroppedByRecord(h, w, s, m, g, r, n);
    case _ =>
  }

  lemma DroppedBySignal(s: Run, name: string, payload: Value, n: nat)
    requires Dropped(s, n)
    ensures Dropped(SendEvent(s, name, payload), n)
  {
  }

  lemma DroppedNext(h: Handler, w: World, s: Run, e: Event, cap: nat, n: nat)
    requires Inv(h, w, s) && Dropped(s, n) && Enabled(s, e)
    ensures Dropped(Next(s, e, h, cap), n)
  {
    match e
    case Dispatch(j, _, now) => DroppedByBody(h, w, s, j, cap, now, n);
    case Finish(j, _) => assert !PaysStep(s.jobs[j].task, n);
    case Send(name, payload) => DroppedBySignal(s, name, payload, n);
    case Cancel(_, _) =>
  }

  lemma CancelDrops(h: Handler, w: World, s: Run, compensate: bool, unclaimed: set<nat>, n: nat)
    requires Inv(h, w, s) && InFlight(s, n)
    ensures Dropped(CancelRun(s, compensate, unclaimed), n)
  {
    CanceledTasks(w, s, |s.rows|, unclaimed);
  }

  lemma DroppedOn(h: Handler, cap: nat, w: World, events: seq<Event>, e: Event, more: seq<Event>, n: nat)
    requires more == events + [e] && cap >= 1 && RunOf(h, cap, events).Some? && AgreesAll(h, cap, w, events)
    requires RunOf(h, cap, more).Some? && Dropped(RunOf(h, cap, events).value, n)
    ensures Dropped(RunOf(h, cap, more).value, n)
  {
    LastEvent(h, cap, events, e, more);
    RunInv(h, cap, w, events);
    DroppedNext(h, w, RunOf(h, cap, events).value, e, cap, n);
  }

  lemma DroppedAt(h: Handler, cap: nat, w: World, events: seq<Event>, e: Event, more: seq<Event>, n: nat)
    requires more == events + [e] && cap >= 1 && RunOf(h, cap, events).Some? && AgreesAll(h, cap, w, events)
    requires e.Cancel?
    requires InFlight(RunOf(h, cap, events).value, n)
    ensures RunOf(h, cap, more).Some? && Dropped(RunOf(h, cap, more).value, n)
  {
    assert more[..|events|] == events;
    RunInv(h, cap, w, events);
    CancelDrops(h, w, RunOf(h, cap, events).value, e.compensate, e.unclaimed, n);
  }

  /** Step `n` is dropped after the first `k` events. */
  ghost predicate DroppedBy(h: Handler, cap: nat, events: seq<Event>, k: nat, n: nat)
    requires k <= |events|
  {
    RunOf(h, cap, events[..k]).Some? && Dropped(RunOf(h, cap, events[..k]).value, n)
  }

  lemma DroppedStep(h: Handler, cap: nat, w: World, events: seq<Event>, k: nat, n: nat)
    requires cap >= 1 && RunOf(h, cap, events).Some? && AgreesAll(h, cap, w, events)
    requires 0 < k <= |events| && DroppedBy(h, cap, events, k - 1, n)
    ensures DroppedBy(h, cap, events, k, n)
  {
    RunGrows(h, cap, w, events, k - 1);
    RunGrows(h, cap, w, events, k);
    DroppedOn(h, cap, w, events[..k - 1], events[k - 1], events[..k], n);
  }

  lemma DroppedStart(h: Handler, cap: nat, w: World, events: seq<Event>, m: nat, n: nat)
    requires cap >= 1 && RunOf(h, cap, events).Some? && AgreesAll(h, cap, w, events)
    requires m < |events| && events[m].Cancel? && RunOf(h, cap, events[..m]).Some?
    requires InFlight(RunOf(h, cap, events[..m]).value, n)
    ensures DroppedBy(h, cap, events, m + 1, n)
  {
    RunGrows(h, cap, w, events, m);
    var less, more := events[..m], events[..m + 1];
    assert more == less + [events[m]];
    DroppedAt(h, cap, w, less, events[m], more, n);
  }

  lemma {:induction false} StaysDropped(h: Handler, cap: nat, w: World, events: seq<Event>, m: nat, k: nat, n: nat)
    requires cap >= 1 && RunOf(h, cap, events).Some? && AgreesAll(h, cap, w, events)
    requires m <= k <= |events| && DroppedBy(h, cap, events, m, n)
    ensures DroppedBy(h, cap, events, k, n)
    decreases k
  {
    if m < k {
      StaysDropped(h, cap, w, events, m, k - 1, n);
      DroppedStep(h, cap, w, events, k, n);
    }
  }

  /**
   A step in flight when a run is canceled is dropped: whatever its job reports later, no later state has
   it settled, and no compensation for it ever goes out.
   */
  lemma CanceledInFlightIsDropped(h: Handler, cap: nat, events: seq<Event>, m: nat, n: nat)
    requires cap >= 1 && RunOf(h, cap, events).Some? && m < |events| && events[m].Cancel?
    requires RunOf(h, cap, events[..m]).Some?
    requires InFlight(RunOf(h, cap, events[..m]).value, n)
    ensures Dropped(RunOf(h, cap, events).value, n)
  {
    var w := EveryRunHasAWorld(h, cap, events);
    DroppedStart(h, cap, w, events, m, n);
    StaysDropped(h, cap, w, events, m + 1, |events|, n);
    assert events[..|events|] == events;
  }

  lemma {:induction false} ClaimedStays(s: Run, k: nat, unclaimed: set<nat>, j: nat)
    requires k <= |s.rows| && j < |s.jobs| && j !in unclaimed
    ensures j < |CancelJobs(s, k, unclaimed).jobs| && CancelJobs(s, k, unclaimed).jobs[j] == s.jobs[j]
  {
    if k > 0 { ClaimedStays(s, k - 1, unclaimed, j); }
  }

  /** A job that was claimed before the cancel can still finish. */
  lemma ClaimedCanFinish(s: Run, compensate: bool, unclaimed: set<nat>, j: nat, n: nat, r: JobResult)
    requires s.status.Running? && IsLiveStep(s, j, n) && j !in unclaimed
    ensures var s1 := CancelRun(s, compensate, unclaimed);
            Enabled(s1, Finish(j, r)) && s1.jobs[j] == s.jobs[j]
  {
    ClaimedStays(s, |s.rows|, unclaimed, j);
  }

  /** The three events of a claimed step that succeeds after a cancel: the cancel, the success, its report. */
  function LateAfterCancel(s: Run, compensate: bool, unclaimed: set<nat>, j: nat, v: Value): seq<Event> {
    [Cancel(compensate, unclaimed)] + [Finish(j, Succeeded(v))] +
    [Dispatch(|CancelRun(s, compensate, unclaimed).jobs|, true, 0)]
  }

  /**
   ... and it may well succeed: in every run with a claimed step in flight, the cancel, the success of the step
   and its report are a run, and the report is dropped.
   */
  lemma ClaimedOutlivesCancel(h: Handler, cap: nat, events: seq<Event>, s: Run, compensate: bool, unclaimed: set<nat>,
                              j: nat, n: nat, v: Value)
    requires cap >= 1 && RunOf(h, cap, events) == Some(s) && InFlight(s, n) && IsLiveStep(s, j, n) && j !in unclaimed
    ensures var s' := RunOf(h, cap, events + LateAfterCancel(s, compensate, unclaimed, j, v));
            && s'.Some? && Dropped(s'.value, n)
            && exists c: nat ::
               c < |s'.value.jobs| && s'.value.jobs[c] == Job(StepDone(n, s.jobs[j].task.gen, Succeeded(v)), false)
  {
    var e1, e2 := Cancel(compensate, unclaimed), Finish(j, Succeeded(v));
    var s1 := CancelRun(s, compensate, unclaimed);
    var c := |s1.jobs|;
    var e3 := Dispatch(c, true, 0);
    RunSteps(h, cap, events, s, e1, s1);
    ClaimedCanFinish(s, compensate, unclaimed, j, n, Succeeded(v));
    var s2 := Settle1(s1, j, Succeeded(v));
    RunSteps(h, cap, events + [e1], s1, e2, s2);
    assert s2.jobs[c] == Job(StepDone(n, s.jobs[j].task.gen, Succeeded(v)), true);
    var s3 := Next(s2, e3, h, cap);
    RunSteps(h, cap, events + [e1] + [e2], s2, e3, s3);
    ReportRetires(s2, c, h, cap, s3);
    var all := events + LateAfterCancel(s, compensate, unclaimed, j, v);
    assert all == events + [e1] + [e2] + [e3] && all[..|events|] == events && all[|events|] == e1;
    CanceledInFlightIsDropped(h, cap, all, |events|, n);
  }

  lemma ReportRetires(s: Run, c: nat, h: Handler, cap: nat, s': Run)
    requires c < |s.jobs| && s.jobs[c].task.StepDone? && s' == Next(s, Dispatch(c, true, 0), h, cap)
    ensures c < |s'.jobs| && s'.jobs[c] == s.jobs[c].(live := false)
  {
  }
}
