/**
 The unwind (components/workflow/src/modules.ts:146-157, 377-463, facade.ts:81-150): from the state
 that enters `compensating` on, compensations go out one at a time, highest step first.
 */
module Saga {
  import opened Options
  import opened Replay
  import opened Workflow
  import opened WorkflowSafety
  import opened WorkflowRuns

  // ---------------------------------------------------------------------------------------------
  // What is owed, and the order in which it is paid
  // ---------------------------------------------------------------------------------------------

  /** The owed step numbers below `n`, highest first. */
  function OwedDown(rows: seq<Row>, n: nat): seq<nat>
    requires n <= |rows|
  {
    if n == 0 then []
    else if Owed(rows[n - 1]) then [n - 1] + OwedDown(rows, n - 1)
    else OwedDown(rows, n - 1)
  }

  /** The order of the unwind. */
  function Order(s: Run): seq<nat> { OwedDown(s.rows, |s.rows|) }

  lemma {:induction false} OwedDownIs(rows: seq<Row>, n: nat)
    requires n <= |rows|
    ensures forall i :: 0 <= i < |OwedDown(rows, n)| ==> OwedDown(rows, n)[i] < n && Owed(rows[OwedDown(rows, n)[i]])
    ensures forall i, j :: 0 <= i < j < |OwedDown(rows, n)| ==> OwedDown(rows, n)[i] > OwedDown(rows, n)[j]
    ensures forall m: nat :: m < n && Owed(rows[m]) ==> m in OwedDown(rows, n)
  {
    if n > 0 { OwedDownIs(rows, n - 1); }
  }

  /** The compensation a successful step asks for: its own arguments, result and retry cap. */
  function Payment(row: Row, gen: nat): Task
    requires Owed(row)
  {
    RunCompensation(row.stepNumber, gen, row.opts.compensate.value, row.args, row.state.value, row.opts.maxAttempts)
  }

  /** The compensations dispatched so far, in dispatch order. */
  function Dispatched(jobs: seq<Job>): (r: seq<Task>)
    ensures forall i :: 0 <= i < |r| ==> r[i].RunCompensation?
  {
    if jobs == [] then []
    else
      var n := |jobs| - 1;
      Dispatched(jobs[..n]) + if jobs[n].task.RunCompensation? then [jobs[n].task] else []
  }

  ghost predicate Dense(rows: seq<Row>) { forall n :: 0 <= n < |rows| ==> rows[n].stepNumber == n }

  ghost predicate WaitsOweNothing(rows: seq<Row>) {
    forall n :: 0 <= n < |rows| && rows[n].kind == WaitForEvent ==> rows[n].opts.compensate.None?
  }

  // ---------------------------------------------------------------------------------------------
  // The state of an unwind
  // ---------------------------------------------------------------------------------------------

  /** A step that declared a compensation; an empty path counts as none. */
  predicate Compensable(row: Row) { row.opts.compensate.Some? && row.opts.compensate.value != "" }

  /** A live forward job that can still make a compensable step succeed. */
  predicate MayOwe(s: Run, j: nat) {
    && j < |s.jobs| && s.jobs[j].live
    && (s.jobs[j].task.RunStep? || (s.jobs[j].task.StepDone? && s.jobs[j].task.result.Succeeded?))
    && var n := s.jobs[j].task.step;
       s.jobs[j].task.gen == s.gen && n < |s.rows| && s.rows[n].state.Pending? && Compensable(s.rows[n])
  }

  /** No compensable step can still succeed; steps without a compensation may. */
  ghost predicate Calm(s: Run) { forall j: nat :: !MayOwe(s, j) }

  predicate IsUnwindTask(t: Task) { t.Compensate? || t.RunCompensation? || t.CompensateDone? }

  predicate IsLiveUnwind(s: Run, j: nat) { j < |s.jobs| && s.jobs[j].live && IsUnwindTask(s.jobs[j].task) }

  /** The single live job that drives the unwind. */
  ghost predicate Token(s: Run, t: nat) {
    IsLiveUnwind(s, t) && forall j: nat :: IsLiveUnwind(s, j) ==> j == t
  }

  ghost predicate NoToken(s: Run) { forall j: nat :: !IsLiveUnwind(s, j) }

  /**
   A state that has just left `running` by a failure or a compensating cancel: an unwind begins if anything is owed.
   */
  ghost predicate Entered(s: Run) {
    && Dense(s.rows) && WaitsOweNothing(s.rows)
    && (forall n :: 0 <= n < |s.rows| ==> !s.rows[n].compensated && s.rows[n].compensationJob.None?)
    && Dispatched(s.jobs) == []
    && if s.status.Compensating? then exists t: nat :: Token(s, t) && s.jobs[t].task.Compensate?
       else (s.status.Failed? || s.status.Canceled?) && NoToken(s) && Order(s) == []
  }

  /** Row `n` of the unwind started from `a`, after `paid` compensations succeeded and `sent` were dispatched. */
  ghost predicate RowAt(s0: Run, a: Row, b: Row, n: nat, paid: nat, sent: nat)
    requires paid <= sent <= |Order(s0)|
  {
    && SameCall(a, b)
    && (if n in Order(s0) then b.state == a.state else !Owed(b))
    && (b.compensated <==> n in Order(s0)[..paid])
    && (b.compensationJob.Some? <==> n in Order(s0)[..sent])
  }

  ghost predicate RowsAt(s0: Run, s: Run, paid: nat, sent: nat)
    requires paid <= sent <= |Order(s0)|
  {
    |s.rows| == |s0.rows| && forall n: nat :: n < |s.rows| ==> RowAt(s0, s0.rows[n], s.rows[n], n, paid, sent)
  }

  function Plan(s0: Run): seq<Task>
    requires forall i :: 0 <= i < |Order(s0)| ==> Order(s0)[i] < |s0.rows| && Owed(s0.rows[Order(s0)[i]])
  {
    seq(|Order(s0)|, i requires 0 <= i < |Order(s0)| => Payment(s0.rows[Order(s0)[i]], s0.gen))
  }

  /** Where the unwind of `s0` ends if every compensation succeeds. */
  function Final(s0: Run): Status {
    if !s0.status.Compensating? then s0.status else if s0.target.ToCanceled? then Canceled else Status.Failed
  }

  /** Where the unwind of `s0` stands in `s`. */
  ghost predicate Unwinding(s0: Run, s: Run, paid: nat, sent: nat) {
    var order := Order(s0);
    && (forall i :: 0 <= i < |order| ==> order[i] < |s0.rows| && Owed(s0.rows[order[i]]))
    && paid <= sent <= paid + 1 && sent <= |order|
    && s.gen == s0.gen && s.target == s0.target && !s.status.Running?
    && RowsAt(s0, s, paid, sent)
    && Dispatched(s.jobs) == Plan(s0)[..sent]
    && (s.status.Compensating? ==>
         && s0.status.Compensating? && s.cause == s0.cause
         && exists t: nat :: Token(s, t) && TokenAt(s0, s, t, paid, sent))
    && (!s.status.Compensating? ==>
         && NoToken(s)
         && if sent == paid
            then paid == |order| && s.status == Final(s0) && s.cause == s0.cause
            else
              s.status == Status.Failed && s.cause.HaltedAt? && s.cause.step == order[paid] &&
              s.cause.original == s0.cause)
  }

  ghost predicate TokenAt(s0: Run, s: Run, t: nat, paid: nat, sent: nat)
    requires t < |s.jobs| && paid <= sent <= paid + 1 && sent <= |Order(s0)|
  {
    match s.jobs[t].task
    case Compensate => sent == paid
    case RunCompensation(n, g, _, _, _, _) => sent == paid + 1 && n == Order(s0)[paid] && g == s.gen
    case CompensateDone(n, g, _) => sent == paid + 1 && n == Order(s0)[paid] && g == s.gen
    case _ => false
  }

  // ---------------------------------------------------------------------------------------------
  // One step of the unwind
  // ---------------------------------------------------------------------------------------------

  /** What is still owed is the rest of the order. */
  lemma OwedRest(s0: Run, s: Run, paid: nat, sent: nat, n: nat)
    requires Entered(s0) && paid <= sent <= |Order(s0)| && RowsAt(s0, s, paid, sent) && n < |s.rows|
    ensures Owed(s.rows[n]) <==> n in Order(s0)[paid..]
    ensures s.rows[n].stepNumber == n
  {
    var order := Order(s0);
    OwedDownIs(s0.rows, |s0.rows|);
    assert RowAt(s0, s0.rows[n], s.rows[n], n, paid, sent);
    assert order == order[..paid] + order[paid..];
    if Owed(s.rows[n]) { assert n in order; }
  }

  /** A falling list of the owed rows starts with the last one. */
  lemma HeadIsLast(rows: seq<Row>, rest: seq<nat>)
    requires forall n: nat :: n < |rows| ==> (Owed(rows[n]) <==> n in rest) && rows[n].stepNumber == n
    requires forall i :: 0 <= i < |rest| ==> rest[i] < |rows|
    requires forall i, j :: 0 <= i < j < |rest| ==> rest[i] > rest[j]
    ensures LastOwed(rows, |rows|) == if rest == [] then None else Some(rest[0])
  {
    var r := LastOwed(rows, |rows|);
    if rest != [] {
      assert rest[0] in rest && Owed(rows[rest[0]]);
      var i :| 0 <= i < |rest| && rest[i] == r.value;
    }
  }

  /** The head of what is still owed is next. */
  lemma OwedNow(s0: Run, s: Run, paid: nat, sent: nat)
    requires Entered(s0) && Unwinding(s0, s, paid, sent)
    ensures LastOwed(s.rows, |s.rows|) == if paid < |Order(s0)| then Some(Order(s0)[paid]) else None
  {
    var rest := Order(s0)[paid..];
    OwedDownIs(s0.rows, |s0.rows|);
    forall n: nat | n < |s.rows| ensures (Owed(s.rows[n]) <==> n in rest) && s.rows[n].stepNumber == n {
      OwedRest(s0, s, paid, sent, n);
    }
    HeadIsLast(s.rows, rest);
  }

  /** Jobs changed only outside the unwind. */
  ghost predicate SideJobs(s: Run, s': Run) {
    && |s.jobs| <= |s'.jobs|
    && (forall j :: 0 <= j < |s.jobs| ==>
         && s'.jobs[j].task == s.jobs[j].task
         && (s'.jobs[j].live ==> s.jobs[j].live)
         && (IsUnwindTask(s.jobs[j].task) ==> s'.jobs[j].live == s.jobs[j].live))
    && (forall j :: |s.jobs| <= j < |s'.jobs| ==> !IsUnwindTask(s'.jobs[j].task))
  }

  lemma {:induction false} DispatchedSame(a: seq<Job>, b: seq<Job>)
    requires |a| <= |b| && forall j :: 0 <= j < |a| ==> b[j].task == a[j].task
    requires forall j :: |a| <= j < |b| ==> !b[j].task.RunCompensation?
    ensures Dispatched(b) == Dispatched(a)
    decreases |b|
  {
    if b != [] {
      var n := |b| - 1;
      DispatchedSame(if |a| == |b| then a[..n] else a, b[..n]);
    }
  }

  lemma TokenKept(s: Run, s': Run, t: nat)
    requires SideJobs(s, s')
    ensures Token(s, t) ==> Token(s', t)
    ensures NoToken(s) ==> NoToken(s')
  {
    forall j: nat | IsLiveUnwind(s', j) ensures IsLiveUnwind(s, j) {
    }
  }

  lemma SideKeeps(s0: Run, s: Run, s': Run, paid: nat, sent: nat)
    requires Unwinding(s0, s, paid, sent) && SideJobs(s, s') && RowsAt(s0, s', paid, sent)
    requires s' == s.(rows := s'.rows, events := s'.events, jobs := s'.jobs)
    ensures Unwinding(s0, s', paid, sent)
  {
    DispatchedSame(s.jobs, s'.jobs);
    if s.status.Compensating? {
      var t: nat :| Token(s, t) && TokenAt(s0, s, t, paid, sent);
      TokenKept(s, s', t);
      assert TokenAt(s0, s', t, paid, sent);
    } else {
      TokenKept(s, s', 0);
    }
  }

  predicate Killed(s: Run, t: nat, jobs: seq<Job>) {
    t < |s.jobs| && jobs == s.jobs[t := s.jobs[t].(live := false)]
  }

  /** The token job dies and hands over to `u`. */
  lemma TokenMoves(s: Run, t: nat, u: Task, s': Run)
    requires Token(s, t) && IsUnwindTask(u)
    requires |s'.jobs| == |s.jobs| + 1 && Killed(s, t, s'.jobs[..|s.jobs|]) && s'.jobs[|s.jobs|] == Job(u, true)
    ensures Token(s', |s.jobs|)
    ensures Dispatched(s'.jobs) == Dispatched(s.jobs) + if u.RunCompensation? then [u] else []
  {
    var n := |s.jobs|;
    forall j: nat | IsLiveUnwind(s', j) ensures j == n {
      if j < n { assert s'.jobs[j] == s'.jobs[..n][j]; assert IsLiveUnwind(s, j); }
    }
    forall j | 0 <= j < n ensures s'.jobs[j].task == s.jobs[j].task && (s'.jobs[j].live ==> s.jobs[j].live) {
      assert s'.jobs[j] == s'.jobs[..n][j];
    }
    DispatchedSame(s.jobs, s'.jobs[..n]);
  }

  lemma TokenDies(s: Run, t: nat, s': Run)
    requires Token(s, t) && Killed(s, t, s'.jobs)
    ensures NoToken(s') && Dispatched(s'.jobs) == Dispatched(s.jobs)
  {
    forall j: nat | IsLiveUnwind(s', j) ensures false {
      assert IsLiveUnwind(s, j);
    }
    DispatchedSame(s.jobs, s'.jobs);
  }

  /** Marking row `order[sent]` as dispatched. */
  lemma RowsSent(s0: Run, s: Run, paid: nat, s': Run)
    requires Entered(s0) && paid < |Order(s0)| && RowsAt(s0, s, paid, paid)
    requires forall k :: 0 <= k < |Order(s0)| ==> Order(s0)[k] < |s0.rows|
    requires var i := Order(s0)[paid]; exists job :: s'.rows == s.rows[i := s.rows[i].(compensationJob := Some(job))]
    ensures RowsAt(s0, s', paid, paid + 1)
  {
  }

  lemma RowsPaid(s0: Run, s: Run, paid: nat, s': Run)
    requires Entered(s0) && paid < |Order(s0)| && RowsAt(s0, s, paid, paid + 1)
    requires forall k :: 0 <= k < |Order(s0)| ==> Order(s0)[k] < |s0.rows|
    requires var i := Order(s0)[paid]; s'.rows == s.rows[i := s.rows[i].(compensated := true)]
    ensures RowsAt(s0, s', paid + 1, paid + 1)
  {
  }

  /** `_compensate` with nothing left to pay. */
  lemma NothingOwed(s0: Run, s: Run, t: nat, paid: nat, s': Run)
    requires Entered(s0) && Unwinding(s0, s, paid, paid) && s.status.Compensating? && paid == |Order(s0)|
    requires Token(s, t) && s.jobs[t].task.Compensate? && s' == Retire(Unwind(s), t)
    ensures Unwinding(s0, s', paid, paid)
  {
    OwedNow(s0, s, paid, paid);
    TokenDies(s, t, s');
  }

  /** `_compensate` dispatches the head of what is owed. */
  lemma PayHead(s0: Run, s: Run, t: nat, paid: nat, s': Run)
    requires Entered(s0) && Unwinding(s0, s, paid, paid) && s.status.Compensating? && paid < |Order(s0)|
    requires Token(s, t) && s.jobs[t].task.Compensate? && s' == Retire(Unwind(s), t)
    ensures Unwinding(s0, s', paid, paid + 1) && s'.status.Compensating?
    ensures Token(s', |s.jobs|) && TokenAt(s0, s', |s.jobs|, paid, paid + 1) && s'.jobs[|s.jobs|].task.RunCompensation?
  {
    OwedNow(s0, s, paid, paid);
    var i := Order(s0)[paid];
    assert RowAt(s0, s0.rows[i], s.rows[i], i, paid, paid);
    assert Owed(s0.rows[i]);
    assert s'.rows == s.rows[i := s.rows[i].(compensationJob := Some(|s.jobs|))];
    RowsSent(s0, s, paid, s');
    var u := Payment(s0.rows[i], s0.gen);
    WaitsAreNotOwed(s0, i);
    assert s'.jobs[..|s.jobs|] == s.jobs[t := s.jobs[t].(live := false)];
    assert s'.jobs[|s.jobs|] == Job(u, true);
    TokenMoves(s, t, u, s');
    PlanNext(s0, paid);
    assert TokenAt(s0, s', |s.jobs|, paid, paid + 1);
  }

  lemma PlanNext(s0: Run, paid: nat)
    requires forall i :: 0 <= i < |Order(s0)| ==> Order(s0)[i] < |s0.rows| && Owed(s0.rows[Order(s0)[i]])
    requires paid < |Order(s0)|
    ensures Plan(s0)[..paid + 1] == Plan(s0)[..paid] + [Payment(s0.rows[Order(s0)[paid]], s0.gen)]
  {
  }

  lemma WaitsAreNotOwed(s0: Run, i: nat)
    requires WaitsOweNothing(s0.rows) && i < |s0.rows| && Owed(s0.rows[i])
    ensures s0.rows[i].kind != WaitForEvent
  {
  }

  /** A compensation job settles. */
  lemma PaymentSettles(s0: Run, s: Run, t: nat, r: JobResult, paid: nat, s': Run)
    requires Unwinding(s0, s, paid, paid + 1) && s.status.Compensating?
    requires Token(s, t) && TokenAt(s0, s, t, paid, paid + 1) && s.jobs[t].task.RunCompensation?
    requires s' == Settle1(s, t, r)
    ensures Unwinding(s0, s', paid, paid + 1) && s'.status.Compensating?
    ensures Token(s', |s.jobs|) && TokenAt(s0, s', |s.jobs|, paid, paid + 1)
    ensures s'.jobs[|s.jobs|].task.CompensateDone? && s'.jobs[|s.jobs|].task.result == r
  {
    assert s'.jobs[..|s.jobs|] == s.jobs[t := s.jobs[t].(live := false)];
    TokenMoves(s, t, CompensateDone(s.jobs[t].task.step, s.jobs[t].task.gen, r), s');
    assert TokenAt(s0, s', |s.jobs|, paid, paid + 1);
  }

  /** `_compensateDone` with a success: one more is paid. */
  lemma PaymentMade(s0: Run, s: Run, t: nat, paid: nat, s': Run)
    requires Entered(s0) && Unwinding(s0, s, paid, paid + 1) && s.status.Compensating?
    requires Token(s, t) && TokenAt(s0, s, t, paid, paid + 1) && s.jobs[t].task.CompensateDone?
    requires s.jobs[t].task.result.Succeeded?
    requires s' == Retire(FinishCompensation(s, s.jobs[t].task.step, s.jobs[t].task.gen, s.jobs[t].task.result), t)
    ensures Unwinding(s0, s', paid + 1, paid + 1) && s'.status.Compensating?
    ensures Token(s', |s.jobs|) && s'.jobs[|s.jobs|].task.Compensate?
  {
    FindStepDense(s0, s, paid, paid + 1, Order(s0)[paid]);
    RowsPaid(s0, s, paid, s');
    assert s'.jobs[..|s.jobs|] == s.jobs[t := s.jobs[t].(live := false)];
    TokenMoves(s, t, Compensate, s');
    assert TokenAt(s0, s', |s.jobs|, paid + 1, paid + 1);
  }

  /** `_compensateDone` with a failure: the unwind halts where it stands. */
  lemma PaymentFailed(s0: Run, s: Run, t: nat, paid: nat, s': Run)
    requires Entered(s0) && Unwinding(s0, s, paid, paid + 1) && s.status.Compensating?
    requires Token(s, t) && TokenAt(s0, s, t, paid, paid + 1) && s.jobs[t].task.CompensateDone?
    requires !s.jobs[t].task.result.Succeeded?
    requires s' == Retire(FinishCompensation(s, s.jobs[t].task.step, s.jobs[t].task.gen, s.jobs[t].task.result), t)
    ensures Unwinding(s0, s', paid, paid + 1)
  {
    FindStepDense(s0, s, paid, paid + 1, Order(s0)[paid]);
    TokenDies(s, t, s');
  }

  lemma FindStepDense(s0: Run, s: Run, paid: nat, sent: nat, n: nat)
    requires Dense(s0.rows) && paid <= sent <= |Order(s0)| && RowsAt(s0, s, paid, sent) && n < |s.rows|
    ensures FindStep(s.rows, n) == Some(n)
  {
    var r := FindStep(s.rows, n);
    assert RowAt(s0, s0.rows[n], s.rows[n], n, paid, sent);
    if r.Some? { assert RowAt(s0, s0.rows[r.value], s.rows[r.value], r.value, paid, sent); }
  }

  // ---------------------------------------------------------------------------------------------
  // Whole unwinds
  // ---------------------------------------------------------------------------------------------

  /** Row `i` settles without becoming owed, or is settled again as it was. */
  lemma RowSettles(s0: Run, s: Run, i: nat, st: StepState, paid: nat, sent: nat, s': Run)
    requires paid <= sent <= |Order(s0)| && RowsAt(s0, s, paid, sent) && i < |s.rows|
    requires s'.rows == s.rows[i := s.rows[i].(state := st)]
    requires st == s.rows[i].state || (s.rows[i].state.Pending? && !Owed(s.rows[i].(state := st)))
    ensures RowsAt(s0, s', paid, sent)
  {
    OwedDownIs(s0.rows, |s0.rows|);
    forall n: nat | n < |s'.rows| ensures RowAt(s0, s0.rows[n], s'.rows[n], n, paid, sent) {
      assert RowAt(s0, s0.rows[n], s.rows[n], n, paid, sent);
    }
  }

  lemma SignalIsAside(s: Run, name: string, payload: Value, s': Run)
    requires s' == SendEvent(s, name, payload)
    ensures SideJobs(s, s') && s' == s.(rows := s'.rows, events := s'.events, jobs := s'.jobs)
    ensures || s'.rows == s.rows
            || var i := FindAwaiting(s.rows, name);
               i.Some? && s'.rows == s.rows[i.value := s.rows[i.value].(state := Success(payload))]
  {
  }

  lemma SignalKeeps(s0: Run, s: Run, name: string, payload: Value, paid: nat, sent: nat, s': Run)
    requires Entered(s0) && Unwinding(s0, s, paid, sent) && s' == SendEvent(s, name, payload)
    ensures Unwinding(s0, s', paid, sent)
  {
    SignalIsAside(s, name, payload, s');
    if s'.rows != s.rows {
      var i := FindAwaiting(s.rows, name).value;
      assert RowAt(s0, s0.rows[i], s.rows[i], i, paid, sent);
      RowSettles(s0, s, i, Success(payload), paid, sent, s');
    }
    SideKeeps(s0, s, s', paid, sent);
  }

  /** A forward job settles or an advance retires: no row changes. */
  lemma SideJobKeeps(s0: Run, s: Run, j: nat, s': Run, paid: nat, sent: nat)
    requires Unwinding(s0, s, paid, sent) && j < |s.jobs| && !IsUnwindTask(s.jobs[j].task)
    requires || s' == Retire(s, j)
             || (s.jobs[j].task.RunStep? && exists r :: s' == Settle1(s, j, r))
    ensures Unwinding(s0, s', paid, sent)
  {
    SideKeeps(s0, s, s', paid, sent);
  }

  /** A callback reports: a step that was settled is settled the same way, and a pending one does not become owed. */
  lemma ReportedRow(h: Handler, w: World, s: Run, j: nat)
    requires Inv(h, w, s) && Calm(s) && j < |s.jobs| && s.jobs[j].live && s.jobs[j].task.StepDone?
    requires s.jobs[j].task.gen == s.gen
    ensures var n := s.jobs[j].task.step;
            && n < |s.rows| && FindStep(s.rows, n) == Some(n)
            && var row := s.rows[n].(state := ToState(s.jobs[j].task.result));
               row == s.rows[n] || (s.rows[n].state.Pending? && !Owed(row))
  {
    assert JobOk(w, s, j) && !MayOwe(s, j);
    var n := s.jobs[j].task.step;
    FindDense(h, w, s.rows, n);
    assert RowConsistent(h, w, n, s.rows[n]);
  }

  lemma ReportIsAside(s: Run, j: nat, n: nat, g: nat, r: JobResult, s': Run)
    requires j < |s.jobs| && !IsUnwindTask(s.jobs[j].task) && s' == Retire(FinishStep(s, n, g, r), j)
    requires g == s.gen ==> FindStep(s.rows, n) == Some(n)
    ensures SideJobs(s, s') && s' == s.(rows := s'.rows, events := s'.events, jobs := s'.jobs)
    ensures s'.rows == if g == s.gen then s.rows[n := s.rows[n].(state := ToState(r))] else s.rows
  {
  }

  lemma ReportKeeps(h: Handler, w: World, s0: Run, s: Run, j: nat, paid: nat, sent: nat, s': Run)
    requires Entered(s0) && Unwinding(s0, s, paid, sent) && Inv(h, w, s) && Calm(s)
    requires j < |s.jobs| && s.jobs[j].live && s.jobs[j].task.StepDone?
    requires s' == Retire(FinishStep(s, s.jobs[j].task.step, s.jobs[j].task.gen, s.jobs[j].task.result), j)
    ensures Unwinding(s0, s', paid, sent)
  {
    var n, g, r := s.jobs[j].task.step, s.jobs[j].task.gen, s.jobs[j].task.result;
    if g == s.gen { ReportedRow(h, w, s, j); }
    ReportIsAside(s, j, n, g, r, s');
    if g == s.gen { RowSettles(s0, s, n, ToState(r), paid, sent, s'); }
    SideKeeps(s0, s, s', paid, sent);
  }

  lemma TokenStep(s0: Run, s: Run, e: Event, h: Handler, cap: nat, paid: nat, sent: nat, t: nat, s': Run)
    returns (paid': nat, sent': nat)
    requires Entered(s0) && Unwinding(s0, s, paid, sent) && s.status.Compensating?
    requires Token(s, t) && TokenAt(s0, s, t, paid, sent)
    requires Enabled(s, e) && s' == Next(s, e, h, cap)
    requires (e.Dispatch? && e.retire && e.job == t) || (e.Finish? && e.job == t)
    ensures Unwinding(s0, s', paid', sent')
  {
    paid', sent' := paid, sent;
    match s.jobs[t].task
    case Compensate =>
      if paid == |Order(s0)| {
        NothingOwed(s0, s, t, paid, s');
      } else {
        PayHead(s0, s, t, paid, s');
        sent' := paid + 1;
      }
    case RunCompensation(_, _, _, _, _, _) => PaymentSettles(s0, s, t, e.result, paid, s');
    case CompensateDone(_, _, r) =>
      if r.Succeeded? {
        PaymentMade(s0, s, t, paid, s');
        paid' := paid + 1;
      } else {
        PaymentFailed(s0, s, t, paid, s');
      }
  }

  /** An internal job commits once: while it is live, and it retires with the commit. */
  predicate Once(s: Run, e: Event) { e.Dispatch? ==> e.job < |s.jobs| && s.jobs[e.job].live && e.retire }

  lemma TokenGoes(s0: Run, s: Run, e: Event, h: Handler, cap: nat, paid: nat, sent: nat, s': Run)
    returns (paid': nat, sent': nat)
    requires Entered(s0) && Unwinding(s0, s, paid, sent) && Enabled(s, e) && Once(s, e) && s' == Next(s, e, h, cap)
    requires (e.Dispatch? || e.Finish?) && IsUnwindTask(s.jobs[e.job].task)
    ensures Unwinding(s0, s', paid', sent')
  {
    assert IsLiveUnwind(s, e.job);
    var t: nat :| Token(s, t) && TokenAt(s0, s, t, paid, sent);
    paid', sent' := TokenStep(s0, s, e, h, cap, paid, sent, t, s');
  }

  lemma UnwindNext(h: Handler, w: World, s0: Run, s: Run, e: Event, cap: nat, paid: nat, sent: nat, s': Run)
    returns (paid': nat, sent': nat)
    requires Entered(s0) && Unwinding(s0, s, paid, sent) && Inv(h, w, s) && Calm(s)
    requires Enabled(s, e) && Once(s, e) && s' == Next(s, e, h, cap)
    ensures Unwinding(s0, s', paid', sent')
  {
    paid', sent' := paid, sent;
    match e
    case Send(name, payload) => SignalKeeps(s0, s, name, payload, paid, sent, s');
    case Cancel(_, _) =>
    case Dispatch(j, _, _) =>
      if IsUnwindTask(s.jobs[j].task) {
        paid', sent' := TokenGoes(s0, s, e, h, cap, paid, sent, s');
      } else if s.jobs[j].task.StepDone? {
        ReportKeeps(h, w, s0, s, j, paid, sent, s');
      } else {
        SideJobKeeps(s0, s, j, s', paid, sent);
      }
    case Finish(j, _) =>
      if IsUnwindTask(s.jobs[j].task) {
        paid', sent' := TokenGoes(s0, s, e, h, cap, paid, sent, s');
      } else {
        SideJobKeeps(s0, s, j, s', paid, sent);
      }
  }

  // ---------------------------------------------------------------------------------------------
  // Calm stays
  // ---------------------------------------------------------------------------------------------

  /** Rows settle, and new forward jobs are reports of live ones. */
  ghost predicate Quieter(s: Run, s': Run) {
    && s'.gen == s.gen && |s'.rows| == |s.rows| && |s.jobs| <= |s'.jobs|
    && (forall n :: 0 <= n < |s.rows| ==>
         s'.rows[n].opts == s.rows[n].opts && (s'.rows[n].state.Pending? ==> s.rows[n].state.Pending?))
    && (forall j :: 0 <= j < |s.jobs| ==> s'.jobs[j].task == s.jobs[j].task && (s'.jobs[j].live ==> s.jobs[j].live))
    && (forall j :: |s.jobs| <= j < |s'.jobs| ==> Neutral(s'.jobs[j].task) || Relays(s, s'.jobs[j].task))
  }

  ghost predicate Relays(s: Run, t: Task) {
    t.StepDone? && exists k: nat :: IsLiveStep(s, k, t.step) && s.jobs[k].task.gen == t.gen
  }

  lemma CalmKept(s: Run, s': Run)
    requires Calm(s) && Quieter(s, s')
    ensures Calm(s')
  {
    forall j: nat ensures !MayOwe(s', j) {
      if j < |s.jobs| {
        assert !MayOwe(s, j);
      } else if j < |s'.jobs| && Relays(s, s'.jobs[j].task) {
        var k: nat :| IsLiveStep(s, k, s'.jobs[j].task.step) && s.jobs[k].task.gen == s'.jobs[j].task.gen;
        assert !MayOwe(s, k);
      }
    }
  }

  lemma StepDoneQuieter(s: Run, n: nat, g: nat, r: JobResult)
    ensures Quieter(s, FinishStep(s, n, g, r))
  {
  }

  lemma UnwindQuieter(s: Run)
    ensures Quieter(s, Unwind(s))
  {
  }

  lemma CompensationQuieter(s: Run, n: nat, g: nat, r: JobResult)
    ensures Quieter(s, FinishCompensation(s, n, g, r))
  {
  }

  lemma PerformQuieter(s: Run, j: nat, h: Handler, cap: nat, now: int, s1: Run)
    requires !s.status.Running? && j < |s.jobs| && s1 == Perform(s, s.jobs[j].task, h, cap, now)
    ensures Quieter(s, s1)
  {
    match s.jobs[j].task
    case StepDone(n, g, r) => StepDoneQuieter(s, n, g, r);
    case Compensate => UnwindQuieter(s);
    case CompensateDone(n, g, r) => CompensationQuieter(s, n, g, r);
    case _ =>
  }

  lemma NextQuieter(s: Run, e: Event, h: Handler, cap: nat, s': Run)
    requires !s.status.Running? && Enabled(s, e) && s' == Next(s, e, h, cap)
    ensures Quieter(s, s')
  {
    match e
    case Dispatch(j, retire, now) => PerformQuieter(s, j, h, cap, now, Perform(s, s.jobs[j].task, h, cap, now));
    case Finish(j, r) =>
      if s.jobs[j].task.RunStep? { assert IsLiveStep(s, j, s.jobs[j].task.step); }
    case Send(_, _) =>
    case Cancel(_, _) =>
  }

  // ---------------------------------------------------------------------------------------------
  // Whole unwinds
  // ---------------------------------------------------------------------------------------------

  function RunFrom(s0: Run, h: Handler, cap: nat, events: seq<Event>): Option<Run> {
    if events == [] then Some(s0)
    else
      var n := |events| - 1;
      match RunFrom(s0, h, cap, events[..n])
      case None => None
      case Some(s) => if Enabled(s, events[n]) then Some(Next(s, events[n], h, cap)) else None
  }

  /** Every internal job commits its body once. */
  ghost predicate CommitsOnce(s0: Run, h: Handler, cap: nat, events: seq<Event>) {
    if events == [] then true
    else
      var n := |events| - 1;
      && CommitsOnce(s0, h, cap, events[..n])
      && RunFrom(s0, h, cap, events[..n]).Some? && Once(RunFrom(s0, h, cap, events[..n]).value, events[n])
  }

  lemma SagaStep(h: Handler, w: World, s0: Run, s: Run, e: Event, cap: nat, paid: nat, sent: nat, s': Run)
    returns (paid': nat, sent': nat)
    requires Entered(s0) && Unwinding(s0, s, paid, sent) && Inv(h, w, s) && Calm(s)
    requires Enabled(s, e) && Once(s, e) && s' == Next(s, e, h, cap)
    ensures Unwinding(s0, s', paid', sent') && Calm(s')
  {
    NextQuieter(s, e, h, cap, s');
    CalmKept(s, s');
    paid', sent' := UnwindNext(h, w, s0, s, e, cap, paid, sent, s');
  }

  /** A run goes on where its prefix stopped. */
  lemma {:induction false} RunGoesOn(h: Handler, cap: nat, pre: seq<Event>, more: seq<Event>)
    requires RunOf(h, cap, pre).Some?
    ensures RunOf(h, cap, pre + more) == RunFrom(RunOf(h, cap, pre).value, h, cap, more)
  {
    if more == [] {
      assert pre + more == pre;
    } else {
      var n := |more| - 1;
      RunGoesOn(h, cap, pre, more[..n]);
      assert (pre + more)[..|pre + more| - 1] == pre + more[..n];
    }
  }

  lemma StartsUnwinding(s0: Run)
    requires Entered(s0)
    ensures Unwinding(s0, s0, 0, 0)
  {
    OwedDownIs(s0.rows, |s0.rows|);
    if s0.status.Compensating? {
      var t: nat :| Token(s0, t) && s0.jobs[t].task.Compensate?;
      assert TokenAt(s0, s0, t, 0, 0);
    }
  }

  /** Whatever an orderly step keeps ... */
  ghost predicate OnceInvariant(p: Run -> bool, h: Handler, cap: nat, w: World) {
    forall s, e :: p(s) && Inv(h, w, s) && Enabled(s, e) && Once(s, e) ==> p(Next(s, e, h, cap))
  }

  /** `p` holds after the first `k` events of the continuation. */
  ghost predicate HoldsAt(p: Run -> bool, h: Handler, cap: nat, pre: seq<Event>, more: seq<Event>, k: nat)
    requires k <= |more|
  {
    RunOf(h, cap, pre + more[..k]).Some? && p(RunOf(h, cap, pre + more[..k]).value)
  }

  lemma {:induction false} OnceAt(s0: Run, h: Handler, cap: nat, more: seq<Event>, k: nat)
    requires CommitsOnce(s0, h, cap, more) && k < |more|
    ensures RunFrom(s0, h, cap, more[..k]).Some? && Once(RunFrom(s0, h, cap, more[..k]).value, more[k])
    decreases |more|
  {
    var n := |more| - 1;
    if k < n {
      OnceAt(s0, h, cap, more[..n], k);
      assert more[..n][..k] == more[..k];
    }
  }

  lemma OnceNext(p: Run -> bool, h: Handler, cap: nat, w: World, s: Run, e: Event)
    requires OnceInvariant(p, h, cap, w) && p(s) && Inv(h, w, s) && Enabled(s, e) && Once(s, e)
    ensures p(Next(s, e, h, cap))
  {
  }

  lemma LastEvent(h: Handler, cap: nat, events: seq<Event>, e: Event, more: seq<Event>)
    requires more == events + [e] && RunOf(h, cap, more).Some?
    ensures RunOf(h, cap, events).Some? && Enabled(RunOf(h, cap, events).value, e)
    ensures RunOf(h, cap, more) == Some(Next(RunOf(h, cap, events).value, e, h, cap))
  {
    assert more[..|more| - 1] == events;
  }

  lemma OnceKept(p: Run -> bool, h: Handler, cap: nat, w: World, less: seq<Event>, e: Event, upto: seq<Event>)
    requires cap >= 1 && upto == less + [e] && RunOf(h, cap, upto).Some?
    requires RunOf(h, cap, less).Some? && AgreesAll(h, cap, w, less)
    requires p(RunOf(h, cap, less).value) && Once(RunOf(h, cap, less).value, e) && OnceInvariant(p, h, cap, w)
    ensures p(RunOf(h, cap, upto).value)
  {
    RunInv(h, cap, w, less);
    LastEvent(h, cap, less, e, upto);
    OnceNext(p, h, cap, w, RunOf(h, cap, less).value, e);
  }

  /** The state before the `k`-th event of an orderly continuation, and that the event is orderly there. */
  lemma OnceThere(h: Handler, cap: nat, pre: seq<Event>, more: seq<Event>, k: nat)
    requires RunOf(h, cap, pre).Some? && CommitsOnce(RunOf(h, cap, pre).value, h, cap, more) && k < |more|
    ensures RunOf(h, cap, pre + more[..k]).Some? && Once(RunOf(h, cap, pre + more[..k]).value, more[k])
  {
    OnceAt(RunOf(h, cap, pre).value, h, cap, more, k);
    RunGoesOn(h, cap, pre, more[..k]);
  }

  lemma Snoc(pre: seq<Event>, more: seq<Event>, k: nat)
    requires 0 < k <= |more|
    ensures pre + more[..k] == (pre + more[..k - 1]) + [more[k - 1]]
  {
  }

  lemma OnceStep(p: Run -> bool, h: Handler, cap: nat, w: World, pre: seq<Event>, more: seq<Event>, k: nat)
    requires cap >= 1 && RunOf(h, cap, pre).Some? && RunOf(h, cap, pre + more).Some? && AgreesAll(h, cap, w, pre + more)
    requires CommitsOnce(RunOf(h, cap, pre).value, h, cap, more) && OnceInvariant(p, h, cap, w)
    requires 0 < k <= |more| && HoldsAt(p, h, cap, pre, more, k - 1)
    ensures HoldsAt(p, h, cap, pre, more, k)
  {
    var less, upto := pre + more[..k - 1], pre + more[..k];
    PartRuns(h, cap, w, pre, more, k - 1);
    PartRuns(h, cap, w, pre, more, k);
    OnceThere(h, cap, pre, more, k - 1);
    Snoc(pre, more, k);
    OnceKept(p, h, cap, w, less, more[k - 1], upto);
  }

  lemma PartRuns(h: Handler, cap: nat, w: World, pre: seq<Event>, more: seq<Event>, k: nat)
    requires cap >= 1 && RunOf(h, cap, pre + more).Some? && AgreesAll(h, cap, w, pre + more) && k <= |more|
    ensures RunOf(h, cap, pre + more[..k]).Some? && AgreesAll(h, cap, w, pre + more[..k])
  {
    RunGrows(h, cap, w, pre + more, |pre| + k);
    assert (pre + more)[..|pre| + k] == pre + more[..k];
  }

  /** ... an orderly continuation keeps. */
  lemma {:induction false} OnceInduction(p: Run -> bool, h: Handler, cap: nat, w: World, pre: seq<Event>,
                                         more: seq<Event>, k: nat)
    requires cap >= 1 && RunOf(h, cap, pre).Some? && RunOf(h, cap, pre + more).Some? && AgreesAll(h, cap, w, pre + more)
    requires CommitsOnce(RunOf(h, cap, pre).value, h, cap, more) && OnceInvariant(p, h, cap, w)
    requires k <= |more| && HoldsAt(p, h, cap, pre, more, 0)
    ensures HoldsAt(p, h, cap, pre, more, k)
  {
    if k > 0 {
      OnceInduction(p, h, cap, w, pre, more, k - 1);
      OnceStep(p, h, cap, w, pre, more, k);
    }
  }

  /** Somewhere in the unwind of `s0`. */
  ghost predicate Somewhere(s0: Run, s: Run) { Calm(s) && exists paid: nat, sent: nat :: Unwinding(s0, s, paid, sent) }

  lemma SomewhereNext(h: Handler, w: World, s0: Run, s: Run, e: Event, cap: nat)
    requires Entered(s0) && Somewhere(s0, s) && Inv(h, w, s) && Enabled(s, e) && Once(s, e)
    ensures Somewhere(s0, Next(s, e, h, cap))
  {
    var paid: nat, sent: nat :| Unwinding(s0, s, paid, sent);
    var paid', sent' := SagaStep(h, w, s0, s, e, cap, paid, sent, Next(s, e, h, cap));
  }

  /**
   The saga.  From a state that left `running` with no compensable step able to succeed any more, and for
   every interleaving in which internal jobs commit once: the compensations dispatched are a prefix of
   the plan, which lists each owed step once, highest first, with its journaled arguments and result;
   at most one is outstanding; the run ends in its target exactly when the whole plan succeeded, and
   fails at the step whose compensation failed with every lower step untouched.
   */
  lemma SagaUnwinds(h: Handler, cap: nat, pre: seq<Event>, more: seq<Event>) returns (paid: nat, sent: nat)
    requires cap >= 1 && RunOf(h, cap, pre).Some? && RunOf(h, cap, pre + more).Some?
    requires var s0 := RunOf(h, cap, pre).value; Entered(s0) && Calm(s0) && CommitsOnce(s0, h, cap, more)
    ensures Unwinding(RunOf(h, cap, pre).value, RunOf(h, cap, pre + more).value, paid, sent)
  {
    var w := EveryRunHasAWorld(h, cap, pre + more);
    var s0 := RunOf(h, cap, pre).value;
    StartsUnwinding(s0);
    var p := (s: Run) => Somewhere(s0, s);
    forall s, e | p(s) && Inv(h, w, s) && Enabled(s, e) && Once(s, e) ensures p(Next(s, e, h, cap)) {
      SomewhereNext(h, w, s0, s, e, cap);
    }
    assert pre + more[..0] == pre && more[..|more|] == more;
    OnceInduction(p, h, cap, w, pre, more, |more|);
    paid, sent :| Unwinding(s0, RunOf(h, cap, pre + more).value, paid, sent);
  }

  /** For a reader of the job table: each dispatch is the payment of its step, and the steps fall. */
  lemma DispatchOrder(s0: Run, s: Run, paid: nat, sent: nat)
    requires Entered(s0) && Unwinding(s0, s, paid, sent)
    ensures |Dispatched(s.jobs)| == sent <= |Order(s0)|
    ensures forall i :: 0 <= i < sent ==> Dispatched(s.jobs)[i] == Payment(s0.rows[Order(s0)[i]], s0.gen)
    ensures forall i, j :: 0 <= i < j < sent ==> Dispatched(s.jobs)[i].step > Dispatched(s.jobs)[j].step
  {
    var order := Order(s0);
    OwedDownIs(s0.rows, |s0.rows|);
    forall i | 0 <= i < sent ensures Dispatched(s.jobs)[i].step == order[i] {
      assert s0.rows[order[i]].stepNumber == order[i];
    }
  }

  /** The plan has every owed step once, and nothing else. */
  lemma PlanIsComplete(s0: Run, n: nat)
    requires n < |s0.rows|
    ensures Owed(s0.rows[n]) <==> n in Order(s0)
    ensures forall i, j :: 0 <= i < j < |Order(s0)| ==> Order(s0)[i] != Order(s0)[j]
  {
    OwedDownIs(s0.rows, |s0.rows|);
  }

  /** An unwind that runs out reaches its target with every owed step compensated, and nothing owed since. */
  lemma ExhaustedUnwind(s0: Run, s: Run, paid: nat, sent: nat, n: nat)
    requires Entered(s0) && Unwinding(s0, s, paid, sent) && !s.status.Compensating? && s.cause == s0.cause
    requires n < |s.rows|
    ensures s.status == Final(s0)
    ensures (Owed(s0.rows[n]) ==> s.rows[n].compensated) && !Owed(s.rows[n])
  {
    CauseGrows(s0.cause, s.cause);
    PlanIsComplete(s0, n);
    assert Order(s0)[..paid] == Order(s0);
    assert RowAt(s0, s0.rows[n], s.rows[n], n, paid, sent);
  }

  /** An unwind that halts fails at the step whose compensation failed; all lower steps are untouched. */
  lemma HaltedUnwind(s0: Run, s: Run, paid: nat, sent: nat, n: nat)
    requires Entered(s0) && Unwinding(s0, s, paid, sent) && !s.status.Compensating? && s.cause != s0.cause
    ensures s.status == Status.Failed && s.cause.HaltedAt? && s.cause.original == s0.cause
    ensures s.cause.step == Order(s0)[paid]
    ensures n < |s.rows| && n < s.cause.step ==> !s.rows[n].compensated && s.rows[n].compensationJob.None?
  {
    OwedDownIs(s0.rows, |s0.rows|);
    if n < |s.rows| {
      assert RowAt(s0, s0.rows[n], s.rows[n], n, paid, sent);
    }
  }

  lemma CauseGrows(a: Cause, b: Cause)
    ensures b.HaltedAt? && b.original == a ==> a != b
  {
  }

  // ---------------------------------------------------------------------------------------------
  // How an unwind is entered
  // ---------------------------------------------------------------------------------------------

  /** The handler calls the `step` object only in the ways it offers. */
  ghost predicate UsesStepApi(h: Handler) {
    forall hist :: h(hist).Await? ==> forall i :: 0 <= i < |h(hist).Reqs()| ==> Offered(h(hist).Reqs()[i])
  }

  lemma JournaledWaits(h: Handler, w: World, rows: seq<Row>)
    requires Consistent(h, w, rows) && UsesStepApi(h)
    ensures WaitsOweNothing(rows) && Dense(rows)
  {
  }

  lemma {:induction false} NoneDispatched(jobs: seq<Job>)
    requires forall j :: 0 <= j < |jobs| ==> !jobs[j].task.RunCompensation?
    ensures Dispatched(jobs) == []
  {
    if jobs != [] { NoneDispatched(jobs[..|jobs| - 1]); }
  }

  /** A run that leaves `running` with something owed enters the unwind with a single `_compensate`. */
  lemma EntersOnce(h: Handler, w: World, s: Run, s': Run)
    requires Inv(h, w, s) && s.status.Running? && UsesStepApi(h)
    requires s'.status.Compensating? && s'.rows == s.rows && |s'.jobs| >= |s.jobs| + 1
    requires var n := |s'.jobs| - 1;
             && s'.jobs[n] == Job(Compensate, true)
             && (forall j :: 0 <= j < n ==> !IsUnwindTask(s'.jobs[j].task))
    ensures Entered(s')
  {
    JournaledWaits(h, w, s.rows);
    NoneDispatched(s'.jobs);
    assert Token(s', |s'.jobs| - 1);
  }

  lemma {:induction false} NoneOwed(rows: seq<Row>, n: nat)
    requires n <= |rows| && !AnyOwed(rows)
    ensures OwedDown(rows, n) == []
  {
    if n > 0 { NoneOwed(rows, n - 1); }
  }

  /** A run that fails with nothing owed is at the end of an empty unwind. */
  lemma EntersEmpty(h: Handler, w: World, s: Run, s': Run)
    requires Inv(h, w, s) && s.status.Running? && UsesStepApi(h) && !AnyOwed(s.rows)
    requires s'.status.Failed? && s'.rows == s.rows
    requires forall j :: 0 <= j < |s'.jobs| ==> !IsUnwindTask(s'.jobs[j].task)
    ensures Entered(s')
  {
    JournaledWaits(h, w, s.rows);
    NoneDispatched(s'.jobs);
    NoneOwed(s'.rows, |s'.rows|);
  }

  lemma NoUnwindYet(w: World, s: Run)
    requires JobsOk(w, s) && s.status.Running?
    ensures forall j :: 0 <= j < |s.jobs| ==> !IsUnwindTask(s.jobs[j].task)
  {
    forall j | 0 <= j < |s.jobs| ensures !IsUnwindTask(s.jobs[j].task) { assert JobOk(w, s, j); }
  }

  /** A job of the forward run, at the first generation. */
  predicate ForwardTask(t: Task) { !IsUnwindTask(t) && (t.RunStep? ==> t.gen == 0) && (t.StepDone? ==> t.gen == 0) }

  ghost predicate AllForward(jobs: seq<Job>) { forall j :: 0 <= j < |jobs| ==> ForwardTask(jobs[j].task) }

  lemma CanceledTask(s: Run, job: Option<nat>, unclaimed: set<nat>)
    requires AllForward(s.jobs)
    ensures AllForward(CancelJob(s, job, unclaimed).jobs)
  {
  }

  lemma {:induction false} CanceledTasks(w: World, s: Run, n: nat, unclaimed: set<nat>)
    requires JobsOk(w, s) && s.status.Running? && n <= |s.rows|
    ensures AllForward(CancelJobs(s, n, unclaimed).jobs)
  {
    if n == 0 {
      forall j | 0 <= j < |s.jobs| ensures ForwardTask(s.jobs[j].task) {
        assert JobOk(w, s, j);
      }
    } else {
      CanceledTasks(w, s, n - 1, unclaimed);
      var s1, row := CancelJobs(s, n - 1, unclaimed), s.rows[n - 1];
      CanceledTask(s1, row.job, unclaimed);
      CanceledTask(if row.state.Pending? then CancelJob(s1, row.job, unclaimed) else s1, row.compensationJob,
                   unclaimed);
    }
  }

  lemma OldIsCalm(s: Run, jobs: seq<Job>)
    requires s.gen >= 1 && AllForward(jobs) && s.jobs == jobs + [Job(Compensate, true)]
    ensures Calm(s)
  {
  }

  /** A cancel needs no condition: bumping the generation already silences every forward step. */
  lemma CancelEntersCalmly(h: Handler, w: World, s: Run, unclaimed: set<nat>)
    requires Inv(h, w, s) && s.status.Running? && UsesStepApi(h) && AnyOwed(s.rows)
    ensures Entered(CancelRun(s, true, unclaimed)) && Calm(CancelRun(s, true, unclaimed))
  {
    CanceledTasks(w, s, |s.rows|, unclaimed);
    CancelGrows(s, |s.rows|, unclaimed);
    OldIsCalm(CancelRun(s, true, unclaimed), CancelJobs(s, |s.rows|, unclaimed).jobs);
    EntersOnce(h, w, s, CancelRun(s, true, unclaimed));
  }

  /** Whatever step of whatever run fails it or starts an unwind, it enters properly; a cancel, even calmly. */
  lemma EveryUnwindIsEntered(h: Handler, cap: nat, events: seq<Event>, e: Event, s': Run)
    requires cap >= 1 && UsesStepApi(h) && RunOf(h, cap, events).Some?
    requires var s := RunOf(h, cap, events).value;
             && s.status.Running? && Enabled(s, e) && s' == Next(s, e, h, cap)
             && (s'.status.Compensating? || s'.status.Failed?)
    ensures Entered(s') && (e.Cancel? ==> Calm(s'))
  {
    var w := EveryRunHasAWorld(h, cap, events);
    RunInv(h, cap, w, events);
    var s := RunOf(h, cap, events).value;
    if e.Cancel? {
      CancelEntersCalmly(h, w, s, e.unclaimed);
    } else {
      NoUnwindYet(w, s);
      PollLeaves(s, e, h, cap, s');
      if s'.status.Compensating? { EntersOnce(h, w, s, s'); } else { EntersEmpty(h, w, s, s'); }
    }
  }

  lemma PollLeaves(s: Run, e: Event, h: Handler, cap: nat, s': Run)
    requires s.status.Running? && Enabled(s, e) && !e.Cancel? && s' == Next(s, e, h, cap)
    requires s'.status.Compensating? || s'.status.Failed?
    requires forall j :: 0 <= j < |s.jobs| ==> !IsUnwindTask(s.jobs[j].task)
    ensures s'.rows == s.rows
    ensures forall j :: 0 <= j < |s.jobs| ==> s'.jobs[j].task == s.jobs[j].task
    ensures s'.status.Compensating? ==> |s'.jobs| == |s.jobs| + 1 && s'.jobs[|s.jobs|] == Job(Compensate, true)
    ensures s'.status.Failed? ==> |s'.jobs| == |s.jobs| && !AnyOwed(s.rows)
  {
    if e.Dispatch? && s.jobs[e.job].task.Advance? && RunReplay(h, s.rows, e.now).Suspended? {
      var ns := RunReplay(h, s.rows, e.now).newSteps;
      DispatchKeepsStatus(s, ns, Least(cap, |ns|));
    }
  }

  lemma {:induction false} DispatchKeepsStatus(s: Run, ns: seq<NewStep>, n: nat)
    requires n <= |ns|
    ensures DispatchAll(s, ns, n).status == s.status
  {
    if n > 0 { DispatchKeepsStatus(s, ns, n - 1); }
  }

  // ---------------------------------------------------------------------------------------------
  // Both assumptions of the saga are needed
  // ---------------------------------------------------------------------------------------------

  lemma PaysSame(s: Run)
    requires s.status.Compensating? && LastOwed(s.rows, |s.rows|).Some?
    ensures var s1, i := Unwind(s), LastOwed(s.rows, |s.rows|).value;
            && LastOwed(s1.rows, |s1.rows|) == Some(i) && s1.status.Compensating?
            && Payment(s1.rows[i], s1.gen) == Payment(s.rows[i], s.gen)
            && s1.jobs == s.jobs + [Job(Payment(s.rows[i], s.gen), true)]
  {
    SameLastOwed(s.rows, Unwind(s).rows, |s.rows|);
  }

  lemma DispatchedMore(jobs: seq<Job>, p: Task, q: Task)
    requires p.RunCompensation? && q.RunCompensation?
    ensures Dispatched(jobs + [Job(p, true)] + [Job(q, true)]) == Dispatched(jobs) + [p, q]
  {
    var one := jobs + [Job(p, true)];
    assert one[..|jobs|] == jobs && (one + [Job(q, true)])[..|one|] == one;
  }

  /**
   A `_compensate` that commits twice: in every run that is unwinding with something owed, any `_compensate`
   job can commit once more and again, and the same compensation goes out twice.
   */
  lemma SecondCommitPaysTwice(h: Handler, cap: nat, events: seq<Event>, s: Run, t: nat, now: int, later: int)
    requires RunOf(h, cap, events) == Some(s) && s.status.Compensating? && LastOwed(s.rows, |s.rows|).Some?
    requires t < |s.jobs| && s.jobs[t].task.Compensate?
    ensures var s' := RunOf(h, cap, events + [Dispatch(t, false, now)] + [Dispatch(t, false, later)]);
            var p := Payment(s.rows[LastOwed(s.rows, |s.rows|).value], s.gen);
            s'.Some? && Dispatched(s'.value.jobs) == Dispatched(s.jobs) + [p, p]
  {
    var p := Payment(s.rows[LastOwed(s.rows, |s.rows|).value], s.gen);
    var s1 := Unwind(s);
    PaysSame(s);
    PaysSame(s1);
    RunSteps(h, cap, events, s, Dispatch(t, false, now), s1);
    RunSteps(h, cap, events + [Dispatch(t, false, now)], s1, Dispatch(t, false, later), Unwind(s1));
    DispatchedMore(s.jobs, p, p);
  }

  lemma {:induction false} SameLastOwed(a: seq<Row>, b: seq<Row>, n: nat)
    requires |a| == |b| && n <= |a|
    requires forall i :: 0 <= i < |a| ==> b[i] == a[i].(compensationJob := b[i].compensationJob)
    ensures LastOwed(a, n) == LastOwed(b, n)
  {
    if n > 0 { SameLastOwed(a, b, n - 1); }
  }
}
