/**
 Runs in which a sibling of a failed step succeeds late (components/workflow/src/modules.ts:146-157, 320-345):
 every handler that opens with an uncaught fan-out has them.
 */
module LateSteps {
  import opened Options
  import opened Replay
  import opened Workflow
  import opened WorkflowSafety
  import opened WorkflowRuns
  import opened Saga
  import opened SagaRuns

  /** The handler first awaits these calls together, and lets a failure through. */
  ghost predicate Opens(h: Handler, reqs: seq<Request>) {
    && h([]).Await? && !h([]).catches && h([]).Reqs() == reqs
    && forall i :: 0 <= i < |reqs| ==> reqs[i].kind != WaitForEvent
  }

  function CalledRow(i: nat, req: Request, st: StepState): Row {
    Row(i, req.kind, req.name, req.args, st, req.opts, Some(i + 1), false, None)
  }

  /** The fan-out is journaled; step `i` stands at `states[i]`, and its job is live while it is pending. */
  ghost predicate Wave(s: Run, reqs: seq<Request>, states: seq<StepState>) {
    && |states| == |reqs| == |s.rows| && |s.jobs| > |reqs| && s.gen == 0
    && (forall i :: 0 <= i < |reqs| ==> s.rows[i] == CalledRow(i, reqs[i], states[i]))
    && (forall i: nat :: i < |reqs| && states[i].Pending? ==> IsLiveStep(s, i + 1, i) && s.jobs[i + 1].task.gen == 0)
  }

  function AllPending(n: nat): seq<StepState> { seq(n, _ => Pending) }

  // ---------------------------------------------------------------------------------------------
  // The first poll
  // ---------------------------------------------------------------------------------------------

  lemma FirstPoll(h: Handler, reqs: seq<Request>, now: int)
    requires Opens(h, reqs)
    ensures RunReplay(h, [], now) == Suspended(NewSteps([], 0, reqs, now))
  {
    var out := Suspended(NewSteps([], 0, reqs, now));
    var tickets := Tickets([], 0, reqs);
    assert tickets[0] == Blocked;
    assert [] + NewSteps([], 0, reqs, now) == NewSteps([], 0, reqs, now);
    assert Polled(h, [], now, 1) == Stopped(out);
  }

  lemma FreshRun() returns (s: Run)
    ensures s == Start()
  {
    return Start();
  }

  /** What dispatching the first `n` of them has done to a fresh run. */
  ghost predicate Sent(s: Run, ns: seq<NewStep>, n: nat)
    requires n <= |ns|
  {
    && s.status.Running? && s.gen == 0 && |s.rows| == n && |s.jobs| == n + 1
    && (forall i: nat :: i < n ==>
         s.rows[i] == NewRow(ns[i], Some(i + 1)) && s.jobs[i + 1] == Job(StepTask(ns[i], 0), true))
  }

  lemma {:induction false} SendsAll(s0: Run, ns: seq<NewStep>, n: nat)
    requires s0 == Start() && n <= |ns| && forall i :: 0 <= i < |ns| ==> ns[i].req.kind != WaitForEvent
    ensures Sent(DispatchAll(s0, ns, n), ns, n)
  {
    if n > 0 {
      SendsAll(s0, ns, n - 1);
      SendsOne(DispatchAll(s0, ns, n - 1), ns, n - 1);
    }
  }

  lemma SendsOne(s: Run, ns: seq<NewStep>, n: nat)
    requires n < |ns| && ns[n].req.kind != WaitForEvent && Sent(s, ns, n)
    ensures Sent(DispatchOne(s, ns[n]), ns, n + 1)
  {
  }

  lemma SentIsWave(s: Run, ns: seq<NewStep>, reqs: seq<Request>)
    requires |ns| == |reqs| >= 1 && Sent(s, ns, |ns|)
    requires forall i :: 0 <= i < |reqs| ==> ns[i].stepNumber == i && ns[i].req == reqs[i]
    ensures Wave(Retire(s, 0), reqs, AllPending(|reqs|)) && Retire(s, 0).status.Running?
  {
  }

  lemma FirstBody(s0: Run, h: Handler, cap: nat, now: int, ns: seq<NewStep>, n: nat)
    requires s0.status.Running? && RunReplay(h, s0.rows, now) == Suspended(ns) && ns != [] && n == Least(cap, |ns|)
    ensures Perform(s0, Advance, h, cap, now) == DispatchAll(s0, ns, n)
  {
  }

  lemma FirstEvent(s0: Run, h: Handler, cap: nat, s: Run)
    requires s0 == Start() && s.jobs != [] && s == Perform(s0, Advance, h, cap, 0)
    ensures RunOf(h, cap, [Dispatch(0, true, 0)]) == Some(Retire(s, 0))
  {
    var e := Dispatch(0, true, 0);
    assert [] + [e] == [e];
    RunSteps(h, cap, [], s0, e, Retire(s, 0));
  }

  /** After its first poll the run has the whole fan-out in flight. */
  lemma WaveStarts(h: Handler, cap: nat, reqs: seq<Request>) returns (events: seq<Event>, s: Run)
    requires Opens(h, reqs) && cap >= |reqs|
    ensures RunOf(h, cap, events) == Some(s)
    ensures Wave(s, reqs, AllPending(|reqs|)) && s.status.Running?
  {
    var s0 := FreshRun();
    var ns := NewSteps([], 0, reqs, 0);
    FirstPoll(h, reqs, 0);
    FirstBody(s0, h, cap, 0, ns, |ns|);
    SendsAll(s0, ns, |ns|);
    var sent := DispatchAll(s0, ns, |ns|);
    SentIsWave(sent, ns, reqs);
    FirstEvent(s0, h, cap, sent);
    events, s := [Dispatch(0, true, 0)], Retire(sent, 0);
  }

  // ---------------------------------------------------------------------------------------------
  // One step settles
  // ---------------------------------------------------------------------------------------------

  lemma Finishes(s: Run, reqs: seq<Request>, states: seq<StepState>, i: nat, r: JobResult, s': Run)
    requires Wave(s, reqs, states) && i < |reqs| && states[i].Pending? && s' == Settle1(s, i + 1, r)
    ensures s' == s.(jobs := s'.jobs) && |s'.jobs| == |s.jobs| + 1 && s'.jobs[|s.jobs|] == Job(StepDone(i, 0, r), true)
    ensures forall j :: 0 <= j < |s.jobs| && j != i + 1 ==> s'.jobs[j] == s.jobs[j]
  {
  }

  lemma Reports(s: Run, reqs: seq<Request>, states: seq<StepState>, i: nat, r: JobResult, s1: Run, c: nat, s': Run)
    requires Wave(s, reqs, states) && i < |reqs| && c == |s.jobs| && s1 == s.(jobs := s1.jobs)
    requires |s1.jobs| == c + 1 && s1.jobs[c] == Job(StepDone(i, 0, r), true)
    requires forall j :: 0 <= j < c && j != i + 1 ==> s1.jobs[j] == s.jobs[j]
    requires s' == Retire(FinishStep(s1, i, 0, r), c)
    ensures Wave(s', reqs, states[i := ToState(r)]) && s' == s.(rows := s'.rows, jobs := s'.jobs)
    ensures |s'.jobs| == c + 2 && s'.jobs[c + 1] == Job(Advance, true)
    ensures forall j :: 0 <= j < c && j != i + 1 ==> s'.jobs[j] == s.jobs[j]
  {
    DenseFind(s.rows, i);
  }

  /** Step `i` settles with `r` and its callback runs: an advance is left behind. */
  lemma Settled(h: Handler, cap: nat, events: seq<Event>, s: Run, reqs: seq<Request>, states: seq<StepState>, i: nat,
                r: JobResult)
    returns (events': seq<Event>, s': Run)
    requires RunOf(h, cap, events) == Some(s) && Wave(s, reqs, states) && i < |reqs| && states[i].Pending?
    ensures RunOf(h, cap, events') == Some(s') && Wave(s', reqs, states[i := ToState(r)])
    ensures s' == s.(rows := s'.rows, jobs := s'.jobs)
    ensures |s'.jobs| == |s.jobs| + 2 && s'.jobs[|s.jobs| + 1] == Job(Advance, true)
    ensures forall j :: 0 <= j < |s.jobs| && j != i + 1 ==> s'.jobs[j] == s.jobs[j]
  {
    var c := |s.jobs|;
    var e1, e2 := Finish(i + 1, r), Dispatch(c, true, 0);
    var s1 := Settle1(s, i + 1, r);
    Finishes(s, reqs, states, i, r, s1);
    RunSteps(h, cap, events, s, e1, s1);
    s' := Retire(FinishStep(s1, i, 0, r), c);
    RunSteps(h, cap, events + [e1], s1, e2, s');
    Reports(s, reqs, states, i, r, s1, c, s');
    events' := events + [e1] + [e2];
  }

  // ---------------------------------------------------------------------------------------------
  // The failing poll
  // ---------------------------------------------------------------------------------------------

  lemma FailingPoll(h: Handler, reqs: seq<Request>, rows: seq<Row>, states: seq<StepState>, z: nat, now: int)
    requires Opens(h, reqs) && |rows| == |states| == |reqs| && z < |reqs| && states[z].Failure?
    requires forall i :: 0 <= i < |reqs| ==> rows[i] == CalledRow(i, reqs[i], states[i])
    ensures RunReplay(h, rows, now).Failed?
  {
    var tickets := Tickets(rows, 0, reqs);
    assert tickets[z].Rejected?;
    assert FirstMismatch(rows, 0, reqs, 0).None?;
    assert Polled(h, rows, now, 1).Stopped?;
    StaysStopped(h, rows, now, 1, |rows| + 1);
  }

  lemma WaveFails(s: Run, reqs: seq<Request>, states: seq<StepState>, error: string, k: nat, s': Run)
    requires Wave(s, reqs, states) && |reqs| < k < |s.jobs| && s' == Retire(FailOrCompensate(s, error), k)
    ensures Wave(s', reqs, states) && s'.status == (if AnyOwed(s.rows) then Compensating else Status.Failed)
    ensures AnyOwed(s.rows) ==> |s'.jobs| == |s.jobs| + 1 && s'.jobs[|s.jobs|] == Job(Compensate, true)
    ensures forall j :: 0 <= j < |s.jobs| && j != k ==> j < |s'.jobs| && s'.jobs[j] == s.jobs[j]
  {
  }

  /** A poll of a journal with a failed member ends the run, or starts its unwind. */
  lemma PollFails(h: Handler, cap: nat, events: seq<Event>, s: Run, reqs: seq<Request>, states: seq<StepState>, z: nat,
                  k: nat)
    returns (s': Run)
    requires RunOf(h, cap, events) == Some(s) && Wave(s, reqs, states) && Opens(h, reqs) && s.status.Running?
    requires z < |reqs| && states[z].Failure? && |reqs| < k < |s.jobs| && s.jobs[k].task.Advance?
    ensures RunOf(h, cap, events + [Dispatch(k, true, 0)]) == Some(s') && Wave(s', reqs, states)
    ensures s'.status == (if AnyOwed(s.rows) then Compensating else Status.Failed)
    ensures AnyOwed(s.rows) ==> |s'.jobs| == |s.jobs| + 1 && s'.jobs[|s.jobs|] == Job(Compensate, true)
  {
    FailingPoll(h, reqs, s.rows, states, z, 0);
    var error := RunReplay(h, s.rows, 0).error;
    s' := Retire(FailOrCompensate(s, error), k);
    WaveFails(s, reqs, states, error, k, s');
    RunSteps(h, cap, events, s, Dispatch(k, true, 0), s');
  }

  /** A pending compensable member of the fan-out may still succeed. */
  lemma WaveIsNotCalm(s: Run, reqs: seq<Request>, states: seq<StepState>, x: nat)
    requires Wave(s, reqs, states) && x < |reqs| && states[x].Pending? && Pledged(reqs[x])
    ensures !Calm(s)
  {
    assert MayOwe(s, x + 1);
  }

  predicate Pledged(req: Request) { req.opts.compensate.Some? && req.opts.compensate.value != "" }

  /**
   Every handler that opens with an uncaught fan-out of a compensable call `x` and some other call `z` has a
   run that fails while `x` is in flight; by `SagaPaysIffCalm` some continuation then leaves `x` unpaid.
   */
  lemma LateSiblingIsReachable(h: Handler, cap: nat, reqs: seq<Request>, x: nat, z: nat) returns (pre: seq<Event>)
    requires Opens(h, reqs) && cap >= |reqs| && x < |reqs| && z < |reqs| && x != z && Pledged(reqs[x])
    ensures JustLeft(h, cap, pre) && !Calm(RunOf(h, cap, pre).value)
  {
    var ev1, s1 := WaveStarts(h, cap, reqs);
    var states := AllPending(|reqs|);
    var ev2, s2 := Settled(h, cap, ev1, s1, reqs, states, z, FailedWith("boom"));
    var k := |s1.jobs| + 1;
    var s3 := PollFails(h, cap, ev2, s2, reqs, states[z := Failure("boom")], z, k);
    WaveIsNotCalm(s3, reqs, states[z := Failure("boom")], x);
    pre := ev2 + [Dispatch(k, true, 0)];
    assert pre[..|pre| - 1] == ev2;
  }

  /** Spelled out: the run fails, goes on in good order, and ends owing `x`, or out of order. */
  lemma LateSiblingIsUnpaid(h: Handler, cap: nat, reqs: seq<Request>, x: nat, z: nat)
    returns (pre: seq<Event>, more: seq<Event>)
    requires Opens(h, reqs) && UsesStepApi(h) && cap >= |reqs| && x < |reqs| && z < |reqs| && x != z && Pledged(reqs[x])
    ensures JustLeft(h, cap, pre) && !GoesWell(RunOf(h, cap, pre).value, h, cap, more)
  {
    pre := LateSiblingIsReachable(h, cap, reqs, x, z);
    SagaPaysIffCalm(h, cap, pre);
    more :| !GoesWell(RunOf(h, cap, pre).value, h, cap, more);
  }

  // ---------------------------------------------------------------------------------------------
  // The order breaks
  // ---------------------------------------------------------------------------------------------

  /** The compensation of `x` is out, and the higher step `y` is owed. */
  ghost predicate OutOfOrder(s: Run, x: nat, y: nat) {
    && s.status.Compensating? && x < y < |s.rows| && Owed(s.rows[y])
    && exists j :: 0 <= j < |s.jobs| && s.jobs[j].task.RunCompensation? && s.jobs[j].task.step == x
  }

  lemma OnlyOwed(rows: seq<Row>, x: nat)
    requires Dense(rows) && x < |rows| && Owed(rows[x]) && forall n :: 0 <= n < |rows| && Owed(rows[n]) ==> n == x
    ensures LastOwed(rows, |rows|) == Some(x)
  {
  }

  /** The unwind dispatches the compensation of the only step owed so far. */
  lemma PaysOnly(s: Run, reqs: seq<Request>, states: seq<StepState>, x: nat, k: nat, s': Run)
    requires Wave(s, reqs, states) && s.status.Compensating? && x < |reqs| && |reqs| < k < |s.jobs|
    requires Pledged(reqs[x]) && states[x].Success? && forall i :: 0 <= i < |reqs| && states[i].Success? ==> i == x
    requires s' == Retire(Unwind(s), k)
    ensures s'.status.Compensating? && s'.gen == 0 && |s'.rows| == |reqs| && |s'.jobs| == |s.jobs| + 1
    ensures s'.jobs[|s.jobs|].task.RunCompensation? && s'.jobs[|s.jobs|].task.step == x
    ensures forall i :: 0 <= i < |reqs| && i != x ==> s'.rows[i] == s.rows[i] && s'.jobs[i + 1] == s.jobs[i + 1]
    ensures Dense(s'.rows)
  {
    OnlyOwed(s.rows, x);
  }

  lemma BecomesOwed(s: Run, s1: Run, y: nat, c: nat, x: nat, p: nat, s': Run)
    requires s.status.Compensating? && s.gen == 0 && Dense(s.rows) && x < y < |s.rows| && Compensable(s.rows[y])
    requires !s.rows[y].compensated
    requires p < |s.jobs| && s.jobs[p].task.RunCompensation? && s.jobs[p].task.step == x
    requires s1 == s.(jobs := s1.jobs) && c < |s1.jobs| && p < |s1.jobs| && s1.jobs[p].task == s.jobs[p].task
    requires s' == Retire(FinishStep(s1, y, 0, Succeeded("")), c)
    ensures OutOfOrder(s', x, y)
  {
    DenseFind(s.rows, y);
    assert s'.jobs[p].task.step == x;
  }

  /** A step in flight succeeds and reports while a lower one is being compensated. */
  lemma LateSuccess(h: Handler, cap: nat, events: seq<Event>, s: Run, y: nat, x: nat, p: nat)
    returns (events': seq<Event>)
    requires RunOf(h, cap, events) == Some(s) && s.status.Compensating? && s.gen == 0 && Dense(s.rows)
    requires x < y < |s.rows| && Compensable(s.rows[y]) && !s.rows[y].compensated
    requires IsLiveStep(s, y + 1, y) && s.jobs[y + 1].task.gen == 0
    requires p < |s.jobs| && s.jobs[p].task.RunCompensation? && s.jobs[p].task.step == x
    ensures RunOf(h, cap, events').Some? && OutOfOrder(RunOf(h, cap, events').value, x, y)
  {
    var e1, e2 := Finish(y + 1, Succeeded("")), Dispatch(|s.jobs|, true, 0);
    var s1 := Settle1(s, y + 1, Succeeded(""));
    RunSteps(h, cap, events, s, e1, s1);
    var s' := Retire(FinishStep(s1, y, 0, Succeeded("")), |s.jobs|);
    RunSteps(h, cap, events + [e1], s1, e2, s');
    BecomesOwed(s, s1, y, |s.jobs|, x, p, s');
    events' := events + [e1] + [e2];
  }

  /** A run whose fan-out stands at `states`, with a poll waiting. */
  ghost predicate Ready(h: Handler, cap: nat, events: seq<Event>, s: Run, reqs: seq<Request>, states: seq<StepState>) {
    && RunOf(h, cap, events) == Some(s) && Wave(s, reqs, states) && s.status.Running?
    && |s.jobs| > |reqs| + 1 && s.jobs[|s.jobs| - 1].task.Advance?
  }

  /** The same, with or without a poll waiting. */
  ghost predicate Flying(h: Handler, cap: nat, events: seq<Event>, s: Run, reqs: seq<Request>, states: seq<StepState>) {
    RunOf(h, cap, events) == Some(s) && Wave(s, reqs, states) && s.status.Running?
  }

  lemma SettledReady(h: Handler, cap: nat, events: seq<Event>, s: Run, reqs: seq<Request>, states: seq<StepState>,
                     i: nat, r: JobResult, states': seq<StepState>)
    returns (events': seq<Event>, s': Run)
    requires Flying(h, cap, events, s, reqs, states) && i < |reqs| == |states| && states[i].Pending?
    requires states' == states[i := ToState(r)]
    ensures Ready(h, cap, events', s', reqs, states')
  {
    events', s' := Settled(h, cap, events, s, reqs, states, i, r);
  }

  lemma ReadyFlies(h: Handler, cap: nat, events: seq<Event>, s: Run, reqs: seq<Request>, states: seq<StepState>)
    requires Ready(h, cap, events, s, reqs, states)
    ensures Flying(h, cap, events, s, reqs, states)
  {
  }

  lemma StartsFlying(h: Handler, cap: nat, reqs: seq<Request>) returns (events: seq<Event>, s: Run)
    requires Opens(h, reqs) && cap >= |reqs|
    ensures Flying(h, cap, events, s, reqs, AllPending(|reqs|))
  {
    events, s := WaveStarts(h, cap, reqs);
  }

  /** `x` has succeeded, `z` has failed, and everything else is in flight. */
  lemma OneUpOneDown(h: Handler, cap: nat, reqs: seq<Request>, x: nat, z: nat)
    returns (events: seq<Event>, s: Run, states: seq<StepState>)
    requires Opens(h, reqs) && cap >= |reqs| && x < |reqs| && z < |reqs| && z != x
    ensures Ready(h, cap, events, s, reqs, states) && |states| == |reqs| && states[x].Success? && states[z].Failure?
    ensures forall i :: 0 <= i < |reqs| && i != x && i != z ==> states[i].Pending?
  {
    var p := AllPending(|reqs|);
    var q := p[x := Success("")];
    states := q[z := Failure("boom")];
    var ev1, s1 := StartsFlying(h, cap, reqs);
    var ev2, s2 := SettledReady(h, cap, ev1, s1, reqs, p, x, Succeeded(""), q);
    ReadyFlies(h, cap, ev2, s2, reqs, q);
    events, s := SettledReady(h, cap, ev2, s2, reqs, q, z, FailedWith("boom"), states);
  }

  /** The failing poll starts the unwind, which pays `x`. */
  lemma PaysX(h: Handler, cap: nat, before: seq<Event>, s: Run, reqs: seq<Request>, states: seq<StepState>, x: nat,
              z: nat)
    returns (events: seq<Event>, s': Run, p: nat)
    requires Ready(h, cap, before, s, reqs, states) && Opens(h, reqs) && x < |reqs| && z < |reqs| && Pledged(reqs[x])
    requires states[x].Success? && states[z].Failure? && forall i :: 0 <= i < |reqs| && states[i].Success? ==> i == x
    ensures RunOf(h, cap, events) == Some(s') && s'.status.Compensating? && s'.gen == 0 && Dense(s'.rows)
    ensures |s'.rows| == |reqs|
    ensures p < |s'.jobs| && s'.jobs[p].task.RunCompensation? && s'.jobs[p].task.step == x
    ensures forall i: nat :: i < |reqs| && states[i].Pending? ==>
              s'.rows[i] == CalledRow(i, reqs[i], Pending) && IsLiveStep(s', i + 1, i) && s'.jobs[i + 1].task.gen == 0
  {
    assert Owed(s.rows[x]);
    var k := |s.jobs| - 1;
    var s1 := PollFails(h, cap, before, s, reqs, states, z, k);
    s', p := Retire(Unwind(s1), |s.jobs|), |s1.jobs|;
    PaysOnly(s1, reqs, states, x, |s.jobs|, s');
    RunSteps(h, cap, before + [Dispatch(k, true, 0)], s1, Dispatch(|s.jobs|, true, 0), s');
    events := before + [Dispatch(k, true, 0)] + [Dispatch(|s.jobs|, true, 0)];
  }

  /**
   ... and if an earlier compensable call `x` has succeeded by then, a run in which the compensations are out
   of order: `x` is being compensated when the later `y` becomes owed.
   */
  lemma LateSuccessBreaksOrder(h: Handler, cap: nat, reqs: seq<Request>, x: nat, y: nat, z: nat)
    returns (events: seq<Event>)
    requires Opens(h, reqs) && cap >= |reqs| && x < y < |reqs| && z < |reqs| && z != x && z != y
    requires Pledged(reqs[x]) && Pledged(reqs[y])
    ensures RunOf(h, cap, events).Some? && OutOfOrder(RunOf(h, cap, events).value, x, y)
  {
    var ev, s, states := OneUpOneDown(h, cap, reqs, x, z);
    var ev', s', p := PaysX(h, cap, ev, s, reqs, states, x, z);
    events := LateSuccess(h, cap, ev', s', y, x, p);
  }
}
