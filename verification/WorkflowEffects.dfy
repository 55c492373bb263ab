/**
 What the steps of a run do to it (components/workflow/src/modules.ts:187-345, facade.ts:81-150, events.ts:59-84),
 said of the tables alone, for every state a run can reach.
 */
module WorkflowEffects {
  import opened Options
  import opened Replay
  import opened Workflow
  import opened WorkflowSafety
  import opened WorkflowRuns

  // ---------------------------------------------------------------------------------------------
  // A poll dispatches the next steps
  // ---------------------------------------------------------------------------------------------

  /** When a call is due: a sleep after its delay from the poll's clock, or at its time; else at once. */
  predicate DueAt(req: Request, now: int, runAt: Option<int>) {
    match req.timer
    case Immediate => runAt.None?
    case Delay(ms) => runAt == Some(now + ms)
    case Due(ts) => runAt == Some(ts)
  }

  /** Step `m` is journaled as the pending call `req`, and a live job of its own, from `first` on, will run it. */
  predicate Started(s: Run, m: nat, req: Request, gen: nat, now: int, first: nat) {
    && m < |s.rows|
    && var row := s.rows[m];
       && row.stepNumber == m && row.kind == req.kind && row.name == req.name && row.args == req.args
       && row.opts == req.opts && row.state.Pending? && !row.compensated && row.compensationJob.None?
       && if req.kind == WaitForEvent then row.job.None?
          else
            && row.job.Some? && first <= row.job.value < |s.jobs|
            && var job := s.jobs[row.job.value];
               && job.live && job.task.RunStep? && job.task.step == m && job.task.gen == gen
               && job.task.path == req.name && job.task.args == req.args && DueAt(req, now, job.task.runAt)
               && job.task.retry == req.opts.maxAttempts
  }

  ghost predicate AllStarted(s: Run, from: nat, ns: seq<NewStep>, n: nat, gen: nat, now: int, first: nat) {
    n <= |ns| && forall i: nat :: i < n ==> Started(s, from + i, ns[i].req, gen, now, first)
  }

  /** The steps continue the journal, with their due times. */
  ghost predicate Numbered(ns: seq<NewStep>, from: nat, now: int) {
    forall i: nat :: i < |ns| ==> ns[i].stepNumber == from + i && DueAt(ns[i].req, now, ns[i].runAt)
  }

  lemma StartOne(s: Run, ns: NewStep, now: int, first: nat)
    requires ns.stepNumber == |s.rows| && DueAt(ns.req, now, ns.runAt) && first <= |s.jobs|
    ensures Started(DispatchOne(s, ns), |s.rows|, ns.req, s.gen, now, first)
  {
  }

  lemma StartedStays(s: Run, ns: NewStep, m: nat, req: Request, gen: nat, now: int, first: nat)
    requires Started(s, m, req, gen, now, first)
    ensures Started(DispatchOne(s, ns), m, req, gen, now, first)
  {
  }

  lemma {:induction false} StartAll(s: Run, ns: seq<NewStep>, n: nat, now: int, s': Run)
    requires n <= |ns| && Numbered(ns, |s.rows|, now) && s' == DispatchAll(s, ns, n)
    ensures |s'.rows| == |s.rows| + n && s.rows <= s'.rows && s.jobs <= s'.jobs
    ensures s' == s.(rows := s'.rows, events := s'.events, jobs := s'.jobs)
    ensures AllStarted(s', |s.rows|, ns, n, s.gen, now, |s.jobs|)
  {
    if n > 0 {
      var s1 := DispatchAll(s, ns, n - 1);
      StartAll(s, ns, n - 1, now, s1);
      forall i: nat | i < n ensures Started(s', |s.rows| + i, ns[i].req, s.gen, now, |s.jobs|) {
        if i < n - 1 {
          StartedStays(s1, ns[n - 1], |s.rows| + i, ns[i].req, s.gen, now, |s.jobs|);
        } else {
          StartOne(s1, ns[n - 1], now, |s.jobs|);
        }
      }
    }
  }

  lemma RetireStarted(s: Run, j: nat, from: nat, ns: seq<NewStep>, n: nat, gen: nat, now: int, first: nat)
    requires AllStarted(s, from, ns, n, gen, now, first) && j < first <= |s.jobs|
    ensures AllStarted(Retire(s, j), from, ns, n, gen, now, first)
  {
    forall i: nat | i < n ensures Started(Retire(s, j), from + i, ns[i].req, gen, now, first) {
      assert Started(s, from + i, ns[i].req, gen, now, first);
    }
  }

  lemma TimersRead(h: Handler, w: World, journal: seq<Row>, now: int, ns: seq<NewStep>)
    requires Consistent(h, w, journal) && RunReplay(h, journal, now) == Suspended(ns)
    ensures Numbered(ns, |journal|, now)
  {
    ReplayRefinesStraightRun(h, w, journal, now);
    assert Continues(TraceOf(h, w), |journal|, ns, now);
  }

  /**
   A poll that suspends journals the next requests of the handler, as many as the cap allows, each as a pending
   row with its own job, which is due at once, or for a sleep when the sleep ends; the run goes on as it was.
   */
  lemma PollDispatches(h: Handler, cap: nat, events: seq<Event>, s: Run, j: nat, retire: bool, now: int,
                       ns: seq<NewStep>)
    requires cap >= 1 && RunOf(h, cap, events) == Some(s) && s.status.Running?
    requires j < |s.jobs| && s.jobs[j].task.Advance? && RunReplay(h, s.rows, now) == Suspended(ns)
    ensures var s' := RunOf(h, cap, events + [Dispatch(j, retire, now)]);
            var n := if cap < |ns| then cap else |ns|;
            && s'.Some? && s'.value.status == s.status && s'.value.gen == s.gen && s'.value.cause == s.cause
            && |s'.value.rows| == |s.rows| + n && s.rows <= s'.value.rows
            && AllStarted(s'.value, |s.rows|, ns, n, s.gen, now, |s.jobs|)
  {
    var w := EveryRunHasAWorld(h, cap, events);
    RunInv(h, cap, w, events);
    TimersRead(h, w, s.rows, now, ns);
    ReplayRefinesStraightRun(h, w, s.rows, now);
    var n := Least(cap, |ns|);
    var s1 := DispatchAll(s, ns, n);
    StartAll(s, ns, n, now, s1);
    PollSuspends(s, h, cap, now, ns);
    if retire { RetireStarted(s1, j, |s.rows|, ns, n, s.gen, now, |s.jobs|); }
    RunSteps(h, cap, events, s, Dispatch(j, retire, now), if retire then Retire(s1, j) else s1);
  }

  lemma PollSuspends(s: Run, h: Handler, cap: nat, now: int, ns: seq<NewStep>)
    requires s.status.Running? && RunReplay(h, s.rows, now) == Suspended(ns) && (ns == [] ==> AnyPending(s.rows))
    ensures AdvanceRun(s, h, cap, now) == DispatchAll(s, ns, Least(cap, |ns|))
  {
  }

  // ---------------------------------------------------------------------------------------------
  // Nothing is left unpolled
  // ---------------------------------------------------------------------------------------------

  /** `rows'` continues `rows` with pending rows of the first requests of `ns`. */
  ghost predicate Extends(rows: seq<Row>, rows': seq<Row>, ns: seq<NewStep>) {
    && rows <= rows' && |rows'| <= |rows| + |ns|
    && forall m :: |rows| <= m < |rows'| ==> rows'[m].state.Pending? && Matches(rows'[m], ns[m - |rows|].req)
  }

  ghost predicate EmittedUpTo(rows: seq<Row>, cursor: nat, emitted: seq<NewStep>) {
    |rows| + |emitted| == if cursor < |rows| then |rows| else cursor
  }

  /** A wave is emitted at the places of its step numbers. */
  lemma WavePlaces(rows: seq<Row>, now: int, cursor: nat, reqs: seq<Request>, emitted: seq<NewStep>, i: nat)
    requires EmittedUpTo(rows, cursor, emitted) && i < |reqs| && cursor + i >= |rows|
    ensures var all := emitted + NewSteps(rows, cursor, reqs, now);
            cursor + i - |rows| < |all| && all[cursor + i - |rows|].req == reqs[i]
  {
  }

  /** Pending rows answer as missing rows do. */
  lemma SameTickets(rows: seq<Row>, rows': seq<Row>, ns: seq<NewStep>, now: int, cursor: nat, reqs: seq<Request>,
                    emitted: seq<NewStep>)
    requires Extends(rows, rows', ns) && EmittedUpTo(rows, cursor, emitted)
    requires emitted + NewSteps(rows, cursor, reqs, now) <= ns
    ensures Tickets(rows', cursor, reqs) == Tickets(rows, cursor, reqs)
  {
    forall i: nat | i < |reqs|
      ensures RequestStep(rows', cursor + i, reqs[i]) == RequestStep(rows, cursor + i, reqs[i])
    {
      if |rows| <= cursor + i < |rows'| {
        WavePlaces(rows, now, cursor, reqs, emitted, i);
        assert Matches(rows'[cursor + i], ns[cursor + i - |rows|].req);
      }
    }
  }

  /** A contradiction is found in the same place, because it is among the old rows. */
  lemma SameMismatch(rows: seq<Row>, rows': seq<Row>, cursor: nat, reqs: seq<Request>)
    requires rows <= rows' && FirstMismatch(rows, cursor, reqs, 0).Some?
    ensures FirstMismatch(rows', cursor, reqs, 0) == FirstMismatch(rows, cursor, reqs, 0)
  {
    var f := FirstMismatch(rows, cursor, reqs, 0).value;
    assert cursor + f < |rows|;
    forall j | 0 <= j <= f ensures RequestStep(rows', cursor + j, reqs[j]) == RequestStep(rows, cursor + j, reqs[j]) {
    }
    var f' := FirstMismatch(rows', cursor, reqs, 0);
    assert f'.Some?;
  }

  /** The two polls are at the same point, and what is emitted is a part of `ns`. */
  ghost predicate Abreast(rows: seq<Row>, ns: seq<NewStep>, g: Progress, g': Progress) {
    match g
    case At(p, emitted) => g'.At? && g'.point == p && EmittedUpTo(rows, p.cursor, emitted) && emitted <= ns
    case Stopped(Suspended(_)) => g'.Stopped? && g'.out.Suspended?
    case Stopped(_) => true
  }

  /** What a poll has emitted after one more move, if it goes on or suspends. */
  function EmittedBy(g: Progress): Option<seq<NewStep>> {
    match g
    case At(_, emitted) => Some(emitted)
    case Stopped(Suspended(ns)) => Some(ns)
    case _ => None
  }

  lemma PollAbreast(h: Handler, rows: seq<Row>, rows': seq<Row>, ns: seq<NewStep>, now: int, p: Point,
                    emitted: seq<NewStep>, emitted': seq<NewStep>)
    requires Extends(rows, rows', ns) && EmittedUpTo(rows, p.cursor, emitted)
    requires var g := Poll(h, rows, now, p, emitted); EmittedBy(g).Some? ==> EmittedBy(g).value <= ns
    ensures Abreast(rows, ns, Poll(h, rows, now, p, emitted), Poll(h, rows', now, p, emitted'))
  {
    var g := Poll(h, rows, now, p, emitted);
    if h(p.hist).Await? && EmittedBy(g).Some? {
      var reqs := h(p.hist).Reqs();
      if FirstMismatch(rows, p.cursor, reqs, 0).Some? {
        SameMismatch(rows, rows', p.cursor, reqs);
      } else {
        SameTickets(rows, rows', ns, now, p.cursor, reqs, emitted);
        NoMismatch(rows, rows', p.cursor, reqs);
      }
    }
  }

  lemma NoMismatch(rows: seq<Row>, rows': seq<Row>, cursor: nat, reqs: seq<Request>)
    requires Tickets(rows', cursor, reqs) == Tickets(rows, cursor, reqs)
    requires FirstMismatch(rows, cursor, reqs, 0).None?
    ensures FirstMismatch(rows', cursor, reqs, 0).None?
  {
    forall i: nat | i < |reqs| ensures !RequestStep(rows', cursor + i, reqs[i]).Mismatch? {
      assert Tickets(rows', cursor, reqs)[i] == Tickets(rows, cursor, reqs)[i];
    }
  }

  lemma PollEmits(h: Handler, rows: seq<Row>, now: int, p: Point, emitted: seq<NewStep>, g: Progress)
    requires g == Poll(h, rows, now, p, emitted) && EmittedBy(g).Some?
    ensures emitted <= EmittedBy(g).value
  {
  }

  /** What is emitted stays emitted. */
  lemma {:induction false} EmittedGrows(h: Handler, rows: seq<Row>, now: int, j: nat, k: nat)
    requires j <= k && EmittedBy(Polled(h, rows, now, j)).Some? && EmittedBy(Polled(h, rows, now, k)).Some?
    ensures EmittedBy(Polled(h, rows, now, j)).value <= EmittedBy(Polled(h, rows, now, k)).value
    decreases k
  {
    if j < k {
      StillEmits(h, rows, now, k - 1, k);
      EmittedGrows(h, rows, now, j, k - 1);
      var g := Polled(h, rows, now, k - 1);
      if g.At? {
        PolledNext(h, rows, now, k);
        PollEmits(h, rows, now, g.point, g.emitted, Polled(h, rows, now, k));
      } else {
        StaysStopped(h, rows, now, k - 1, k);
      }
    }
  }

  lemma {:induction false} PolledAbreast(h: Handler, rows: seq<Row>, rows': seq<Row>, ns: seq<NewStep>, now: int,
                                         k: nat, last: nat)
    requires Extends(rows, rows', ns) && k <= last && Polled(h, rows, now, last) == Stopped(Suspended(ns))
    ensures Abreast(rows, ns, Polled(h, rows, now, k), Polled(h, rows', now, k))
    ensures EmittedBy(Polled(h, rows, now, k)).Some?
  {
    if k > 0 {
      PolledAbreast(h, rows, rows', ns, now, k - 1, last);
      StillEmits(h, rows, now, k, last);
      EmittedGrows(h, rows, now, k, last);
      AbreastNext(h, rows, rows', ns, now, k);
    }
  }

  lemma AbreastNext(h: Handler, rows: seq<Row>, rows': seq<Row>, ns: seq<NewStep>, now: int, k: nat)
    requires k > 0 && Extends(rows, rows', ns)
    requires Abreast(rows, ns, Polled(h, rows, now, k - 1), Polled(h, rows', now, k - 1))
    requires EmittedBy(Polled(h, rows, now, k)).Some? && EmittedBy(Polled(h, rows, now, k)).value <= ns
    ensures Abreast(rows, ns, Polled(h, rows, now, k), Polled(h, rows', now, k))
  {
    var g, g' := Polled(h, rows, now, k - 1), Polled(h, rows', now, k - 1);
    OneMove(h, rows, now, k);
    OneMove(h, rows', now, k);
    AbreastMove(h, rows, rows', ns, now, g, g', Polled(h, rows, now, k), Polled(h, rows', now, k));
  }

  /** One more move of a poll. */
  ghost predicate Moves(h: Handler, rows: seq<Row>, now: int, g: Progress, g': Progress) {
    if g.At? then g' == Poll(h, rows, now, g.point, g.emitted) else g' == g
  }

  lemma OneMove(h: Handler, rows: seq<Row>, now: int, k: nat)
    requires k > 0
    ensures Moves(h, rows, now, Polled(h, rows, now, k - 1), Polled(h, rows, now, k))
  {
    if Polled(h, rows, now, k - 1).At? { PolledNext(h, rows, now, k); } else { StaysStopped(h, rows, now, k - 1, k); }
  }

  lemma AbreastMove(h: Handler, rows: seq<Row>, rows': seq<Row>, ns: seq<NewStep>, now: int, g: Progress, g': Progress,
                    next: Progress, next': Progress)
    requires Extends(rows, rows', ns) && Abreast(rows, ns, g, g')
    requires Moves(h, rows, now, g, next) && Moves(h, rows', now, g', next')
    requires EmittedBy(next).Some? && EmittedBy(next).value <= ns
    ensures Abreast(rows, ns, next, next')
  {
    if g.At? { PollAbreast(h, rows, rows', ns, now, g.point, g.emitted, g'.emitted); }
  }

  /** A poll that suspends in the end has not ended otherwise before. */
  lemma {:induction false} StillEmits(h: Handler, rows: seq<Row>, now: int, k: nat, last: nat)
    requires k <= last && EmittedBy(Polled(h, rows, now, last)).Some?
    ensures EmittedBy(Polled(h, rows, now, k)).Some?
  {
    if Polled(h, rows, now, k).Stopped? { StaysStopped(h, rows, now, k, last); }
  }

  /** Journaling what a suspended poll asked for leaves it suspended. */
  lemma StillSuspended(h: Handler, rows: seq<Row>, rows': seq<Row>, ns: seq<NewStep>, now: int)
    requires Extends(rows, rows', ns) && RunReplay(h, rows, now) == Suspended(ns)
    ensures RunReplay(h, rows', now).Suspended?
  {
    PollStops(h, rows, now, |rows| + 1);
    PollStops(h, rows, now, |rows'| + 1);
    StaysStopped(h, rows, now, |rows| + 1, |rows'| + 1);
    PolledAbreast(h, rows, rows', ns, now, |rows'| + 1, |rows'| + 1);
  }

  /** While the run is going and no poll is due, the handler is waiting for something that has not come. */
  ghost predicate CaughtUp(h: Handler, s: Run) {
    s.status.Running? ==> AdvanceLive(s) || RunReplay(h, s.rows, 0).Suspended?
  }

  lemma AnyClock(h: Handler, rows: seq<Row>, t1: int, t2: int)
    requires RunReplay(h, rows, t1).Suspended?
    ensures RunReplay(h, rows, t2).Suspended?
  {
    ClockOnlyMovesTimers(h, rows, t1, t2);
  }

  lemma DispatchExtends(s: Run, ns: seq<NewStep>, n: nat, now: int, s': Run)
    requires n <= |ns| && Numbered(ns, |s.rows|, now) && s' == DispatchAll(s, ns, n)
    ensures Extends(s.rows, s'.rows, ns)
  {
    StartAll(s, ns, n, now, s');
    forall m | |s.rows| <= m < |s'.rows|
      ensures s'.rows[m].state.Pending? && Matches(s'.rows[m], ns[m - |s.rows|].req)
    {
      assert Started(s', |s.rows| + (m - |s.rows|), ns[m - |s.rows|].req, s.gen, now, |s.jobs|);
    }
  }

  /** After a poll the handler waits, or the run has ended or turned back. */
  lemma PollCatchesUp(h: Handler, w: World, s: Run, cap: nat, now: int, s': Run)
    requires Inv(h, w, s) && s' == AdvanceRun(s, h, cap, now)
    ensures s'.status.Running? ==> RunReplay(h, s'.rows, 0).Suspended?
  {
    if s.status.Running? && RunReplay(h, s.rows, now).Suspended? {
      var ns := RunReplay(h, s.rows, now).newSteps;
      TimersRead(h, w, s.rows, now, ns);
      ReplayRefinesStraightRun(h, w, s.rows, now);
      PollSuspends(s, h, cap, now, ns);
      DispatchExtends(s, ns, Least(cap, |ns|), now, s');
      StillSuspended(h, s.rows, s'.rows, ns, now);
      AnyClock(h, s'.rows, now, 0);
    }
  }

  /** Whoever changes a row leaves a live `_advance`. */
  ghost predicate Announces(s: Run, s': Run) { s'.rows == s.rows || AdvanceLive(s') }

  /** Jobs stay live, but for one that is no `_advance`. */
  ghost predicate KeepsPolls(s: Run, s': Run) { forall j: nat :: IsLiveAdvance(s, j) ==> IsLiveAdvance(s', j) }

  lemma AnnouncedIsCaughtUp(h: Handler, s: Run, s': Run)
    requires CaughtUp(h, s) && s.status.Running? && Announces(s, s') && KeepsPolls(s, s')
    ensures CaughtUp(h, s')
  {
    if AdvanceLive(s) {
      var j: nat :| IsLiveAdvance(s, j);
      assert IsLiveAdvance(s', j);
    }
  }

  lemma EnqueuedAnnounces(s: Run, rows: seq<Row>, events: seq<EventRow>, s': Run)
    requires s' == Enqueue(s.(rows := rows, events := events), Advance)
    ensures Announces(s, s') && KeepsPolls(s, s')
  {
    assert IsLiveAdvance(s', |s.jobs|);
  }

  lemma ReportAnnounces(s: Run, t: Task, s': Run)
    requires t.StepDone? && s' == FinishStep(s, t.step, t.gen, t.result)
    ensures Announces(s, s') && KeepsPolls(s, s')
  {
    if t.gen == s.gen && FindStep(s.rows, t.step).Some? { EnqueuedAnnounces(s, s'.rows, s.events, s'); }
  }

  lemma SendAnnounces(s: Run, name: string, payload: Value, s': Run)
    requires s' == SendEvent(s, name, payload)
    ensures Announces(s, s') && KeepsPolls(s, s')
  {
    if FindWaiting(s.events, name).Some? { EnqueuedAnnounces(s, s'.rows, s'.events, s'); }
  }

  lemma RetireAnnounces(s: Run, s1: Run, j: nat)
    requires j < |s1.jobs| && !s1.jobs[j].task.Advance? && Announces(s, s1) && KeepsPolls(s, s1)
    ensures Announces(s, Retire(s1, j)) && KeepsPolls(s, Retire(s1, j))
  {
    if AdvanceLive(s1) {
      var k: nat :| IsLiveAdvance(s1, k);
      assert IsLiveAdvance(Retire(s1, j), k);
    }
  }

  /** The body of any other internal job, in a run that is still going. */
  lemma BodyAnnounces(h: Handler, w: World, s: Run, j: nat, cap: nat, now: int, s1: Run)
    requires JobsOk(w, s) && s.status.Running? && j < |s.jobs| && Internal(s.jobs[j].task)
    requires !s.jobs[j].task.Advance? && s1 == Perform(s, s.jobs[j].task, h, cap, now)
    ensures Announces(s, s1) && KeepsPolls(s, s1) && s1.jobs[..|s.jobs|] == s.jobs
  {
    assert JobOk(w, s, j);
    JobsGrow(s, s.jobs[j].task, h, cap, now);
    if s.jobs[j].task.StepDone? { ReportAnnounces(s, s.jobs[j].task, s1); }
  }

  lemma OthersAnnounce(h: Handler, w: World, s: Run, e: Event, cap: nat, s': Run)
    requires Enabled(s, e) && s' == Next(s, e, h, cap) && CaughtUp(h, s) && JobsOk(w, s)
    requires s.status.Running? && !(e.Dispatch? && s.jobs[e.job].task.Advance?)
    ensures CaughtUp(h, s')
  {
    match e
    case Dispatch(j, retire, now) =>
      var s1 := Perform(s, s.jobs[j].task, h, cap, now);
      BodyAnnounces(h, w, s, j, cap, now, s1);
      if retire { RetireAnnounces(s, s1, j); }
      AnnouncedIsCaughtUp(h, s, s');
    case Finish(j, r) => AnnouncedIsCaughtUp(h, s, s');
    case Send(name, payload) =>
      SendAnnounces(s, name, payload, s');
      AnnouncedIsCaughtUp(h, s, s');
    case Cancel(_, _) =>
  }

  /** A run that has stopped going does not start again. */
  lemma StaysOff(h: Handler, s: Run, e: Event, cap: nat)
    requires Enabled(s, e) && !s.status.Running?
    ensures !Next(s, e, h, cap).status.Running?
  {
  }

  /**
   Nothing is left unpolled: after every run that is still going, a poll is due or the handler, run on what is
   journaled, waits for a step that has not settled.
   */
  lemma {:induction false} NothingIsLeftUnpolled(h: Handler, cap: nat, events: seq<Event>)
    requires cap >= 1 && RunOf(h, cap, events).Some?
    ensures CaughtUp(h, RunOf(h, cap, events).value)
  {
    if events == [] {
      assert IsLiveAdvance(Start(), 0);
    } else {
      var n := |events| - 1;
      var s, e := RunOf(h, cap, events[..n]).value, events[n];
      NothingIsLeftUnpolled(h, cap, events[..n]);
      var w := EveryRunHasAWorld(h, cap, events[..n]);
      RunInv(h, cap, w, events[..n]);
      if !s.status.Running? {
        StaysOff(h, s, e, cap);
      } else if e.Dispatch? && s.jobs[e.job].task.Advance? {
        PollCatchesUp(h, w, s, cap, e.now, AdvanceRun(s, h, cap, e.now));
      } else {
        OthersAnnounce(h, w, s, e, cap, Next(s, e, h, cap));
      }
    }
  }

  // ---------------------------------------------------------------------------------------------
  // Reports and signals
  // ---------------------------------------------------------------------------------------------

  /** How a step is journaled that ended with `r`. */
  predicate Tells(r: JobResult, state: StepState) {
    match r
    case Succeeded(v) => state == Success(v)
    case FailedWith(e) => state == Failure(e)
    case WasCanceled => state == Failure("canceled")
  }

  /** Only row `n` differs, and only in its state; a new poll is due. */
  ghost predicate Settled1(s: Run, s': Run, n: nat) {
    && n < |s.rows| == |s'.rows| && s'.rows == s.rows[n := s.rows[n].(state := s'.rows[n].state)]
    && s'.status == s.status && s'.gen == s.gen && s'.cause == s.cause
    && |s'.jobs| == |s.jobs| + 1 && IsLiveAdvance(s', |s.jobs|)
  }

  /** A report of the current generation settles its step as it ended; an older one changes no row and no status. */
  lemma ReportSettles(h: Handler, cap: nat, events: seq<Event>, s: Run, j: nat, retire: bool, now: int)
    requires cap >= 1 && RunOf(h, cap, events) == Some(s) && j < |s.jobs| && s.jobs[j].task.StepDone?
    ensures var s', t := RunOf(h, cap, events + [Dispatch(j, retire, now)]), s.jobs[j].task;
            && s'.Some? && t.step < |s.rows|
            && if t.gen == s.gen
               then Settled1(s, s'.value, t.step) && Tells(t.result, s'.value.rows[t.step].state)
               else s'.value == s.(jobs := s'.value.jobs) && |s'.value.jobs| == |s.jobs|
  {
    var w := EveryRunHasAWorld(h, cap, events);
    RunInv(h, cap, w, events);
    assert JobOk(w, s, j);
    FindDense(h, w, s.rows, s.jobs[j].task.step);
    RunSteps(h, cap, events, s, Dispatch(j, retire, now), Next(s, Dispatch(j, retire, now), h, cap));
  }

  /** Step `n` is the earliest wait for `name`, and it was given `payload`. */
  ghost predicate Delivered(s: Run, s': Run, n: nat, name: string, payload: Value) {
    && n < |s.rows| && Awaiting(s.rows[n], name) && (forall m :: 0 <= m < n ==> !Awaiting(s.rows[m], name))
    && Settled1(s, s', n) && s'.rows[n].state == Success(payload)
  }

  lemma SendSettles(s: Run, name: string, payload: Value, s': Run)
    requires s' == SendEvent(s, name, payload)
    requires FindWaiting(s.events, name).Some? <==> FindAwaiting(s.rows, name).Some?
    ensures var n := FindAwaiting(s.rows, name);
            if n.Some? then Delivered(s, s', n.value, name, payload) else s' == s
  {
  }

  /** What a run says of a compensation that did not succeed. */
  predicate Blames(r: JobResult, message: string) {
    match r
    case Succeeded(_) => false
    case FailedWith(e) => message == e
    case WasCanceled => message == "canceled"
  }

  /**
   A report of a compensation: after a success that step is compensated and the unwind goes on, after anything
   else the run has failed, and says at which step, why, and what it was unwinding from.
   */
  lemma CompensationSettles(h: Handler, cap: nat, events: seq<Event>, s: Run, j: nat, retire: bool, now: int)
    requires cap >= 1 && RunOf(h, cap, events) == Some(s) && j < |s.jobs| && s.jobs[j].task.CompensateDone?
    ensures var s', t := RunOf(h, cap, events + [Dispatch(j, retire, now)]), s.jobs[j].task;
            var n, r := t.step, t.result;
            && s'.Some? && n < |s.rows| && s'.value.gen == s.gen
            && if r.Succeeded?
               then
                 && s'.value.rows == s.rows[n := s.rows[n].(compensated := true)]
                 && s'.value.status == s.status && s'.value.cause == s.cause
                 && |s'.value.jobs| == |s.jobs| + 1 && s'.value.jobs[|s.jobs|] == Job(Compensate, true)
               else
                 && s'.value.rows == s.rows && |s'.value.jobs| == |s.jobs| && s'.value.status.Failed?
                 && s'.value.cause.HaltedAt? && s'.value.cause.step == n && s'.value.cause.original == s.cause
                 && Blames(r, s'.value.cause.message)
  {
    var w := EveryRunHasAWorld(h, cap, events);
    RunInv(h, cap, w, events);
    assert JobOk(w, s, j);
    FindDense(h, w, s.rows, s.jobs[j].task.step);
    RunSteps(h, cap, events, s, Dispatch(j, retire, now), Next(s, Dispatch(j, retire, now), h, cap));
  }

  /** An event settles the earliest wait for it with its payload; one that nobody waits for changes nothing. */
  lemma SendDelivers(h: Handler, cap: nat, events: seq<Event>, s: Run, name: string, payload: Value)
    requires cap >= 1 && RunOf(h, cap, events) == Some(s)
    ensures var s' := RunOf(h, cap, events + [Send(name, payload)]);
            && s'.Some?
            && if exists n :: 0 <= n < |s.rows| && Awaiting(s.rows[n], name)
               then exists n: nat :: Delivered(s, s'.value, n, name, payload)
               else s'.value == s
  {
    var w := EveryRunHasAWorld(h, cap, events);
    RunInv(h, cap, w, events);
    RunSteps(h, cap, events, s, Send(name, payload), SendEvent(s, name, payload));
    assert WaitingEvents(s.events, name) == PendingWaits(s.rows, name);
    WaitIff(s, name);
    SendSettles(s, name, payload, SendEvent(s, name, payload));
  }

  lemma {:induction false} NoWait(rows: seq<Row>, name: string)
    requires PendingWaits(rows, name) > 0
    ensures exists n :: 0 <= n < |rows| && Awaiting(rows[n], name)
  {
    var n := |rows| - 1;
    if !Awaiting(rows[n], name) {
      NoWait(rows[..n], name);
      var m :| 0 <= m < n && Awaiting(rows[..n][m], name);
      assert Awaiting(rows[m], name);
    }
  }

  lemma {:induction false} EventCounted(events: seq<EventRow>, e: nat, name: string)
    requires e < |events| && events[e] == EventRow(name, true)
    ensures WaitingEvents(events, name) > 0
  {
    if e < |events| - 1 { EventCounted(events[..|events| - 1], e, name); }
  }

  lemma WaitIff(s: Run, name: string)
    requires WaitingEvents(s.events, name) == PendingWaits(s.rows, name)
    ensures FindWaiting(s.events, name).Some? <==> FindAwaiting(s.rows, name).Some?
  {
    var e, n := FindWaiting(s.events, name), FindAwaiting(s.rows, name);
    if e.Some? {
      EventCounted(s.events, e.value, name);
      NoWait(s.rows, name);
    }
    if n.Some? {
      WaitCounted(s.rows, n.value);
      SomeWaiting(s.events, name);
    }
  }

  // ---------------------------------------------------------------------------------------------
  // A cancel
  // ---------------------------------------------------------------------------------------------

  predicate IsStepJob(s: Run, j: nat, n: nat) {
    j < |s.jobs| && s.jobs[j].task.RunStep? && s.jobs[j].task.step == n
  }

  /** The job a row names runs that very step. */
  ghost predicate OwnJobs(s: Run) {
    forall n: nat :: n < |s.rows| && s.rows[n].job.Some? ==> IsStepJob(s, s.rows[n].job.value, n)
  }

  /** Old rows keep their jobs, whatever the step. */
  lemma OldRowsOwn(h: Handler, w: World, s: Run, e: Event, cap: nat, s': Run)
    requires Inv(h, w, s) && cap >= 1 && Enabled(s, e) && OwnJobs(s) && s' == Next(s, e, h, cap)
    ensures |s.rows| <= |s'.rows|
    ensures forall n: nat :: n < |s.rows| && s'.rows[n].job.Some? ==> IsStepJob(s', s'.rows[n].job.value, n)
  {
    NextGrows(h, w, s, e, cap);
    forall n: nat | n < |s.rows| && s'.rows[n].job.Some? ensures IsStepJob(s', s'.rows[n].job.value, n) {
      assert RowGrows(s.rows[n], s'.rows[n]) && IsStepJob(s, s.rows[n].job.value, n);
      TasksKept(s, e, h, cap, s.rows[n].job.value);
    }
  }

  lemma NewRowsOwn(h: Handler, w: World, s: Run, j: nat, retire: bool, now: int, cap: nat, s': Run)
    requires Inv(h, w, s) && j < |s.jobs| && s.jobs[j].task.Advance? && s' == Next(s, Dispatch(j, retire, now), h, cap)
    ensures forall n: nat :: |s.rows| <= n < |s'.rows| && s'.rows[n].job.Some? ==>
              IsStepJob(s', s'.rows[n].job.value, n)
  {
    if s.status.Running? && RunReplay(h, s.rows, now).Suspended? {
      var ns := RunReplay(h, s.rows, now).newSteps;
      var s1 := DispatchAll(s, ns, Least(cap, |ns|));
      TimersRead(h, w, s.rows, now, ns);
      ReplayRefinesStraightRun(h, w, s.rows, now);
      PollSuspends(s, h, cap, now, ns);
      StartAll(s, ns, Least(cap, |ns|), now, s1);
      forall n: nat | |s.rows| <= n < |s'.rows| && s'.rows[n].job.Some? ensures IsStepJob(s', s'.rows[n].job.value, n) {
        assert Started(s1, |s.rows| + (n - |s.rows|), ns[n - |s.rows|].req, s.gen, now, |s.jobs|);
      }
    }
  }

  lemma OthersAddNoRow(h: Handler, s: Run, e: Event, cap: nat)
    requires Enabled(s, e) && !(e.Dispatch? && s.jobs[e.job].task.Advance?)
    ensures |Next(s, e, h, cap).rows| == |s.rows|
  {
  }

  lemma {:induction false} RunOwnsJobs(h: Handler, cap: nat, w: World, events: seq<Event>)
    requires cap >= 1 && RunOf(h, cap, events).Some? && AgreesAll(h, cap, w, events)
    ensures OwnJobs(RunOf(h, cap, events).value)
  {
    if events != [] {
      var n := |events| - 1;
      var s, e := RunOf(h, cap, events[..n]).value, events[n];
      RunOwnsJobs(h, cap, w, events[..n]);
      RunInv(h, cap, w, events[..n]);
      OldRowsOwn(h, w, s, e, cap, Next(s, e, h, cap));
      if e.Dispatch? && s.jobs[e.job].task.Advance? {
        NewRowsOwn(h, w, s, e.job, e.retire, e.now, cap, Next(s, e, h, cap));
      } else {
        OthersAddNoRow(h, s, e, cap);
      }
    }
  }

  /** Job `j` runs one of the first `n` steps, which is pending, and nobody has claimed it. */
  predicate Hit(s: Run, n: nat, unclaimed: set<nat>, j: nat) {
    && j < |s.jobs| && j in unclaimed && s.jobs[j].live && s.jobs[j].task.RunStep? && s.jobs[j].task.step < n
    && s.jobs[j].task.step < |s.rows| && s.rows[s.jobs[j].task.step].state.Pending?
    && s.rows[s.jobs[j].task.step].job == Some(j)
  }

  /** Job `c` reports that a job which was hit is canceled. */
  ghost predicate ReportsHit(s: Run, jobs: seq<Job>, n: nat, unclaimed: set<nat>, c: nat) {
    && c < |jobs| && jobs[c].live && jobs[c].task.StepDone? && jobs[c].task.result == WasCanceled
    && exists j: nat :: Hit(s, n, unclaimed, j) && ReportOf(s, j, jobs[c].task)
  }

  predicate ReportOf(s: Run, j: nat, t: Task) {
    && j < |s.jobs| && s.jobs[j].task.RunStep? && t.StepDone?
    && t.step == s.jobs[j].task.step && t.gen == s.jobs[j].task.gen
  }

  /** The jobs that were hit are dead, and no other old job changed. */
  ghost predicate HitsAreDead(s: Run, jobs: seq<Job>, n: nat, unclaimed: set<nat>) {
    && |s.jobs| <= |jobs|
    && forall j: nat :: j < |s.jobs| ==>
         jobs[j] == Job(s.jobs[j].task, s.jobs[j].live && !Hit(s, n, unclaimed, j))
  }

  /** Each of them is reported by one job from the old end up to `end`, and nothing else is there. */
  ghost predicate HitsAreReported(s: Run, jobs: seq<Job>, n: nat, unclaimed: set<nat>, end: nat) {
    && |s.jobs| <= end <= |jobs|
    && (forall c: nat :: |s.jobs| <= c < end ==> ReportsHit(s, jobs, n, unclaimed, c))
    && (forall c: nat, d: nat :: |s.jobs| <= c < d < end ==> jobs[c] != jobs[d])
    && forall j: nat :: Hit(s, n, unclaimed, j) ==>
         exists c: nat :: |s.jobs| <= c < end && ReportOf(s, j, jobs[c].task)
  }

  ghost predicate CanceledUpTo(s: Run, jobs: seq<Job>, n: nat, unclaimed: set<nat>) {
    HitsAreDead(s, jobs, n, unclaimed) && HitsAreReported(s, jobs, n, unclaimed, |jobs|)
  }

  /** Row `n` is no target: its job is claimed, over or none, or the step is settled. */
  lemma CancelMiss(s: Run, s': Run, n: nat, unclaimed: set<nat>)
    requires OwnJobs(s) && n < |s.rows| && CanceledUpTo(s, s'.jobs, n, unclaimed)
    requires forall j: nat :: Hit(s, n + 1, unclaimed, j) ==> Hit(s, n, unclaimed, j)
    ensures CanceledUpTo(s, s'.jobs, n + 1, unclaimed)
  {
    var up := n + 1;
    forall j: nat ensures Hit(s, up, unclaimed, j) <==> Hit(s, n, unclaimed, j) {}
    forall c: nat | |s.jobs| <= c < |s'.jobs| ensures ReportsHit(s, s'.jobs, up, unclaimed, c) {
      assert ReportsHit(s, s'.jobs, n, unclaimed, c);
      var j: nat :| Hit(s, n, unclaimed, j) && ReportOf(s, j, s'.jobs[c].task);
      assert Hit(s, up, unclaimed, j);
    }
  }

  lemma HitMeans(s: Run, n: nat, unclaimed: set<nat>, j: nat, k: nat)
    requires OwnJobs(s) && n < |s.rows| && s.rows[n].job == Some(j)
    ensures Hit(s, n + 1, unclaimed, k) <==> Hit(s, n, unclaimed, k) || (k == j && Hit(s, n + 1, unclaimed, j))
    ensures !Hit(s, n, unclaimed, j)
  {
    assert IsStepJob(s, j, n);
  }

  lemma CancelHit(s: Run, s1: Run, n: nat, unclaimed: set<nat>, j: nat, s2: Run)
    requires OwnJobs(s) && n < |s.rows| && CanceledUpTo(s, s1.jobs, n, unclaimed)
    requires s.rows[n].job == Some(j) && Hit(s, n + 1, unclaimed, j) && j < |s1.jobs|
    requires Callback(s1.jobs[j].task, WasCanceled).Some? && s2 == Settle1(s1, j, WasCanceled)
    ensures CanceledUpTo(s, s2.jobs, n + 1, unclaimed)
  {
    var up := n + 1;
    forall k: nat
      ensures Hit(s, up, unclaimed, k) <==> Hit(s, n, unclaimed, k) || k == j
      ensures !Hit(s, n, unclaimed, j)
    {
      HitMeans(s, n, unclaimed, j, k);
    }
    var end := |s1.jobs|;
    assert s2.jobs[end] == Job(StepDone(n, s.jobs[j].task.gen, WasCanceled), true);
    forall c: nat | |s.jobs| <= c < |s2.jobs| ensures ReportsHit(s, s2.jobs, up, unclaimed, c) {
      if c < end {
        assert ReportsHit(s, s1.jobs, n, unclaimed, c) && s2.jobs[c] == s1.jobs[c];
        var k: nat :| Hit(s, n, unclaimed, k) && ReportOf(s, k, s1.jobs[c].task);
        assert Hit(s, up, unclaimed, k);
      } else {
        assert ReportOf(s, j, s2.jobs[c].task);
      }
    }
    ReportsDiffer(s, s1, n, unclaimed, s2);
    forall k: nat | Hit(s, up, unclaimed, k)
      ensures exists c: nat :: |s.jobs| <= c < |s2.jobs| && ReportOf(s, k, s2.jobs[c].task)
    {
      if k == j {
        assert ReportOf(s, k, s2.jobs[end].task);
      } else {
        var c: nat :| |s.jobs| <= c < end && ReportOf(s, k, s1.jobs[c].task);
        assert ReportOf(s, k, s2.jobs[c].task);
      }
    }
  }

  /** A report of step `n` is unlike the reports of lower steps. */
  lemma ReportsDiffer(s: Run, s1: Run, n: nat, unclaimed: set<nat>, s2: Run)
    requires HitsAreReported(s, s1.jobs, n, unclaimed, |s1.jobs|) && |s2.jobs| == |s1.jobs| + 1
    requires forall c :: |s.jobs| <= c < |s1.jobs| ==> s2.jobs[c] == s1.jobs[c]
    requires s2.jobs[|s1.jobs|].task.StepDone? && s2.jobs[|s1.jobs|].task.step == n
    ensures forall c: nat, d: nat :: |s.jobs| <= c < d < |s2.jobs| ==> s2.jobs[c] != s2.jobs[d]
  {
    forall c: nat | |s.jobs| <= c < |s1.jobs| ensures s2.jobs[c] != s2.jobs[|s1.jobs|] {
      assert ReportsHit(s, s1.jobs, n, unclaimed, c);
    }
  }

  lemma CancelOneRow(s: Run, s1: Run, n: nat, unclaimed: set<nat>, s2: Run)
    requires OwnJobs(s) && n < |s.rows| && CanceledUpTo(s, s1.jobs, n, unclaimed)
    requires s.rows[n].compensationJob.None? && s2 == CancelRow(s1, s.rows[n], unclaimed)
    ensures CanceledUpTo(s, s2.jobs, n + 1, unclaimed)
  {
    var row := s.rows[n];
    if row.state.Pending? && row.job.Some? && Hit(s, n + 1, unclaimed, row.job.value) {
      HitMeans(s, n, unclaimed, row.job.value, row.job.value);
      CancelHit(s, s1, n, unclaimed, row.job.value, s2);
    } else {
      if row.job.Some? { assert IsStepJob(s, row.job.value, n); }
      CancelMiss(s, s1, n, unclaimed);
    }
  }

  lemma {:induction false} CancelAllRows(s: Run, n: nat, unclaimed: set<nat>, s': Run)
    requires OwnJobs(s) && n <= |s.rows| && s' == CancelJobs(s, n, unclaimed)
    requires forall m :: 0 <= m < |s.rows| ==> s.rows[m].compensationJob.None?
    ensures CanceledUpTo(s, s'.jobs, n, unclaimed)
  {
    if n > 0 {
      CancelAllRows(s, n - 1, unclaimed, CancelJobs(s, n - 1, unclaimed));
      CancelOneRow(s, CancelJobs(s, n - 1, unclaimed), n - 1, unclaimed, s');
    }
  }

  /** A step that succeeded and named a compensation which has not run. */
  predicate Undoable(row: Row) {
    row.state.Success? && row.opts.compensate.Some? && |row.opts.compensate.value| > 0 && !row.compensated
  }

  /**
   A poll that ends the run: the handler's result completes it; its error fails it at once, or turns it back if
   there is something to undo.  No step changes.
   */
  lemma PollEnds(h: Handler, cap: nat, events: seq<Event>, s: Run, j: nat, retire: bool, now: int)
    requires RunOf(h, cap, events) == Some(s) && s.status.Running? && j < |s.jobs| && s.jobs[j].task.Advance?
    requires !RunReplay(h, s.rows, now).Suspended?
    ensures var s', out := RunOf(h, cap, events + [Dispatch(j, retire, now)]), RunReplay(h, s.rows, now);
            var jobs := if retire then s.jobs[j := Job(Advance, false)] else s.jobs;
            && s'.Some? && s'.value.rows == s.rows && s'.value.gen == s.gen
            && if out.Completed? then s'.value.status == Status.Completed(out.result) && s'.value.jobs == jobs
               else
                 && s'.value.cause == HandlerError(out.error)
                 && if exists n :: 0 <= n < |s.rows| && Undoable(s.rows[n])
                    then
                      && s'.value.status.Compensating? && s'.value.target.ToFailed?
                      && s'.value.jobs == jobs + [Job(Compensate, true)]
                    else s'.value.status.Failed? && s'.value.jobs == jobs
  {
    assert AnyOwed(s.rows) <==> exists n :: 0 <= n < |s.rows| && Undoable(s.rows[n]);
    RunSteps(h, cap, events, s, Dispatch(j, retire, now), Next(s, Dispatch(j, retire, now), h, cap));
  }

  /** What a cancel makes of a run that is going; the last job of an unwind is its `_compensate`. */
  ghost predicate CanceledAs(s: Run, s': Run, compensate: bool, unclaimed: set<nat>) {
    var undo := compensate && exists n :: 0 <= n < |s.rows| && Undoable(s.rows[n]);
    && s'.rows == s.rows && s'.events == s.events && s'.gen == s.gen + 1
    && HitsAreDead(s, s'.jobs, |s.rows|, unclaimed)
    && if undo
       then
         && s'.status.Compensating? && s'.cause.ByRequest? && s'.target.ToCanceled?
         && |s'.jobs| > |s.jobs| && s'.jobs[|s'.jobs| - 1] == Job(Compensate, true)
         && HitsAreReported(s, s'.jobs, |s.rows|, unclaimed, |s'.jobs| - 1)
       else s'.status.Canceled? && HitsAreReported(s, s'.jobs, |s.rows|, unclaimed, |s'.jobs|)
  }

  lemma CancelEnds(s: Run, compensate: bool, unclaimed: set<nat>, s1: Run, s': Run)
    requires s.status.Running? && s' == CancelRun(s, compensate, unclaimed) && s1 == CancelJobs(s, |s.rows|, unclaimed)
    requires CanceledUpTo(s, s1.jobs, |s.rows|, unclaimed)
    ensures CanceledAs(s, s', compensate, unclaimed)
  {
    assert AnyOwed(s.rows) <==> exists n :: 0 <= n < |s.rows| && Undoable(s.rows[n]);
    MoreJobs(s, s1.jobs, |s.rows|, unclaimed, [Job(Compensate, true)]);
  }

  lemma MoreJobs(s: Run, jobs: seq<Job>, n: nat, unclaimed: set<nat>, more: seq<Job>)
    requires CanceledUpTo(s, jobs, n, unclaimed)
    ensures HitsAreDead(s, jobs + more, n, unclaimed) && HitsAreReported(s, jobs + more, n, unclaimed, |jobs|)
  {
    var all := jobs + more;
    forall c: nat | |s.jobs| <= c < |jobs| ensures ReportsHit(s, all, n, unclaimed, c) {
      assert ReportsHit(s, jobs, n, unclaimed, c);
    }
    forall j: nat | Hit(s, n, unclaimed, j)
      ensures exists c: nat :: |s.jobs| <= c < |jobs| && ReportOf(s, j, all[c].task)
    {
      var c: nat :| |s.jobs| <= c < |jobs| && ReportOf(s, j, jobs[c].task);
      assert ReportOf(s, j, all[c].task);
    }
  }

  /**
   A cancel of a run that is going.  The jobs of pending steps that nobody has claimed are dead, each with one
   canceled report, and no other job changes; the generation is bumped; and the run is canceled at once, or starts
   to unwind if that was asked for and there is something to undo.  Any other run is left as it is.
   */
  lemma CancelDecides(h: Handler, cap: nat, events: seq<Event>, s: Run, compensate: bool, unclaimed: set<nat>)
    requires cap >= 1 && RunOf(h, cap, events) == Some(s)
    ensures var s' := RunOf(h, cap, events + [Cancel(compensate, unclaimed)]);
            s'.Some? && if s.status.Running? then CanceledAs(s, s'.value, compensate, unclaimed) else s'.value == s
  {
    var w := EveryRunHasAWorld(h, cap, events);
    RunInv(h, cap, w, events);
    RunOwnsJobs(h, cap, w, events);
    var s' := CancelRun(s, compensate, unclaimed);
    RunSteps(h, cap, events, s, Cancel(compensate, unclaimed), s');
    if s.status.Running? {
      var s1 := CancelJobs(s, |s.rows|, unclaimed);
      CancelAllRows(s, |s.rows|, unclaimed, s1);
      CancelEnds(s, compensate, unclaimed, s1, s');
    }
  }

  // ---------------------------------------------------------------------------------------------
  // An ended run stays ended
  // ---------------------------------------------------------------------------------------------

  /** The ways a status can go: a canceled run at most turns failed, by the report of a failed compensation. */
  predicate Onward(a: Run, b: Run) {
    match a.status
    case Running => true
    case Completed(_) => b.status == a.status
    case Compensating => b.status.Compensating? || b.status.Failed? || b.status.Canceled?
    case Failed => b.status.Failed? && (a.cause.HaltedAt? ==> b.cause.HaltedAt?)
    case Canceled => b.status.Canceled? || (b.status.Failed? && b.cause.HaltedAt?)
  }

  /** A completed run has no error, so nothing of it is ever undone. */
  predicate Clean(s: Run) { s.status.Completed? ==> s.cause == NoError && s.target.ToFailed? }

  lemma NextOnward(h: Handler, w: World, s: Run, e: Event, cap: nat, s': Run)
    requires Inv(h, w, s) && Clean(s) && Enabled(s, e) && s' == Next(s, e, h, cap)
    ensures Onward(s, s') && Clean(s')
  {
    if e.Dispatch? {
      assert JobOk(w, s, e.job);
      if s.jobs[e.job].task.Advance? { AdvanceOnward(s, h, cap, e.now); }
    }
  }

  lemma AdvanceOnward(s: Run, h: Handler, cap: nat, now: int)
    requires s.status.Running? ==> s.cause == NoError && s.target.ToFailed?
    ensures var s' := AdvanceRun(s, h, cap, now);
            && (!s.status.Running? ==> s' == s)
            && (s'.status.Completed? && s.status.Running? ==> s'.cause == NoError && s'.target.ToFailed?)
  {
    if s.status.Running? && RunReplay(h, s.rows, now).Suspended? {
      var ns := RunReplay(h, s.rows, now).newSteps;
      DispatchAllShape(s, ns, Least(cap, |ns|), DispatchAll(s, ns, Least(cap, |ns|)));
    }
  }

  lemma OnwardOn(a: Run, b: Run, c: Run)
    requires Onward(a, b) && Onward(b, c)
    ensures Onward(a, c)
  {
  }

  lemma {:induction false} RunClean(h: Handler, cap: nat, w: World, events: seq<Event>)
    requires cap >= 1 && RunOf(h, cap, events).Some? && AgreesAll(h, cap, w, events)
    ensures Clean(RunOf(h, cap, events).value)
  {
    if events != [] {
      var n := |events| - 1;
      RunClean(h, cap, w, events[..n]);
      RunInv(h, cap, w, events[..n]);
      NextOnward(h, w, RunOf(h, cap, events[..n]).value, events[n], cap, RunOf(h, cap, events).value);
    }
  }

  /** A completed run stays completed with its result, and no ended or unwinding run ever goes on or completes. */
  lemma {:induction false} StatusOnlyMovesOn(h: Handler, cap: nat, events: seq<Event>, m: nat)
    requires cap >= 1 && RunOf(h, cap, events).Some? && m <= |events| && RunOf(h, cap, events[..m]).Some?
    ensures Onward(RunOf(h, cap, events[..m]).value, RunOf(h, cap, events).value)
  {
    if m == |events| {
      assert events[..m] == events;
    } else {
      var n := |events| - 1;
      assert events[..n][..m] == events[..m];
      StatusOnlyMovesOn(h, cap, events[..n], m);
      var w := EveryRunHasAWorld(h, cap, events[..n]);
      RunInv(h, cap, w, events[..n]);
      RunClean(h, cap, w, events[..n]);
      NextOnward(h, w, RunOf(h, cap, events[..n]).value, events[n], cap, RunOf(h, cap, events).value);
      OnwardOn(RunOf(h, cap, events[..m]).value, RunOf(h, cap, events[..n]).value, RunOf(h, cap, events).value);
    }
  }
}
