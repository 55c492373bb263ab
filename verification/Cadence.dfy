/**
 The self-rescheduling cadence chain of one cron (components/scheduler/src/crons.ts:197-369,
 modules.ts:318-329, 468-487).  An indexed read sees the transaction's own insert, so a cadence job
 always carries its own id.
 */
module Cadence {
  import opened Options
  import opened Cron

  /** What is registered under the cron's name: the text of spec, time zone and target, and the policy. */
  datatype Entry = Entry(def: string, policy: Policy)

  datatype Row = Row(def: string, policy: Policy, anchor: int, job: nat)

  datatype JobState = Pending | InProgress | Dead

  datatype Job = Job(state: JobState, runAt: int)

  /** The meaning of a definition's text. */
  type Meaning = string -> Spec

  ghost predicate Sensible(m: Meaning) { forall def :: Valid(m(def)) }

  /** The row, its cadence jobs, the fire times that have a work job, and the clock. */
  datatype Sys = Sys(row: Option<Row>, jobs: seq<Job>, work: seq<int>, clock: int)

  /** Insert-or-noop under the key made of the cron's name and the fire time. */
  function EnqueueWork(work: seq<int>, fire: seq<int>, n: nat): seq<int>
    requires n <= |fire|
  {
    if n == 0 then work
    else
      var w := EnqueueWork(work, fire, n - 1);
      if fire[n - 1] in w then w else w + [fire[n - 1]]
  }

  /** `_cronTick`, run by job `j`: a job the row does not name does nothing. */
  ghost function TickOf(s: Sys, m: Meaning, j: nat, now: int): Sys
    requires Sensible(m)
  {
    if s.row.None? || s.row.value.job != j then s.(clock := now)
    else
      var row := s.row.value;
      var t := Walk(m(row.def), row.policy, row.anchor, now);
      Sys(Some(row.(anchor := t.anchor, job := |s.jobs|)), s.jobs + [Job(Pending, t.next)],
          EnqueueWork(s.work, t.fire, |t.fire|), now)
  }

  function CancelPending(jobs: seq<Job>, j: nat): seq<Job> {
    if j < |jobs| && jobs[j].state.Pending? then jobs[j := jobs[j].(state := Dead)] else jobs
  }

  predicate Live(jobs: seq<Job>, j: nat) { j < |jobs| && !jobs[j].state.Dead? }

  /** A fresh registration, or a changed one: the cadence starts anew at `now`. */
  function Restart(s: Sys, m: Meaning, e: Entry, jobs: seq<Job>, now: int): Sys {
    Sys(Some(Row(e.def, e.policy, now, |jobs|)), jobs + [Job(Pending, NextRun(m(e.def), now))], s.work, now)
  }

  /** `reconcileCrons`, seen from one cron name; the last write spreads the row as it was first read. */
  function Boot(s: Sys, m: Meaning, entry: Option<Entry>, now: int): Sys {
    match (entry, s.row)
    case (None, None) => s.(clock := now)
    case (None, Some(row)) => Sys(None, CancelPending(s.jobs, row.job), s.work, now)
    case (Some(e), None) => Restart(s, m, e, s.jobs, now)
    case (Some(e), Some(row)) =>
      if e.def != row.def then Restart(s, m, e, CancelPending(s.jobs, row.job), now)
      else if Live(s.jobs, row.job) then s.(row := Some(row.(policy := e.policy)), clock := now)
      else Sys(Some(row.(job := |s.jobs|)), s.jobs + [Job(Pending, NextRun(m(e.def), row.anchor))], s.work, now)
  }

  datatype Event =
    | Claim(j: nat, now: int)
    | Commit(j: nat, now: int)
    | Release(j: nat, retry: bool, now: int)
    | Reboot(entry: Option<Entry>, now: int)

  /**
   A job's body commits any number of times, also after the job was released, for it does not look at the
   job row; a completion or a sweep releases a claimed job.
   */
  predicate Enabled(s: Sys, e: Event) {
    && s.clock <= e.now
    && match e
       case Claim(j, _) => j < |s.jobs| && s.jobs[j].state.Pending?
       case Commit(j, _) => j < |s.jobs|
       case Release(j, _, _) => j < |s.jobs| && s.jobs[j].state.InProgress?
       case Reboot(_, _) => true
  }

  ghost function Next(s: Sys, m: Meaning, e: Event): Sys
    requires Sensible(m) && Enabled(s, e)
  {
    match e
    case Claim(j, now) => s.(jobs := s.jobs[j := s.jobs[j].(state := InProgress)], clock := now)
    case Commit(j, now) => TickOf(s, m, j, now)
    case Release(j, retry, now) =>
      s.(jobs := s.jobs[j := s.jobs[j].(state := if retry then Pending else Dead)], clock := now)
    case Reboot(entry, now) => Boot(s, m, entry, now)
  }

  /** The event is a tick that moves the cron. */
  predicate Moves(s: Sys, e: Event) { e.Commit? && s.row.Some? && s.row.value.job == e.j }

  // ---------------------------------------------------------------------------------------------
  // Whole runs
  // ---------------------------------------------------------------------------------------------

  ghost predicate Inv(s: Sys, m: Meaning) {
    && (s.row.Some? ==>
         var row := s.row.value;
         && row.job < |s.jobs| && row.anchor <= s.clock
         && s.jobs[row.job].runAt == NextRun(m(row.def), row.anchor)
         && forall i :: 0 <= i < |s.work| ==> s.work[i] <= row.anchor)
    && (forall i :: 0 <= i < |s.work| ==> s.work[i] <= s.clock)
    && (forall i, k :: 0 <= i < k < |s.work| ==> s.work[i] < s.work[k])
  }

  lemma {:induction false} WorkAppends(work: seq<int>, fire: seq<int>, n: nat, above: int, upto: int)
    requires n <= |fire| && Rising(fire, above, upto)
    requires forall i :: 0 <= i < |work| ==> work[i] <= above
    ensures EnqueueWork(work, fire, n) == work + fire[..n]
  {
    if n > 0 {
      WorkAppends(work, fire, n - 1, above, upto);
      assert fire[..n] == fire[..n - 1] + [fire[n - 1]];
    }
  }

  /**
   A moving tick gives every chosen occurrence its own work job, for the key never swallows one; it re-anchors at
   the last occurrence up to now and names a new job, due at the first one after.
   */
  lemma TickEnqueuesAll(s: Sys, m: Meaning, e: Event)
    requires Sensible(m) && Inv(s, m) && Enabled(s, e) && Moves(s, e)
    ensures var row, s' := s.row.value, Next(s, m, e);
            var anchor := Anchored(m(row.def), row.anchor, e.now);
            && s'.work == s.work + Walk(m(row.def), row.policy, row.anchor, e.now).fire
            && s'.row == Some(row.(anchor := anchor, job := |s.jobs|))
            && s'.jobs == s.jobs + [Job(Pending, NextRun(m(row.def), anchor))]
  {
    var row := s.row.value;
    var t := Walk(m(row.def), row.policy, row.anchor, e.now);
    WalkRises(m(row.def), row.policy, row.anchor, e.now);
    WorkAppends(s.work, t.fire, |t.fire|, row.anchor, t.anchor);
    assert t.fire[..|t.fire|] == t.fire;
  }

  lemma NextKeeps(s: Sys, m: Meaning, e: Event)
    requires Sensible(m) && Inv(s, m) && Enabled(s, e)
    ensures Inv(Next(s, m, e), m)
  {
    if Moves(s, e) {
      var row := s.row.value;
      TickEnqueuesAll(s, m, e);
      WalkRises(m(row.def), row.policy, row.anchor, e.now);
      TickReanchors(m(row.def), row.policy, row.anchor, e.now);
    }
  }

  ghost function RunOf(m: Meaning, events: seq<Event>): Option<Sys>
    requires Sensible(m)
  {
    if events == [] then Some(Sys(None, [], [], 0))
    else
      var n := |events| - 1;
      match RunOf(m, events[..n])
      case None => None
      case Some(s) => if Enabled(s, events[n]) then Some(Next(s, m, events[n])) else None
  }

  /** The jobs that moved the cron, in the order they did. */
  ghost function Movers(m: Meaning, events: seq<Event>): seq<nat>
    requires Sensible(m) && RunOf(m, events).Some?
  {
    if events == [] then []
    else
      var n := |events| - 1;
      Movers(m, events[..n]) + if Moves(RunOf(m, events[..n]).value, events[n]) then [events[n].j] else []
  }

  lemma {:induction false} RunInv(m: Meaning, events: seq<Event>)
    requires Sensible(m) && RunOf(m, events).Some?
    ensures Inv(RunOf(m, events).value, m)
  {
    if events != [] {
      var n := |events| - 1;
      RunInv(m, events[..n]);
      NextKeeps(RunOf(m, events[..n]).value, m, events[n]);
    }
  }

  /** Movers come in falling age, and all are older than the job the row names. */
  ghost predicate MoversOk(movers: seq<nat>, s: Sys) {
    && (forall i, k :: 0 <= i < k < |movers| ==> movers[i] < movers[k])
    && (forall i :: 0 <= i < |movers| ==> movers[i] < |s.jobs|)
    && (forall i :: 0 <= i < |movers| && s.row.Some? ==> movers[i] < s.row.value.job)
  }

  lemma MoversStep(m: Meaning, s: Sys, e: Event, movers: seq<nat>, s': Sys)
    requires Sensible(m) && Inv(s, m) && Enabled(s, e) && MoversOk(movers, s) && s' == Next(s, m, e)
    ensures MoversOk(movers + if Moves(s, e) then [e.j] else [], s')
  {
  }

  /** Whatever crashes, reclaims, reboots and changes happen, no job moves the cron twice. */
  lemma {:induction false} EachJobMovesOnce(m: Meaning, events: seq<Event>)
    requires Sensible(m) && RunOf(m, events).Some?
    ensures MoversOk(Movers(m, events), RunOf(m, events).value)
  {
    if events != [] {
      var n := |events| - 1;
      EachJobMovesOnce(m, events[..n]);
      RunInv(m, events[..n]);
      MoversStep(m, RunOf(m, events[..n]).value, events[n], Movers(m, events[..n]), RunOf(m, events).value);
    }
  }

  /** The named job was born due at the first occurrence after the anchor. */
  lemma NamedJobIsDueNext(m: Meaning, events: seq<Event>)
    requires Sensible(m) && RunOf(m, events).Some? && RunOf(m, events).value.row.Some?
    ensures var s := RunOf(m, events).value;
            var row := s.row.value;
            row.job < |s.jobs| && s.jobs[row.job].runAt == NextRun(m(row.def), row.anchor) && row.anchor <= s.clock
  {
    RunInv(m, events);
  }

  /** Over the whole life of the cron, whatever is reconfigured, fire times strictly increase. */
  lemma WorkStrictlyIncreases(m: Meaning, events: seq<Event>)
    requires Sensible(m) && RunOf(m, events).Some?
    ensures var work := RunOf(m, events).value.work;
            forall i, k :: 0 <= i < k < |work| ==> work[i] < work[k]
  {
    RunInv(m, events);
  }

  /** Re-running a tick that already committed changes nothing. */
  lemma SecondCommitIsNoop(s: Sys, m: Meaning, j: nat, now: int, later: int)
    requires Sensible(m) && j < |s.jobs|
    ensures var s1 := TickOf(s, m, j, now); TickOf(s1, m, j, later) == s1.(clock := later)
  {
  }

  // ---------------------------------------------------------------------------------------------
  // Boot
  // ---------------------------------------------------------------------------------------------

  lemma RunSteps(m: Meaning, events: seq<Event>, e: Event)
    requires Sensible(m) && RunOf(m, events).Some? && Enabled(RunOf(m, events).value, e)
    ensures RunOf(m, events + [e]) == Some(Next(RunOf(m, events).value, m, e))
  {
    assert (events + [e])[..|events|] == events;
  }

  /** Job `j` is the one that can move the cron, whatever happens next. */
  ghost predicate OnlyMover(s: Sys, m: Meaning, j: nat)
    requires Sensible(m)
  {
    forall k: nat, now: int :: k != j ==> TickOf(s, m, k, now) == s.(clock := now)
  }

  /** The job the row names, if there is one. */
  function Named(s: Sys): Option<nat> { if s.row.Some? then Some(s.row.value.job) else None }

  /** A boot that finds the cron registered as it is. */
  predicate Unchanged(s: Sys, e: Entry) { s.row.Some? && s.row.value.def == e.def }

  /** A job the row names has neither given up nor been canceled. */
  predicate Running(s: Sys) { s.row.Some? && s.row.value.job < |s.jobs| && s.jobs[s.row.value.job].state != Dead }

  /** The old jobs stay as they are, but for one that is canceled if it is pending. */
  ghost predicate OldJobs(jobs: seq<Job>, jobs': seq<Job>, canceled: Option<nat>) {
    && |jobs| <= |jobs'|
    && forall j: nat :: j < |jobs| ==>
         jobs'[j] == if canceled == Some(j) && jobs[j].state.Pending? then jobs[j].(state := Dead) else jobs[j]
  }

  /**
   After any run that ends in a boot, a registered cron has one chain: a live cadence job, due at the first
   occurrence after the anchor, that alone can move the cron.  An unchanged cron keeps its phase, and its job if
   that is live; a new or changed one is anchored at the boot, and the pending job of the old one is canceled.
   */
  lemma BootLeavesOneChain(m: Meaning, events: seq<Event>, e: Entry, now: int)
    requires Sensible(m) && RunOf(m, events).Some? && RunOf(m, events).value.clock <= now
    ensures RunOf(m, events + [Reboot(Some(e), now)]).Some?
    ensures var s, s' := RunOf(m, events).value, RunOf(m, events + [Reboot(Some(e), now)]).value;
            && Running(s') && s'.row.value.def == e.def && s'.work == s.work
            && var row := s'.row.value;
               && OnlyMover(s', m, row.job) && s'.jobs[row.job].runAt == NextRun(m(e.def), row.anchor)
               && row.anchor == (if Unchanged(s, e) then s.row.value.anchor else now)
               && OldJobs(s.jobs, s'.jobs, if Unchanged(s, e) then None else Named(s))
               && if Unchanged(s, e) && Running(s) then s'.jobs == s.jobs && row.job == s.row.value.job
                  else |s'.jobs| == |s.jobs| + 1 && row.job == |s.jobs| && s'.jobs[row.job].state.Pending?
  {
    RunSteps(m, events, Reboot(Some(e), now));
    RunInv(m, events);
  }

  /** A cron that is no longer registered has no row, and its pending cadence job is canceled. */
  lemma BootDropsTheRest(m: Meaning, events: seq<Event>, now: int)
    requires Sensible(m) && RunOf(m, events).Some? && RunOf(m, events).value.clock <= now
    ensures RunOf(m, events + [Reboot(None, now)]).Some?
    ensures var s, s' := RunOf(m, events).value, RunOf(m, events + [Reboot(None, now)]).value;
            && s'.row.None? && s'.work == s.work && |s'.jobs| == |s.jobs| && OldJobs(s.jobs, s'.jobs, Named(s))
            && forall k: nat, later: int :: TickOf(s', m, k, later) == s'.(clock := later)
  {
    RunSteps(m, events, Reboot(None, now));
    RunInv(m, events);
  }

  /** ... and then, whatever is claimed, committed or swept, nothing fires until it is registered again. */
  lemma {:induction false} DroppedIsQuiet(m: Meaning, events: seq<Event>, n: nat)
    requires Sensible(m) && RunOf(m, events).Some? && n <= |events| && RunOf(m, events[..n]).Some?
    requires RunOf(m, events[..n]).value.row.None?
    requires forall i :: n <= i < |events| ==> !(events[i].Reboot? && events[i].entry.Some?)
    ensures RunOf(m, events).value.row.None? && RunOf(m, events).value.work == RunOf(m, events[..n]).value.work
  {
    if n == |events| {
      assert events[..n] == events;
    } else {
      var k := |events| - 1;
      assert events[..k][..n] == events[..n];
      DroppedIsQuiet(m, events[..k], n);
    }
  }

  // ---------------------------------------------------------------------------------------------
  // The life of one registration
  // ---------------------------------------------------------------------------------------------

  /** When the cron was last registered anew, what had fired before, and the ticks that moved it since. */
  datatype Life = Life(birth: int, before: seq<int>, ticks: seq<At>)

  ghost function LifeOf(m: Meaning, events: seq<Event>): Life
    requires Sensible(m) && RunOf(m, events).Some?
  {
    if events == [] then Life(0, [], [])
    else
      var n := |events| - 1;
      var s, e, life := RunOf(m, events[..n]).value, events[n], LifeOf(m, events[..n]);
      if e.Reboot? && e.entry.Some? && !Unchanged(s, e.entry.value) then Life(e.now, s.work, [])
      else if Moves(s, e) then life.(ticks := life.ticks + [At(e.now, s.row.value.policy)])
      else life
  }

  ghost predicate TicksWithin(life: Life, clock: int) {
    && life.birth <= clock && Forward(life.ticks)
    && forall i :: 0 <= i < |life.ticks| ==> life.birth <= life.ticks[i].now <= clock
  }

  ghost predicate LifeOk(m: Meaning, s: Sys, life: Life)
    requires Sensible(m)
  {
    && TicksWithin(life, s.clock)
    && (s.row.Some? ==>
         && s.row.value.anchor == AnchorAfter(m(s.row.value.def), life.birth, life.ticks)
         && s.work == life.before + Fired(m(s.row.value.def), life.birth, life.ticks))
  }

  lemma OneMoreTick(life: Life, clock: int, at: At, life': Life)
    requires TicksWithin(life, clock) && clock <= at.now && life' == life.(ticks := life.ticks + [at])
    ensures TicksWithin(life', at.now)
  {
  }

  lemma Regroup(a: seq<int>, b: seq<int>, c: seq<int>)
    ensures (a + b) + c == a + (b + c)
  {
  }

  lemma LifeTick(m: Meaning, s: Sys, e: Event, life: Life, life': Life, s': Sys)
    requires Sensible(m) && Inv(s, m) && Enabled(s, e) && LifeOk(m, s, life) && s' == Next(s, m, e) && Moves(s, e)
    requires life' == life.(ticks := life.ticks + [At(e.now, s.row.value.policy)])
    ensures LifeOk(m, s', life')
  {
    var row := s.row.value;
    TickEnqueuesAll(s, m, e);
    OneMoreTick(life, s.clock, At(e.now, row.policy), life');
    var t := Walk(m(row.def), row.policy, row.anchor, e.now);
    TickAppends(m(row.def), life.birth, life.ticks, At(e.now, row.policy), life'.ticks, t);
    Regroup(life.before, Fired(m(row.def), life.birth, life.ticks), t.fire);
  }

  lemma LifeStep(m: Meaning, s: Sys, e: Event, life: Life, life': Life, s': Sys)
    requires Sensible(m) && Inv(s, m) && Enabled(s, e) && LifeOk(m, s, life) && s' == Next(s, m, e)
    requires life' == if e.Reboot? && e.entry.Some? && !Unchanged(s, e.entry.value) then Life(e.now, s.work, [])
                      else if Moves(s, e) then life.(ticks := life.ticks + [At(e.now, s.row.value.policy)])
                      else life
    ensures LifeOk(m, s', life')
  {
    if Moves(s, e) { LifeTick(m, s, e, life, life', s'); }
  }

  /**
   Since it was last registered anew, a cron is one run of ticks on one schedule: its anchor and what it fired are
   what those ticks give, whatever crashes, second commits and boots with other policies there were.
   */
  lemma {:induction false} LifeIsOneRun(m: Meaning, events: seq<Event>)
    requires Sensible(m) && RunOf(m, events).Some?
    ensures LifeOk(m, RunOf(m, events).value, LifeOf(m, events))
  {
    if events != [] {
      var n := |events| - 1;
      LifeIsOneRun(m, events[..n]);
      RunInv(m, events[..n]);
      LifeStep(m, RunOf(m, events[..n]).value, events[n], LifeOf(m, events[..n]), LifeOf(m, events),
               RunOf(m, events).value);
    }
  }

  /** So its phase never drifts: the anchor is the last occurrence, counted from the registration, at the last tick. */
  lemma CadenceKeepsPhase(m: Meaning, events: seq<Event>)
    requires Sensible(m) && RunOf(m, events).Some? && RunOf(m, events).value.row.Some?
    ensures var row, life := RunOf(m, events).value.row.value, LifeOf(m, events);
            row.anchor ==
            if life.ticks == [] then life.birth
            else Anchored(m(row.def), life.birth, life.ticks[|life.ticks| - 1].now)
  {
    LifeIsOneRun(m, events);
    var row, life := RunOf(m, events).value.row.value, LifeOf(m, events);
    if life.ticks != [] { PhaseNeverDrifts(m(row.def), life.birth, life.ticks); }
  }

  /** A dead cadence at boot: the only time a new policy does not reach the row. */
  predicate PolicyLost(s: Sys, e: Entry) {
    s.row.Some? && s.row.value.def == e.def && s.row.value.policy != e.policy && !Live(s.jobs, s.row.value.job)
  }

  /** The registered policy takes effect at boot exactly when it is not a policy-only change of a dead cadence. */
  lemma BootAppliesPolicyIff(s: Sys, m: Meaning, e: Entry, now: int)
    ensures Boot(s, m, Some(e), now).row.value.policy == e.policy <==> !PolicyLost(s, e)
  {
  }

  lemma RunsTo(m: Meaning, events: seq<Event>, s: Sys, e: Event, s': Sys)
    requires Sensible(m) && RunOf(m, events) == Some(s) && Enabled(s, e) && s' == Next(s, m, e)
    ensures RunOf(m, events + [e]) == Some(s')
  {
    RunSteps(m, events, e);
  }

  /** A cron registered for the first time. */
  lemma Registered(m: Meaning, def: string, policy: Policy) returns (events: seq<Event>, s: Sys)
    requires Sensible(m)
    ensures RunOf(m, events) == Some(s) && s == Sys(Some(Row(def, policy, 0, 0)), s.jobs, [], 0)
    ensures |s.jobs| == 1 && s.jobs[0].state.Pending?
  {
    var none: seq<Event> := [];
    var s0 := Sys(None, [], [], 0);
    var e := Reboot(Some(Entry(def, policy)), 0);
    s := Boot(s0, m, Some(Entry(def, policy)), 0);
    RunsTo(m, none, s0, e, s);
    events := none + [e];
  }

  /** Its cadence job is claimed and gives up. */
  lemma GivesUp(m: Meaning, events: seq<Event>, s: Sys) returns (events': seq<Event>, s': Sys)
    requires Sensible(m) && RunOf(m, events) == Some(s) && s.clock == 0 && |s.jobs| == 1 && s.jobs[0].state.Pending?
    ensures RunOf(m, events') == Some(s') && s' == s.(jobs := s'.jobs) && |s'.jobs| == 1 && s'.jobs[0].state.Dead?
  {
    var s1 := Next(s, m, Claim(0, 0));
    RunsTo(m, events, s, Claim(0, 0), s1);
    s' := Next(s1, m, Release(0, false, 0));
    RunsTo(m, events + [Claim(0, 0)], s1, Release(0, false, 0), s');
    events' := events + [Claim(0, 0)] + [Release(0, false, 0)];
  }

  /** The run ends with a boot that registers `wanted`, and the row still says `kept`. */
  ghost predicate Keeps(m: Meaning, events: seq<Event>, def: string, kept: Policy, wanted: Policy)
    requires Sensible(m)
  {
    && events != [] && events[|events| - 1] == Reboot(Some(Entry(def, wanted)), 0)
    && RunOf(m, events).Some? && RunOf(m, events).value.row.Some?
    && RunOf(m, events).value.row.value.def == def && RunOf(m, events).value.row.value.policy == kept
  }

  /** ... and that happens: register with one policy, let the cadence job die, boot with another. */
  lemma PolicyCanBeLost(m: Meaning, def: string, kept: Policy, wanted: Policy) returns (events: seq<Event>)
    requires Sensible(m) && kept != wanted
    ensures Keeps(m, events, def, kept, wanted)
  {
    var ev1, s1 := Registered(m, def, kept);
    var ev2, s2 := GivesUp(m, ev1, s1);
    var e := Reboot(Some(Entry(def, wanted)), 0);
    RunsTo(m, ev2, s2, e, Next(s2, m, e));
    events := ev2 + [e];
  }

  // ---------------------------------------------------------------------------------------------
  // The mutations as written
  // ---------------------------------------------------------------------------------------------

  class CronTable {
    const meaning: Meaning
    var row: Option<Row>
    var jobs: seq<Job>
    var work: seq<int>
    var clock: int

    function View(): Sys
      reads this
    {
      Sys(row, jobs, work, clock)
    }

    constructor (m: Meaning)
      ensures meaning == m && View() == Sys(None, [], [], 0)
    {
      meaning, row, jobs, work, clock := m, None, [], [], 0;
    }

    method EnqueueCadenceJob(runAt: int) returns (id: nat)
      modifies this`jobs
      ensures id == old(|jobs|) && jobs == old(jobs) + [Job(Pending, runAt)]
    {
      id := |jobs|;
      jobs := jobs + [Job(Pending, runAt)];
    }

    /** `scheduler:_cronTick`. */
    method RunCadence(j: nat, now: int)
      requires Sensible(meaning)
      modifies this
      ensures View() == TickOf(old(View()), meaning, j, now)
    {
      clock := now;
      if row.None? || row.value.job != j {
        return;
      }
      var cron := row.value;
      var tick := CronTick(meaning(cron.def), cron.policy, cron.anchor, now);
      var i := 0;
      while i < |tick.fire|
        invariant 0 <= i <= |tick.fire| && work == EnqueueWork(old(work), tick.fire, i)
        invariant row == old(row) && jobs == old(jobs) && clock == now
      {
        if tick.fire[i] !in work {
          work := work + [tick.fire[i]];
        }
        i := i + 1;
      }
      var id := EnqueueCadenceJob(tick.next);
      row := Some(cron.(anchor := tick.anchor, job := id));
    }

    method CancelIfPending(j: nat)
      modifies this`jobs
      ensures jobs == CancelPending(old(jobs), j)
    {
      if j < |jobs| && jobs[j].state == Pending {
        jobs := jobs[j := jobs[j].(state := Dead)];
      }
    }

    /** `reconcileCrons`, for this cron. */
    method Reconcile(entry: Option<Entry>, now: int)
      modifies this
      ensures View() == Boot(old(View()), meaning, entry, now)
    {
      clock := now;
      var existing := row;
      if entry.None? {
        if existing.Some? {
          CancelIfPending(existing.value.job);
          row := None;
        }
        return;
      }
      var e := entry.value;
      if existing.None? || existing.value.def != e.def {
        if existing.Some? {
          CancelIfPending(existing.value.job);
        }
        var id := EnqueueCadenceJob(NextRun(meaning(e.def), now));
        row := Some(Row(e.def, e.policy, now, id));
        return;
      }
      if existing.value.policy != e.policy {
        row := Some(existing.value.(policy := e.policy));
      }
      if !Live(jobs, existing.value.job) {
        var id := EnqueueCadenceJob(NextRun(meaning(e.def), existing.value.anchor));
        // The row written here is the one read at the top, not the one just replaced.
        row := Some(existing.value.(job := id));
      }
    }
  }
}
