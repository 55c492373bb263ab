/**
 At-least-once delivery (components/triggers/src/driver.ts:153-224, modules.ts:59-173, boot.ts:98-115)
 for one trigger and any number of driver instances.  Every call is one atomic step; instances crash,
 restart and go stale at any point.
 */
module Triggers {
  import opened Options
  import opened ChangeLog

  const MAX_CONSECUTIVE_FAILURES: nat := 8

  /** The `cursors` row. */
  datatype Cursor = Cursor(ts: int, paused: bool, failures: nat)

  /** What one driver instance holds between two calls. */
  datatype Instance =
    | Resting
    | Peeked(bound: int)
    | Draining(at: int, bound: int)
    | Holding(at: int, bound: int, batch: seq<Entry>, advance: int)
    | Advancing(at: int, bound: int, advance: int)

  /**
   The stable log up to `bound`, the row, where the row started, and every change that was part of a successful call.
   */
  datatype Sys = Sys(
    log: seq<Entry>,
    bound: int,
    cursor: Option<Cursor>,
    origin: int,
    delivered: set<Entry>,
    instances: seq<Instance>)

  datatype Event =
    | Logged(entries: seq<Entry>, bound: int)
    | Peek(i: nat)
    | EnsureCursor(i: nat)
    | Scanned(i: nat, k: nat, advance: int)
    | Finished(i: nat)
    | HandlerReturned(i: nat)
    | HandlerThrew(i: nat)
    | BreakerTripped(i: nat)
    | AdvanceCursor(i: nat)
    | PausedBy
    | Resumed
    | Restarted(i: nat)

  datatype Config = Config(fromStart: bool, batchSize: nat)

  function Look(s: Sys, cfg: Config, at: int): Scan { ReadLog(s.log, s.bound, at, cfg.batchSize) }

  ghost predicate Enabled(s: Sys, cfg: Config, e: Event) {
    match e
    case Logged(entries, bound) =>
      s.bound <= bound && Ascending(entries) && forall i :: 0 <= i < |entries| ==> s.bound < entries[i].ts <= bound
    case PausedBy => true
    case Resumed => true
    case _ =>
      && e.i < |s.instances|
      && var d := s.instances[e.i];
         match e
         case Peek(_) => d.Resting?
         case EnsureCursor(_) => d.Peeked?
         case Scanned(_, k, advance) =>
           d.Draining? && d.at < d.bound &&
           var scan := Look(s, cfg, d.at);
           scan.changes != [] ==> SafeCut(scan.changes, scan.maxScannedTs, k, advance)
         case Finished(_) => d.Draining? && d.at >= d.bound
         case HandlerReturned(_) => d.Holding?
         case HandlerThrew(_) => d.Holding?
         case BreakerTripped(_) => d.Holding?
         case AdvanceCursor(_) => d.Advancing?
         case Restarted(_) => true
  }

  function Set(s: Sys, i: nat, d: Instance): Sys
    requires i < |s.instances|
  {
    s.(instances := s.instances[i := d])
  }

  /** `_initCursor` behind `ensureCursor`: insert, or return the row that is there. */
  function Ensured(s: Sys, cfg: Config, tip: int): Sys {
    if s.cursor.Some? then s
    else
      var start := if cfg.fromStart then 0 else tip;
      s.(cursor := Some(Cursor(start, false, 0)), origin := start)
  }

  /** `_recordFailure`. */
  function Failed(c: Cursor): Cursor {
    c.(failures := c.failures + 1, paused := c.paused || c.failures + 1 >= MAX_CONSECUTIVE_FAILURES)
  }

  /** `_advanceCursor`: a no-op unless the row is where the caller thinks it is. */
  function Advanced(c: Cursor, expected: int, to: int): Cursor {
    if c.ts != expected then c else c.(ts := to, failures := 0)
  }

  ghost function Next(s: Sys, cfg: Config, e: Event): Sys
    requires Enabled(s, cfg, e)
  {
    match e
    case Logged(entries, bound) => s.(log := s.log + entries, bound := bound)
    case Peek(i) => Set(s, i, Peeked(s.bound))
    case EnsureCursor(i) =>
      var s1 := Ensured(s, cfg, s.instances[i].bound);
      var c := s1.cursor.value;
      Set(s1, i, if c.paused then Resting else Draining(c.ts, s.instances[i].bound))
    case Scanned(i, k, advance) =>
      var d := s.instances[i];
      var scan := Look(s, cfg, d.at);
      if scan.changes == [] then
        Set(s, i, if scan.maxScannedTs <= d.at then Resting else Advancing(d.at, d.bound, scan.maxScannedTs))
      else
        Set(s, i, Holding(d.at, d.bound, scan.changes[..k], advance))
    case Finished(i) => Set(s, i, Resting)
    case HandlerReturned(i) =>
      var d := s.instances[i];
      Set(s.(delivered := s.delivered + set e | e in d.batch), i, Advancing(d.at, d.bound, d.advance))
    case HandlerThrew(i) =>
      Set(if s.cursor.Some? then s.(cursor := Some(Failed(s.cursor.value))) else s, i, Resting)
    case BreakerTripped(i) =>
      Set(if s.cursor.Some? then s.(cursor := Some(s.cursor.value.(paused := true))) else s, i, Resting)
    case AdvanceCursor(i) =>
      var d := s.instances[i];
      Set(if s.cursor.Some? then s.(cursor := Some(Advanced(s.cursor.value, d.at, d.advance))) else s, i,
          Draining(d.advance, d.bound))
    case PausedBy => if s.cursor.Some? then s.(cursor := Some(s.cursor.value.(paused := true))) else s
    case Resumed => if s.cursor.Some? then s.(cursor := Some(s.cursor.value.(paused := false, failures := 0))) else s
    case Restarted(i) => Set(s, i, Resting)
  }

  // ---------------------------------------------------------------------------------------------
  // The invariant
  // ---------------------------------------------------------------------------------------------

  /** Every watched change after the origin, up to `upto`, was part of a successful handler call. */
  ghost predicate Covered(s: Sys, upto: int) {
    forall e :: e in s.log && e.watched && s.origin < e.ts <= upto ==> e in s.delivered
  }

  /** The batch is the watched changes of the range, all of them and no other. */
  ghost predicate Holds(s: Sys, batch: seq<Entry>, lo: int, hi: int) {
    forall e :: e in batch <==> e in s.log && e.watched && lo < e.ts <= hi
  }

  /** Nothing is delivered but watched changes after the origin. */
  ghost predicate OnlyDue(s: Sys) {
    forall e :: e in s.delivered ==> s.cursor.Some? && e in s.log && e.watched && s.origin < e.ts
  }

  ghost predicate InstanceOk(s: Sys, d: Instance) {
    match d
    case Resting => true
    case Peeked(b) => b <= s.bound
    case Draining(at, _) => s.cursor.Some? && s.origin <= at <= s.bound && Covered(s, at)
    case Holding(at, _, batch, advance) =>
      s.cursor.Some? && s.origin <= at < advance <= s.bound && Covered(s, at) && Holds(s, batch, at, advance)
    case Advancing(at, _, advance) =>
      s.cursor.Some? && s.origin <= at < advance <= s.bound && Covered(s, advance)
  }

  ghost predicate Inv(s: Sys) {
    && Ascending(s.log) && 0 <= s.bound
    && (forall i :: 0 <= i < |s.log| ==> s.log[i].ts <= s.bound)
    && (s.cursor.Some? ==> s.origin <= s.cursor.value.ts <= s.bound && Covered(s, s.cursor.value.ts))
    && OnlyDue(s)
    && (forall i :: 0 <= i < |s.instances| ==> InstanceOk(s, s.instances[i]))
  }

  lemma OthersKept(s: Sys, s': Sys, i: nat)
    requires Inv(s) && i < |s.instances| && |s'.instances| == |s.instances|
    requires forall j :: 0 <= j < |s.instances| && j != i ==> s'.instances[j] == s.instances[j]
    requires s'.log == s.log && s'.bound == s.bound && s.delivered <= s'.delivered
    requires s.cursor.Some? ==> s'.cursor.Some? && s'.origin == s.origin
    requires InstanceOk(s', s'.instances[i])
    ensures forall j :: 0 <= j < |s'.instances| ==> InstanceOk(s', s'.instances[j])
  {
  }

  /** A scan holds every watched change up to where it got. */
  lemma ScanHolds(s: Sys, cfg: Config, at: int)
    requires Inv(s) && cfg.batchSize >= 1 && at < s.bound
    ensures var scan := Look(s, cfg, at);
            && at < scan.maxScannedTs <= s.bound && Holds(s, scan.changes, at, scan.maxScannedTs)
            && forall i :: 0 <= i < |scan.changes| ==> at < scan.changes[i].ts <= scan.maxScannedTs
  {
    var scan := Look(s, cfg, at);
    ReadLogComplete(s.log, s.bound, at, cfg.batchSize);
    var range := Between(s.log, at, scan.maxScannedTs);
    forall x ensures x in scan.changes <==> x in s.log && x.watched && at < x.ts <= scan.maxScannedTs {
      BetweenIs(s.log, at, scan.maxScannedTs, x);
      WatchedIs(range, x);
    }
    BetweenAscends(s.log, at, scan.maxScannedTs);
    WatchedAscends(range, at, scan.maxScannedTs);
  }

  /** A scan that found nothing covers what it scanned; a cut batch holds all it advances over. */
  lemma ScanKeeps(s: Sys, cfg: Config, e: Event)
    requires Inv(s) && Enabled(s, cfg, e) && e.Scanned? && cfg.batchSize >= 1
    ensures Inv(Next(s, cfg, e))
  {
    var d := s.instances[e.i];
    assert InstanceOk(s, d);
    if d.at < s.bound {
      var scan := Look(s, cfg, d.at);
      ScanHolds(s, cfg, d.at);
      if scan.changes != [] {
        HeldByCut(s, scan, d.at, e.k, e.advance);
      }
    }
    OthersKept(s, Next(s, cfg, e), e.i);
  }

  lemma HeldByCut(s: Sys, scan: Scan, at: int, k: nat, advance: int)
    requires scan.changes != [] && SafeCut(scan.changes, scan.maxScannedTs, k, advance)
    requires forall i :: 0 <= i < |scan.changes| ==> at < scan.changes[i].ts <= scan.maxScannedTs
    requires Holds(s, scan.changes, at, scan.maxScannedTs)
    ensures at < advance <= scan.maxScannedTs && Holds(s, scan.changes[..k], at, advance)
  {
  }

  lemma LogKeeps(s: Sys, cfg: Config, e: Event)
    requires Inv(s) && Enabled(s, cfg, e) && e.Logged?
    ensures Inv(Next(s, cfg, e))
  {
  }

  /** An operator's pause or resume moves no cursor. */
  lemma OperatorKeeps(s: Sys, cfg: Config, e: Event)
    requires Inv(s) && (e.PausedBy? || e.Resumed?)
    ensures Inv(Next(s, cfg, e))
  {
  }

  lemma EnsureKeeps(s: Sys, cfg: Config, e: Event)
    requires Inv(s) && Enabled(s, cfg, e) && e.EnsureCursor?
    ensures Inv(Next(s, cfg, e))
  {
  }

  /** A successful call covers what it held; an advance moves to a covered position or not at all. */
  lemma DeliveryKeeps(s: Sys, cfg: Config, e: Event)
    requires Inv(s) && Enabled(s, cfg, e) && (e.HandlerReturned? || e.AdvanceCursor?)
    ensures Inv(Next(s, cfg, e))
  {
    OthersKept(s, Next(s, cfg, e), e.i);
  }

  lemma NextKeeps(s: Sys, cfg: Config, e: Event)
    requires Inv(s) && Enabled(s, cfg, e) && cfg.batchSize >= 1
    ensures Inv(Next(s, cfg, e))
  {
    match e
    case Logged(_, _) => LogKeeps(s, cfg, e);
    case Scanned(_, _, _) => ScanKeeps(s, cfg, e);
    case PausedBy => OperatorKeeps(s, cfg, e);
    case Resumed => OperatorKeeps(s, cfg, e);
    case EnsureCursor(_) => EnsureKeeps(s, cfg, e);
    case HandlerReturned(_) => DeliveryKeeps(s, cfg, e);
    case AdvanceCursor(_) => DeliveryKeeps(s, cfg, e);
    case _ => OthersKept(s, Next(s, cfg, e), e.i);
  }

  // ---------------------------------------------------------------------------------------------
  // Whole runs
  // ---------------------------------------------------------------------------------------------

  function Initial(instances: nat): Sys { Sys([], 0, None, 0, {}, seq(instances, _ => Resting)) }

  ghost function RunOf(n: nat, cfg: Config, events: seq<Event>): Option<Sys> {
    if events == [] then Some(Initial(n))
    else
      var m := |events| - 1;
      match RunOf(n, cfg, events[..m])
      case None => None
      case Some(s) => if Enabled(s, cfg, events[m]) then Some(Next(s, cfg, events[m])) else None
  }

  /**
   No skipped change: for any number of instances and any interleaving of scans, deliveries, failures,
   pauses, resumes, restarts and stale advances, every watched change between the cursor's first position
   and where it is now was part of a handler call that succeeded, and no other change ever was.
   */
  lemma {:induction false} NoSkippedChange(n: nat, cfg: Config, events: seq<Event>)
    requires cfg.batchSize >= 1 && RunOf(n, cfg, events).Some?
    ensures var s := RunOf(n, cfg, events).value;
            Inv(s) && OnlyDue(s) && (s.cursor.Some? ==> Covered(s, s.cursor.value.ts))
  {
    if events != [] {
      var m := |events| - 1;
      NoSkippedChange(n, cfg, events[..m]);
      NextKeeps(RunOf(n, cfg, events[..m]).value, cfg, events[m]);
    }
  }

  ghost predicate Onward(a: Sys, b: Sys) {
    a.cursor.Some? ==> b.cursor.Some? && b.origin == a.origin && a.cursor.value.ts <= b.cursor.value.ts
  }

  lemma NextOnward(s: Sys, cfg: Config, e: Event)
    requires Inv(s) && Enabled(s, cfg, e)
    ensures Onward(s, Next(s, cfg, e))
  {
  }

  /** The stored cursor never goes back, and its first position is never forgotten. */
  lemma {:induction false} CursorNeverGoesBack(n: nat, cfg: Config, events: seq<Event>, m: nat)
    requires cfg.batchSize >= 1 && RunOf(n, cfg, events).Some? && m <= |events| && RunOf(n, cfg, events[..m]).Some?
    ensures Onward(RunOf(n, cfg, events[..m]).value, RunOf(n, cfg, events).value)
  {
    if m == |events| {
      assert events[..m] == events;
    } else {
      var k := |events| - 1;
      assert events[..k][..m] == events[..m];
      CursorNeverGoesBack(n, cfg, events[..k], m);
      NoSkippedChange(n, cfg, events[..k]);
      NextOnward(RunOf(n, cfg, events[..k]).value, cfg, events[k]);
    }
  }

  /** The log reached `bound` while there was no cursor yet. */
  ghost predicate TipBefore(n: nat, cfg: Config, events: seq<Event>, bound: int) {
    exists m: nat :: m <= |events| && WasTip(RunOf(n, cfg, events[..m]), bound)
  }

  ghost predicate WasTip(s: Option<Sys>, bound: int) { s.Some? && s.value.cursor.None? && s.value.bound == bound }

  lemma TipStays(n: nat, cfg: Config, events: seq<Event>, e: Event, bound: int)
    requires TipBefore(n, cfg, events, bound)
    ensures TipBefore(n, cfg, events + [e], bound)
  {
    var m: nat :| m <= |events| && WasTip(RunOf(n, cfg, events[..m]), bound);
    assert (events + [e])[..m] == events[..m];
  }

  lemma TipNow(n: nat, cfg: Config, events: seq<Event>, bound: int)
    requires WasTip(RunOf(n, cfg, events), bound)
    ensures TipBefore(n, cfg, events, bound)
  {
    assert events[..|events|] == events;
  }

  ghost predicate TipsKnown(n: nat, cfg: Config, events: seq<Event>, s: Sys) {
    if s.cursor.Some? then if cfg.fromStart then s.origin == 0 else TipBefore(n, cfg, events, s.origin)
    else
      forall i :: 0 <= i < |s.instances| && s.instances[i].Peeked? ==> TipBefore(n, cfg, events, s.instances[i].bound)
  }

  lemma TipsStayKnown(n: nat, cfg: Config, events: seq<Event>, s: Sys, e: Event, s': Sys)
    requires RunOf(n, cfg, events) == Some(s) && Enabled(s, cfg, e) && s' == Next(s, cfg, e)
    requires TipsKnown(n, cfg, events, s)
    ensures TipsKnown(n, cfg, events + [e], s')
  {
    if s.cursor.Some? {
      if !cfg.fromStart { TipStays(n, cfg, events, e, s.origin); }
    } else {
      TipNow(n, cfg, events, s.bound);
      TipStays(n, cfg, events, e, s.bound);
      forall i | 0 <= i < |s.instances| && s.instances[i].Peeked?
        ensures TipBefore(n, cfg, events + [e], s.instances[i].bound)
      {
        TipStays(n, cfg, events, e, s.instances[i].bound);
      }
    }
  }

  /** A cursor starts at zero, or at a tip that the log had before there was a cursor. */
  lemma {:induction false} StartsAtTheTip(n: nat, cfg: Config, events: seq<Event>)
    requires RunOf(n, cfg, events).Some?
    ensures TipsKnown(n, cfg, events, RunOf(n, cfg, events).value)
  {
    if events != [] {
      var m := |events| - 1;
      StartsAtTheTip(n, cfg, events[..m]);
      var s := RunOf(n, cfg, events[..m]).value;
      assert events[..m] + [events[m]] == events;
      TipsStayKnown(n, cfg, events[..m], s, events[m], Next(s, cfg, events[m]));
    }
  }

  // ---------------------------------------------------------------------------------------------
  // Pauses
  // ---------------------------------------------------------------------------------------------

  /** Handler calls that failed since the cursor last moved or was resumed, as the run tells it. */
  ghost function Streak(n: nat, cfg: Config, events: seq<Event>): nat
    requires RunOf(n, cfg, events).Some?
  {
    if events == [] then 0
    else
      var m := |events| - 1;
      var s, e := RunOf(n, cfg, events[..m]).value, events[m];
      match e
      case HandlerThrew(_) => Streak(n, cfg, events[..m]) + 1
      case Resumed => 0
      case AdvanceCursor(i) =>
        if s.cursor.Some? && s.cursor.value.ts == s.instances[i].at then 0 else Streak(n, cfg, events[..m])
      case _ => Streak(n, cfg, events[..m])
  }

  /** Since the last resume somebody paused a cursor, the breaker tripped, or eight calls in a row failed. */
  ghost predicate Stopped(n: nat, cfg: Config, events: seq<Event>)
    requires RunOf(n, cfg, events).Some?
  {
    if events == [] then false
    else
      var m := |events| - 1;
      match events[m]
      case Resumed => false
      case PausedBy => RunOf(n, cfg, events[..m]).value.cursor.Some?
      case BreakerTripped(_) => true
      case HandlerThrew(_) => Stopped(n, cfg, events[..m]) || Streak(n, cfg, events) >= 8
      case _ => Stopped(n, cfg, events[..m])
  }

  /** An instance that has got as far as scanning has a row to scan for. */
  ghost predicate HasRow(s: Sys) {
    forall i :: 0 <= i < |s.instances| && !s.instances[i].Resting? && !s.instances[i].Peeked? ==> s.cursor.Some?
  }

  lemma StepPaused(s: Sys, cfg: Config, e: Event, streak: nat, stopped: bool)
    requires HasRow(s) && Enabled(s, cfg, e)
    requires if s.cursor.Some? then s.cursor.value.failures == streak && s.cursor.value.paused == stopped
             else streak == 0 && !stopped
    ensures var s' := Next(s, cfg, e);
            && HasRow(s') && (e.HandlerThrew? || e.BreakerTripped? ==> s'.cursor.Some?)
            && (s'.cursor.Some? ==>
                 && s'.cursor.value.failures ==
                    (match e
                     case HandlerThrew(_) => streak + 1
                     case Resumed => 0
                     case AdvanceCursor(i) =>
                       if s.cursor.Some? && s.cursor.value.ts == s.instances[i].at then 0 else streak
                     case _ => streak)
                 && (s'.cursor.value.paused <==>
                     match e
                     case Resumed => false
                     case PausedBy => true
                     case BreakerTripped(_) => true
                     case HandlerThrew(_) => stopped || streak + 1 >= 8
                     case _ => stopped))
  {
  }

  /** The row's failure count and its pause are what the history says. */
  lemma {:induction false} PausedIff(n: nat, cfg: Config, events: seq<Event>)
    requires RunOf(n, cfg, events).Some?
    ensures HasRow(RunOf(n, cfg, events).value)
    ensures var c := RunOf(n, cfg, events).value.cursor;
            if c.Some? then c.value.failures == Streak(n, cfg, events) && c.value.paused == Stopped(n, cfg, events)
            else Streak(n, cfg, events) == 0 && !Stopped(n, cfg, events)
  {
    if events != [] {
      var m := |events| - 1;
      PausedIff(n, cfg, events[..m]);
      StepPaused(RunOf(n, cfg, events[..m]).value, cfg, events[m], Streak(n, cfg, events[..m]),
                 Stopped(n, cfg, events[..m]));
    }
  }

  /** The row is paused and instance `i` has no scan under way. */
  ghost predicate Idle(s: Sys, i: nat) {
    s.cursor.Some? && s.cursor.value.paused && i < |s.instances| && (s.instances[i].Resting? || s.instances[i].Peeked?)
  }

  lemma NextIdle(s: Sys, cfg: Config, e: Event, i: nat)
    requires Enabled(s, cfg, e) && !e.Resumed? && Idle(s, i)
    ensures Idle(Next(s, cfg, e), i)
    ensures e.EnsureCursor? && e.i == i ==> Next(s, cfg, e).instances[i].Resting?
  {
  }

  /** From a pause until a resume, an instance without a scan under way starts none. */
  lemma {:induction false} PausedStartsNothing(n: nat, cfg: Config, events: seq<Event>, m: nat, i: nat)
    requires RunOf(n, cfg, events).Some? && m <= |events| && RunOf(n, cfg, events[..m]).Some?
    requires Idle(RunOf(n, cfg, events[..m]).value, i) && Resumed !in events[m..]
    ensures Idle(RunOf(n, cfg, events).value, i)
  {
    if m == |events| {
      assert events[..m] == events;
    } else {
      var k := |events| - 1;
      assert events[..k][..m] == events[..m] && events[m..] == events[..k][m..] + [events[k]];
      PausedStartsNothing(n, cfg, events[..k], m, i);
      NextIdle(RunOf(n, cfg, events[..k]).value, cfg, events[k], i);
    }
  }

  ghost predicate AllIdle(s: Sys) {
    s.cursor.Some? && s.cursor.value.paused && forall i: nat :: i < |s.instances| ==> Idle(s, i)
  }

  /** ... and once all are idle, nothing is delivered and the cursor stands still until the resume. */
  lemma {:induction false} PausedDeliversNothing(n: nat, cfg: Config, events: seq<Event>, m: nat)
    requires RunOf(n, cfg, events).Some? && m <= |events| && RunOf(n, cfg, events[..m]).Some?
    requires AllIdle(RunOf(n, cfg, events[..m]).value) && Resumed !in events[m..]
    ensures var s, s' := RunOf(n, cfg, events[..m]).value, RunOf(n, cfg, events).value;
            AllIdle(s') && s'.delivered == s.delivered && s'.cursor == s.cursor
  {
    if m == |events| {
      assert events[..m] == events;
    } else {
      var k := |events| - 1;
      assert events[..k][..m] == events[..m] && events[m..] == events[..k][m..] + [events[k]];
      PausedDeliversNothing(n, cfg, events[..k], m);
      var s1 := RunOf(n, cfg, events[..k]).value;
      forall i: nat | i < |s1.instances| ensures Idle(Next(s1, cfg, events[k]), i) {
        assert Idle(s1, i);
        NextIdle(s1, cfg, events[k], i);
      }
      IdleStep(s1, cfg, events[k]);
    }
  }

  lemma IdleStep(s: Sys, cfg: Config, e: Event)
    requires AllIdle(s) && Enabled(s, cfg, e) && !e.Resumed?
    ensures var s' := Next(s, cfg, e);
            s'.delivered == s.delivered && s'.cursor == s.cursor && |s'.instances| == |s.instances|
  {
    if !e.Logged? && !e.PausedBy? { assert Idle(s, e.i); }
  }

  ghost function Step(s: Option<Sys>, cfg: Config, e: Event): Option<Sys> {
    if s.Some? && Enabled(s.value, cfg, e) then Some(Next(s.value, cfg, e)) else None
  }

  lemma RunSteps(n: nat, cfg: Config, events: seq<Event>, e: Event)
    ensures RunOf(n, cfg, events + [e]) == Step(RunOf(n, cfg, events), cfg, e)
  {
  }

  /** A driver that has peeked at one logged change and made its cursor below it. */
  lemma FirstPass(e: Entry, cfg: Config, events: seq<Event>)
    requires e.watched && e.ts == 1 && cfg.fromStart
    requires events == [Logged([e], 1)] + [Peek(0)] + [EnsureCursor(0)]
    ensures RunOf(1, cfg, events) == Some(Sys([e], 1, Some(Cursor(0, false, 0)), 0, {}, [Draining(0, 1)]))
  {
    var one := [Logged([e], 1)];
    assert [] + one == one;
    RunSteps(1, cfg, [], Logged([e], 1));
    assert Initial(1).instances == [Resting] && Initial(1).log + [e] == [e];
    assert RunOf(1, cfg, one) == Some(Sys([e], 1, None, 0, {}, [Resting]));
    RunSteps(1, cfg, one, Peek(0));
    RunSteps(1, cfg, one + [Peek(0)], EnsureCursor(0));
    assert [Resting][0 := Peeked(1)] == [Peeked(1)] && [Peeked(1)][0 := Draining(0, 1)] == [Draining(0, 1)];
  }

  /** With a batch size of zero a scan looks quiet and the cursor moves over a change that was never delivered. */
  lemma ZeroBatchSkips(e: Entry)
    requires e.watched && e.ts == 1
    ensures var events := [Logged([e], 1)] + [Peek(0)] + [EnsureCursor(0)] + [Scanned(0, 0, 0)] + [AdvanceCursor(0)];
            var s := RunOf(1, Config(true, 0), events);
            s.Some? && s.value.cursor == Some(Cursor(1, false, 0)) && s.value.delivered == {} && !Covered(s.value, 1)
  {
    var cfg := Config(true, 0);
    var three := [Logged([e], 1)] + [Peek(0)] + [EnsureCursor(0)];
    FirstPass(e, cfg, three);
    RunSteps(1, cfg, three, Scanned(0, 0, 0));
    RunSteps(1, cfg, three + [Scanned(0, 0, 0)], AdvanceCursor(0));
    assert e in [e];
  }
}
