/**
 The driver's wake coalescing (components/scheduler/src/driver.ts:96-185) as a small concurrent
 protocol.  Code between two awaits is atomic; wakes, commits and `stop` fall between any two steps.
 */
module Wake {
  import opened Options

  const BATCH_CAP: nat := 64

  /** Where the loop is: outside, awaiting a peek (read or not yet), working through a batch, or past its last check. */
  datatype Pc = Idle | Peeking(read: Option<seq<nat>>) | Working(left: seq<nat>) | Exited(ok: bool)

  /** `due` is the set of due jobs; `last` is what the most recent peek read. */
  datatype Driver = Driver(pc: Pc, pendingWake: bool, stopped: bool, due: set<nat>, last: seq<nat>)

  function Running(d: Driver): bool { !d.pc.Idle? }

  datatype Event =
    | Woken                         // a timer, or a test
    | Committed(due: set<nat>)      // a commit to the scheduler's tables, with its notice
    | TimePassed(due: set<nat>)     // jobs fall due without a commit
    | Stopped
    | Read(batch: seq<nat>)         // the peek reads its snapshot
    | Returned                      // the peek's call settles
    | Claimed                       // the next job of the batch is claimed, or was lost to another caller
    | Checked                       // the batch is done: the loop condition is evaluated
    | Threw                         // an internal call fails
    | Settled                       // the pass's `finally` runs

  /** A batch is some of the due jobs, and none only if none is due. */
  ghost predicate BatchOf(batch: seq<nat>, due: set<nat>) {
    |batch| <= BATCH_CAP && (forall i :: 0 <= i < |batch| ==> batch[i] in due) && (batch == [] ==> due == {})
  }

  ghost predicate Enabled(d: Driver, e: Event) {
    match e
    case TimePassed(due) => d.due <= due
    case Read(batch) => d.pc == Peeking(None) && BatchOf(batch, d.due)
    case Returned => d.pc.Peeking? && d.pc.read.Some?
    case Claimed => d.pc.Working? && d.pc.left != []
    case Checked => d.pc.Working? && d.pc.left == []
    case Threw => d.pc.Peeking? || d.pc.Working?
    case Settled => d.pc.Exited?
    case _ => true
  }

  /** The head of the loop: the bit is cleared, then the peek starts. */
  function StartPass(d: Driver): Driver { d.(pc := Peeking(None), pendingWake := false) }

  /** `wake`, and `iterate` behind it. */
  function Signal(d: Driver): Driver {
    if d.stopped then d
    else if Running(d) then d.(pendingWake := true)
    else StartPass(d)
  }

  function Next(d: Driver, e: Event): Driver {
    match e
    case Woken => Signal(d)
    case Committed(due) => Signal(d.(due := due))
    case TimePassed(due) => d.(due := due)
    case Stopped => d.(stopped := true)
    case Read(batch) => d.(pc := Peeking(Some(batch)), last := batch)
    case Returned => if d.pc.Peeking? && d.pc.read.Some? then d.(pc := Working(d.pc.read.value)) else d
    case Claimed =>
      if !d.pc.Working? || d.pc.left == [] then d
      else
        var d1 := d.(pc := Working(d.pc.left[1..]));
        // A successful claim commits, and its notice arrives before the call settles.
        if d.pc.left[0] in d.due then Signal(d1.(due := d.due - {d.pc.left[0]})) else d1
    case Checked => if d.pendingWake then StartPass(d) else d.(pc := Exited(true))
    case Threw => d.(pc := Exited(false))
    case Settled => if d.pendingWake then Signal(d.(pc := Idle)) else d.(pc := Idle)
  }

  /** The driver's own successful claim is a commit too, and its notice a wake. */
  predicate Wakes(d: Driver, e: Event) {
    && !d.stopped
    && (e.Woken? || e.Committed? || (e.Claimed? && d.pc.Working? && d.pc.left != [] && d.pc.left[0] in d.due))
  }

  /** The event starts a peek: the driver was elsewhere and is now awaiting one that has not read yet. */
  predicate Peeks(d: Driver, e: Event) { d.pc != Peeking(None) && Next(d, e).pc == Peeking(None) }

  function Initial(due: set<nat>): Driver { Driver(Idle, false, false, due, []) }

  ghost function RunOf(due: set<nat>, events: seq<Event>): Option<Driver> {
    if events == [] then Some(Initial(due))
    else
      var n := |events| - 1;
      match RunOf(due, events[..n])
      case None => None
      case Some(d) => if Enabled(d, events[n]) then Some(Next(d, events[n])) else None
  }

  /** A wake has come since the last peek started. */
  ghost predicate Unserved(due: set<nat>, events: seq<Event>)
    requires RunOf(due, events).Some?
  {
    if events == [] then false
    else
      var n := |events| - 1;
      var d := RunOf(due, events[..n]).value;
      !Peeks(d, events[n]) && (Wakes(d, events[n]) || Unserved(due, events[..n]))
  }

  /** The bit says exactly whether a wake is unserved, and an idle driver holds one only after `stop`. */
  lemma {:induction false} WakeIsRemembered(due: set<nat>, events: seq<Event>)
    requires RunOf(due, events).Some?
    ensures var d := RunOf(due, events).value;
            && (Unserved(due, events) <==> d.pendingWake)
            && (d.pc.Idle? && d.pendingWake ==> d.stopped)
  {
    if events != [] {
      WakeIsRemembered(due, events[..|events| - 1]);
    }
  }

  lemma {:induction false} PrefixRuns(due: set<nat>, events: seq<Event>, m: nat)
    requires RunOf(due, events).Some? && m <= |events|
    ensures RunOf(due, events[..m]).Some?
  {
    if m < |events| {
      assert events[..|events| - 1][..m] == events[..m];
      PrefixRuns(due, events[..|events| - 1], m);
    } else {
      assert events[..m] == events;
    }
  }

  ghost predicate PeeksAt(due: set<nat>, events: seq<Event>, m: nat)
    requires RunOf(due, events).Some?
  {
    && m < |events|
    && RunOf(due, events[..m]).Some?
    && Peeks(RunOf(due, events[..m]).value, events[m])
  }

  lemma {:induction false} ServedByPeek(due: set<nat>, events: seq<Event>, i: nat)
    requires RunOf(due, events).Some? && i < |events| && !Unserved(due, events)
    requires RunOf(due, events[..i]).Some? && Wakes(RunOf(due, events[..i]).value, events[i])
    ensures exists m: nat :: i <= m && PeeksAt(due, events, m)
  {
    var n := |events| - 1;
    if Peeks(RunOf(due, events[..n]).value, events[n]) {
      assert PeeksAt(due, events, n);
    } else {
      assert events[..n][..i] == events[..i];
      ServedByPeek(due, events[..n], i);
      var m: nat :| i <= m && PeeksAt(due, events[..n], m);
      assert events[..n][..m] == events[..m];
      assert PeeksAt(due, events, m);
    }
  }

  /**
   No lost wake: a wake that came before `stop` is followed by a peek that starts at or after it, by the
   time the driver is next idle and not stopped, in every interleaving with the loop exit and the `finally`.
   */
  lemma NoLostWake(due: set<nat>, events: seq<Event>, i: nat)
    requires RunOf(due, events).Some? && i < |events|
    requires RunOf(due, events[..i]).Some? && Wakes(RunOf(due, events[..i]).value, events[i])
    requires var d := RunOf(due, events).value; d.pc.Idle? && !d.stopped
    ensures exists m: nat :: i <= m && PeeksAt(due, events, m)
  {
    WakeIsRemembered(due, events);
    ServedByPeek(due, events, i);
  }

  predicate OwnStep(e: Event) { e.Read? || e.Returned? || e.Claimed? || e.Checked? || e.Threw? || e.Settled? }

  /** Own steps left before the pass is over. */
  function Rank(d: Driver): nat {
    match d.pc
    case Idle => 0
    case Exited(_) => 1
    case Working(left) => |left| + 2
    case Peeking(Some(batch)) => |batch| + 3
    case Peeking(None) => BATCH_CAP + 4
  }

  /** Every own step starts a peek or brings the end of the pass nearer, and nothing else delays it. */
  lemma DriverProgress(d: Driver, e: Event)
    requires Enabled(d, e) && Running(d) && !Peeks(d, e)
    ensures OwnStep(e) ==> Rank(Next(d, e)) < Rank(d)
    ensures !OwnStep(e) ==> Rank(Next(d, e)) == Rank(d)
  {
  }

  /** A pass that ends leaves a wake unserved if and only if the bit is set and `stop` has come. */
  lemma PassLosesAWakeIff(due: set<nat>, events: seq<Event>)
    requires RunOf(due, events + [Settled]).Some? && RunOf(due, events).Some?
    ensures var d := RunOf(due, events).value;
            Unserved(due, events + [Settled]) && RunOf(due, events + [Settled]).value.pc.Idle? <==>
              d.pendingWake && d.stopped
  {
    assert (events + [Settled])[..|events|] == events;
    WakeIsRemembered(due, events);
    WakeIsRemembered(due, events + [Settled]);
  }

  lemma RunSteps(due: set<nat>, events: seq<Event>, d: Driver, e: Event)
    requires RunOf(due, events) == Some(d) && Enabled(d, e)
    ensures RunOf(due, events + [e]) == Some(Next(d, e))
  {
    assert (events + [e])[..|events|] == events;
  }

  /** ... and that happens: a wake after the last check, then `stop`, then the `finally`. */
  lemma StopCanLoseAWake() returns (events: seq<Event>)
    ensures RunOf({}, events).Some? && RunOf({}, events).value.pc.Idle? && Unserved({}, events)
  {
    var d := Initial({});
    events := [];
    RunSteps({}, events, d, Woken);
    events, d := events + [Woken], StartPass(d);
    RunSteps({}, events, d, Read([]));
    events, d := events + [Read([])], d.(pc := Peeking(Some([])));
    RunSteps({}, events, d, Returned);
    events, d := events + [Returned], d.(pc := Working([]));
    RunSteps({}, events, d, Checked);
    events, d := events + [Checked], d.(pc := Exited(true));
    RunSteps({}, events, d, Woken);
    events, d := events + [Woken], d.(pendingWake := true);
    RunSteps({}, events, d, Stopped);
    events, d := events + [Stopped], d.(stopped := true);
    RunSteps({}, events, d, Settled);
    events := events + [Settled];
    WakeIsRemembered({}, events);
  }

  // ---------------------------------------------------------------------------------------------
  // Going idle
  // ---------------------------------------------------------------------------------------------

  /** While nothing woke the pass, it has claimed nothing and its whole batch is still due. */
  ghost predicate Drained(d: Driver) {
    !d.stopped && !d.pendingWake ==>
      match d.pc
      case Peeking(Some(batch)) => batch == d.last && (forall i :: 0 <= i < |batch| ==> batch[i] in d.due)
      case Working(left) => left == d.last && (forall i :: 0 <= i < |left| ==> left[i] in d.due)
      case Exited(ok) => ok ==> d.last == []
      case _ => true
  }

  /** In every reachable state what is left of the last peek is still to be worked off, or the pass is not over. */
  lemma {:induction false} AlwaysDrained(due: set<nat>, events: seq<Event>)
    requires RunOf(due, events).Some?
    ensures Drained(RunOf(due, events).value)
  {
    if events != [] {
      AlwaysDrained(due, events[..|events| - 1]);
    }
  }

  /** How many jobs of the batch were tried since the last peek read it. */
  ghost function Tried(due: set<nat>, events: seq<Event>): nat
    requires RunOf(due, events).Some?
  {
    if events == [] || events[|events| - 1].Read? then 0
    else Tried(due, events[..|events| - 1]) + if events[|events| - 1].Claimed? then 1 else 0
  }

  /** A batch is worked off in order and to its end: what is left of it is what was not tried yet. */
  lemma {:induction false} BatchIsWorkedOff(due: set<nat>, events: seq<Event>)
    requires RunOf(due, events).Some?
    ensures var d, tried := RunOf(due, events).value, Tried(due, events);
            && (d.pc.Working? ==> tried <= |d.last| && d.pc.left == d.last[tried..])
            && (d.pc.Peeking? && d.pc.read.Some? ==> tried == 0 && d.pc.read.value == d.last)
  {
    if events != [] {
      BatchIsWorkedOff(due, events[..|events| - 1]);
    }
  }

  /** Each try takes the next job of the batch, if it is still due, and touches no other. */
  lemma TryTakesTheNext(due: set<nat>, events: seq<Event>)
    requires RunOf(due, events + [Claimed]).Some? && RunOf(due, events).Some?
    ensures var d, d', n := RunOf(due, events).value, RunOf(due, events + [Claimed]).value, Tried(due, events);
            n < |d.last| && d'.due == d.due - {d.last[n]} && d'.last == d.last
  {
    assert (events + [Claimed])[..|events|] == events;
    BatchIsWorkedOff(due, events);
  }

  /** A driver that goes idle without an error, and was not stopped, had nothing due at its last peek. */
  lemma IdleMeansNothingWasDue(due: set<nat>, events: seq<Event>)
    requires RunOf(due, events + [Settled]).Some?
    requires var d := RunOf(due, (events + [Settled])[..|events|]);
             d.Some? && d.value.pc == Exited(true) && !d.value.stopped
    ensures var d' := RunOf(due, events + [Settled]).value;
            d'.pc.Idle? ==> d'.last == []
  {
    AlwaysDrained(due, (events + [Settled])[..|events|]);
  }

  // ---------------------------------------------------------------------------------------------
  // The closure variables as written
  // ---------------------------------------------------------------------------------------------

  class DriverLoop {
    var running: bool
    var pendingWake: bool
    var stopped: bool
    var pc: Pc
    var due: set<nat>
    var last: seq<nat>

    ghost predicate Consistent()
      reads this
    {
      running <==> !pc.Idle?
    }

    function View(): Driver
      reads this
    {
      Driver(pc, pendingWake, stopped, due, last)
    }

    constructor (d: set<nat>)
      ensures Consistent() && View() == Initial(d)
    {
      running, pendingWake, stopped, pc, due, last := false, false, false, Idle, d, [];
    }

    /** `wake`. */
    method WakeUp()
      requires Consistent()
      modifies this
      ensures Consistent() && View() == Next(old(View()), Woken)
    {
      if stopped {
        return;
      }
      Iterate();
    }

    /** `iterate`: coalesce into the pass in flight, or start one. */
    method Iterate()
      requires Consistent() && !stopped
      modifies this
      ensures Consistent() && View() == Signal(old(View()))
    {
      if running {
        pendingWake := true;
        return;
      }
      running := true;
      BeginPass();
    }

    method BeginPass()
      requires running
      modifies this
      ensures Consistent() && View() == StartPass(old(View())) && running
    {
      pendingWake := false;
      pc := Peeking(None);
    }

    /** The `do … while (pendingWake)` check at the end of a batch. */
    method CheckLoop()
      requires Consistent() && pc == Working([])
      modifies this
      ensures Consistent() && View() == Next(old(View()), Checked)
    {
      if pendingWake {
        BeginPass();
      } else {
        pc := Exited(true);
      }
    }

    /** The `finally` of the pass. */
    method Settle()
      requires Consistent() && pc.Exited?
      modifies this
      ensures Consistent() && View() == Next(old(View()), Settled)
    {
      running, pc := false, Idle;
      if pendingWake {
        WakeUp();
      }
    }

    method Stop()
      requires Consistent()
      modifies this
      ensures Consistent() && View() == Next(old(View()), Stopped)
    {
      stopped := true;
    }
  }
}
