/**
 One driver instance draining one trigger (components/triggers/src/driver.ts:153-224), over the cursor row
 its mutations update in place (components/triggers/src/modules.ts:59-173).
 */
module TriggerDrivers {
  import opened Options
  import opened ChangeLog
  import opened Triggers
  import opened Windows

  // ---------------------------------------------------------------------------------------------
  // Consecutive scans put together
  // ---------------------------------------------------------------------------------------------

  lemma {:induction false} BetweenSplits(s: seq<Entry>, lo: int, mid: int, hi: int)
    requires Ascending(s) && lo <= mid <= hi
    ensures Between(s, lo, hi) == Between(s, lo, mid) + Between(s, mid, hi)
  {
    if s != [] {
      var n := |s| - 1;
      var before, e := s[..n], s[n];
      BetweenSplits(before, lo, mid, hi);
      if e.ts <= mid {
        NothingLater(s, n, mid, hi);
        LastOf(s, n, lo, mid);
        LastOf(s, n, lo, hi);
      } else {
        LastOf(s, n, lo, mid);
        LastOf(s, n, mid, hi);
        LastOf(s, n, lo, hi);
        SplitBeforeLast(Between(before, lo, mid), Between(before, mid, hi), if e.ts <= hi then [e] else []);
      }
    }
  }

  lemma LastOf(s: seq<Entry>, n: nat, lo: int, hi: int)
    requires n + 1 == |s|
    ensures Between(s, lo, hi) == Between(s[..n], lo, hi) + if lo < s[n].ts <= hi then [s[n]] else []
  {
  }

  lemma SplitBeforeLast(x: seq<Entry>, y: seq<Entry>, last: seq<Entry>)
    ensures (x + y) + last == x + (y + last)
  {
  }

  lemma NothingLater(s: seq<Entry>, n: nat, mid: int, hi: int)
    requires Ascending(s) && n + 1 == |s| && s[n].ts <= mid
    ensures Between(s, mid, hi) == [] && Between(s[..n], mid, hi) == []
  {
    NothingBetween(s[..n], mid, hi);
    NothingBetween(s, mid, hi);
  }

  lemma {:induction false} WatchedConcat(s: seq<Entry>, t: seq<Entry>)
    ensures Watched(s + t) == Watched(s) + Watched(t)
  {
    if t == [] {
      assert s + t == s;
    } else {
      var n := |t| - 1;
      WatchedConcat(s, t[..n]);
      assert (s + t)[..|s + t| - 1] == s + t[..n];
    }
  }

  /** The watched changes in a range are those of its two halves, in order. */
  lemma RangeSplits(s: seq<Entry>, lo: int, mid: int, hi: int)
    requires Ascending(s) && lo <= mid <= hi
    ensures Watched(Between(s, lo, hi)) == Watched(Between(s, lo, mid)) + Watched(Between(s, mid, hi))
  {
    BetweenSplits(s, lo, mid, hi);
    WatchedConcat(Between(s, lo, mid), Between(s, mid, hi));
  }

  /** A sequence that changes sides once is cut in only one place. */
  lemma CutIsUnique(x: seq<Entry>, y: seq<Entry>, k: nat, at: int)
    requires k <= |x + y|
    requires forall i :: 0 <= i < |x| ==> x[i].ts <= at
    requires forall i :: 0 <= i < |y| ==> y[i].ts > at
    requires forall i :: 0 <= i < k ==> (x + y)[i].ts <= at
    requires forall i :: k <= i < |x + y| ==> (x + y)[i].ts > at
    ensures (x + y)[..k] == x
  {
    var all := x + y;
    assert y != [] ==> all[|x|] == y[0];
    if k < |all| { assert all[k].ts > at; }
  }

  /** A safe cut sends exactly the watched changes up to where it lets the cursor move. */
  lemma CutIsARange(log: seq<Entry>, at: int, scan: Scan, k: nat, advance: int)
    requires Ascending(log) && Complete(log, at, scan) && scan.changes != []
    requires SafeCut(scan.changes, scan.maxScannedTs, k, advance)
    ensures at < advance <= scan.maxScannedTs && scan.changes[..k] == Watched(Between(log, at, advance))
  {
    var hi := scan.maxScannedTs;
    BetweenAscends(log, at, hi);
    WatchedAscends(Between(log, at, hi), at, hi);
    assert scan.changes[0].ts <= advance;
    RangeSplits(log, at, advance, hi);
    BetweenAscends(log, at, advance);
    WatchedAscends(Between(log, at, advance), at, advance);
    BetweenAscends(log, advance, hi);
    WatchedAscends(Between(log, advance, hi), advance, hi);
    CutIsUnique(Watched(Between(log, at, advance)), Watched(Between(log, advance, hi)), k, advance);
  }

  /** What a pass over a range must send: each watched change of it once and in order; with no batch size, nothing. */
  function Due(log: seq<Entry>, cfg: Config, from: int, to: int): seq<Entry> {
    if cfg.batchSize >= 1 then Watched(Between(log, from, to)) else []
  }

  lemma NothingDue(log: seq<Entry>, cfg: Config, at: int)
    ensures Due(log, cfg, at, at) == []
  {
    NothingBetween(log, at, at);
  }

  lemma DueSplits(log: seq<Entry>, cfg: Config, lo: int, mid: int, hi: int, before: seq<Entry>)
    requires Ascending(log) && lo <= mid <= hi
    ensures before + Due(log, cfg, lo, mid) + Due(log, cfg, mid, hi) == before + Due(log, cfg, lo, hi)
  {
    if cfg.batchSize >= 1 { RangeSplits(log, lo, mid, hi); }
  }

  // ---------------------------------------------------------------------------------------------
  // The driver
  // ---------------------------------------------------------------------------------------------

  /** The clock at the first `n` deliveries. */
  function Clocks(clock: nat -> int, n: nat): (r: seq<int>)
    ensures |r| == n
    ensures forall i :: 0 <= i < n ==> r[i] == clock(i)
  {
    seq(n, i requires 0 <= i < n => clock(i))
  }

  lemma OneMoreClock(clock: nat -> int, n: nat, before: seq<int>)
    ensures before + Clocks(clock, n) + [clock(n)] == before + Clocks(clock, n + 1)
  {
  }

  /** The breaker stops the `j`-th delivery of a pass. */
  predicate TripsAt(before: seq<int>, clock: nat -> int, cap: nat, j: nat) {
    Trips(before + Clocks(clock, j), clock(j), BREAKER_WINDOW_MS, cap)
  }

  /** The first `n` deliveries all went through. */
  ghost predicate Through(before: seq<int>, clock: nat -> int, handler: nat -> bool, cap: nat, n: nat) {
    forall j: nat :: j < n ==> !TripsAt(before, clock, cap, j) && handler(j)
  }

  /** The row of a pass that started from `c` and has got to `ts`: a move clears the failures. */
  function Moved(c: Cursor, ts: int): Cursor { Cursor(ts, false, if ts == c.ts then c.failures else 0) }

  datatype Outcome = BackingOff | WasPaused | Drained | HandlerFailed | Tripped

  /**
   A pass from `c` ended at `row`.  Every delivery but the last went through, and the last tells how it ended:
   with nothing left, with a failure that is counted and pauses at the eighth in a row, or with a breaker that
   pauses.
   */
  ghost predicate Ended(outcome: Outcome, c: Cursor, row: Cursor, bound: int, before: seq<int>, clock: nat -> int,
                        handler: nat -> bool, cap: nat, calls: nat)
  {
    var moved := Moved(c, row.ts);
    match outcome
    case Drained => row.ts >= bound && row == moved && Through(before, clock, handler, cap, calls)
    case HandlerFailed =>
      && row.ts < bound && calls > 0 && Through(before, clock, handler, cap, calls - 1)
      && !TripsAt(before, clock, cap, calls - 1) && !handler(calls - 1)
      && row == Cursor(row.ts, moved.failures + 1 >= 8, moved.failures + 1)
    case Tripped =>
      && row.ts < bound && calls > 0 && Through(before, clock, handler, cap, calls - 1)
      && TripsAt(before, clock, cap, calls - 1) && row == moved.(paused := true)
    case _ => false
  }

  /**
   What one turn of the drain loop does to a row at `at`: with nothing to deliver it moves on; a delivery is the
   `calls`-th of the pass, and moves on, fails, or trips the breaker.
   */
  ghost predicate Turned(outcome: Outcome, row: Cursor, row': Cursor, next: int, calls: nat, calls': nat,
                         before: seq<int>, clock: nat -> int, handler: nat -> bool, cap: nat)
  {
    && calls <= calls' <= calls + 1
    && outcome == (if calls' > calls && TripsAt(before, clock, cap, calls) then Tripped
                   else if calls' > calls && !handler(calls) then HandlerFailed else Drained)
    && match outcome
       case Drained => row.ts < next && row' == Cursor(next, false, 0)
       case HandlerFailed => row' == Failed(row)
       case _ => row' == row.(paused := true)
  }

  /** ... and to the backoff. */
  predicate Rearmed(outcome: Outcome, row': Cursor, calls: nat, calls': nat, was: Option<int>, next: Option<int>,
                    clock: nat -> int, delay: nat)
  {
    match outcome
    case Drained => next == if calls' > calls then None else was
    case HandlerFailed => next == if row'.paused then None else Some(clock(calls) + delay)
    case _ => next == was
  }

  lemma TurnGoesOn(c: Cursor, at: int, row': Cursor, next: int, calls: nat, calls': nat, before: seq<int>,
                   clock: nat -> int, handler: nat -> bool, cap: nat)
    requires c.ts <= at && Through(before, clock, handler, cap, calls)
    requires Turned(Drained, Moved(c, at), row', next, calls, calls', before, clock, handler, cap)
    ensures c.ts <= next && row' == Moved(c, next) && Through(before, clock, handler, cap, calls')
  {
  }

  lemma TurnEnds(outcome: Outcome, c: Cursor, at: int, bound: int, row': Cursor, next: int, calls: nat, calls': nat,
                 before: seq<int>, clock: nat -> int, handler: nat -> bool, cap: nat)
    requires c.ts <= at < bound && Through(before, clock, handler, cap, calls) && outcome != Drained
    requires Turned(outcome, Moved(c, at), row', next, calls, calls', before, clock, handler, cap)
    ensures row'.ts == at && Ended(outcome, c, row', bound, before, clock, handler, cap, calls')
  {
  }

  /** When the next attempt may be: a failure backs off unless it paused the row, a success clears the backoff. */
  function Backoff(outcome: Outcome, row: Cursor, before: Option<int>, clock: nat -> int, delay: nat, calls: nat)
    : Option<int>
  {
    if outcome == HandlerFailed && calls > 0 then if row.paused then None else Some(clock(calls - 1) + delay)
    else if calls == 0 || (outcome == Tripped && calls == 1) then before
    else None
  }

  class TriggerDriver {
    var row: Option<Cursor>
    var nextAttempt: Option<int>
    const breaker: Breaker
    /** Every change of every successful handler call, in the order of the calls. */
    var delivered: seq<Entry>

    constructor ()
      ensures row == None && nextAttempt == None && delivered == []
      ensures breaker.Valid() && fresh(breaker)
    {
      row, nextAttempt, delivered := None, None, [];
      breaker := new Breaker();
    }

    /** `_initCursor`. */
    method InitCursor(ts: int) returns (c: Cursor)
      modifies `row
      ensures row == Some(c)
      ensures c == if old(row).Some? then old(row).value else Cursor(ts, false, 0)
    {
      match row
      case Some(existing) => return existing;
      case None =>
        c := Cursor(ts, false, 0);
        row := Some(c);
    }

    /** `_advanceCursor`. */
    method AdvanceCursor(to: int, expected: int)
      modifies `row
      ensures row == if old(row).Some? then Some(Advanced(old(row).value, expected, to)) else None
    {
      if row.Some? && row.value.ts == expected {
        row := Some(row.value.(ts := to, failures := 0));
      }
    }

    /** `_recordFailure`. */
    method RecordFailure() returns (paused: bool)
      modifies `row
      ensures row == if old(row).Some? then Some(Failed(old(row).value)) else None
      ensures paused <==> old(row).Some? && old(row).value.failures + 1 >= MAX_CONSECUTIVE_FAILURES
    {
      if row.None? { return false; }
      var failures := row.value.failures + 1;
      if failures >= MAX_CONSECUTIVE_FAILURES {
        row := Some(row.value.(failures := failures, paused := true));
        return true;
      }
      row := Some(row.value.(failures := failures));
      return false;
    }

    /** `_pause`. */
    method Pause()
      modifies `row
      ensures row == if old(row).Some? then Some(old(row).value.(paused := true)) else None
    {
      if row.None? || row.value.paused { return; }
      row := Some(row.value.(paused := true));
    }

    /** `resume`. */
    method Resume()
      modifies `row
      ensures row == if old(row).Some? then Some(old(row).value.(paused := false, failures := 0)) else None
    {
      if row.None? { return; }
      row := Some(row.value.(paused := false, failures := 0));
    }

    /** What the pass starts from. */
    ghost function Base(cfg: Config, bound: int): Cursor
      reads this
    {
      if row.Some? then row.value else Cursor(if cfg.fromStart then 0 else bound, false, 0)
    }

    /**
     One delivery, once the breaker let it through: the handler, then the failure or the advance.
     */
    method Deliver(batch: seq<Entry>, at: int, advance: int, ok: bool, retryAt: int)
      requires row.Some? && row.value.ts == at
      modifies `row, `nextAttempt, `delivered
      ensures ok ==> row == Some(old(row).value.(ts := advance, failures := 0))
      ensures ok ==> delivered == old(delivered) + batch && nextAttempt == None
      ensures !ok ==> row == Some(Failed(old(row).value)) && delivered == old(delivered)
      ensures !ok ==>
              nextAttempt ==
              if old(row).value.failures + 1 >= MAX_CONSECUTIVE_FAILURES then None else Some(retryAt)
    {
      if !ok {
        var paused := RecordFailure();
        nextAttempt := if paused then None else Some(retryAt);
        return;
      }
      delivered := delivered + batch;
      AdvanceCursor(advance, at);
      nextAttempt := None;
    }

    /** A scan that found something: cut it, ask the breaker, call the handler. */
    method Send(log: seq<Entry>, scan: Scan, at: int, cap: nat, ok: bool, clock: int, delay: nat)
      returns (outcome: Outcome, advance: int)
      requires Ascending(log) && Complete(log, at, scan) && scan.changes != [] && breaker.Valid()
      requires row.Some? && row.value.ts == at && !row.value.paused
      modifies this, breaker
      ensures breaker.Valid() && breaker.times == old(breaker.times) + [clock] && at < advance <= scan.maxScannedTs
      ensures outcome == if old(Trips(breaker.times, clock, BREAKER_WINDOW_MS, cap)) then Tripped
                         else if ok then Drained else HandlerFailed
      ensures outcome == Drained ==>
        row == Some(Cursor(advance, false, 0)) && delivered == old(delivered) + Watched(Between(log, at, advance))
      ensures outcome == Drained ==> nextAttempt == None
      ensures outcome == HandlerFailed ==> row == Some(Failed(old(row).value)) && delivered == old(delivered)
      ensures outcome == HandlerFailed ==> nextAttempt == if row.value.paused then None else Some(clock + delay)
      ensures outcome == Tripped ==> row == Some(old(row).value.(paused := true)) && delivered == old(delivered)
      ensures outcome == Tripped ==> nextAttempt == old(nextAttempt)
    {
      BetweenAscends(log, at, scan.maxScannedTs);
      WatchedAscends(Between(log, at, scan.maxScannedTs), at, scan.maxScannedTs);
      var batch;
      batch, advance := CutToByteBudget(scan.changes, scan.maxScannedTs);
      CutIsARange(log, at, scan, |batch|, advance);
      var tripped := breaker.RecordDelivery(clock, cap);
      if tripped {
        Pause();
        return Tripped, advance;
      }
      Deliver(batch, at, advance, ok, clock + delay);
      outcome := if ok then Drained else HandlerFailed;
    }

    /**
     One turn of the loop; `Drained` means that the loop goes on, and then the cursor has moved.  It is the
     `calls`-th delivery of the pass if there is something to deliver.
     */
    method Turn(log: seq<Entry>, bound: int, cfg: Config, at: int, cap: nat, handler: nat -> bool, clock: nat -> int,
                delay: nat, calls: nat, ghost before: seq<int>)
      returns (outcome: Outcome, next: int, calls': nat)
      requires Ascending(log) && at < bound && breaker.Valid() && row.Some? && row.value.ts == at && !row.value.paused
      requires breaker.times == before + Clocks(clock, calls)
      modifies this, breaker
      ensures breaker.Valid() && row.Some? && breaker.times == before + Clocks(clock, calls')
      ensures Turned(outcome, old(row).value, row.value, next, calls, calls', before, clock, handler, cap)
      ensures Rearmed(outcome, row.value, calls, calls', old(nextAttempt), nextAttempt, clock, delay)
      ensures delivered == old(delivered) + Due(log, cfg, at, row.value.ts)
    {
      var scan := ReadLog(log, bound, at, cfg.batchSize);
      if cfg.batchSize >= 1 { ReadLogComplete(log, bound, at, cfg.batchSize); }
      NothingDue(log, cfg, at);
      if scan.changes == [] {
        AdvanceCursor(scan.maxScannedTs, at);
        return Drained, scan.maxScannedTs, calls;
      }
      OneMoreClock(clock, calls, before);
      outcome, next := Send(log, scan, at, cap, handler(calls), clock(calls), delay);
      calls' := calls + 1;
    }

    /** The drain loop, from a running row at `c`. */
    method Drain(log: seq<Entry>, bound: int, cfg: Config, cap: nat, handler: nat -> bool, clock: nat -> int,
                 delay: nat, c: Cursor)
      returns (outcome: Outcome, calls: nat)
      requires Ascending(log) && breaker.Valid() && row == Some(c) && !c.paused
      modifies this, breaker
      ensures breaker.Valid() && breaker.times == old(breaker.times) + Clocks(clock, calls)
      ensures row.Some? && c.ts <= row.value.ts
      ensures delivered == old(delivered) + Due(log, cfg, c.ts, row.value.ts)
      ensures Ended(outcome, c, row.value, bound, old(breaker.times), clock, handler, cap, calls)
      ensures nextAttempt == Backoff(outcome, row.value, old(nextAttempt), clock, delay, calls)
    {
      calls := 0;
      NothingDue(log, cfg, c.ts);
      ghost var before := breaker.times;
      assert before + Clocks(clock, 0) == before;
      var at := c.ts;
      while at < bound
        invariant c.ts <= at && row == Some(Moved(c, at)) && breaker.Valid()
        invariant breaker.times == before + Clocks(clock, calls)
        invariant delivered == old(delivered) + Due(log, cfg, c.ts, at)
        invariant Through(before, clock, handler, cap, calls)
        invariant nextAttempt == if calls == 0 then old(nextAttempt) else None
        decreases bound - at
      {
        var next, calls';
        outcome, next, calls' := Turn(log, bound, cfg, at, cap, handler, clock, delay, calls, before);
        DueSplits(log, cfg, c.ts, at, row.value.ts, old(delivered));
        if outcome != Drained {
          TurnEnds(outcome, c, at, bound, row.value, next, calls, calls', before, clock, handler, cap);
          calls := calls';
          return;
        }
        TurnGoesOn(c, at, row.value, next, calls, calls', before, clock, handler, cap);
        at, calls := next, calls';
      }
      return Drained, calls;
    }

    /**
     `runOnePass` with nobody else at the row.  `handler(j)` and `clock(j)` are the outcome of the j-th
     delivery and the clock before it; `delay` is the backoff a failure asks for.

     A backoff or a pause is respected.  Else the cursor is where the last delivery left it, and every change up
     to there was sent once, in order.
     */
    method RunOnePass(log: seq<Entry>, bound: int, cfg: Config, cap: nat, now: int,
                      handler: nat -> bool, clock: nat -> int, delay: nat)
      returns (outcome: Outcome, calls: nat)
      requires Ascending(log) && breaker.Valid()
      modifies this, breaker
      ensures breaker.Valid() && breaker.times == old(breaker.times) + Clocks(clock, calls)
      ensures outcome == BackingOff <==> old(nextAttempt).Some? && now < old(nextAttempt).value
      ensures outcome == BackingOff ==> row == old(row)
      ensures outcome == WasPaused <==> outcome != BackingOff && old(Base(cfg, bound)).paused
      ensures outcome == WasPaused ==> row == Some(old(Base(cfg, bound)))
      ensures outcome in {BackingOff, WasPaused} ==>
        calls == 0 && delivered == old(delivered) && nextAttempt == old(nextAttempt)
      ensures outcome in {Drained, HandlerFailed, Tripped} ==>
        && row.Some? && old(Base(cfg, bound)).ts <= row.value.ts
        && delivered == old(delivered) + Due(log, cfg, old(Base(cfg, bound)).ts, row.value.ts)
        && Ended(outcome, old(Base(cfg, bound)), row.value, bound, old(breaker.times), clock, handler, cap, calls)
        && nextAttempt == Backoff(outcome, row.value, old(nextAttempt), clock, delay, calls)
    {
      if nextAttempt.Some? && now < nextAttempt.value { return BackingOff, 0; }
      var c := InitCursor(if cfg.fromStart then 0 else bound);
      if c.paused { return WasPaused, 0; }
      outcome, calls := Drain(log, bound, cfg, cap, handler, clock, delay, c);
    }
  }
}
