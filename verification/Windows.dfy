/**
 Fixed-window limits: the anonymous sign-in throttle (components/auth/src/functions.ts:386-404) and the
 delivery circuit breaker (components/triggers/src/driver.ts:233-241).
 */
module Windows {
  import opened Options

  const BREAKER_WINDOW_MS: nat := 10_000
  const THROTTLE_WINDOW_MS: nat := 60_000

  datatype Window = Window(start: int, count: nat)

  /** Whether the call at `now` opens a window of its own. */
  predicate Opens(w: Option<Window>, now: int, width: nat) { w.None? || now - w.value.start >= width }

  // ---------------------------------------------------------------------------------------------
  // The throttle: only an accepted call is counted
  // ---------------------------------------------------------------------------------------------

  predicate Accepts(w: Option<Window>, now: int, width: nat, cap: nat) {
    cap == 0 || Opens(w, now, width) || w.value.count < cap
  }

  function Counted(w: Option<Window>, now: int, width: nat, cap: nat): Option<Window> {
    if cap == 0 then w
    else if Opens(w, now, width) then Some(Window(now, 1))
    else if w.value.count >= cap then w
    else Some(w.value.(count := w.value.count + 1))
  }

  /** The counter row after calls at `times`. */
  function After(times: seq<int>, width: nat, cap: nat): Option<Window> {
    if times == [] then None
    else
      var n := |times| - 1;
      Counted(After(times[..n], width, cap), times[n], width, cap)
  }

  /** How many of the calls at `times` were accepted at an instant in `[lo, hi)`. */
  function AcceptedIn(times: seq<int>, width: nat, cap: nat, lo: int, hi: int): nat {
    if times == [] then 0
    else
      var n := |times| - 1;
      AcceptedIn(times[..n], width, cap, lo, hi)
      + if lo <= times[n] < hi && Accepts(After(times[..n], width, cap), times[n], width, cap) then 1 else 0
  }

  ghost predicate Rising(times: seq<int>) { forall i, j :: 0 <= i < j < |times| ==> times[i] <= times[j] }

  /** What the row says about the calls accepted in the stretch of one width that starts at `from`. */
  ghost predicate Bounded(times: seq<int>, width: nat, cap: nat, from: int) {
    var w, a := After(times, width, cap), AcceptedIn(times, width, cap, from, from + width);
    && (times == [] <==> w.None?)
    && (times == [] ==> a == 0)
    && (times != [] ==>
         && w.value.start <= times[|times| - 1] && 1 <= w.value.count <= cap
         && (times[|times| - 1] < from ==> a == 0)
         && (w.value.start < from ==> a <= w.value.count - 1)
         && (from <= w.value.start < from + width ==> a <= cap - 1 + w.value.count)
         && a <= 2 * cap - 1)
  }

  lemma {:induction false} StretchBounded(times: seq<int>, width: nat, cap: nat, from: int)
    requires Rising(times) && cap >= 1 && width >= 1
    ensures Bounded(times, width, cap, from)
  {
    if times != [] {
      StretchBounded(times[..|times| - 1], width, cap, from);
    }
  }

  /** Any stretch of one window width, aligned or not, lets at most `2 * cap - 1` calls through. */
  lemma AnyStretchIsBounded(times: seq<int>, width: nat, cap: nat, from: int)
    requires Rising(times) && cap >= 1 && width >= 1
    ensures AcceptedIn(times, width, cap, from, from + width) <= 2 * cap - 1
  {
    StretchBounded(times, width, cap, from);
  }

  lemma {:induction false} RowCounts(times: seq<int>, width: nat, cap: nat, now: int)
    requires Rising(times) && cap >= 1 && width >= 1 && times != [] && times[|times| - 1] <= now
    ensures After(times, width, cap).Some?
    ensures var w := After(times, width, cap).value;
            w.count <= AcceptedIn(times, width, cap, w.start, now + 1)
    ensures After(times, width, cap).value.start <= times[|times| - 1]
  {
    var n := |times| - 1;
    if n > 0 {
      RowCounts(times[..n], width, cap, now);
    }
  }

  /** A call is turned away only when `cap` calls were accepted within the last window width. */
  lemma RejectedOnlyWhenFull(times: seq<int>, width: nat, cap: nat, now: int)
    requires Rising(times + [now]) && width >= 1 && !Accepts(After(times, width, cap), now, width, cap)
    ensures AcceptedIn(times, width, cap, now - width + 1, now + 1) >= cap
  {
    assert times == (times + [now])[..|times|];
    var w := After(times, width, cap).value;
    assert times[|times| - 1] == (times + [now])[|times| - 1] <= (times + [now])[|times|];
    RowCounts(times, width, cap, now);
    Widen(times, width, cap, now - width + 1, w.start, now + 1);
  }

  lemma {:induction false} Widen(times: seq<int>, width: nat, cap: nat, lo: int, lo': int, hi: int)
    requires lo <= lo'
    ensures AcceptedIn(times, width, cap, lo', hi) <= AcceptedIn(times, width, cap, lo, hi)
  {
    if times != [] { Widen(times[..|times| - 1], width, cap, lo, lo', hi); }
  }

  // ---------------------------------------------------------------------------------------------
  // The bound is reached
  // ---------------------------------------------------------------------------------------------

  /** `n` more calls, all at `t`. */
  function Repeat(times: seq<int>, t: int, n: nat): seq<int> {
    if n == 0 then times else Repeat(times, t, n - 1) + [t]
  }

  lemma OneMore(times: seq<int>, t: int, width: nat, cap: nat, lo: int, hi: int)
    ensures After(times + [t], width, cap) == Counted(After(times, width, cap), t, width, cap)
    ensures AcceptedIn(times + [t], width, cap, lo, hi) ==
            AcceptedIn(times, width, cap, lo, hi) +
            if lo <= t < hi && Accepts(After(times, width, cap), t, width, cap) then 1 else 0
  {
  }

  ghost predicate RisingTo(times: seq<int>, t: int) { Rising(times) && forall i :: 0 <= i < |times| ==> times[i] <= t }

  /** The row after calls at `times`, and how many were accepted in `[lo, hi)`. */
  ghost predicate Standing(times: seq<int>, width: nat, cap: nat, lo: int, hi: int, start: int, count: nat,
                           accepted: nat)
  {
    After(times, width, cap) == Some(Window(start, count)) && AcceptedIn(times, width, cap, lo, hi) == accepted
  }

  /** One more call that fits the open window. */
  lemma FitsOne(times: seq<int>, width: nat, cap: nat, lo: int, hi: int, start: int, count: nat, accepted: nat, t: int,
                more: seq<int>)
    requires Standing(times, width, cap, lo, hi, start, count, accepted) && more == times + [t]
    requires start <= t < start + width && count < cap && lo <= t < hi
    ensures Standing(more, width, cap, lo, hi, start, count + 1, accepted + 1)
  {
    OneMore(times, t, width, cap, lo, hi);
  }

  /** `n` calls that fit the open window are all accepted. */
  lemma {:induction false} Burst(times: seq<int>, width: nat, cap: nat, lo: int, hi: int, start: int, count: nat,
                                 accepted: nat, t: int, n: nat)
    requires Standing(times, width, cap, lo, hi, start, count, accepted)
    requires start <= t < start + width && count + n <= cap && lo <= t < hi
    ensures Standing(Repeat(times, t, n), width, cap, lo, hi, start, count + n, accepted + n)
  {
    if n > 0 {
      Burst(times, width, cap, lo, hi, start, count, accepted, t, n - 1);
      FitsOne(Repeat(times, t, n - 1), width, cap, lo, hi, start, count + n - 1, accepted + n - 1, t,
              Repeat(times, t, n));
    }
  }

  lemma {:induction false} RepeatRises(times: seq<int>, t: int, n: nat)
    requires RisingTo(times, t)
    ensures RisingTo(Repeat(times, t, n), t)
  {
    if n > 0 { RepeatRises(times, t, n - 1); }
  }

  /** One call opens a window, the rest of its cap comes at its end, and a whole new cap right after it. */
  function Straddle(width: nat, cap: nat): seq<int>
    requires cap >= 1
  {
    Repeat(Repeat([0], width - 1, cap - 1) + [width], width, cap - 1)
  }

  lemma StraddleRises(width: nat, cap: nat)
    requires cap >= 1 && width >= 2
    ensures Rising(Straddle(width, cap))
  {
    RepeatRises([0], width - 1, cap - 1);
    RepeatRises(Repeat([0], width - 1, cap - 1) + [width], width, cap - 1);
  }

  lemma FirstWindow(width: nat, cap: nat, lo: int)
    requires cap >= 1 && width >= 2 && lo == width - 1
    ensures Standing(Repeat([0], width - 1, cap - 1), width, cap, lo, lo + width, 0, cap, cap - 1)
  {
    var none: seq<int> := [];
    assert none + [0] == [0];
    OneMore(none, 0, width, cap, lo, lo + width);
    Burst([0], width, cap, lo, lo + width, 0, 1, 0, width - 1, cap - 1);
  }

  lemma SecondWindow(first: seq<int>, width: nat, cap: nat, lo: int)
    requires cap >= 1 && width >= 2 && lo == width - 1 && Standing(first, width, cap, lo, lo + width, 0, cap, cap - 1)
    ensures Standing(Repeat(first + [width], width, cap - 1), width, cap, lo, lo + width, width, cap, 2 * cap - 1)
  {
    OneMore(first, width, width, cap, lo, lo + width);
    Burst(first + [width], width, cap, lo, lo + width, width, 1, cap, width, cap - 1);
  }

  /** No smaller bound holds, for any cap and any width above one. */
  lemma BoundIsReached(width: nat, cap: nat)
    requires cap >= 1 && width >= 2
    ensures Rising(Straddle(width, cap))
    ensures AcceptedIn(Straddle(width, cap), width, cap, width - 1, width - 1 + width) == 2 * cap - 1
  {
    StraddleRises(width, cap);
    FirstWindow(width, cap, width - 1);
    SecondWindow(Repeat([0], width - 1, cap - 1), width, cap, width - 1);
  }

  // ---------------------------------------------------------------------------------------------
  // The breaker: every call is counted
  // ---------------------------------------------------------------------------------------------

  function Recorded(w: Option<Window>, now: int, width: nat): Window {
    if Opens(w, now, width) then Window(now, 1) else w.value.(count := w.value.count + 1)
  }

  /** The in-memory window after deliveries at `times`. */
  function BreakerAfter(times: seq<int>, width: nat): Option<Window> {
    if times == [] then None
    else
      var n := |times| - 1;
      Some(Recorded(BreakerAfter(times[..n], width), times[n], width))
  }

  predicate Trips(times: seq<int>, now: int, width: nat, cap: nat) {
    Recorded(BreakerAfter(times, width), now, width).count > cap
  }

  lemma {:induction false} SameWindow(times: seq<int>, width: nat, cap: nat)
    requires cap >= 1
    ensures var b, t := BreakerAfter(times, width), After(times, width, cap);
            && (b.Some? <==> t.Some?)
            && (b.Some? ==> b.value.start == t.value.start)
            && (b.Some? ==> t.value.count == if b.value.count < cap then b.value.count else cap)
  {
    if times != [] { SameWindow(times[..|times| - 1], width, cap); }
  }

  /** Counting every call or only the accepted ones lets the same calls through, for any positive cap. */
  lemma BreakerAgreesWithThrottle(times: seq<int>, now: int, width: nat, cap: nat)
    requires cap >= 1
    ensures Trips(times, now, width, cap) <==> !Accepts(After(times, width, cap), now, width, cap)
  {
    SameWindow(times, width, cap);
  }

  /** How many of the deliveries at `times` the breaker let through at an instant in `[lo, hi)`. */
  function LetThrough(times: seq<int>, width: nat, cap: nat, lo: int, hi: int): nat {
    if times == [] then 0
    else
      var n := |times| - 1;
      LetThrough(times[..n], width, cap, lo, hi) +
      if lo <= times[n] < hi && !Trips(times[..n], times[n], width, cap) then 1 else 0
  }

  lemma {:induction false} SameCount(times: seq<int>, width: nat, cap: nat, lo: int, hi: int)
    requires cap >= 1
    ensures LetThrough(times, width, cap, lo, hi) == AcceptedIn(times, width, cap, lo, hi)
  {
    if times != [] {
      var n := |times| - 1;
      SameCount(times[..n], width, cap, lo, hi);
      BreakerAgreesWithThrottle(times[..n], times[n], width, cap);
    }
  }

  /**
   In any stretch of one window width the breaker lets at most `2 * cap - 1` deliveries through; none if the cap is
   zero.
   */
  lemma BreakerIsBounded(times: seq<int>, width: nat, cap: nat, from: int)
    requires Rising(times) && width >= 1
    ensures cap >= 1 ==> LetThrough(times, width, cap, from, from + width) <= 2 * cap - 1
    ensures cap == 0 ==> LetThrough(times, width, cap, from, from + width) == 0
  {
    if cap >= 1 {
      SameCount(times, width, cap, from, from + width);
      AnyStretchIsBounded(times, width, cap, from);
    } else {
      NothingGoesThrough(times, width, from, from + width);
    }
  }

  lemma {:induction false} NothingGoesThrough(times: seq<int>, width: nat, lo: int, hi: int)
    ensures LetThrough(times, width, 0, lo, hi) == 0
  {
    if times != [] { NothingGoesThrough(times[..|times| - 1], width, lo, hi); }
  }

  /** The `authCounters` row. */
  class Throttle {
    var counter: Option<Window>

    constructor ()
      ensures counter == None
    {
      counter := None;
    }

    method SignInAnonymously(now: int, cap: nat) returns (accepted: bool)
      modifies this
      ensures accepted <==> Accepts(old(counter), now, THROTTLE_WINDOW_MS, cap)
      ensures counter == Counted(old(counter), now, THROTTLE_WINDOW_MS, cap)
    {
      if cap > 0 {
        match counter
        case None => counter := Some(Window(now, 1));
        case Some(w) =>
          if now - w.start >= THROTTLE_WINDOW_MS {
            counter := Some(Window(now, 1));
          } else if w.count >= cap {
            return false;
          } else {
            counter := Some(w.(count := w.count + 1));
          }
      }
      accepted := true;
    }
  }

  /** One trigger's entry of `breakerWindows`. */
  class Breaker {
    var window: Option<Window>
    ghost var times: seq<int>

    ghost predicate Valid()
      reads this
    {
      window == BreakerAfter(times, BREAKER_WINDOW_MS)
    }

    constructor ()
      ensures Valid() && times == []
    {
      window := None;
      times := [];
    }

    method RecordDelivery(now: int, cap: nat) returns (tripped: bool)
      requires Valid()
      modifies this
      ensures Valid() && times == old(times) + [now]
      ensures tripped <==> Trips(old(times), now, BREAKER_WINDOW_MS, cap)
    {
      var w := if window.None? || now - window.value.start >= BREAKER_WINDOW_MS then Window(now, 0) else window.value;
      w := w.(count := w.count + 1);
      window := Some(w);
      ghost var before := times;
      times := times + [now];
      assert times[..|before|] == before;
      tripped := w.count > cap;
    }
  }
}
