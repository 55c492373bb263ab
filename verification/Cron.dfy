/**
 Cron catch-up (components/scheduler/src/modules.ts:318-487, crons.ts:146-183).  The closed forms of
 `_cronTick` are proved equal to walking the schedule one occurrence at a time.
 */
module Cron {

  datatype Policy = Skip | FireOnce | FireAll

  /** A calendar is an unbounded set of times, read through its successor and predecessor functions. */
  datatype Spec =
    | Interval(ms: int)
    | Calendar(occurs: int -> bool, next: int -> int, prev: int -> int)

  const CATCHUP_CAP: nat := 1000

  ghost predicate Valid(spec: Spec) {
    match spec
    case Interval(ms) => ms > 0
    case Calendar(occurs, next, prev) =>
      && (forall t :: next(t) > t && occurs(next(t)) && forall u :: t < u < next(t) ==> !occurs(u))
      && (forall t :: prev(t) <= t && occurs(prev(t)) && forall u :: prev(t) < u <= t ==> !occurs(u))
  }

  /** `computeNextRun`: the first occurrence strictly after `t`. */
  function NextRun(spec: Spec, t: int): int {
    match spec
    case Interval(ms) => t + ms
    case Calendar(_, next, _) => next(t)
  }

  lemma NextRunLater(spec: Spec, t: int)
    requires Valid(spec)
    ensures NextRun(spec, t) > t
  {
  }

  // ---------------------------------------------------------------------------------------------
  // The reference: step through the backlog
  // ---------------------------------------------------------------------------------------------

  /** Every occurrence in `(anchor, now]`, oldest first. */
  ghost function Backlog(spec: Spec, anchor: int, now: int): seq<int>
    requires Valid(spec)
    decreases if anchor < now then now - anchor else 0
  {
    NextRunLater(spec, anchor);
    var first := NextRun(spec, anchor);
    if first > now then [] else [first] + Backlog(spec, first, now)
  }

  /** The last occurrence at or before `now`, or the anchor if there is none after it. */
  ghost function Anchored(spec: Spec, anchor: int, now: int): int
    requires Valid(spec)
  {
    var due := Backlog(spec, anchor, now);
    if due == [] then anchor else due[|due| - 1]
  }

  datatype Tick = Tick(fire: seq<int>, next: int, anchor: int)

  /** One occurrence always fires; a longer backlog is subject to the policy. */
  ghost function Walk(spec: Spec, policy: Policy, anchor: int, now: int): Tick
    requires Valid(spec)
  {
    var due := Backlog(spec, anchor, now);
    var n := |due|;
    var fire :=
      if n <= 1 then due
      else match policy
        case Skip => []
        case FireOnce => [due[n - 1]]
        case FireAll => if n <= CATCHUP_CAP then due else due[..CATCHUP_CAP];
    var anchor' := Anchored(spec, anchor, now);
    Tick(fire, NextRun(spec, anchor'), anchor')
  }

  lemma {:induction false} BacklogRange(spec: Spec, anchor: int, now: int)
    requires Valid(spec)
    ensures forall i :: 0 <= i < |Backlog(spec, anchor, now)| ==> anchor < Backlog(spec, anchor, now)[i] <= now
    ensures forall i, j :: 0 <= i < j < |Backlog(spec, anchor, now)| ==>
            Backlog(spec, anchor, now)[i] < Backlog(spec, anchor, now)[j]
    ensures NextRun(spec, Anchored(spec, anchor, now)) > now
    decreases if anchor < now then now - anchor else 0
  {
    NextRunLater(spec, anchor);
    var first := NextRun(spec, anchor);
    if first <= now {
      BacklogRange(spec, first, now);
      AnchoredStep(spec, anchor, now);
    }
  }

  /** Independently of any stepping: the backlog of a calendar is its occurrences in `(anchor, now]`. */
  lemma {:induction false} BacklogIsAllOccurrences(spec: Spec, anchor: int, now: int, t: int)
    requires Valid(spec) && spec.Calendar?
    ensures t in Backlog(spec, anchor, now) <==> anchor < t <= now && spec.occurs(t)
    decreases if anchor < now then now - anchor else 0
  {
    NextRunLater(spec, anchor);
    var first := NextRun(spec, anchor);
    assert spec.occurs(first) && forall u :: anchor < u < first ==> !spec.occurs(u);
    if first <= now {
      BacklogIsAllOccurrences(spec, first, now, t);
      assert Backlog(spec, anchor, now) == [first] + Backlog(spec, first, now);
    }
  }

  lemma AnchoredStep(spec: Spec, anchor: int, now: int)
    requires Valid(spec) && NextRun(spec, anchor) <= now
    ensures Anchored(spec, anchor, now) == Anchored(spec, NextRun(spec, anchor), now)
  {
  }

  // ---------------------------------------------------------------------------------------------
  // Closed forms
  // ---------------------------------------------------------------------------------------------

  lemma OneMore(i: int, ms: int)
    ensures (i + 1) * ms == i * ms + ms
  {
  }

  lemma {:induction false} IntervalBacklog(ms: int, anchor: int, now: int, n: nat)
    requires ms > 0 && n * ms <= now - anchor < (n + 1) * ms
    ensures |Backlog(Interval(ms), anchor, now)| == n
    ensures forall i :: 0 <= i < n ==> Backlog(Interval(ms), anchor, now)[i] == anchor + (i + 1) * ms
    decreases n
  {
    OneMore(n, ms);
    if n > 0 {
      OneMore(n - 1, ms);
      assert 0 <= (n - 1) * ms;
      IntervalBacklog(ms, anchor + ms, now, n - 1);
      var rest := Backlog(Interval(ms), anchor + ms, now);
      var due := [anchor + ms] + rest;
      assert Backlog(Interval(ms), anchor, now) == due;
      forall i | 0 <= i < n ensures due[i] == anchor + (i + 1) * ms {
        OneMore(i, ms);
        if i > 0 { assert due[i] == rest[i - 1]; }
      }
    }
  }

  lemma {:induction false} CalendarBacklog(spec: Spec, anchor: int, now: int)
    requires Valid(spec) && spec.Calendar? && Backlog(spec, anchor, now) != []
    ensures Anchored(spec, anchor, now) == spec.prev(now)
    ensures NextRun(spec, Anchored(spec, anchor, now)) == NextRun(spec, now)
    decreases if anchor < now then now - anchor else 0
  {
    NextRunLater(spec, anchor);
    var first := NextRun(spec, anchor);
    AnchoredStep(spec, anchor, now);
    if Backlog(spec, first, now) != [] {
      CalendarBacklog(spec, first, now);
    } else {
      assert spec.occurs(first) && spec.next(first) > now;
      assert spec.prev(now) == first;
      assert spec.occurs(spec.next(first)) && spec.occurs(spec.next(now));
    }
  }

  /** `floor(elapsed / period)` with the bounds that make it the number of missed occurrences. */
  method Elapsed(period: int, elapsed: int) returns (n: nat)
    requires period > 0
    ensures elapsed >= 0 ==> n * period <= elapsed < (n + 1) * period
    ensures elapsed < 0 ==> n == 0
  {
    n := if elapsed >= 0 then elapsed / period else 0;
  }

  method IntervalTick(period: int, policy: Policy, anchor: int, now: int) returns (tick: Tick)
    requires period > 0
    ensures tick == Walk(Interval(period), policy, anchor, now)
  {
    var n := Elapsed(period, now - anchor);
    if now >= anchor {
      IntervalBacklog(period, anchor, now, n);
    }
    ghost var due := Backlog(Interval(period), anchor, now);
    assert |due| == n;
    if n == 0 {
      return Tick([], anchor + period, anchor);
    }
    if n == 1 {
      var only := anchor + period;
      assert due == [only];
      return Tick([only], only + period, only);
    }
    var last := anchor + n * period;
    assert due[n - 1] == last;
    var fire: seq<int> := [];
    if policy == FireAll {
      var count := if n <= CATCHUP_CAP then n else CATCHUP_CAP;
      var i := 0;
      while i < count
        invariant 0 <= i <= count && fire == due[..i]
      {
        fire := fire + [anchor + (i + 1) * period];
        i := i + 1;
      }
      assert n <= CATCHUP_CAP ==> due[..count] == due;
    } else if policy == FireOnce {
      fire := [last];
    }
    return Tick(fire, last + period, last);
  }

  /** `due` is the chain of occurrences from `first` up to `now`. */
  ghost predicate Chain(spec: Spec, first: int, now: int, due: seq<int>) {
    && (if due == [] then first > now else first == due[0])
    && forall i :: 0 <= i < |due| ==> Link(spec, now, due, i)
  }

  /** The occurrence after the i-th is the next of the chain, or past its end. */
  ghost predicate Link(spec: Spec, now: int, due: seq<int>, i: int)
    requires 0 <= i < |due|
  {
    due[i] <= now && if i < |due| - 1 then NextRun(spec, due[i]) == due[i + 1] else NextRun(spec, due[i]) > now
  }

  lemma ChainFrom(spec: Spec, first: int, now: int, rest: seq<int>)
    requires first <= now && Chain(spec, NextRun(spec, first), now, rest)
    ensures Chain(spec, first, now, [first] + rest)
  {
    var due := [first] + rest;
    forall i | 0 <= i < |due| ensures Link(spec, now, due, i) {
      if i > 0 {
        assert Link(spec, now, rest, i - 1);
      }
    }
  }

  lemma {:induction false} BacklogIsChain(spec: Spec, anchor: int, now: int)
    requires Valid(spec)
    ensures Chain(spec, NextRun(spec, anchor), now, Backlog(spec, anchor, now))
    decreases if anchor < now then now - anchor else 0
  {
    NextRunLater(spec, anchor);
    if NextRun(spec, anchor) <= now {
      var first := NextRun(spec, anchor);
      BacklogIsChain(spec, first, now);
      ChainFrom(spec, first, now, Backlog(spec, first, now));
    }
  }

  /** The capped walk of a calendar `fireAll`. */
  method Materialize(spec: Spec, first: int, now: int, ghost due: seq<int>) returns (fire: seq<int>)
    requires Chain(spec, first, now, due)
    ensures fire == if |due| <= CATCHUP_CAP then due else due[..CATCHUP_CAP]
  {
    fire := [];
    var cursor := first;
    while cursor <= now && |fire| < CATCHUP_CAP
      invariant |fire| <= |due| && |fire| <= CATCHUP_CAP && fire == due[..|fire|]
      invariant if |fire| < |due| then cursor == due[|fire|] else cursor > now
      decreases |due| - |fire|
    {
      ghost var k := |fire|;
      assert Link(spec, now, due, k) && due[..k + 1] == due[..k] + [cursor];
      fire := fire + [cursor];
      cursor := NextRun(spec, cursor);
    }
    if |fire| < |due| {
      assert Link(spec, now, due, |fire|);
    } else {
      assert due[..|fire|] == due;
    }
  }

  method CalendarTick(spec: Spec, policy: Policy, anchor: int, now: int) returns (tick: Tick)
    requires Valid(spec) && spec.Calendar?
    ensures tick == Walk(spec, policy, anchor, now)
  {
    var first := NextRun(spec, anchor);
    if first > now {
      return Tick([], first, anchor);
    }
    var second := NextRun(spec, first);
    ghost var due := Backlog(spec, anchor, now);
    assert due == [first] + Backlog(spec, first, now);
    if second > now {
      return Tick([first], second, first);
    }
    CalendarBacklog(spec, anchor, now);
    var last := spec.prev(now);
    var fire: seq<int> := [];
    if policy == FireAll {
      BacklogIsChain(spec, anchor, now);
      fire := Materialize(spec, first, now, due);
    } else if policy == FireOnce {
      fire := [last];
    }
    return Tick(fire, NextRun(spec, now), last);
  }

  /** The arithmetic of `scheduler:_cronTick`: it never steps through the backlog, yet agrees with the walk. */
  method CronTick(spec: Spec, policy: Policy, anchor: int, now: int) returns (tick: Tick)
    requires Valid(spec)
    ensures tick == Walk(spec, policy, anchor, now)
  {
    match spec
    case Interval(ms) => tick := IntervalTick(ms, policy, anchor, now);
    case Calendar(_, _, _) => tick := CalendarTick(spec, policy, anchor, now);
  }

  // ---------------------------------------------------------------------------------------------
  // Over all ticks
  // ---------------------------------------------------------------------------------------------

  /** A tick leaves the anchor at or before `now`, and reschedules to the first occurrence after both. */
  lemma TickReanchors(spec: Spec, policy: Policy, anchor: int, now: int)
    requires Valid(spec) && anchor <= now
    ensures var t := Walk(spec, policy, anchor, now);
            anchor <= t.anchor <= now < t.next && t.next == NextRun(spec, t.anchor)
  {
    BacklogRange(spec, anchor, now);
  }

  /** Walking in two goes, from the re-anchored point on, is walking once. */
  lemma {:induction false} BacklogSplits(spec: Spec, anchor: int, now: int, later: int)
    requires Valid(spec) && now <= later
    ensures Backlog(spec, anchor, later) ==
            Backlog(spec, anchor, now) + Backlog(spec, Anchored(spec, anchor, now), later)
    decreases if anchor < now then now - anchor else 0
  {
    NextRunLater(spec, anchor);
    var first := NextRun(spec, anchor);
    if first <= now {
      BacklogSplits(spec, first, now, later);
      AnchoredStep(spec, anchor, now);
    }
  }

  /** One tick of a run: when it ran and under which policy. */
  datatype At = At(now: int, policy: Policy)

  ghost predicate Forward(ticks: seq<At>) {
    forall i, j :: 0 <= i < j < |ticks| ==> ticks[i].now <= ticks[j].now
  }

  /** The anchor after a run of ticks. */
  ghost function AnchorAfter(spec: Spec, anchor: int, ticks: seq<At>): int
    requires Valid(spec)
  {
    if ticks == [] then anchor
    else
      var n := |ticks| - 1;
      Walk(spec, ticks[n].policy, AnchorAfter(spec, anchor, ticks[..n]), ticks[n].now).anchor
  }

  /** Everything a run of ticks fired, in order. */
  ghost function Fired(spec: Spec, anchor: int, ticks: seq<At>): seq<int>
    requires Valid(spec)
  {
    if ticks == [] then []
    else
      var n := |ticks| - 1;
      Fired(spec, anchor, ticks[..n]) +
      Walk(spec, ticks[n].policy, AnchorAfter(spec, anchor, ticks[..n]), ticks[n].now).fire
  }

  /** Phase never drifts: however the ticks fall, the anchor is where one walk would have put it. */
  lemma {:induction false} PhaseNeverDrifts(spec: Spec, anchor: int, ticks: seq<At>)
    requires Valid(spec) && Forward(ticks) && ticks != []
    ensures AnchorAfter(spec, anchor, ticks) == Anchored(spec, anchor, ticks[|ticks| - 1].now)
    decreases |ticks|
  {
    var n := |ticks| - 1;
    if n > 0 {
      PhaseNeverDrifts(spec, anchor, ticks[..n]);
      AnchoredSplits(spec, anchor, ticks[n - 1].now, ticks[n].now);
    }
  }

  /** Re-anchoring twice is re-anchoring once. */
  lemma AnchoredSplits(spec: Spec, anchor: int, now: int, later: int)
    requires Valid(spec) && now <= later
    ensures Anchored(spec, Anchored(spec, anchor, now), later) == Anchored(spec, anchor, later)
  {
    BacklogSplits(spec, anchor, now, later);
  }

  ghost predicate Rising(s: seq<int>, above: int, upto: int) {
    && (forall i :: 0 <= i < |s| ==> above < s[i] <= upto)
    && (forall i, j :: 0 <= i < j < |s| ==> s[i] < s[j])
  }

  lemma WalkRises(spec: Spec, policy: Policy, anchor: int, now: int)
    requires Valid(spec)
    ensures var t := Walk(spec, policy, anchor, now);
            Rising(t.fire, anchor, t.anchor) && anchor <= t.anchor
  {
    BacklogRange(spec, anchor, now);
  }

  /** Over all ticks and policies fired times strictly increase: no occurrence fires twice. */
  lemma {:induction false} FiredRises(spec: Spec, anchor: int, ticks: seq<At>)
    requires Valid(spec)
    ensures Rising(Fired(spec, anchor, ticks), anchor, AnchorAfter(spec, anchor, ticks))
    ensures anchor <= AnchorAfter(spec, anchor, ticks)
  {
    if ticks != [] {
      var n := |ticks| - 1;
      FiredRises(spec, anchor, ticks[..n]);
      WalkRises(spec, ticks[n].policy, AnchorAfter(spec, anchor, ticks[..n]), ticks[n].now);
    }
  }

  /** `t` was the one thing due when tick `n` ran. */
  ghost predicate OnTime(spec: Spec, anchor: int, ticks: seq<At>, n: nat, t: int)
    requires Valid(spec)
  {
    n < |ticks| && Backlog(spec, AnchorAfter(spec, anchor, ticks[..n]), ticks[n].now) == [t]
  }

  lemma OneFire(spec: Spec, anchor: int, now: int)
    requires Valid(spec)
    ensures var t := Walk(spec, FireOnce, anchor, now);
            t.fire == if Backlog(spec, anchor, now) == [] then [] else [t.anchor]
    ensures Backlog(spec, anchor, now) == [] ==> Walk(spec, FireOnce, anchor, now).anchor == anchor
  {
  }

  lemma TickAdds(spec: Spec, anchor: int, ticks: seq<At>, n: nat, t: Tick)
    requires Valid(spec) && n + 1 == |ticks|
    requires t == Walk(spec, ticks[n].policy, AnchorAfter(spec, anchor, ticks[..n]), ticks[n].now)
    ensures Fired(spec, anchor, ticks) == Fired(spec, anchor, ticks[..n]) + t.fire
    ensures AnchorAfter(spec, anchor, ticks) == t.anchor
  {
  }

  lemma TickAppends(spec: Spec, anchor: int, ticks: seq<At>, at: At, ticks': seq<At>, t: Tick)
    requires Valid(spec) && ticks' == ticks + [at]
    requires t == Walk(spec, at.policy, AnchorAfter(spec, anchor, ticks), at.now)
    ensures Fired(spec, anchor, ticks') == Fired(spec, anchor, ticks) + t.fire
    ensures AnchorAfter(spec, anchor, ticks') == t.anchor
  {
    assert ticks'[..|ticks|] == ticks;
    TickAdds(spec, anchor, ticks', |ticks|, t);
  }

  /** With `fireOnce` a tick fires at most once, and the last time fired is always the last occurrence so far. */
  lemma {:induction false} FireOnceIsFresh(spec: Spec, anchor: int, ticks: seq<At>)
    requires Valid(spec) && forall i :: 0 <= i < |ticks| ==> ticks[i].policy.FireOnce?
    ensures var fired := Fired(spec, anchor, ticks);
            && |fired| <= |ticks|
            && AnchorAfter(spec, anchor, ticks) == if fired == [] then anchor else fired[|fired| - 1]
  {
    if ticks != [] {
      var n := |ticks| - 1;
      var from := AnchorAfter(spec, anchor, ticks[..n]);
      FireOnceIsFresh(spec, anchor, ticks[..n]);
      OneFire(spec, from, ticks[n].now);
      TickAdds(spec, anchor, ticks, n, Walk(spec, FireOnce, from, ticks[n].now));
    }
  }

  /** With `skip` only what was the one thing due at its tick is fired, and all of that is. */
  lemma {:induction false} SkipFiresWhatIsOnTime(spec: Spec, anchor: int, ticks: seq<At>, t: int)
    requires Valid(spec) && forall i :: 0 <= i < |ticks| ==> ticks[i].policy.Skip?
    ensures t in Fired(spec, anchor, ticks) <==> exists n: nat :: OnTime(spec, anchor, ticks, n, t)
  {
    if ticks != [] {
      var n := |ticks| - 1;
      var from := AnchorAfter(spec, anchor, ticks[..n]);
      SkipFiresWhatIsOnTime(spec, anchor, ticks[..n], t);
      SkippedFire(spec, from, ticks[n].now, t);
      TickAdds(spec, anchor, ticks, n, Walk(spec, Skip, from, ticks[n].now));
      OnTimeSplits(spec, anchor, ticks, n, t);
    }
  }

  /** On time at the last tick, or at an earlier one. */
  lemma OnTimeSplits(spec: Spec, anchor: int, ticks: seq<At>, n: nat, t: int)
    requires Valid(spec) && n + 1 == |ticks|
    ensures (exists k: nat :: OnTime(spec, anchor, ticks, k, t)) <==>
            (exists k: nat :: OnTime(spec, anchor, ticks[..n], k, t)) || OnTime(spec, anchor, ticks, n, t)
  {
    forall k: nat ensures OnTime(spec, anchor, ticks[..n], k, t) <==> k < n && OnTime(spec, anchor, ticks, k, t) {
      OnTimeBefore(spec, anchor, ticks, n, k, t);
    }
  }

  lemma OnTimeBefore(spec: Spec, anchor: int, ticks: seq<At>, n: nat, k: nat, t: int)
    requires Valid(spec) && n + 1 == |ticks|
    ensures OnTime(spec, anchor, ticks[..n], k, t) <==> k < n && OnTime(spec, anchor, ticks, k, t)
  {
    if k < n { assert ticks[..n][..k] == ticks[..k]; }
  }

  lemma SkippedFire(spec: Spec, anchor: int, now: int, t: int)
    requires Valid(spec)
    ensures t in Walk(spec, Skip, anchor, now).fire <==> Backlog(spec, anchor, now) == [t]
  {
    var due := Backlog(spec, anchor, now);
    if |due| == 1 { assert due == [due[0]]; }
  }

  /** No tick met a backlog longer than the cap. */
  ghost predicate Untruncated(spec: Spec, anchor: int, ticks: seq<At>)
    requires Valid(spec)
  {
    if ticks == [] then true
    else
      var n := |ticks| - 1;
      && Untruncated(spec, anchor, ticks[..n])
      && |Backlog(spec, AnchorAfter(spec, anchor, ticks[..n]), ticks[n].now)| <= CATCHUP_CAP
  }

  ghost predicate AllFireAll(ticks: seq<At>) { forall i :: 0 <= i < |ticks| ==> ticks[i].policy.FireAll? }

  /** Everything due when the last tick ran. */
  ghost function Due(spec: Spec, anchor: int, ticks: seq<At>): seq<int>
    requires Valid(spec)
  {
    if ticks == [] then [] else Backlog(spec, anchor, ticks[|ticks| - 1].now)
  }

  lemma {:induction false} DueGrows(spec: Spec, anchor: int, ticks: seq<At>)
    requires Valid(spec) && Forward(ticks) && ticks != []
    ensures var n := |ticks| - 1;
            Due(spec, anchor, ticks) ==
            Due(spec, anchor, ticks[..n]) + Backlog(spec, AnchorAfter(spec, anchor, ticks[..n]), ticks[n].now)
  {
    var n := |ticks| - 1;
    if n > 0 {
      PhaseNeverDrifts(spec, anchor, ticks[..n]);
      BacklogSplits(spec, anchor, ticks[n - 1].now, ticks[n].now);
    }
  }

  /** The last tick of a `fireAll` cron fires its backlog up to the cap. */
  lemma LastFires(spec: Spec, anchor: int, ticks: seq<At>)
    requires Valid(spec) && ticks != [] && ticks[|ticks| - 1].policy.FireAll?
    ensures var n := |ticks| - 1;
            var b := Backlog(spec, AnchorAfter(spec, anchor, ticks[..n]), ticks[n].now);
            Fired(spec, anchor, ticks) ==
            Fired(spec, anchor, ticks[..n]) + if |b| <= CATCHUP_CAP then b else b[..CATCHUP_CAP]
  {
  }

  /** Fired and due so far, and once more. */
  lemma FiredOnceMore(fired: seq<int>, due: seq<int>, b: seq<int>, whole: bool)
    requires |fired| <= |due| && (whole ==> fired == due) && (!whole ==> |fired| < |due|)
    ensures var more := fired + if |b| <= CATCHUP_CAP then b else b[..CATCHUP_CAP];
            && |more| <= |due + b|
            && (whole && |b| <= CATCHUP_CAP ==> more == due + b)
            && (!(whole && |b| <= CATCHUP_CAP) ==> |more| < |due + b|)
  {
  }

  lemma {:induction false} FiredAtMostDue(spec: Spec, anchor: int, ticks: seq<At>)
    requires Valid(spec) && Forward(ticks) && AllFireAll(ticks)
    ensures |Fired(spec, anchor, ticks)| <= |Due(spec, anchor, ticks)|
    ensures Untruncated(spec, anchor, ticks) ==> Fired(spec, anchor, ticks) == Due(spec, anchor, ticks)
    ensures !Untruncated(spec, anchor, ticks) ==> |Fired(spec, anchor, ticks)| < |Due(spec, anchor, ticks)|
  {
    if ticks != [] {
      var n := |ticks| - 1;
      var before := ticks[..n];
      FiredAtMostDue(spec, anchor, before);
      DueGrows(spec, anchor, ticks);
      LastFires(spec, anchor, ticks);
      FiredOnceMore(Fired(spec, anchor, before), Due(spec, anchor, before),
                    Backlog(spec, AnchorAfter(spec, anchor, before), ticks[n].now), Untruncated(spec, anchor, before));
    }
  }

  /** A `fireAll` cron misses nothing exactly when no backlog ever exceeded the cap. */
  lemma FireAllMissesNoneIffUntruncated(spec: Spec, anchor: int, ticks: seq<At>)
    requires Valid(spec) && Forward(ticks) && AllFireAll(ticks)
    ensures Fired(spec, anchor, ticks) == Due(spec, anchor, ticks) <==> Untruncated(spec, anchor, ticks)
  {
    FiredAtMostDue(spec, anchor, ticks);
  }
}
