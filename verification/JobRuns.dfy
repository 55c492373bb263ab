/** Bounded dispatch and exactly one completion callback, over every run of the scheduler. */
module JobRuns {
  import opened Options
  import opened Jobs

  /** The table, and how often each job was claimed (a history, not a column). */
  datatype Sched = Sched(jobs: Table, claims: seq<nat>)

  function Pad(claims: seq<nat>, n: nat): (r: seq<nat>)
    ensures |r| == if n < |claims| then |claims| else n
    ensures claims <= r && forall i :: |claims| <= i < |r| ==> r[i] == 0
  {
    if n <= |claims| then claims else claims + seq(n - |claims|, _ => 0)
  }

  // ---------------------------------------------------------------------------------------------
  // The invariant
  // ---------------------------------------------------------------------------------------------

  function Most(a: int, b: int): int { if a > b then a else b }

  /** Claims are attempts, plus the one that is running or succeeded; the budget bounds them. */
  predicate RowOk(job: Job, claims: nat) {
    && (job.lease.Some? <==> job.state.InProgress?)
    && (job.completedTs.Some? <==> Terminal(job.state))
    && claims == job.attempts + (if job.state.InProgress? || job.state.Success? then 1 else 0)
    && (!Terminal(job.state) ==> job.attempts < Most(1, job.maxFailures))
    && claims <= Most(1, job.maxFailures)
  }

  predicate Reports(t: Table, c: nat, id: nat) { c < |t| && t[c].args.Report? && t[c].args.of == id }

  /** Job `c` calls back for `id` with the stored context and a result of the right kind. */
  predicate IsCallback(t: Table, c: nat, id: nat)
    requires id < |t|
  {
    && Reports(t, c, id)
    && t[id].onComplete == Some(t[c].path)
    && t[c].args.context == t[id].context
    && Fits(t[c].args.result, t[id].state)
  }

  predicate OwesCallback(job: Job) { Terminal(job.state) && job.onComplete.Some? }

  ghost predicate CallbackOk(t: Table, id: nat)
    requires id < |t|
  {
    if OwesCallback(t[id])
    then exists c: nat :: IsCallback(t, c, id) && forall d: nat :: Reports(t, d, id) ==> d == c
    else forall d: nat :: !Reports(t, d, id)
  }

  ghost predicate CallbacksOk(t: Table) {
    && (forall id: nat :: id < |t| ==> CallbackOk(t, id))
    && (forall c: nat :: c < |t| && t[c].args.Report? ==> t[c].args.of < |t|)
  }

  ghost predicate KeysUnique(t: Table) {
    forall i, j :: 0 <= i < j < |t| && t[i].key.Some? ==> t[i].key != t[j].key
  }

  ghost predicate Inv(s: Sched) {
    && |s.claims| == |s.jobs|
    && (forall id :: 0 <= id < |s.jobs| ==> RowOk(s.jobs[id], s.claims[id]))
    && CallbacksOk(s.jobs)
    && KeysUnique(s.jobs)
  }

  /** What no mutation of a row touches. */
  predicate SameIdentity(a: Job, b: Job) {
    && a.path == b.path && a.kind == b.kind && a.maxFailures == b.maxFailures && a.key == b.key
    && a.onComplete == b.onComplete && a.parent == b.parent && a.args == b.args && a.context == b.context
  }

  // ---------------------------------------------------------------------------------------------
  // Row changes
  // ---------------------------------------------------------------------------------------------

  lemma KeysKept(t: Table, id: nat, job: Job)
    requires KeysUnique(t) && id < |t| && SameIdentity(t[id], job)
    ensures KeysUnique(t[id := job])
  {
  }

  /** A change between two states that owe no callback. */
  lemma ReplaceKeeps(t: Table, id: nat, job: Job, t': Table)
    requires CallbacksOk(t) && id < |t| && SameIdentity(t[id], job) && t' == t[id := job]
    requires !Terminal(t[id].state) && !Terminal(job.state)
    ensures CallbacksOk(t')
  {
    forall i: nat | i < |t'| ensures CallbackOk(t', i) {
      assert CallbackOk(t, i);
      forall d: nat | Reports(t', d, i) ensures Reports(t, d, i) {}
      if OwesCallback(t[i]) {
        var c: nat :| IsCallback(t, c, i) && forall d: nat :: Reports(t, d, i) ==> d == c;
        assert IsCallback(t', c, i);
      }
    }
  }

  lemma FinishCallbacks(t: Table, id: nat, job: Job, r: Result, now: int, t': Table)
    requires CallbacksOk(t) && id < |t| && SameIdentity(t[id], job) && t' == Finish(t, id, job, r, now)
    requires !Terminal(t[id].state) && Terminal(job.state) && Fits(r, job.state)
    ensures CallbacksOk(t')
  {
    forall i: nat | i < |t'| ensures CallbackOk(t', i) {
      if i < |t| {
        assert CallbackOk(t, i);
        forall d: nat | d < |t| && Reports(t', d, i) ensures Reports(t, d, i) {}
        if i == id {
          if job.onComplete.Some? { assert IsCallback(t', |t|, id); }
        } else if OwesCallback(t[i]) {
          var c: nat :| IsCallback(t, c, i) && forall d: nat :: Reports(t, d, i) ==> d == c;
          assert IsCallback(t', c, i);
        }
      } else {
        forall d: nat ensures !Reports(t', d, i) {}
      }
    }
  }

  lemma InsertCallbacks(t: Table, job: Job, t': Table)
    requires CallbacksOk(t) && t' == t + [job] && job.args.Work? && !Terminal(job.state)
    ensures CallbacksOk(t')
  {
    forall i: nat | i < |t'| ensures CallbackOk(t', i) {
      if i < |t| {
        assert CallbackOk(t, i);
        forall d: nat | Reports(t', d, i) ensures Reports(t, d, i) {}
        if OwesCallback(t[i]) {
          var c: nat :| IsCallback(t, c, i) && forall d: nat :: Reports(t, d, i) ==> d == c;
          assert IsCallback(t', c, i);
        }
      } else {
        forall d: nat ensures !Reports(t', d, i) {}
      }
    }
  }

  /** The row of `id` is replaced by a terminal one and its callback, if any, is inserted. */
  lemma FinishKeeps(s: Sched, id: nat, job: Job, r: Result, now: int, s': Sched)
    requires Inv(s) && id < |s.jobs| && SameIdentity(s.jobs[id], job)
    requires !Terminal(s.jobs[id].state) && Terminal(job.state) && Fits(r, job.state)
    requires RowOk(job.(completedTs := Some(now), lease := None), s.claims[id])
    requires s' == Sched(Finish(s.jobs, id, job, r, now), Pad(s.claims, |Finish(s.jobs, id, job, r, now)|))
    ensures Inv(s')
  {
    FinishCallbacks(s.jobs, id, job, r, now, s'.jobs);
    KeysKept(s.jobs, id, job.(completedTs := Some(now), lease := None));
    assert KeysUnique(s'.jobs);
  }

  lemma ReplaceInv(s: Sched, id: nat, job: Job, claims: nat, s': Sched)
    requires Inv(s) && id < |s.jobs| && SameIdentity(s.jobs[id], job)
    requires !Terminal(s.jobs[id].state) && !Terminal(job.state) && RowOk(job, claims)
    requires s' == Sched(s.jobs[id := job], s.claims[id := claims])
    ensures Inv(s')
  {
    ReplaceKeeps(s.jobs, id, job, s'.jobs);
    KeysKept(s.jobs, id, job);
  }

  // ---------------------------------------------------------------------------------------------
  // Events
  // ---------------------------------------------------------------------------------------------

  datatype Event =
    | Enqueued(path: string, kind: Kind, payload: string, opts: EnqueueOpts, now: int)
    | Inserted(job: Job)
    | Claimed(id: nat, now: int)
    | Completed(id: nat, attempt: Attempt, now: int, backoff: nat)
    | Swept(batch: seq<nat>, now: int)
    | CanceledFrom(root: nat, order: seq<nat>, now: int)

  /** A row written directly, with any parent and any budget. */
  predicate FreshRow(job: Job) {
    && job.state.Pending? && job.attempts == 0 && job.lease.None? && job.completedTs.None?
    && job.args.Work? && job.key.None?
  }

  ghost predicate Enabled(s: Sched, e: Event) {
    match e
    case Inserted(job) => FreshRow(job)
    case Swept(batch, now) => ExpiredBatch(s.jobs, batch, now)
    case CanceledFrom(root, order, _) => CancelOrder(s.jobs, root, order)
    case _ => true
  }

  ghost function NextTable(t: Table, e: Event): Table
    requires Enabled(Sched(t, []), e)
  {
    match e
    case Enqueued(path, kind, payload, opts, now) => Enqueue(t, path, kind, Work(payload), opts, now).0
    case Inserted(job) => t + [job]
    case Claimed(id, now) => Claim(t, id, now)
    case Completed(id, a, now, backoff) => Complete(t, id, a, now, backoff)
    case Swept(batch, now) => Reclaim(t, batch, now)
    case CanceledFrom(_, order, now) => CancelAll(t, order, now)
  }

  predicate Claims(t: Table, e: Event, id: nat) {
    e.Claimed? && e.id == id && id < |t| && t[id].state.Pending?
  }

  ghost function Next(s: Sched, e: Event): Sched
    requires Enabled(s, e)
  {
    var t := NextTable(s.jobs, e);
    var claims :=
      if e.Claimed? && e.id < |s.claims| && Claims(s.jobs, e, e.id)
      then s.claims[e.id := s.claims[e.id] + 1] else s.claims;
    Sched(t, Pad(claims, |t|))
  }

  /** Leaving `pending` or `inProgress` for a row that fits the budget. */
  lemma ClaimKeeps(s: Sched, id: nat, now: int)
    requires Inv(s)
    ensures Inv(Next(s, Claimed(id, now)))
  {
    if id < |s.jobs| && s.jobs[id].state.Pending? {
      ReplaceInv(s, id, s.jobs[id].(state := InProgress, lease := Some(now + LEASE_MS)), s.claims[id] + 1,
                 Next(s, Claimed(id, now)));
    }
  }

  lemma CompleteKeeps(s: Sched, id: nat, a: Attempt, now: int, backoff: nat)
    requires Inv(s)
    ensures Inv(Next(s, Completed(id, a, now, backoff)))
  {
    if id < |s.jobs| && s.jobs[id].state.InProgress? {
      var job := s.jobs[id];
      var s' := Next(s, Completed(id, a, now, backoff));
      match a
      case Returned(v) => FinishKeeps(s, id, job.(state := Success), Succeeded(v), now, s');
      case Threw(e, retryable) =>
        var attempts := job.attempts + 1;
        if attempts >= job.maxFailures || !retryable {
          FinishKeeps(s, id, job.(state := Failed, attempts := attempts), FailedWith(e), now, s');
        } else {
          ReplaceInv(s, id, Released(job.(state := Pending, attempts := attempts, nextTs := now + backoff)),
                     s.claims[id], s');
        }
    }
  }

  lemma ReclaimOneKeeps(s: Sched, id: nat, now: int, s': Sched)
    requires Inv(s) && id < |s.jobs| && s.jobs[id].state.InProgress?
    requires s' == Sched(ReclaimOne(s.jobs, id, now), Pad(s.claims, |ReclaimOne(s.jobs, id, now)|))
    ensures Inv(s') && |s.jobs| <= |s'.jobs|
    ensures forall i :: 0 <= i < |s.jobs| && i != id ==> s'.jobs[i] == s.jobs[i]
  {
    var job := s.jobs[id];
    var attempts := job.attempts + 1;
    if job.kind.Mutation? && attempts < job.maxFailures {
      ReplaceInv(s, id, Released(job.(state := Pending, attempts := attempts, nextTs := now)), s.claims[id], s');
    } else {
      FinishKeeps(s, id, job.(state := Failed, attempts := attempts), FailedWith(LEASE_EXPIRED), now, s');
    }
  }

  lemma PadTwice(claims: seq<nat>, m: nat, n: nat)
    requires m <= n
    ensures Pad(Pad(claims, m), n) == Pad(claims, n)
  {
  }

  lemma ReclaimLastKeeps(claims: seq<nat>, s: Sched, id: nat, now: int, s': Sched)
    requires s.claims == Pad(claims, |s.jobs|) && Inv(s) && id < |s.jobs| && s.jobs[id].state.InProgress?
    requires s' == Sched(ReclaimOne(s.jobs, id, now), Pad(claims, |ReclaimOne(s.jobs, id, now)|))
    ensures Inv(s')
  {
    PadTwice(claims, |s.jobs|, |s'.jobs|);
    ReclaimOneKeeps(s, id, now, s');
  }

  lemma {:induction false} ReclaimKeeps(s: Sched, batch: seq<nat>, now: int, s': Sched)
    requires Inv(s) && Distinct(batch)
    requires forall i :: 0 <= i < |batch| ==> batch[i] < |s.jobs| && s.jobs[batch[i]].state.InProgress?
    requires s' == Sched(Reclaim(s.jobs, batch, now), Pad(s.claims, |Reclaim(s.jobs, batch, now)|))
    ensures Inv(s')
  {
    if batch != [] {
      var n := |batch| - 1;
      var t1 := Reclaim(s.jobs, batch[..n], now);
      var s1 := Sched(t1, Pad(s.claims, |t1|));
      ReclaimKeeps(s, batch[..n], now, s1);
      SweepAt(s.jobs, batch[..n], now, batch[n]);
      ReclaimLastKeeps(s.claims, s1, batch[n], now, s');
    }
  }

  lemma CancelLastKeeps(claims: seq<nat>, s: Sched, id: nat, now: int, s': Sched)
    requires s.claims == Pad(claims, |s.jobs|) && Inv(s) && id < |s.jobs| && s.jobs[id].state.Pending?
    requires s' == Sched(CancelOne(s.jobs, id, now), Pad(claims, |CancelOne(s.jobs, id, now)|))
    ensures Inv(s')
  {
    PadTwice(claims, |s.jobs|, |s'.jobs|);
    FinishKeeps(s, id, s.jobs[id].(state := Canceled), WasCanceled, now, s');
  }

  lemma {:induction false} CancelAllKeeps(s: Sched, order: seq<nat>, now: int, s': Sched)
    requires Inv(s) && Distinct(order)
    requires forall i :: 0 <= i < |order| ==> order[i] < |s.jobs| && s.jobs[order[i]].state.Pending?
    requires s' == Sched(CancelAll(s.jobs, order, now), Pad(s.claims, |CancelAll(s.jobs, order, now)|))
    ensures Inv(s')
  {
    if order != [] {
      var n := |order| - 1;
      var t1 := CancelAll(s.jobs, order[..n], now);
      var s1 := Sched(t1, Pad(s.claims, |t1|));
      CancelAllKeeps(s, order[..n], now, s1);
      CanceledAt(s.jobs, order[..n], now, order[n]);
      CancelLastKeeps(s.claims, s1, order[n], now, s');
    }
  }

  lemma InsertKeeps(s: Sched, job: Job, s': Sched)
    requires Inv(s) && s' == Sched(s.jobs + [job], Pad(s.claims, |s.jobs| + 1))
    requires job.args.Work? && job.state.Pending? && job.attempts == 0 && job.lease.None? && job.completedTs.None?
    requires job.key.Some? ==> forall i :: 0 <= i < |s.jobs| ==> s.jobs[i].key != job.key
    ensures Inv(s')
  {
    InsertCallbacks(s.jobs, job, s'.jobs);
  }

  lemma NextKeeps(s: Sched, e: Event)
    requires Inv(s) && Enabled(s, e)
    ensures Inv(Next(s, e))
  {
    match e
    case Enqueued(path, kind, payload, opts, now) =>
      if !(opts.key.Some? && FindKey(s.jobs, opts.key.value).Some?) {
        InsertKeeps(s, NewJob(path, kind, Work(payload), opts, now), Next(s, e));
      }
    case Inserted(job) => InsertKeeps(s, job, Next(s, e));
    case Claimed(id, now) => ClaimKeeps(s, id, now);
    case Completed(id, a, now, backoff) => CompleteKeeps(s, id, a, now, backoff);
    case Swept(batch, now) => ReclaimKeeps(s, batch, now, Next(s, e));
    case CanceledFrom(root, order, now) => CancelAllKeeps(s, order, now, Next(s, e));
  }

  ghost function RunOf(events: seq<Event>): Option<Sched> {
    if events == [] then Some(Sched([], []))
    else
      var n := |events| - 1;
      match RunOf(events[..n])
      case None => None
      case Some(s) => if Enabled(s, events[n]) then Some(Next(s, events[n])) else None
  }

  lemma {:induction false} RunInv(events: seq<Event>)
    requires RunOf(events).Some?
    ensures Inv(RunOf(events).value)
  {
    if events != [] {
      var n := |events| - 1;
      RunInv(events[..n]);
      NextKeeps(RunOf(events[..n]).value, events[n]);
    }
  }

  // ---------------------------------------------------------------------------------------------
  // The theorems
  // ---------------------------------------------------------------------------------------------

  /** How many dispatches of job `id` the run contains. */
  ghost function Dispatches(events: seq<Event>, id: nat): nat
    requires RunOf(events).Some?
  {
    if events == [] then 0
    else
      var n := |events| - 1;
      Dispatches(events[..n], id) + if Claims(RunOf(events[..n]).value.jobs, events[n], id) then 1 else 0
  }

  lemma {:induction false} DispatchesAreClaims(events: seq<Event>, id: nat)
    requires RunOf(events).Some?
    ensures var s := RunOf(events).value;
            |s.claims| == |s.jobs| && Dispatches(events, id) == if id < |s.jobs| then s.claims[id] else 0
  {
    RunInv(events);
    if events != [] {
      var n := |events| - 1;
      DispatchesAreClaims(events[..n], id);
    }
  }

  /** Crashes included, a job is dispatched at most `max(1, maxFailures)` times. */
  lemma BoundedDispatch(events: seq<Event>, id: nat)
    requires RunOf(events).Some? && id < |RunOf(events).value.jobs|
    ensures var job := RunOf(events).value.jobs[id];
            && Dispatches(events, id) <= Most(1, job.maxFailures)
            && Dispatches(events, id) == job.attempts + (if job.state.InProgress? || job.state.Success? then 1 else 0)
            && (job.lease.Some? <==> job.state.InProgress?)
  {
    RunInv(events);
    DispatchesAreClaims(events, id);
  }

  /** A terminal job with a callback has exactly one, of the right kind and with its own context; others have none. */
  lemma ExactlyOneCallback(events: seq<Event>, id: nat)
    requires RunOf(events).Some? && id < |RunOf(events).value.jobs|
    ensures CallbackOk(RunOf(events).value.jobs, id)
  {
    RunInv(events);
  }

  /** A row keeps what it was enqueued with. */
  lemma ArgsKept(s: Sched, e: Event, c: nat)
    requires Enabled(s, e) && c < |s.jobs|
    ensures c < |Next(s, e).jobs| && SameIdentity(Next(s, e).jobs[c], s.jobs[c])
  {
    match e
    case Swept(batch, now) => SweepAt(s.jobs, batch, now, c);
    case CanceledFrom(_, order, now) => CanceledAt(s.jobs, order, now, c);
    case _ =>
  }

  /** A job settles together with its callback: the step that ends the job enqueues the one report of it. */
  lemma SettlesWithItsCallback(events: seq<Event>, e: Event, id: nat)
    requires RunOf(events).Some? && Enabled(RunOf(events).value, e) && id < |RunOf(events).value.jobs|
    requires var s := RunOf(events).value; !Terminal(s.jobs[id].state)
    ensures var t, t' := RunOf(events).value.jobs, Next(RunOf(events).value, e).jobs;
            && id < |t'|
            && (OwesCallback(t'[id]) ==>
                 exists c: nat :: |t| <= c && IsCallback(t', c, id) && forall d: nat :: Reports(t', d, id) ==> d == c)
            && (!OwesCallback(t'[id]) ==> forall d: nat :: !Reports(t', d, id))
  {
    RunInv(events);
    var s := RunOf(events).value;
    var t, t' := s.jobs, Next(s, e).jobs;
    NextKeeps(s, e);
    ArgsKept(s, e, id);
    assert CallbackOk(t, id) && CallbackOk(t', id);
    if OwesCallback(t'[id]) {
      var c: nat :| IsCallback(t', c, id) && forall d: nat :: Reports(t', d, id) ==> d == c;
      if c < |t| { ArgsKept(s, e, c); }
      assert !Reports(t, c, id);
    }
  }

  lemma NextKeepsTerminal(s: Sched, e: Event, id: nat)
    requires Inv(s) && Enabled(s, e) && id < |s.jobs| && Terminal(s.jobs[id].state)
    ensures id < |Next(s, e).jobs| && Next(s, e).jobs[id] == s.jobs[id]
  {
    match e
    case Swept(batch, now) => SweepAt(s.jobs, batch, now, id);
    case CanceledFrom(_, order, now) => CanceledAt(s.jobs, order, now, id);
    case _ =>
  }

  /** A terminal row never changes again. */
  lemma {:induction false} TerminalIsFinal(events: seq<Event>, m: nat, id: nat)
    requires RunOf(events).Some? && m <= |events| && RunOf(events[..m]).Some?
    requires id < |RunOf(events[..m]).value.jobs| && Terminal(RunOf(events[..m]).value.jobs[id].state)
    ensures id < |RunOf(events).value.jobs| && RunOf(events).value.jobs[id] == RunOf(events[..m]).value.jobs[id]
  {
    if m == |events| {
      assert events[..m] == events;
    } else {
      var n := |events| - 1;
      assert events[..n][..m] == events[..m];
      TerminalIsFinal(events[..n], m, id);
      RunInv(events[..n]);
      NextKeepsTerminal(RunOf(events[..n]).value, events[n], id);
    }
  }

  /** A job enqueued under a key is found again, not inserted again. */
  lemma EnqueueIsIdempotent(t: Table, path: string, kind: Kind, args: Args, opts: EnqueueOpts, now: int, later: int)
    requires opts.key.Some?
    ensures var (t1, id) := Enqueue(t, path, kind, args, opts, now);
            Enqueue(t1, path, kind, args, opts, later) == (t1, id) && |t1| <= |t| + 1
  {
    var (t1, id) := Enqueue(t, path, kind, args, opts, now);
    if FindKey(t, opts.key.value).None? {
      var r := FindKey(t1, opts.key.value);
      assert t1[|t|].key == opts.key;
      assert r == Some(|t|);
    }
  }

  /** A reclaimed row: an unspent mutation goes back to the queue, anything else is dead-lettered. */
  function Swept1(job: Job, now: int): Job {
    var spent := Released(job.(attempts := job.attempts + 1));
    if job.kind.Mutation? && spent.attempts < job.maxFailures then spent.(state := Pending, nextTs := now)
    else spent.(state := Failed, completedTs := Some(now))
  }

  lemma SweepOneAt(t: Table, swept: nat, now: int, id: nat)
    requires swept < |t| && id < |t|
    ensures ReclaimOne(t, swept, now)[id] == if id == swept then Swept1(t[id], now) else t[id]
  {
  }

  /** A sweep does that to each row of its batch, once, and leaves the others alone. */
  lemma {:induction false} SweepAt(t: Table, batch: seq<nat>, now: int, id: nat)
    requires Distinct(batch) && id < |t| && forall i :: 0 <= i < |batch| ==> batch[i] < |t|
    ensures Reclaim(t, batch, now)[id] == if id in batch then Swept1(t[id], now) else t[id]
  {
    if batch != [] {
      var n := |batch| - 1;
      SweepAt(t, batch[..n], now, id);
      SweepOneAt(Reclaim(t, batch[..n], now), batch[n], now, id);
      assert batch == batch[..n] + [batch[n]] && batch[n] !in batch[..n];
    }
  }

  /** An action whose lease expired fails for good, whatever its retry budget. */
  lemma CrashedActionNeverReruns(events: seq<Event>, batch: seq<nat>, now: int, id: nat)
    requires RunOf(events).Some? && ExpiredBatch(RunOf(events).value.jobs, batch, now)
    requires id in batch && RunOf(events).value.jobs[id].kind.Action?
    ensures NextTable(RunOf(events).value.jobs, Swept(batch, now))[id].state.Failed?
  {
    SweepAt(RunOf(events).value.jobs, batch, now, id);
  }

  lemma CanceledOneAt(t: Table, canceled: nat, now: int, id: nat)
    requires canceled < |t| && id < |t|
    ensures CancelOne(t, canceled, now)[id] ==
            if id == canceled then t[id].(state := Canceled, completedTs := Some(now), lease := None) else t[id]
  {
  }

  /** Canceling a list of jobs touches the listed rows, each once. */
  lemma {:induction false} CanceledAt(t: Table, order: seq<nat>, now: int, id: nat)
    requires Distinct(order) && id < |t| && forall i :: 0 <= i < |order| ==> order[i] < |t|
    ensures CancelAll(t, order, now)[id] ==
            if id in order then t[id].(state := Canceled, completedTs := Some(now), lease := None) else t[id]
  {
    if order != [] {
      var n := |order| - 1;
      CanceledAt(t, order[..n], now, id);
      CanceledOneAt(CancelAll(t, order[..n], now), order[n], now, id);
      assert order == order[..n] + [order[n]] && order[n] !in order[..n];
    }
  }

  /**
   In whatever order the walk found them: exactly the pending descendants are canceled, every other row is as it was.
   */
  lemma CascadeIsExact(t: Table, root: nat, order: seq<nat>, now: int, id: nat)
    requires CancelOrder(t, root, order) && id < |t|
    ensures CancelAll(t, order, now)[id] ==
            if t[id].state.Pending? && Descends(t, root, id)
            then t[id].(state := Canceled, completedTs := Some(now), lease := None)
            else t[id]
  {
    CanceledAt(t, order, now, id);
  }

  // ---------------------------------------------------------------------------------------------
  // What an attempt, a sweep and an enqueue decide
  // ---------------------------------------------------------------------------------------------

  /** A callback job as it is born: a mutation, due at once, with the result it reports. */
  predicate FreshReport(job: Job, r: Result, now: int) {
    job.args.Report? && job.args.result == r && job.kind.Mutation? && job.state.Pending? && job.nextTs == now
  }

  /** `id` ended just now, and what it owes is reported by one new job, with the very result `r`. */
  ghost predicate EndedWith(t: Table, t': Table, id: nat, r: Result, now: int)
    requires id < |t| <= |t'|
  {
    && Terminal(t'[id].state) && t'[id].completedTs == Some(now)
    && (t[id].onComplete.Some? ==>
         exists c: nat :: |t| <= c && IsCallback(t', c, id) && FreshReport(t'[c], r, now))
  }

  /** Back in the queue, and nothing reported. */
  ghost predicate Requeued(t: Table, t': Table, id: nat, due: int)
    requires id < |t| <= |t'|
  {
    t'[id].state.Pending? && t'[id].nextTs == due && forall d: nat :: !Reports(t', d, id)
  }

  lemma RunNext(events: seq<Event>, e: Event)
    requires RunOf(events).Some? && Enabled(RunOf(events).value, e)
    ensures RunOf(events + [e]) == Some(Next(RunOf(events).value, e))
  {
    assert (events + [e])[..|events|] == events;
  }

  ghost predicate AttemptSettles(t: Table, t': Table, id: nat, a: Attempt, now: int, backoff: nat, dispatches: nat)
    requires id < |t| <= |t'|
  {
    match a
    case Returned(v) => t'[id].state.Success? && EndedWith(t, t', id, Succeeded(v), now)
    case Threw(e, retryable) =>
      if !retryable || dispatches >= t[id].maxFailures
      then t'[id].state.Failed? && EndedWith(t, t', id, FailedWith(e), now)
      else Requeued(t, t', id, now + backoff)
  }

  lemma CompleteSettles(s: Sched, s': Sched, id: nat, a: Attempt, now: int, backoff: nat)
    requires Inv(s) && id < |s.jobs| && s.jobs[id].state.InProgress?
    requires s' == Next(s, Completed(id, a, now, backoff)) && Inv(s')
    ensures |s.jobs| <= |s'.jobs| && (forall i :: 0 <= i < |s.jobs| && i != id ==> s'.jobs[i] == s.jobs[i])
    ensures AttemptSettles(s.jobs, s'.jobs, id, a, now, backoff, s.claims[id])
  {
    var t' := s'.jobs;
    assert RowOk(s.jobs[id], s.claims[id]) && CallbackOk(t', id);
    if OwesCallback(t'[id]) { assert IsCallback(t', |s.jobs|, id); }
  }

  /**
   A finished attempt.  A success ends the job with its value.  A failure ends it exactly when the error is not
   retryable or the dispatches of the job have reached its budget, else the job is due again after the backoff.
   Nobody else's row changes, and a completion of a job that is not running changes nothing.
   */
  lemma AttemptDecides(events: seq<Event>, id: nat, a: Attempt, now: int, backoff: nat)
    requires RunOf(events).Some?
    ensures RunOf(events + [Completed(id, a, now, backoff)]).Some?
    ensures var t, t' := RunOf(events).value.jobs, RunOf(events + [Completed(id, a, now, backoff)]).value.jobs;
            if id >= |t| || !t[id].state.InProgress? then t' == t
            else
              && |t| <= |t'| && (forall i :: 0 <= i < |t| && i != id ==> t'[i] == t[i])
              && AttemptSettles(t, t', id, a, now, backoff, Dispatches(events, id))
  {
    var e := Completed(id, a, now, backoff);
    var s := RunOf(events).value;
    RunNext(events, e);
    RunInv(events);
    RunInv(events + [e]);
    if id < |s.jobs| && s.jobs[id].state.InProgress? {
      DispatchesAreClaims(events, id);
      CompleteSettles(s, Next(s, e), id, a, now, backoff);
    }
  }

  /** Every row a sweep adds reports an expired lease. */
  lemma {:induction false} SweepReports(t: Table, batch: seq<nat>, now: int, c: nat)
    requires forall i :: 0 <= i < |batch| ==> batch[i] < |t|
    requires |t| <= c < |Reclaim(t, batch, now)|
    ensures FreshReport(Reclaim(t, batch, now)[c], FailedWith(LEASE_EXPIRED), now)
  {
    if batch != [] {
      var n := |batch| - 1;
      if c < |Reclaim(t, batch[..n], now)| { SweepReports(t, batch[..n], now, c); }
    }
  }

  /**
   A lost attempt: a sweep ends a job of its batch exactly when it is an action or its dispatches have reached
   the budget, with the expired lease as its error; else the job is due at once.  No other row changes.
   */
  lemma SweepDecides(events: seq<Event>, batch: seq<nat>, now: int, id: nat)
    requires RunOf(events).Some? && Enabled(RunOf(events).value, Swept(batch, now))
    requires id < |RunOf(events).value.jobs|
    ensures RunOf(events + [Swept(batch, now)]).Some?
    ensures var t, t' := RunOf(events).value.jobs, RunOf(events + [Swept(batch, now)]).value.jobs;
            && |t| <= |t'|
            && if id !in batch then t'[id] == t[id]
               else if t[id].kind.Action? || Dispatches(events, id) >= t[id].maxFailures
               then t'[id].state.Failed? && EndedWith(t, t', id, FailedWith(LEASE_EXPIRED), now)
               else Requeued(t, t', id, now)
  {
    var e := Swept(batch, now);
    var s := RunOf(events).value;
    RunNext(events, e);
    RunInv(events);
    RunInv(events + [e]);
    BoundedDispatch(events, id);
    SweepAt(s.jobs, batch, now, id);
    var t' := Next(s, e).jobs;
    assert CallbackOk(t', id);
    if id in batch && OwesCallback(t'[id]) {
      SettlesWithItsCallback(events, e, id);
      var c: nat :| |s.jobs| <= c && IsCallback(t', c, id);
      SweepReports(s.jobs, batch, now, c);
    }
  }

  /** A new job, or none if the key is taken: due when asked, never in the past by a delay. */
  lemma EnqueueDecides(events: seq<Event>, path: string, kind: Kind, payload: string, opts: EnqueueOpts, now: int)
    requires RunOf(events).Some?
    ensures var e := Enqueued(path, kind, payload, opts, now);
            RunOf(events + [e]).Some? &&
            var t, t' := RunOf(events).value.jobs, RunOf(events + [e]).value.jobs;
            if exists i :: 0 <= i < |t| && t[i].key.Some? && t[i].key == opts.key then t' == t
            else
              && |t'| == |t| + 1 && t <= t'
              && var job := t'[|t|];
                 && job.path == path && job.kind == kind && job.args == Work(payload) && job.state.Pending?
                 && job.key == opts.key && job.onComplete == opts.onComplete && job.context == opts.context
                 && (match opts.runAt
                     case Some(ts) => job.nextTs == ts
                     case None => job.nextTs == now + Most(0, if opts.runAfter.Some? then opts.runAfter.value else 0))
  {
    RunNext(events, Enqueued(path, kind, payload, opts, now));
  }

  lemma {:induction false} IdentityStays(events: seq<Event>, m: nat, id: nat)
    requires RunOf(events).Some? && m <= |events| && RunOf(events[..m]).Some? && id < |RunOf(events[..m]).value.jobs|
    ensures id < |RunOf(events).value.jobs| &&
            SameIdentity(RunOf(events).value.jobs[id], RunOf(events[..m]).value.jobs[id])
  {
    if m == |events| {
      assert events[..m] == events;
    } else {
      var n := |events| - 1;
      assert events[..n][..m] == events[..m];
      IdentityStays(events[..n], m, id);
      ArgsKept(RunOf(events[..n]).value, events[n], id);
    }
  }

  lemma PrefixNext(events: seq<Event>, m: nat)
    requires m < |events| && RunOf(events[..m]).Some? && RunOf(events[..m + 1]).Some?
    ensures Enabled(RunOf(events[..m]).value, events[m])
    ensures RunOf(events[..m + 1]) == Some(Next(RunOf(events[..m]).value, events[m]))
  {
    assert events[..m + 1][..m] == events[..m];
  }

  lemma NewJobBudget(s: Sched, e: Event, s': Sched)
    requires e.Enqueued? && s' == Next(s, e) && |s'.jobs| > |s.jobs|
    ensures s'.jobs[|s.jobs|].maxFailures ==
            if e.opts.retry.Some? then e.opts.retry.value else if e.kind.Action? then 1 else 4
  {
  }

  /** Unless its author asks for more, an action is dispatched once in any run, and a mutation four times at most. */
  lemma DefaultBudget(events: seq<Event>, m: nat)
    requires RunOf(events).Some? && m < |events| && events[m].Enqueued? && RunOf(events[..m]).Some?
    requires RunOf(events[..m + 1]).Some? && |RunOf(events[..m + 1]).value.jobs| > |RunOf(events[..m]).value.jobs|
    ensures var e, id := events[m], |RunOf(events[..m]).value.jobs|;
            Dispatches(events, id) <=
            Most(1, if e.opts.retry.Some? then e.opts.retry.value else if e.kind.Action? then 1 else 4)
  {
    var s, id := RunOf(events[..m]).value, |RunOf(events[..m]).value.jobs|;
    PrefixNext(events, m);
    NewJobBudget(s, events[m], Next(s, events[m]));
    IdentityStays(events, m + 1, id);
    BoundedDispatch(events, id);
  }

  /** When job `id` was last dispatched. */
  ghost function LastDispatch(events: seq<Event>, id: nat): Option<int>
    requires RunOf(events).Some?
  {
    if events == [] then None
    else
      var n := |events| - 1;
      if Claims(RunOf(events[..n]).value.jobs, events[n], id) then Some(events[n].now)
      else LastDispatch(events[..n], id)
  }

  lemma {:induction false} LeaseOfLastDispatch(events: seq<Event>, id: nat)
    requires RunOf(events).Some? && id < |RunOf(events).value.jobs| && RunOf(events).value.jobs[id].state.InProgress?
    ensures LastDispatch(events, id).Some?
    ensures RunOf(events).value.jobs[id].lease == Some(LastDispatch(events, id).value + 30_000)
  {
    var n := |events| - 1;
    var s, e := RunOf(events[..n]).value, events[n];
    if Claims(s.jobs, e, id) {
      LeaseTaken(s, e, id);
    } else {
      StillRunning(s, e, id);
      LeaseOfLastDispatch(events[..n], id);
    }
  }

  /** A running job holds the lease of its last dispatch, and no sweep takes it within thirty seconds of that. */
  lemma LeaseProtects(events: seq<Event>, id: nat, batch: seq<nat>, now: int)
    requires RunOf(events).Some? && Enabled(RunOf(events).value, Swept(batch, now)) && id in batch
    ensures LastDispatch(events, id).Some? && LastDispatch(events, id).value + 30_000 < now
  {
    LeaseOfLastDispatch(events, id);
  }

  lemma LeaseTaken(s: Sched, e: Event, id: nat)
    requires Claims(s.jobs, e, id)
    ensures Next(s, e).jobs[id].lease == Some(e.now + 30_000)
  {
  }

  lemma StillRunning(s: Sched, e: Event, id: nat)
    requires Enabled(s, e) && id < |Next(s, e).jobs| && Next(s, e).jobs[id].state.InProgress? && !Claims(s.jobs, e, id)
    ensures id < |s.jobs| && s.jobs[id] == Next(s, e).jobs[id]
  {
    match e
    case Swept(batch, now) =>
      if id < |s.jobs| { SweepAt(s.jobs, batch, now, id); } else { SweepReports(s.jobs, batch, now, id); }
    case CanceledFrom(_, order, now) =>
      if id < |s.jobs| { CanceledAt(s.jobs, order, now, id); } else { CancelReports(s.jobs, order, now, id); }
    case _ =>
  }

  lemma {:induction false} CancelReports(t: Table, order: seq<nat>, now: int, c: nat)
    requires forall i :: 0 <= i < |order| ==> order[i] < |t|
    requires |t| <= c < |CancelAll(t, order, now)|
    ensures FreshReport(CancelAll(t, order, now)[c], WasCanceled, now)
  {
    if order != [] {
      var n := |order| - 1;
      if c < |CancelAll(t, order[..n], now)| { CancelReports(t, order[..n], now, c); }
    }
  }
}
