/**
 The job lifecycle (components/scheduler/src/modules.ts, facade.ts) as a table of rows.  Every mutation
 is one atomic step; a row id is its position, because rows are only ever inserted or replaced.
 */
module Jobs {
  import opened Options

  datatype Kind = Mutation | Action

  datatype State = Pending | InProgress | Success | Failed | Canceled

  predicate Terminal(st: State) { st.Success? || st.Failed? || st.Canceled? }

  /** The terminal outcome a completion callback is given. */
  datatype Result = Succeeded(value: string) | FailedWith(error: string) | WasCanceled

  predicate Fits(r: Result, st: State) {
    match st
    case Success => r.Succeeded?
    case Failed => r.FailedWith?
    case Canceled => r.WasCanceled?
    case _ => false
  }

  /** A job's arguments: the caller's own, or the report of another job's completion. */
  datatype Args = Work(payload: string) | Report(of: nat, context: Option<string>, result: Result)

  datatype Job = Job(
    path: string,
    kind: Kind,
    state: State,
    nextTs: int,
    attempts: nat,
    maxFailures: int,
    lease: Option<int>,
    completedTs: Option<int>,
    key: Option<string>,
    onComplete: Option<string>,
    parent: Option<nat>,
    args: Args,
    context: Option<string>)

  type Table = seq<Job>

  const LEASE_MS := 30_000
  const BATCH_CAP := 64
  const LEASE_EXPIRED: string := "lease expired: driver did not complete the job before its lease deadline (infra kill)"

  datatype EnqueueOpts = EnqueueOpts(
    runAfter: Option<int>,
    runAt: Option<int>,
    retry: Option<int>,
    onComplete: Option<string>,
    context: Option<string>,
    key: Option<string>)

  const NO_OPTS := EnqueueOpts(None, None, None, None, None, None)

  function DueTime(opts: EnqueueOpts, now: int): int {
    if opts.runAt.Some? then opts.runAt.value
    else if opts.runAfter.Some? then now + (if opts.runAfter.value > 0 then opts.runAfter.value else 0)
    else now
  }

  /** Mutations may be retried; an action is not, unless its author says so. */
  function Budget(kind: Kind, retry: Option<int>): int {
    if retry.Some? then retry.value else if kind.Action? then 1 else 4
  }

  function NewJob(path: string, kind: Kind, args: Args, opts: EnqueueOpts, now: int): Job {
    Job(path, kind, Pending, DueTime(opts, now), 0, Budget(kind, opts.retry), None, None, opts.key, opts.onComplete,
        None, args, opts.context)
  }

  function FindKey(t: Table, key: string, from: nat := 0): (r: Option<nat>)
    requires from <= |t|
    ensures r.Some? ==> from <= r.value < |t| && t[r.value].key == Some(key)
    ensures r.None? ==> forall i :: from <= i < |t| ==> t[i].key != Some(key)
    decreases |t| - from
  {
    if from == |t| then None
    else if t[from].key == Some(key) then Some(from)
    else FindKey(t, key, from + 1)
  }

  /** Insert, or return the job that already has the idempotency key. */
  function Enqueue(t: Table, path: string, kind: Kind, args: Args, opts: EnqueueOpts, now: int): (Table, nat) {
    if opts.key.Some? && FindKey(t, opts.key.value).Some? then (t, FindKey(t, opts.key.value).value)
    else (t + [NewJob(path, kind, args, opts, now)], |t|)
  }

  /** The callback job of a terminal job; always a mutation, due at once. */
  function CallbackJob(job: Job, id: nat, r: Result, now: int): Job
    requires job.onComplete.Some?
  {
    NewJob(job.onComplete.value, Mutation, Report(id, job.context, r), NO_OPTS.(runAt := Some(now)), now)
  }

  function FireOnComplete(t: Table, id: nat, r: Result, now: int): Table
    requires id < |t|
  {
    if t[id].onComplete.None? then t else t + [CallbackJob(t[id], id, r, now)]
  }

  function Released(job: Job): Job { job.(lease := None) }

  /** A job reaches a terminal state and its callback goes out in the same step. */
  function Finish(t: Table, id: nat, job: Job, r: Result, now: int): Table
    requires id < |t|
  {
    FireOnComplete(t[id := job.(completedTs := Some(now), lease := None)], id, r, now)
  }

  function Claim(t: Table, id: nat, now: int): Table {
    if id >= |t| || !t[id].state.Pending? then t
    else t[id := t[id].(state := InProgress, lease := Some(now + LEASE_MS))]
  }

  datatype Attempt = Returned(value: string) | Threw(error: string, retryable: bool)

  function Complete(t: Table, id: nat, a: Attempt, now: int, backoff: nat): Table {
    if id >= |t| || !t[id].state.InProgress? then t
    else
      var job := t[id];
      match a
      case Returned(v) => Finish(t, id, job.(state := Success), Succeeded(v), now)
      case Threw(e, retryable) =>
        var attempts := job.attempts + 1;
        if attempts >= job.maxFailures || !retryable
        then Finish(t, id, job.(state := Failed, attempts := attempts), FailedWith(e), now)
        else t[id := Released(job.(state := Pending, attempts := attempts, nextTs := now + backoff))]
  }

  predicate Expired(job: Job, now: int) {
    job.state.InProgress? && job.lease.Some? && job.lease.value < now
  }

  function ReclaimOne(t: Table, id: nat, now: int): Table
    requires id < |t|
  {
    var job := t[id];
    var attempts := job.attempts + 1;
    if job.kind.Mutation? && attempts < job.maxFailures
    then t[id := Released(job.(state := Pending, attempts := attempts, nextTs := now))]
    else Finish(t, id, job.(state := Failed, attempts := attempts), FailedWith(LEASE_EXPIRED), now)
  }

  predicate Distinct(ids: seq<nat>) { forall i, j :: 0 <= i < j < |ids| ==> ids[i] != ids[j] }

  /** What one sweep may read: distinct expired rows, all of them if they fit the cap. */
  ghost predicate ExpiredBatch(t: Table, batch: seq<nat>, now: int) {
    && Distinct(batch) && |batch| <= BATCH_CAP
    && (forall i :: 0 <= i < |batch| ==> batch[i] < |t| && Expired(t[batch[i]], now))
    && (|batch| < BATCH_CAP ==> forall id: nat :: id < |t| && Expired(t[id], now) ==> id in batch)
  }

  function Reclaim(t: Table, batch: seq<nat>, now: int): (r: Table)
    requires forall i :: 0 <= i < |batch| ==> batch[i] < |t|
    ensures |r| >= |t|
  {
    if batch == [] then t
    else
      var n := |batch| - 1;
      ReclaimOne(Reclaim(t, batch[..n], now), batch[n], now)
  }

  function CancelOne(t: Table, id: nat, now: int): Table
    requires id < |t|
  {
    Finish(t, id, t[id].(state := Canceled), WasCanceled, now)
  }

  /** Cancels the listed jobs in order. */
  function CancelAll(t: Table, order: seq<nat>, now: int): (r: Table)
    requires forall i :: 0 <= i < |order| ==> order[i] < |t|
    ensures |r| >= |t|
  {
    if order == [] then t
    else
      var n := |order| - 1;
      CancelOne(CancelAll(t, order[..n], now), order[n], now)
  }

  /** `id` is reached from `root` by `k` child steps. */
  predicate DescendsIn(t: Table, root: nat, id: nat, k: nat)
    decreases k
  {
    if k == 0 then id == root
    else id < |t| && t[id].parent.Some? && DescendsIn(t, root, t[id].parent.value, k - 1)
  }

  ghost predicate Descends(t: Table, root: nat, id: nat) { exists k: nat :: DescendsIn(t, root, id, k) }

  /** A cancel cancels each pending descendant once, in some order. */
  ghost predicate CancelOrder(t: Table, root: nat, order: seq<nat>) {
    && Distinct(order)
    && (forall i :: 0 <= i < |order| ==> order[i] < |t|)
    && forall id: nat :: id < |t| ==> (id in order <==> t[id].state.Pending? && Descends(t, root, id))
  }
}
