/**
 The scheduler's mutations in their own form: rows replaced in place, a sweep that loops over expired
 rows, and the cascading cancel as a breadth-first walk.
 */
module Scheduler {
  import opened Options
  import opened Jobs

  /** What one step of the walk keeps about the ids it has seen. */
  ghost predicate Walked(t: Table, root: nat, queue: seq<nat>, seen: set<nat>) {
    && root in seen
    && (forall q :: q in queue ==> q in seen)
    && (forall x :: x in seen ==> (x == root || x < |t|) && Descends(t, root, x))
  }

  /** Every child of an id that left the queue has been seen. */
  ghost predicate Closed(t: Table, queue: seq<nat>, seen: set<nat>) {
    forall x, id: nat :: x in seen && x !in queue && id < |t| && t[id].parent == Some(x) ==> id in seen
  }

  lemma {:induction false} ClosedReaches(t: Table, root: nat, seen: set<nat>, id: nat, k: nat)
    requires root in seen && Closed(t, [], seen) && DescendsIn(t, root, id, k)
    ensures id in seen
    decreases k
  {
    if k > 0 {
      ClosedReaches(t, root, seen, t[id].parent.value, k - 1);
    }
  }

  lemma ChildDescends(t: Table, root: nat, x: nat, id: nat)
    requires Descends(t, root, x) && id < |t| && t[id].parent == Some(x)
    ensures Descends(t, root, id)
  {
    var k: nat :| DescendsIn(t, root, x, k);
    assert DescendsIn(t, root, id, k + 1);
  }

  /** The jobs canceled so far are the pending ones among the ids seen. */
  ghost predicate CanceledSeen(t: Table, seen: set<nat>, order: seq<nat>) {
    && Distinct(order)
    && (forall i :: 0 <= i < |order| ==> order[i] < |t|)
    && forall id: nat :: id < |t| ==> (id in order <==> t[id].state.Pending? && id in seen)
  }

  /** Where the table stands after canceling `order`: rows not listed are untouched, new rows have no parent. */
  ghost predicate Underway(t: Table, order: seq<nat>, now: int, jobs: Table) {
    && (forall i :: 0 <= i < |order| ==> order[i] < |t|)
    && jobs == CancelAll(t, order, now)
    && (forall id :: 0 <= id < |t| ==> jobs[id].parent == t[id].parent && (id !in order ==> jobs[id] == t[id]))
    && (forall id :: |t| <= id < |jobs| ==> jobs[id].parent.None?)
  }

  lemma CancelMore(t: Table, order: seq<nat>, now: int, jobs: Table, id: nat)
    requires Underway(t, order, now, jobs) && id < |t| && id !in order
    ensures Underway(t, order + [id], now, CancelOne(jobs, id, now))
  {
  }

  lemma SeenOne(t: Table, seen: set<nat>, order: seq<nat>, id: nat)
    requires CanceledSeen(t, seen, order) && id !in seen
    ensures id < |t| && t[id].state.Pending? ==> CanceledSeen(t, seen + {id}, order + [id])
    ensures id < |t| && !t[id].state.Pending? ==> CanceledSeen(t, seen + {id}, order)
  {
  }

  ghost function Ids(n: nat): (r: set<nat>)
    ensures forall x: nat :: x in r <==> x < n
  {
    if n == 0 then {} else Ids(n - 1) + {n - 1}
  }

  lemma ReclaimNext(t: Table, batch: seq<nat>, k: nat, now: int)
    requires k < |batch| && forall i :: 0 <= i < |batch| ==> batch[i] < |t|
    ensures Reclaim(t, batch[..k + 1], now) == ReclaimOne(Reclaim(t, batch[..k], now), batch[k], now)
  {
    assert batch[..k + 1][..k] == batch[..k];
  }

  class JobTable {
    var jobs: Table

    constructor ()
      ensures jobs == []
    {
      jobs := [];
    }

    /** `scheduler:_claim`; returns whether the caller won the job. */
    method ClaimJob(id: nat, now: int) returns (won: bool)
      modifies this
      ensures jobs == Claim(old(jobs), id, now)
      ensures won <==> id < |old(jobs)| && old(jobs)[id].state.Pending?
    {
      if id >= |jobs| || jobs[id].state != Pending {
        return false;
      }
      jobs := jobs[id := jobs[id].(state := InProgress, lease := Some(now + LEASE_MS))];
      return true;
    }

    method Fire(id: nat, r: Result, now: int)
      requires id < |jobs|
      modifies this
      ensures jobs == FireOnComplete(old(jobs), id, r, now)
    {
      if jobs[id].onComplete.Some? {
        jobs := jobs + [CallbackJob(jobs[id], id, r, now)];
      }
    }

    /** `scheduler:_complete`. */
    method CompleteJob(id: nat, a: Attempt, now: int, backoff: nat)
      modifies this
      ensures jobs == Complete(old(jobs), id, a, now, backoff)
    {
      if id >= |jobs| || jobs[id].state != InProgress {
        return;
      }
      var job := jobs[id];
      if a.Returned? {
        jobs := jobs[id := job.(state := Success, completedTs := Some(now), lease := None)];
        Fire(id, Succeeded(a.value), now);
        return;
      }
      var attempts := job.attempts + 1;
      if attempts >= job.maxFailures || !a.retryable {
        jobs := jobs[id := job.(state := Failed, attempts := attempts, completedTs := Some(now), lease := None)];
        Fire(id, FailedWith(a.error), now);
        return;
      }
      jobs := jobs[id := job.(state := Pending, attempts := attempts, nextTs := now + backoff, lease := None)];
    }

    /** A job whose lease ran out: a mutation with budget left goes back in the queue, anything else fails. */
    method ReclaimRow(id: nat, now: int)
      requires id < |jobs|
      modifies this
      ensures jobs == ReclaimOne(old(jobs), id, now)
    {
      var job := jobs[id];
      var attempts := job.attempts + 1;
      if job.kind == Mutation && attempts < job.maxFailures {
        jobs := jobs[id := job.(state := Pending, attempts := attempts, nextTs := now, lease := None)];
      } else {
        jobs := jobs[id := job.(state := Failed, attempts := attempts, completedTs := Some(now), lease := None)];
        Fire(id, FailedWith(LEASE_EXPIRED), now);
      }
    }

    /** `scheduler:_reclaim`, over the expired rows the index returned. */
    method Sweep(batch: seq<nat>, now: int) returns (reclaimed: nat)
      requires ExpiredBatch(jobs, batch, now)
      modifies this
      ensures jobs == Reclaim(old(jobs), batch, now) && reclaimed == |batch|
    {
      reclaimed := 0;
      while reclaimed < |batch|
        invariant 0 <= reclaimed <= |batch|
        invariant jobs == Reclaim(old(jobs), batch[..reclaimed], now)
      {
        ReclaimNext(old(jobs), batch, reclaimed, now);
        ReclaimRow(batch[reclaimed], now);
        reclaimed := reclaimed + 1;
      }
      assert batch[..reclaimed] == batch;
    }

    /** The shared enqueue path. */
    method EnqueueJob(path: string, kind: Kind, args: Args, opts: EnqueueOpts, now: int) returns (id: nat)
      modifies this
      ensures (jobs, id) == Enqueue(old(jobs), path, kind, args, opts, now)
    {
      if opts.key.Some? {
        var i := 0;
        while i < |jobs| && jobs[i].key != opts.key
          invariant 0 <= i <= |jobs| && FindKey(jobs, opts.key.value) == FindKey(jobs, opts.key.value, i)
        {
          i := i + 1;
        }
        if i < |jobs| {
          return i;
        }
      }
      id := |jobs|;
      jobs := jobs + [NewJob(path, kind, args, opts, now)];
    }

    method CancelRow(id: nat, now: int)
      requires id < |jobs|
      modifies this
      ensures jobs == CancelOne(old(jobs), id, now)
    {
      jobs := jobs[id := jobs[id].(state := Canceled, completedTs := Some(now), lease := None)];
      Fire(id, WasCanceled, now);
    }

    /** Cancels child `i` if it is still pending. */
    method VisitChild(root: nat, parent: nat, i: nat, queue: seq<nat>, seen: set<nat>, now: int, ghost t: Table,
                      ghost order: seq<nat>)
      returns (ghost order': seq<nat>)
      requires Walked(t, root, queue, seen) && parent in seen && i !in seen
      requires CanceledSeen(t, seen, order) && Underway(t, order, now, jobs)
      requires i < |jobs| && jobs[i].parent == Some(parent)
      modifies this
      ensures i < |t| && Walked(t, root, queue + [i], seen + {i})
      ensures CanceledSeen(t, seen + {i}, order') && Underway(t, order', now, jobs)
      ensures |jobs| >= |old(jobs)|
    {
      order' := order;
      ChildDescends(t, root, parent, i);
      SeenOne(t, seen, order, i);
      if jobs[i].state == Pending {
        CancelMore(t, order, now, jobs, i);
        CancelRow(i, now);
        order' := order + [i];
      }
    }

    /** One step of the walk: cancel and queue the children of `parent` that were not seen yet. */
    method VisitChildren(root: nat, parent: nat, queue: seq<nat>, seen: set<nat>, now: int, ghost t: Table,
                         ghost order: seq<nat>)
      returns (queue': seq<nat>, seen': set<nat>, ghost order': seq<nat>)
      requires Walked(t, root, queue, seen) && parent in seen
      requires CanceledSeen(t, seen, order) && Underway(t, order, now, jobs)
      modifies this
      ensures Walked(t, root, queue', seen')
      ensures CanceledSeen(t, seen', order') && Underway(t, order', now, jobs)
      ensures seen <= seen' && (forall x :: x in seen' && x !in queue' ==> x in seen && x !in queue)
      ensures seen' == seen ==> queue' == queue
      ensures forall id: nat :: id < |t| && t[id].parent == Some(parent) ==> id in seen'
    {
      queue', seen', order' := queue, seen, order;
      var n := |jobs|;
      var i: nat := 0;
      while i < n
        invariant 0 <= i <= n <= |jobs| && |t| <= n
        invariant Walked(t, root, queue', seen')
        invariant CanceledSeen(t, seen', order') && Underway(t, order', now, jobs)
        invariant seen <= seen' && queue <= queue'
        invariant forall x :: x in seen' && x !in seen ==> x in queue'
        invariant seen' == seen ==> queue' == queue
        invariant forall id: nat :: id < |t| && id < i && t[id].parent == Some(parent) ==> id in seen'
      {
        if jobs[i].parent == Some(parent) && i !in seen' {
          order' := VisitChild(root, parent, i, queue', seen', now, t, order');
          queue', seen' := queue' + [i], seen' + {i};
        }
        i := i + 1;
      }
    }

    /**
     `ctx.scheduler.cancel`: a queue and a `seen` set, so a cyclic parent chain cannot loop.  The ghost
     result lists the canceled jobs in the order of the walk.
     */
    method Cancel(root: nat, now: int) returns (ghost order: seq<nat>)
      modifies this
      ensures CancelOrder(old(jobs), root, order)
      ensures jobs == CancelAll(old(jobs), order, now)
    {
      ghost var t := jobs;
      order := [];
      if root < |jobs| && jobs[root].state == Pending {
        CancelMore(t, order, now, jobs, root);
        CancelRow(root, now);
        order := order + [root];
      }
      var queue: seq<nat> := [root];
      var seen: set<nat> := {root};
      assert DescendsIn(t, root, root, 0);
      while queue != []
        invariant Walked(t, root, queue, seen) && Closed(t, queue, seen)
        invariant CanceledSeen(t, seen, order) && Underway(t, order, now, jobs)
        decreases Ids(|t|) - seen, |queue|
      {
        var parent := queue[0];
        ghost var was := seen;
        queue, seen, order := VisitChildren(root, parent, queue[1..], seen, now, t, order);
        if seen != was {
          var x :| x in seen && x !in was;
          assert x in Ids(|t|) - was && x !in Ids(|t|) - seen;
        }
      }
      forall id: nat, k: nat | DescendsIn(t, root, id, k) ensures id in seen {
        ClosedReaches(t, root, seen, id, k);
      }
    }
  }
}
