/**
 Deterministic replay (components/workflow/src/replay.ts).

 A handler is any deterministic program whose requests are ordered by its own control flow: what it
 does next depends only on what its awaits have returned so far.  The straight run executes it once
 against a world that fixes the outcome of every step number; replay re-runs it from the top against
 the journal.  The results here say that the two agree.
 */
module Replay {
  import opened Options

  /** JSON text. */
  type Value = string

  datatype Kind = Mutation | Query | Action | Sleep | WaitForEvent

  const SLEEP_FN: string := "workflow:_sleep"
  const NO_ARGS: Value := "{}"

  datatype StepOpts = StepOpts(maxAttempts: Option<nat>, compensate: Option<string>)

  const NO_OPTS := StepOpts(None, None)

  datatype Timer = Immediate | Delay(ms: int) | Due(ts: int)

  /** One call on the `step` object a handler receives. */
  datatype Request = Request(kind: Kind, name: string, args: Value, opts: StepOpts, timer: Timer) {
    /** The only place the poll's clock is read. */
    function RunAt(now: int): Option<int> {
      match timer
      case Immediate => None
      case Delay(ms) => Some(now + ms)
      case Due(ts) => Some(ts)
    }
  }

  /** The calls the `step` object offers: only mutations and actions take options. */
  predicate Offered(req: Request) {
    match req.kind
    case Mutation => req.timer == Immediate
    case Action => req.timer == Immediate
    case Query => req.timer == Immediate && req.opts == NO_OPTS
    case Sleep => req.timer != Immediate && req.opts == NO_OPTS && req.name == SLEEP_FN && req.args == NO_ARGS
    case WaitForEvent => req.timer == Immediate && req.opts == NO_OPTS && req.args == NO_ARGS
  }

  datatype StepState = Pending | Success(value: Value) | Failure(error: string)

  /** A `steps` row. */
  datatype Row = Row(
    stepNumber: nat,
    kind: Kind,
    name: string,
    args: Value,
    state: StepState,
    opts: StepOpts,
    job: Option<nat>,
    compensated: bool,
    compensationJob: Option<nat>)

  predicate Matches(row: Row, req: Request) {
    row.kind == req.kind && row.name == req.name && row.args == req.args
  }

  /** What an await gave back; a failing fan-out that is caught does not say which member failed. */
  datatype Answer = Values(values: seq<Value>) | Raised(error: Option<string>)

  /** What the handler does next: settle, or await one step (`rest == []`) or a fan-out of several. */
  datatype Move =
    | Done(result: Value)
    | Throw(error: string)
    | Await(first: Request, rest: seq<Request>, catches: bool)
  {
    function Reqs(): (r: seq<Request>)
      requires Await?
      ensures |r| >= 1
    {
      [first] + rest
    }
  }

  type Handler = seq<Answer> -> Move

  datatype NewStep = NewStep(stepNumber: nat, req: Request, runAt: Option<int>)

  datatype Outcome = Completed(result: Value) | Failed(error: string) | Suspended(newSteps: seq<NewStep>)

  /** The state of one promise handed to the handler during a poll. */
  datatype Ticket = Mismatch | Resolved(value: Value) | Rejected(error: string) | Blocked

  function RequestStep(journal: seq<Row>, idx: nat, req: Request): Ticket {
    if idx >= |journal| then Blocked
    else if !Matches(journal[idx], req) then Mismatch
    else match journal[idx].state
      case Success(v) => Resolved(v)
      case Failure(e) => Rejected(e)
      case Pending => Blocked
  }

  function Tickets(journal: seq<Row>, cursor: nat, reqs: seq<Request>): (r: seq<Ticket>)
    ensures |r| == |reqs|
    ensures forall i :: 0 <= i < |reqs| ==> r[i] == RequestStep(journal, cursor + i, reqs[i])
  {
    seq(|reqs|, i requires 0 <= i < |reqs| => RequestStep(journal, cursor + i, reqs[i]))
  }

  /** How many of the requests made from `cursor` on are already journaled. */
  function Journaled(journal: seq<Row>, cursor: nat): nat {
    if cursor < |journal| then |journal| - cursor else 0
  }

  /** The requests that are not journaled yet, numbered by their call order. */
  function NewSteps(journal: seq<Row>, cursor: nat, reqs: seq<Request>, now: int): (r: seq<NewStep>)
    ensures |r| == if Journaled(journal, cursor) < |reqs| then |reqs| - Journaled(journal, cursor) else 0
    ensures forall i :: 0 <= i < |r| ==>
              var n := Journaled(journal, cursor) + i;
              r[i] == NewStep(cursor + n, reqs[n], reqs[n].RunAt(now))
  {
    var skip := Journaled(journal, cursor);
    if skip >= |reqs| then []
    else seq(|reqs| - skip, i requires 0 <= i < |reqs| - skip =>
               NewStep(cursor + skip + i, reqs[skip + i], reqs[skip + i].RunAt(now)))
  }

  const MISMATCH: string := "Journal entry mismatch: the workflow handler must be deterministic"

  /** The first request, from the `i`-th of the burst on, that contradicts the journal. */
  function FirstMismatch(journal: seq<Row>, cursor: nat, reqs: seq<Request>, i: nat): (r: Option<nat>)
    requires i <= |reqs|
    ensures r.None? ==> forall j :: i <= j < |reqs| ==> !RequestStep(journal, cursor + j, reqs[j]).Mismatch?
    ensures r.Some? ==> i <= r.value < |reqs| && RequestStep(journal, cursor + r.value, reqs[r.value]).Mismatch?
    ensures r.Some? ==> forall j :: i <= j < r.value ==> !RequestStep(journal, cursor + j, reqs[j]).Mismatch?
    decreases |reqs| - i
  {
    if i == |reqs| then None
    else if RequestStep(journal, cursor + i, reqs[i]).Mismatch? then Some(i)
    else FirstMismatch(journal, cursor, reqs, i + 1)
  }

  /** The first failed member. */
  function FirstRejected(tickets: seq<Ticket>): (r: Option<nat>)
    ensures r.None? ==> forall i :: 0 <= i < |tickets| ==> !tickets[i].Rejected?
    ensures r.Some? ==> r.value < |tickets| && tickets[r.value].Rejected?
    ensures r.Some? ==> forall i :: 0 <= i < r.value ==> !tickets[i].Rejected?
  {
    if tickets == [] then None
    else if tickets[0].Rejected? then Some(0)
    else match FirstRejected(tickets[1..])
      case None => None
      case Some(i) => Some(i + 1)
  }

  datatype Settled = Waiting | Continue(answer: Answer) | Uncaught(error: string)

  function Raise(error: string, width: nat, catches: bool): Settled {
    if catches then Continue(Raised(if width == 1 then Some(error) else None)) else Uncaught(error)
  }

  /** `Promise.all` over the tickets once every microtask has run: the first rejection wins. */
  function Settle(tickets: seq<Ticket>, catches: bool): Settled {
    match FirstRejected(tickets)
    case Some(i) => Raise(tickets[i].error, |tickets|, catches)
    case None =>
      if AllResolved(tickets) then Continue(Values(ValuesOf(tickets))) else Waiting
  }

  predicate AllResolved(tickets: seq<Ticket>) {
    forall i :: 0 <= i < |tickets| ==> tickets[i].Resolved?
  }

  function ValuesOf(tickets: seq<Ticket>): seq<Value>
    requires AllResolved(tickets)
  {
    seq(|tickets|, i requires 0 <= i < |tickets| => tickets[i].value)
  }

  /** What the handler has seen, and how many requests it has made. */
  datatype Point = Point(hist: seq<Answer>, cursor: nat)

  datatype Progress = At(point: Point, emitted: seq<NewStep>) | Stopped(out: Outcome)

  function Resume(p: Point, width: nat, emitted: seq<NewStep>, s: Settled): Progress {
    match s
    case Waiting => Stopped(Suspended(emitted))
    case Uncaught(e) => Stopped(Failed(e))
    case Continue(a) => At(Point(p.hist + [a], p.cursor + width), emitted)
  }

  /** The handler's next move, with its requests answered from the journal. */
  function Poll(h: Handler, journal: seq<Row>, now: int, p: Point, emitted: seq<NewStep>): Progress {
    match h(p.hist)
    case Done(v) => Stopped(Completed(v))
    case Throw(e) => Stopped(Failed(e))
    case Await(_, _, catches) =>
      var reqs := h(p.hist).Reqs();
      var tickets := Tickets(journal, p.cursor, reqs);
      match FirstMismatch(journal, p.cursor, reqs, 0)
      case Some(i) =>
        // `requestStep` throws synchronously: later members of the fan-out are never requested.
        Resume(p, i + 1, emitted, Raise(MISMATCH, |reqs|, catches))
      case None =>
        Resume(p, |reqs|, emitted + NewSteps(journal, p.cursor, reqs, now), Settle(tickets, catches))
  }

  /** Where a poll stands after `k` moves of the handler. */
  function Polled(h: Handler, journal: seq<Row>, now: int, k: nat): Progress {
    if k == 0 then At(Point([], 0), [])
    else match Polled(h, journal, now, k - 1)
      case Stopped(o) => Stopped(o)
      case At(p, emitted) => Poll(h, journal, now, p, emitted)
  }

  /** Every move that does not stop the poll was answered by a row of its own, so the poll stops. */
  lemma {:induction false} PollStops(h: Handler, journal: seq<Row>, now: int, k: nat)
    ensures Polled(h, journal, now, k).At? ==> k <= |journal| && k <= Polled(h, journal, now, k).point.cursor
  {
    if k > 0 && Polled(h, journal, now, k).At? {
      PollStops(h, journal, now, k - 1);
      var p := Polled(h, journal, now, k - 1).point;
      var reqs := h(p.hist).Reqs();
      var tickets := Tickets(journal, p.cursor, reqs);
      if FirstMismatch(journal, p.cursor, reqs, 0).None? && FirstRejected(tickets).None? {
        assert tickets[0].Resolved?;
      }
      assert p.cursor < |journal|;
    }
  }

  /** One whole poll: the handler re-run from the top against the journal. */
  function RunReplay(h: Handler, journal: seq<Row>, now: int): Outcome {
    PollStops(h, journal, now, |journal| + 1);
    Polled(h, journal, now, |journal| + 1).out
  }

  // ---------------------------------------------------------------------------------------------
  // The straight run
  // ---------------------------------------------------------------------------------------------

  datatype StepResult = Ok(value: Value) | Err(error: string)

  /** What the outside world answers to each step number. */
  type World = nat -> StepResult

  function WorldTicket(r: StepResult): Ticket {
    match r
    case Ok(v) => Resolved(v)
    case Err(e) => Rejected(e)
  }

  function WorldTickets(w: World, cursor: nat, width: nat): (r: seq<Ticket>)
    ensures |r| == width
    ensures forall i :: 0 <= i < width ==> r[i] == WorldTicket(w(cursor + i))
  {
    seq(width, i requires 0 <= i < width => WorldTicket(w(cursor + i)))
  }

  /** Where the handler, run once without interruption, stands after `k` awaits. */
  function After(h: Handler, w: World, k: nat): Option<Point> {
    if k == 0 then Some(Point([], 0))
    else match After(h, w, k - 1)
      case None => None
      case Some(p) =>
        if !h(p.hist).Await? then None
        else
          var width := |h(p.hist).Reqs()|;
          match Settle(WorldTickets(w, p.cursor, width), h(p.hist).catches)
          case Continue(a) => Some(Point(p.hist + [a], p.cursor + width))
          case _ => None
  }

  /** The `k`-th await of the straight run requests `req` as step `n`. */
  ghost predicate RequestsIn(h: Handler, w: World, k: nat, n: nat, req: Request) {
    match After(h, w, k)
    case None => false
    case Some(p) =>
      && h(p.hist).Await?
      && p.cursor <= n < p.cursor + |h(p.hist).Reqs()|
      && h(p.hist).Reqs()[n - p.cursor] == req
  }

  ghost predicate OnTrace(h: Handler, w: World, n: nat, req: Request) {
    exists k: nat :: RequestsIn(h, w, k, n, req)
  }

  /** The straight run ends at its `k`-th await with `out`. */
  ghost predicate EndsAt(h: Handler, w: World, k: nat, out: Outcome) {
    match After(h, w, k)
    case None => false
    case Some(p) =>
      match h(p.hist)
      case Done(v) => out == Completed(v)
      case Throw(e) => out == Failed(e)
      case Await(_, _, catches) =>
        // An uncaught fan-out fails with whichever failing member settles first.
        && !catches && out.Failed?
        && exists n: nat :: p.cursor <= n < p.cursor + |h(p.hist).Reqs()| && w(n) == Err(out.error)
  }

  ghost predicate StraightOutcome(h: Handler, w: World, out: Outcome) {
    exists k: nat :: EndsAt(h, w, k, out)
  }

  /** The journal is a prefix of the straight run's requests, settled as the world settles them. */
  ghost predicate Consistent(h: Handler, w: World, journal: seq<Row>) {
    forall n: nat :: n < |journal| ==> RowConsistent(h, w, n, journal[n])
  }

  ghost predicate RowConsistent(h: Handler, w: World, n: nat, row: Row) {
    && row.stepNumber == n
    && (exists req :: OnTrace(h, w, n, req) && Matches(row, req) && row.opts == req.opts)
    && (row.state.Success? ==> w(n) == Ok(row.state.value))
    && (row.state.Failure? ==> w(n) == Err(row.state.error))
  }

  // ---------------------------------------------------------------------------------------------
  // The trace is a function of the step number
  // ---------------------------------------------------------------------------------------------

  /** Each await starts where the previous one stopped counting. */
  lemma {:induction false} CursorGrows(h: Handler, w: World, j: nat, k: nat)
    requires j < k && After(h, w, k).Some?
    ensures After(h, w, j).Some? && h(After(h, w, j).value.hist).Await?
    ensures After(h, w, j).value.cursor + |h(After(h, w, j).value.hist).Reqs()| <= After(h, w, k).value.cursor
  {
    if j < k - 1 {
      CursorGrows(h, w, j, k - 1);
    }
  }

  lemma {:induction false} OnTraceUnique(h: Handler, w: World, n: nat, r1: Request, r2: Request)
    requires OnTrace(h, w, n, r1) && OnTrace(h, w, n, r2)
    ensures r1 == r2
  {
    var k1: nat :| RequestsIn(h, w, k1, n, r1);
    var k2: nat :| RequestsIn(h, w, k2, n, r2);
    if k1 < k2 {
      CursorGrows(h, w, k1, k2);
    } else if k2 < k1 {
      CursorGrows(h, w, k2, k1);
    }
  }

  // ---------------------------------------------------------------------------------------------
  // What an await gives the handler
  // ---------------------------------------------------------------------------------------------

  /** One of the `width` calls from step `n` on fails. */
  ghost predicate WorldFails(w: World, n: nat, width: nat) { exists m: nat :: n <= m < n + width && w(m).Err? }

  /** They gave back `a`: each call its own result, or the error of one. */
  ghost predicate WorldGave(w: World, n: nat, width: nat, catches: bool, a: Answer) {
    match a
    case Values(vs) => |vs| == width && forall m: nat :: n <= m < n + width ==> w(m) == Ok(vs[m - n])
    case Raised(e) =>
      catches && WorldFails(w, n, width) && if width == 1 then e.Some? && w(n) == Err(e.value) else e == None
  }

  lemma WorldSettles(w: World, n: nat, width: nat, catches: bool)
    requires width > 0
    ensures match Settle(WorldTickets(w, n, width), catches)
            case Waiting => false
            case Uncaught(_) => !catches && WorldFails(w, n, width)
            case Continue(a) => WorldGave(w, n, width, catches, a) && (catches || !WorldFails(w, n, width))
  {
    var world := WorldTickets(w, n, width);
    var f := FirstRejected(world);
    if f.Some? {
      assert w(n + f.value).Err?;
    } else {
      forall m: nat | n <= m < n + width ensures w(m).Ok? {
        assert !world[m - n].Rejected?;
      }
    }
  }

  /**
   The straight run goes on from an await unless a call of it fails uncaught, and then the handler has been
   given each call's own result, in call order, or has caught the error of one.
   */
  lemma AwaitGives(h: Handler, w: World, k: nat, p: Point)
    requires After(h, w, k) == Some(p) && h(p.hist).Await?
    ensures var m, q := h(p.hist), After(h, w, k + 1);
            var width := 1 + |m.rest|;
            && (q.None? <==> !m.catches && WorldFails(w, p.cursor, width))
            && (q.Some? ==>
                 && |q.value.hist| == |p.hist| + 1 && p.hist <= q.value.hist && q.value.cursor == p.cursor + width
                 && WorldGave(w, p.cursor, width, m.catches, q.value.hist[|p.hist|]))
  {
    WorldSettles(w, p.cursor, 1 + |h(p.hist).rest|, h(p.hist).catches);
  }

  /** Of the calls `reqs` made from step `n` on, step `m` is journaled as another call. */
  predicate Contradicts(journal: seq<Row>, n: nat, reqs: seq<Request>, m: nat) {
    && n <= m < n + |reqs| && m < |journal|
    && !(journal[m].kind == reqs[m - n].kind && journal[m].name == reqs[m - n].name &&
         journal[m].args == reqs[m - n].args)
  }

  ghost predicate Contradicted(journal: seq<Row>, n: nat, reqs: seq<Request>) {
    exists m: nat :: Contradicts(journal, n, reqs, m)
  }

  ghost predicate FirstFailure(journal: seq<Row>, n: nat, m: nat, error: string) {
    && n <= m < |journal| && journal[m].state == Failure(error)
    && forall j :: n <= j < m ==> !journal[j].state.Failure?
  }

  /** They fail: one contradicts the journal, or the first journaled failure is `error`. */
  ghost predicate JournalFails(journal: seq<Row>, n: nat, reqs: seq<Request>, error: string) {
    if Contradicted(journal, n, reqs) then error == MISMATCH
    else exists m: nat :: m < n + |reqs| && FirstFailure(journal, n, m, error)
  }

  /** They all succeeded, with `values` in call order. */
  ghost predicate JournalGives(journal: seq<Row>, n: nat, reqs: seq<Request>, values: seq<Value>) {
    && !Contradicted(journal, n, reqs) && n + |reqs| <= |journal| && |values| == |reqs|
    && forall m :: n <= m < n + |reqs| ==> journal[m].state == Success(values[m - n])
  }

  /** They block: none fails, and one is pending or not journaled yet. */
  ghost predicate JournalBlocks(journal: seq<Row>, n: nat, reqs: seq<Request>) {
    && !Contradicted(journal, n, reqs)
    && (forall m :: n <= m < n + |reqs| && m < |journal| ==> !journal[m].state.Failure?)
    && (n + |reqs| > |journal| || exists m :: n <= m < n + |reqs| && journal[m].state.Pending?)
  }

  ghost predicate GaveBack(journal: seq<Row>, n: nat, reqs: seq<Request>, catches: bool, a: Answer) {
    match a
    case Values(vs) => JournalGives(journal, n, reqs, vs)
    case Raised(e) =>
      catches && exists x :: JournalFails(journal, n, reqs, x) && e == if |reqs| == 1 then Some(x) else None
  }

  /** One move of the handler, read off the journal's own rows. */
  ghost predicate PollReads(h: Handler, journal: seq<Row>, p: Point, g: Progress) {
    match h(p.hist)
    case Done(v) => g == Stopped(Completed(v))
    case Throw(e) => g == Stopped(Failed(e))
    case Await(first, rest, catches) =>
      var reqs := [first] + rest;
      match g
      case At(q, _) =>
        && |q.hist| == |p.hist| + 1 && p.hist <= q.hist
        && GaveBack(journal, p.cursor, reqs, catches, q.hist[|p.hist|])
      case Stopped(out) =>
        match out
        case Completed(_) => false
        case Failed(e) => !catches && JournalFails(journal, p.cursor, reqs, e)
        case Suspended(_) => JournalBlocks(journal, p.cursor, reqs)
  }

  lemma MismatchIff(journal: seq<Row>, n: nat, reqs: seq<Request>)
    ensures FirstMismatch(journal, n, reqs, 0).Some? <==> Contradicted(journal, n, reqs)
  {
    var f := FirstMismatch(journal, n, reqs, 0);
    if f.Some? {
      assert Contradicts(journal, n, reqs, n + f.value);
    } else {
      forall m: nat | n <= m < n + |reqs| ensures !Contradicts(journal, n, reqs, m) {
        assert !RequestStep(journal, n + (m - n), reqs[m - n]).Mismatch?;
      }
    }
  }

  /** Without a contradiction, a ticket is the state of its row. */
  ghost predicate TicketsRead(journal: seq<Row>, n: nat, tickets: seq<Ticket>) {
    && (forall m :: n <= m < n + |tickets| && m < |journal| ==>
         match journal[m].state
         case Success(v) => tickets[m - n] == Resolved(v)
         case Failure(e) => tickets[m - n] == Rejected(e)
         case Pending => tickets[m - n] == Blocked)
    && forall i :: 0 <= i < |tickets| && n + i >= |journal| ==> tickets[i] == Blocked
  }

  lemma TicketsAreRead(journal: seq<Row>, n: nat, reqs: seq<Request>)
    requires !Contradicted(journal, n, reqs)
    ensures TicketsRead(journal, n, Tickets(journal, n, reqs))
  {
    var tickets := Tickets(journal, n, reqs);
    forall m: nat | n <= m < n + |tickets| && m < |journal|
      ensures match journal[m].state
              case Success(v) => tickets[m - n] == Resolved(v)
              case Failure(e) => tickets[m - n] == Rejected(e)
              case Pending => tickets[m - n] == Blocked
    {
      assert !Contradicts(journal, n, reqs, m);
    }
  }

  ghost predicate SettledReads(journal: seq<Row>, n: nat, reqs: seq<Request>, catches: bool, s: Settled) {
    match s
    case Waiting => JournalBlocks(journal, n, reqs)
    case Uncaught(e) => !catches && JournalFails(journal, n, reqs, e)
    case Continue(a) => GaveBack(journal, n, reqs, catches, a)
  }

  lemma RaiseReads(journal: seq<Row>, n: nat, reqs: seq<Request>, catches: bool, error: string)
    requires JournalFails(journal, n, reqs, error)
    ensures SettledReads(journal, n, reqs, catches, Raise(error, |reqs|, catches))
  {
  }

  lemma SettleReads(journal: seq<Row>, n: nat, reqs: seq<Request>, catches: bool)
    requires !Contradicted(journal, n, reqs) && reqs != []
    ensures SettledReads(journal, n, reqs, catches, Settle(Tickets(journal, n, reqs), catches))
  {
    var tickets := Tickets(journal, n, reqs);
    TicketsAreRead(journal, n, reqs);
    var f := FirstRejected(tickets);
    if f.Some? {
      var m := n + f.value;
      assert journal[m].state == Failure(tickets[m - n].error);
      assert FirstFailure(journal, n, m, tickets[f.value].error);
      RaiseReads(journal, n, reqs, catches, tickets[f.value].error);
    } else if AllResolved(tickets) {
      assert tickets[|reqs| - 1].Resolved?;
    } else {
      var i :| 0 <= i < |tickets| && !tickets[i].Resolved?;
      if n + |reqs| <= |journal| { assert journal[n + i].state.Pending?; }
    }
  }

  /**
   One move of a poll, whatever the handler and the journal: it goes on with each call's own journaled result,
   or with the caught failure; it fails with the first failure, or with a contradiction; else it waits.
   */
  lemma PollReadsTheJournal(h: Handler, journal: seq<Row>, now: int, p: Point, emitted: seq<NewStep>)
    ensures PollReads(h, journal, p, Poll(h, journal, now, p, emitted))
  {
    if h(p.hist).Await? {
      var reqs := h(p.hist).Reqs();
      MismatchIff(journal, p.cursor, reqs);
      if FirstMismatch(journal, p.cursor, reqs, 0).None? {
        SettleReads(journal, p.cursor, reqs, h(p.hist).catches);
      } else {
        RaiseReads(journal, p.cursor, reqs, h(p.hist).catches, MISMATCH);
      }
    }
  }

  // ---------------------------------------------------------------------------------------------
  // Replay refines the straight run
  // ---------------------------------------------------------------------------------------------

  /** The journal knows no more than the world: a settled ticket is the world's ticket. */
  ghost predicate Knows(tickets: seq<Ticket>, world: seq<Ticket>) {
    && |tickets| == |world|
    && forall i :: 0 <= i < |tickets| ==>
         && (world[i].Resolved? || world[i].Rejected?)
         && (tickets[i] == Blocked || tickets[i] == world[i])
  }

  /** Whatever lets the handler proceed early would also let it proceed at the end. */
  lemma {:induction false} SettleAgrees(tickets: seq<Ticket>, world: seq<Ticket>, catches: bool)
    requires Knows(tickets, world)
    ensures Settle(tickets, catches).Continue? ==> Settle(world, catches) == Settle(tickets, catches)
    ensures Settle(tickets, catches).Uncaught? ==>
              !catches && exists i :: 0 <= i < |world| && world[i] == Rejected(Settle(tickets, catches).error)
  {
    var t := FirstRejected(tickets);
    var u := FirstRejected(world);
    if t.Some? {
      assert world[t.value].Rejected?;
      assert u.Some?;
    } else if AllResolved(tickets) {
      assert tickets == world;
    }
  }

  /** The straight run's `k`-th await is the fan-out `reqs`, requested from point `p`. */
  ghost predicate AwaitsAt(h: Handler, w: World, k: nat, p: Point, reqs: seq<Request>) {
    After(h, w, k) == Some(p) && h(p.hist).Await? && reqs == h(p.hist).Reqs()
  }

  lemma {:induction false} JournalMatches(h: Handler, w: World, journal: seq<Row>, k: nat, p: Point,
                                          reqs: seq<Request>, i: nat)
    requires Consistent(h, w, journal) && AwaitsAt(h, w, k, p, reqs)
    requires i < |reqs| && p.cursor + i < |journal|
    ensures Matches(journal[p.cursor + i], reqs[i])
  {
    var n := p.cursor + i;
    assert RowConsistent(h, w, n, journal[n]);
    var req :| OnTrace(h, w, n, req) && Matches(journal[n], req);
    assert RequestsIn(h, w, k, n, reqs[i]);
    OnTraceUnique(h, w, n, req, reqs[i]);
  }

  lemma {:induction false} TicketKnown(h: Handler, w: World, journal: seq<Row>, k: nat, p: Point, reqs: seq<Request>,
                                       i: nat)
    requires Consistent(h, w, journal) && AwaitsAt(h, w, k, p, reqs) && i < |reqs|
    ensures var t := RequestStep(journal, p.cursor + i, reqs[i]);
            t == Blocked || t == WorldTicket(w(p.cursor + i))
  {
    if p.cursor + i < |journal| {
      JournalMatches(h, w, journal, k, p, reqs, i);
      assert RowConsistent(h, w, p.cursor + i, journal[p.cursor + i]);
    }
  }

  lemma {:induction false} KnowsWorld(h: Handler, w: World, journal: seq<Row>, k: nat, p: Point, reqs: seq<Request>)
    requires Consistent(h, w, journal) && AwaitsAt(h, w, k, p, reqs)
    ensures Knows(Tickets(journal, p.cursor, reqs), WorldTickets(w, p.cursor, |reqs|))
  {
    var known, world := Tickets(journal, p.cursor, reqs), WorldTickets(w, p.cursor, |reqs|);
    forall i: nat | i < |reqs| ensures known[i] == Blocked || known[i] == world[i] {
      TicketKnown(h, w, journal, k, p, reqs, i);
    }
  }

  /** At every await of the straight run, the journal agrees with the world. */
  ghost predicate KnownThroughout(h: Handler, w: World, journal: seq<Row>) {
    forall k, p, reqs :: AwaitsAt(h, w, k, p, reqs) ==>
      Knows(Tickets(journal, p.cursor, reqs), WorldTickets(w, p.cursor, |reqs|))
  }

  lemma {:induction false} ConsistentKnows(h: Handler, w: World, journal: seq<Row>)
    requires Consistent(h, w, journal)
    ensures KnownThroughout(h, w, journal)
  {
    forall k, p, reqs | AwaitsAt(h, w, k, p, reqs)
      ensures Knows(Tickets(journal, p.cursor, reqs), WorldTickets(w, p.cursor, |reqs|))
    {
      KnowsWorld(h, w, journal, k, p, reqs);
    }
  }

  /** Numbered requests. */
  type Trace = iset<(nat, Request)>

  ghost function TraceOf(h: Handler, w: World): Trace {
    iset n: nat, req | OnTrace(h, w, n, req) :: (n, req)
  }

  ghost predicate Covers(tr: Trace, h: Handler, w: World) {
    forall k, p, reqs, i: nat | AwaitsAt(h, w, k, p, reqs) && i < |reqs| :: (p.cursor + i, reqs[i]) in tr
  }

  lemma {:induction false} TraceCovers(h: Handler, w: World)
    ensures Covers(TraceOf(h, w), h, w)
  {
    forall k, p, reqs, i: nat | AwaitsAt(h, w, k, p, reqs) && i < |reqs|
      ensures OnTrace(h, w, p.cursor + i, reqs[i])
    {
      assert RequestsIn(h, w, k, p.cursor + i, reqs[i]);
    }
  }

  /** The emitted steps continue the journal without a gap. */
  ghost predicate Continues(tr: Trace, from: nat, emitted: seq<NewStep>, now: int) {
    forall i :: 0 <= i < |emitted| ==>
      && emitted[i].stepNumber == from + i
      && (from + i, emitted[i].req) in tr
      && emitted[i].runAt == emitted[i].req.RunAt(now)
  }

  /** ... and reach the handler's cursor. */
  ghost predicate Emitted(tr: Trace, journal: seq<Row>, cursor: nat, emitted: seq<NewStep>, now: int) {
    && |journal| + |emitted| == (if cursor < |journal| then |journal| else cursor)
    && Continues(tr, |journal|, emitted, now)
  }

  lemma {:induction false} EmittedByWave(tr: Trace, journal: seq<Row>, now: int, p: Point, reqs: seq<Request>,
                                         emitted: seq<NewStep>)
    requires forall i: nat :: i < |reqs| ==> (p.cursor + i, reqs[i]) in tr
    requires Emitted(tr, journal, p.cursor, emitted, now)
    ensures Emitted(tr, journal, p.cursor + |reqs|, emitted + NewSteps(journal, p.cursor, reqs, now), now)
  {
  }

  /** The straight run awaits `reqs`, all of them are journaled or in `ns`, and the journal does not settle them. */
  ghost predicate BlockedAt(h: Handler, w: World, journal: seq<Row>, ns: seq<NewStep>, k: nat, p: Point,
                            reqs: seq<Request>)
  {
    && AwaitsAt(h, w, k, p, reqs) && JournalBlocks(journal, p.cursor, reqs)
    && |journal| + |ns| == if p.cursor + |reqs| < |journal| then |journal| else p.cursor + |reqs|
  }

  ghost predicate AwaitsMore(h: Handler, w: World, journal: seq<Row>, ns: seq<NewStep>) {
    exists k, p, reqs :: BlockedAt(h, w, journal, ns, k, p, reqs)
  }

  /** What a poll may conclude about the straight run. */
  ghost predicate Sound(tr: Trace, h: Handler, w: World, journal: seq<Row>, now: int, out: Outcome) {
    match out
    case Suspended(ns) =>
      && Continues(tr, |journal|, ns, now)
      && AwaitsMore(h, w, journal, ns)
      && (ns == [] ==> exists n :: 0 <= n < |journal| && journal[n].state.Pending?)
    case _ => StraightOutcome(h, w, out)
  }

  ghost predicate SoundProgress(tr: Trace, h: Handler, w: World, journal: seq<Row>, now: int, k: nat, g: Progress) {
    match g
    case At(p, emitted) => After(h, w, k) == Some(p) && Emitted(tr, journal, p.cursor, emitted, now)
    case Stopped(out) => Sound(tr, h, w, journal, now, out)
  }

  lemma {:induction false} PollKnown(h: Handler, journal: seq<Row>, now: int, p: Point, reqs: seq<Request>,
                                     emitted: seq<NewStep>, world: seq<Ticket>)
    requires h(p.hist).Await? && reqs == h(p.hist).Reqs()
    requires Knows(Tickets(journal, p.cursor, reqs), world)
    ensures Poll(h, journal, now, p, emitted) ==
            Resume(p, |reqs|, emitted + NewSteps(journal, p.cursor, reqs, now),
                   Settle(Tickets(journal, p.cursor, reqs), h(p.hist).catches))
  {
  }

  lemma {:induction false} ResumeSound(tr: Trace, h: Handler, w: World, journal: seq<Row>, now: int, k: nat, p: Point,
                                       reqs: seq<Request>, emitted: seq<NewStep>, s: Settled)
    requires AwaitsAt(h, w, k, p, reqs)
    requires Emitted(tr, journal, p.cursor + |reqs|, emitted, now)
    requires s.Continue? ==> Settle(WorldTickets(w, p.cursor, |reqs|), h(p.hist).catches) == s
    requires s.Uncaught? ==>
             !h(p.hist).catches && exists n: nat :: p.cursor <= n < p.cursor + |reqs| && w(n) == Err(s.error)
    requires s.Waiting? ==> JournalBlocks(journal, p.cursor, reqs)
    requires s.Waiting? && emitted == [] ==> exists n :: 0 <= n < |journal| && journal[n].state.Pending?
    ensures SoundProgress(tr, h, w, journal, now, k + 1, Resume(p, |reqs|, emitted, s))
  {
    if s.Uncaught? {
      assert EndsAt(h, w, k, Failed(s.error));
    } else if s.Waiting? {
      assert BlockedAt(h, w, journal, emitted, k, p, reqs);
    }
  }

  lemma {:induction false} SettledSound(w: World, journal: seq<Row>, now: int, cursor: nat, reqs: seq<Request>,
                                        catches: bool, s: Settled)
    requires Knows(Tickets(journal, cursor, reqs), WorldTickets(w, cursor, |reqs|))
    requires s == Settle(Tickets(journal, cursor, reqs), catches)
    ensures s.Continue? ==> Settle(WorldTickets(w, cursor, |reqs|), catches) == s
    ensures s.Uncaught? ==> !catches && exists n: nat :: cursor <= n < cursor + |reqs| && w(n) == Err(s.error)
    ensures s.Waiting? && reqs != [] ==> JournalBlocks(journal, cursor, reqs)
    ensures s.Waiting? && NewSteps(journal, cursor, reqs, now) == [] ==>
              exists n :: 0 <= n < |journal| && journal[n].state.Pending?
  {
    var world := WorldTickets(w, cursor, |reqs|);
    SettleAgrees(Tickets(journal, cursor, reqs), world, catches);
    if s.Uncaught? {
      var i :| 0 <= i < |world| && world[i] == Rejected(s.error);
      assert w(cursor + i) == Err(s.error);
    } else if s.Waiting? {
      WaitingOnJournal(journal, cursor, reqs, now);
      if reqs != [] {
        NotContradicted(journal, cursor, reqs, world);
        SettleReads(journal, cursor, reqs, catches);
      }
    }
  }

  lemma NotContradicted(journal: seq<Row>, n: nat, reqs: seq<Request>, world: seq<Ticket>)
    requires Knows(Tickets(journal, n, reqs), world)
    ensures !Contradicted(journal, n, reqs)
  {
    forall m: nat ensures !Contradicts(journal, n, reqs, m) {
      if n <= m < n + |reqs| { assert Tickets(journal, n, reqs)[m - n] != Mismatch; }
    }
  }

  lemma {:induction false} AwaitSound(tr: Trace, h: Handler, w: World, journal: seq<Row>, now: int, k: nat, p: Point,
                                      reqs: seq<Request>, emitted: seq<NewStep>)
    requires AwaitsAt(h, w, k, p, reqs)
    requires forall i: nat :: i < |reqs| ==> (p.cursor + i, reqs[i]) in tr
    requires Knows(Tickets(journal, p.cursor, reqs), WorldTickets(w, p.cursor, |reqs|))
    requires Emitted(tr, journal, p.cursor, emitted, now)
    ensures SoundProgress(tr, h, w, journal, now, k + 1,
              Resume(p, |reqs|, emitted + NewSteps(journal, p.cursor, reqs, now),
                     Settle(Tickets(journal, p.cursor, reqs), h(p.hist).catches)))
  {
    var s := Settle(Tickets(journal, p.cursor, reqs), h(p.hist).catches);
    EmittedByWave(tr, journal, now, p, reqs, emitted);
    SettledSound(w, journal, now, p.cursor, reqs, h(p.hist).catches, s);
    ResumeSound(tr, h, w, journal, now, k, p, reqs, emitted + NewSteps(journal, p.cursor, reqs, now), s);
  }

  lemma {:induction false} AwaitPollSound(tr: Trace, h: Handler, w: World, journal: seq<Row>, now: int, k: nat,
                                          p: Point, reqs: seq<Request>, emitted: seq<NewStep>)
    requires AwaitsAt(h, w, k, p, reqs)
    requires forall i: nat :: i < |reqs| ==> (p.cursor + i, reqs[i]) in tr
    requires Knows(Tickets(journal, p.cursor, reqs), WorldTickets(w, p.cursor, |reqs|))
    requires Emitted(tr, journal, p.cursor, emitted, now)
    ensures SoundProgress(tr, h, w, journal, now, k + 1, Poll(h, journal, now, p, emitted))
  {
    AwaitSound(tr, h, w, journal, now, k, p, reqs, emitted);
    PollKnown(h, journal, now, p, reqs, emitted, WorldTickets(w, p.cursor, |reqs|));
  }

  lemma {:induction false} SettlesSound(tr: Trace, h: Handler, w: World, journal: seq<Row>, now: int, k: nat, p: Point,
                                        emitted: seq<NewStep>)
    requires After(h, w, k) == Some(p) && !h(p.hist).Await?
    ensures SoundProgress(tr, h, w, journal, now, k + 1, Poll(h, journal, now, p, emitted))
  {
    var m := h(p.hist);
    assert EndsAt(h, w, k, if m.Done? then Completed(m.result) else Failed(m.error));
  }

  lemma {:induction false} PollSound(tr: Trace, h: Handler, w: World, journal: seq<Row>, now: int, k: nat, g: Progress)
    requires KnownThroughout(h, w, journal) && Covers(tr, h, w)
    requires k > 0 && g.At? && SoundProgress(tr, h, w, journal, now, k - 1, g)
    ensures SoundProgress(tr, h, w, journal, now, k, Poll(h, journal, now, g.point, g.emitted))
  {
    if h(g.point.hist).Await? {
      assert AwaitsAt(h, w, k - 1, g.point, h(g.point.hist).Reqs());
      AwaitPollSound(tr, h, w, journal, now, k - 1, g.point, h(g.point.hist).Reqs(), g.emitted);
    } else {
      SettlesSound(tr, h, w, journal, now, k - 1, g.point, g.emitted);
    }
  }

  lemma {:induction false} PolledSound(tr: Trace, h: Handler, w: World, journal: seq<Row>, now: int, k: nat)
    requires KnownThroughout(h, w, journal) && Covers(tr, h, w)
    ensures SoundProgress(tr, h, w, journal, now, k, Polled(h, journal, now, k))
  {
    if k > 0 {
      PolledSound(tr, h, w, journal, now, k - 1);
      if Polled(h, journal, now, k - 1).At? {
        PollSound(tr, h, w, journal, now, k, Polled(h, journal, now, k - 1));
      }
    }
  }

  /** A poll that blocks without a new step blocks on a pending row. */
  lemma {:induction false} WaitingOnJournal(journal: seq<Row>, cursor: nat, reqs: seq<Request>, now: int)
    requires forall i :: 0 <= i < |reqs| ==> !Tickets(journal, cursor, reqs)[i].Mismatch?
    requires Settle(Tickets(journal, cursor, reqs), false).Waiting?
    ensures NewSteps(journal, cursor, reqs, now) == [] ==>
              exists n :: 0 <= n < |journal| && journal[n].state.Pending?
  {
  }

  /** Every poll against a consistent journal is sound for the straight run. */
  lemma {:induction false} ReplayRefinesStraightRun(h: Handler, w: World, journal: seq<Row>, now: int)
    requires Consistent(h, w, journal)
    ensures Sound(TraceOf(h, w), h, w, journal, now, RunReplay(h, journal, now))
  {
    ConsistentKnows(h, w, journal);
    PollStops(h, journal, now, |journal| + 1);
    TraceCovers(h, w);
    PolledSound(TraceOf(h, w), h, w, journal, now, |journal| + 1);
  }

  // ---------------------------------------------------------------------------------------------
  // The error of a fan-out
  // ---------------------------------------------------------------------------------------------

  /** The straight run stops at an uncaught fan-out two of whose members fail with different errors. */
  ghost predicate Ambiguous(h: Handler, w: World) {
    exists k, p, reqs :: AwaitsAt(h, w, k, p, reqs) && !h(p.hist).catches && FailsTwoWays(w, p.cursor, |reqs|)
  }

  ghost predicate FailsTwoWays(w: World, cursor: nat, width: nat) {
    exists m: nat, n: nat ::
      && cursor <= m < cursor + width && cursor <= n < cursor + width
      && w(m).Err? && w(n).Err? && w(m) != w(n)
  }

  ghost predicate OneOutcome(h: Handler, w: World) {
    forall a, b :: StraightOutcome(h, w, a) && StraightOutcome(h, w, b) ==> a == b
  }

  lemma {:induction false} EndStops(h: Handler, w: World, j: nat, a: Outcome)
    requires EndsAt(h, w, j, a)
    ensures After(h, w, j + 1).None?
  {
    var p := After(h, w, j).value;
    if h(p.hist).Await? {
      var world := WorldTickets(w, p.cursor, |h(p.hist).Reqs()|);
      var n: nat :| p.cursor <= n < p.cursor + |world| && w(n) == Err(a.error);
      assert world[n - p.cursor].Rejected?;
      assert Settle(world, false).Uncaught?;
    }
  }

  lemma {:induction false} NothingAfterEnd(h: Handler, w: World, j: nat, a: Outcome, k: nat)
    requires EndsAt(h, w, j, a) && j < k
    ensures After(h, w, k).None?
  {
    EndStops(h, w, j, a);
    if After(h, w, k).Some? && j + 1 < k {
      CursorGrows(h, w, j + 1, k);
    }
  }

  lemma {:induction false} AmbiguousOutcomes(h: Handler, w: World)
    requires Ambiguous(h, w)
    ensures !OneOutcome(h, w)
  {
    var k, p, reqs :| AwaitsAt(h, w, k, p, reqs) && !h(p.hist).catches && FailsTwoWays(w, p.cursor, |reqs|);
    var m: nat, n: nat :|
      && p.cursor <= m < p.cursor + |reqs| && p.cursor <= n < p.cursor + |reqs|
      && w(m).Err? && w(n).Err? && w(m) != w(n);
    var a, b := Failed(w(m).error), Failed(w(n).error);
    assert EndsAt(h, w, k, a) && EndsAt(h, w, k, b);
    assert StraightOutcome(h, w, a) && StraightOutcome(h, w, b) && a != b;
  }

  /** Two ways to end at one point are a fan-out that fails two ways. */
  lemma EndsTwoWays(h: Handler, w: World, k: nat, a: Outcome, b: Outcome)
    requires EndsAt(h, w, k, a) && EndsAt(h, w, k, b)
    ensures a == b || Ambiguous(h, w)
  {
    var p := After(h, w, k).value;
    if h(p.hist).Await? && a != b {
      var reqs := h(p.hist).Reqs();
      var m: nat :| p.cursor <= m < p.cursor + |reqs| && w(m) == Err(a.error);
      var n: nat :| p.cursor <= n < p.cursor + |reqs| && w(n) == Err(b.error);
      assert FailsTwoWays(w, p.cursor, |reqs|);
      assert AwaitsAt(h, w, k, p, reqs);
    }
  }

  /** A run ends at one point only. */
  lemma EndsOnce(h: Handler, w: World, j: nat, a: Outcome, k: nat, b: Outcome)
    requires EndsAt(h, w, j, a) && EndsAt(h, w, k, b)
    ensures j == k
  {
    if j < k {
      NothingAfterEnd(h, w, j, a, k);
    } else if k < j {
      NothingAfterEnd(h, w, k, b, j);
    }
  }

  lemma EndsWith(h: Handler, w: World, i: nat)
    requires h([]).Await? && !h([]).catches && i < |h([]).Reqs()| && w(i).Err?
    ensures StraightOutcome(h, w, Failed(w(i).error))
  {
    var out := Outcome.Failed(w(i).error);
    assert w(i) == Err(out.error);
    assert EndsAt(h, w, 0, out);
  }

  /** ... and such runs there are: any uncaught fan-out at the start whose members `i` and `j` fail differently. */
  lemma FanOutFailsTwoWays(h: Handler, w: World, i: nat, j: nat)
    requires h([]).Await? && !h([]).catches && i < |h([]).Reqs()| && j < |h([]).Reqs()|
    requires w(i).Err? && w(j).Err? && w(i) != w(j)
    ensures StraightOutcome(h, w, Failed(w(i).error)) && StraightOutcome(h, w, Failed(w(j).error)) && !OneOutcome(h, w)
  {
    assert After(h, w, 0) == Some(Point([], 0));
    EndsWith(h, w, i);
    EndsWith(h, w, j);
  }

  /** A run ends one way exactly when no uncaught fan-out of it can fail two ways. */
  lemma {:induction false} OutcomeUniqueIffUnambiguous(h: Handler, w: World)
    ensures OneOutcome(h, w) <==> !Ambiguous(h, w)
  {
    if Ambiguous(h, w) {
      AmbiguousOutcomes(h, w);
    } else {
      forall a, b | StraightOutcome(h, w, a) && StraightOutcome(h, w, b)
        ensures a == b
      {
        var j: nat :| EndsAt(h, w, j, a);
        var k: nat :| EndsAt(h, w, k, b);
        EndsOnce(h, w, j, a, k, b);
        EndsTwoWays(h, w, k, a, b);
      }
    }
  }

  // ---------------------------------------------------------------------------------------------
  // The clock
  // ---------------------------------------------------------------------------------------------

  function Untimed(ns: seq<NewStep>): (r: seq<(nat, Request)>)
    ensures |r| == |ns|
  {
    seq(|ns|, i requires 0 <= i < |ns| => (ns[i].stepNumber, ns[i].req))
  }

  /** Equal but for the due times of new steps. */
  ghost predicate SameButTimers(a: Outcome, b: Outcome) {
    a == b || (a.Suspended? && b.Suspended? && Untimed(a.newSteps) == Untimed(b.newSteps))
  }

  ghost predicate SameProgress(a: Progress, b: Progress) {
    match (a, b)
    case (At(p, x), At(q, y)) => p == q && Untimed(x) == Untimed(y)
    case (Stopped(o), Stopped(o')) => SameButTimers(o, o')
    case _ => false
  }

  lemma UntimedNewSteps(journal: seq<Row>, cursor: nat, reqs: seq<Request>, t1: int, t2: int, x: seq<NewStep>,
                        y: seq<NewStep>)
    requires Untimed(x) == Untimed(y)
    ensures Untimed(x + NewSteps(journal, cursor, reqs, t1)) == Untimed(y + NewSteps(journal, cursor, reqs, t2))
  {
    var a, b := NewSteps(journal, cursor, reqs, t1), NewSteps(journal, cursor, reqs, t2);
    assert Untimed(a) == Untimed(b);
    assert Untimed(x + a) == Untimed(x) + Untimed(a);
    assert Untimed(y + b) == Untimed(y) + Untimed(b);
  }

  lemma {:induction false} PollClock(h: Handler, journal: seq<Row>, t1: int, t2: int, p: Point, x: seq<NewStep>,
                                     y: seq<NewStep>)
    requires Untimed(x) == Untimed(y)
    ensures SameProgress(Poll(h, journal, t1, p, x), Poll(h, journal, t2, p, y))
  {
    if h(p.hist).Await? {
      UntimedNewSteps(journal, p.cursor, h(p.hist).Reqs(), t1, t2, x, y);
    }
  }

  lemma {:induction false} PolledClock(h: Handler, journal: seq<Row>, t1: int, t2: int, k: nat)
    ensures SameProgress(Polled(h, journal, t1, k), Polled(h, journal, t2, k))
  {
    if k > 0 {
      PolledClock(h, journal, t1, t2, k - 1);
      var g1, g2 := Polled(h, journal, t1, k - 1), Polled(h, journal, t2, k - 1);
      if g1.At? {
        PollClock(h, journal, t1, t2, g1.point, g1.emitted, g2.emitted);
      }
    }
  }

  /** Two polls of one journal at different times differ in due times only. */
  lemma ClockOnlyMovesTimers(h: Handler, journal: seq<Row>, t1: int, t2: int)
    ensures SameButTimers(RunReplay(h, journal, t1), RunReplay(h, journal, t2))
  {
    PolledClock(h, journal, t1, t2, |journal| + 1);
    PollStops(h, journal, t1, |journal| + 1);
  }

  // ---------------------------------------------------------------------------------------------
  // The drive loop as written: a cursor, and a list that `requestStep` pushes onto
  // ---------------------------------------------------------------------------------------------

  method DriveHandler(h: Handler, journal: seq<Row>, now: int) returns (out: Outcome)
    ensures out == RunReplay(h, journal, now)
  {
    var g: Progress := At(Point([], 0), []);
    ghost var k: nat := 0;
    while g.At?
      invariant g == Polled(h, journal, now, k) && k <= |journal| + 1
      decreases g.At?, |journal| + 1 - k
    {
      PollStops(h, journal, now, k);
      g := DriveOnce(h, journal, now, g.point, g.emitted);
      k := k + 1;
      PolledNext(h, journal, now, k);
    }
    StaysStopped(h, journal, now, k, |journal| + 1);
    out := g.out;
  }

  lemma {:induction false} StaysStopped(h: Handler, journal: seq<Row>, now: int, j: nat, k: nat)
    requires j <= k && Polled(h, journal, now, j).Stopped?
    ensures Polled(h, journal, now, j) == Polled(h, journal, now, k)
    decreases k
  {
    if j < k {
      StaysStopped(h, journal, now, j, k - 1);
    }
  }

  lemma {:induction false} PolledNext(h: Handler, journal: seq<Row>, now: int, k: nat)
    requires k > 0 && Polled(h, journal, now, k - 1).At?
    ensures var g := Polled(h, journal, now, k - 1);
            Polled(h, journal, now, k) == Poll(h, journal, now, g.point, g.emitted)
  {
  }

  method DriveOnce(h: Handler, journal: seq<Row>, now: int, p: Point, emitted: seq<NewStep>) returns (g: Progress)
    ensures g == Poll(h, journal, now, p, emitted)
  {
    var move := h(p.hist);
    if move.Done? {
      return Stopped(Completed(move.result));
    }
    if move.Throw? {
      return Stopped(Failed(move.error));
    }
    var reqs := move.Reqs();
    var tickets, newSteps, threw := RequestAll(journal, p.cursor, reqs, now);
    var answer := if threw then Raise(MISMATCH, |reqs|, move.catches) else Settle(tickets, move.catches);
    var cursor := p.cursor + |tickets|;
    match answer
    case Waiting => g := Stopped(Suspended(emitted + newSteps));
    case Uncaught(e) => g := Stopped(Failed(e));
    case Continue(a) => g := At(Point(p.hist + [a], cursor), emitted + newSteps);
    assert threw ==> emitted + newSteps == emitted;
  }

  /** What the first `i` requests of a burst gave back, and which of them were new. */
  ghost predicate Answered(journal: seq<Row>, cursor: nat, reqs: seq<Request>, i: nat, tickets: seq<Ticket>) {
    i <= |reqs| && |tickets| == i && forall j :: 0 <= j < i ==> tickets[j] == RequestStep(journal, cursor + j, reqs[j])
  }

  ghost predicate Pushed(journal: seq<Row>, cursor: nat, reqs: seq<Request>, now: int, i: nat, newSteps: seq<NewStep>) {
    && i <= |reqs| && |newSteps| == (if Journaled(journal, cursor) < i then i - Journaled(journal, cursor) else 0)
    && forall j :: 0 <= j < |newSteps| ==>
         var n := Journaled(journal, cursor) + j; newSteps[j] == NewStep(cursor + n, reqs[n], reqs[n].RunAt(now))
  }

  lemma PushOne(journal: seq<Row>, cursor: nat, reqs: seq<Request>, now: int, i: nat, newSteps: seq<NewStep>)
    requires i < |reqs| && Pushed(journal, cursor, reqs, now, i, newSteps)
    ensures cursor + i >= |journal| ==>
              Pushed(journal, cursor, reqs, now, i + 1, newSteps + [NewStep(cursor + i, reqs[i], reqs[i].RunAt(now))])
    ensures cursor + i < |journal| ==> Pushed(journal, cursor, reqs, now, i + 1, newSteps)
  {
  }

  lemma AllAnswered(journal: seq<Row>, cursor: nat, reqs: seq<Request>, now: int, tickets: seq<Ticket>,
                    newSteps: seq<NewStep>)
    requires Answered(journal, cursor, reqs, |reqs|, tickets) && Pushed(journal, cursor, reqs, now, |reqs|, newSteps)
    ensures tickets == Tickets(journal, cursor, reqs) && newSteps == NewSteps(journal, cursor, reqs, now)
  {
  }

  /** The synchronous burst of one await: every member is requested until one contradicts the journal. */
  method RequestAll(journal: seq<Row>, cursor: nat, reqs: seq<Request>, now: int)
    returns (tickets: seq<Ticket>, newSteps: seq<NewStep>, threw: bool)
    ensures threw == FirstMismatch(journal, cursor, reqs, 0).Some?
    ensures threw ==> |tickets| == FirstMismatch(journal, cursor, reqs, 0).value + 1 && newSteps == []
    ensures !threw ==> tickets == Tickets(journal, cursor, reqs) && newSteps == NewSteps(journal, cursor, reqs, now)
  {
    tickets, newSteps := [], [];
    var i := 0;
    while i < |reqs|
      invariant 0 <= i <= |reqs| && FirstMismatch(journal, cursor, reqs, 0) == FirstMismatch(journal, cursor, reqs, i)
      invariant Answered(journal, cursor, reqs, i, tickets) && Pushed(journal, cursor, reqs, now, i, newSteps)
    {
      var ticket := RequestStep(journal, cursor + i, reqs[i]);
      tickets := tickets + [ticket];
      if ticket.Mismatch? {
        return tickets, [], true;
      }
      PushOne(journal, cursor, reqs, now, i, newSteps);
      if cursor + i >= |journal| {
        newSteps := newSteps + [NewStep(cursor + i, reqs[i], reqs[i].RunAt(now))];
      }
      i := i + 1;
    }
    AllAnswered(journal, cursor, reqs, now, tickets, newSteps);
    threw := false;
  }
}
