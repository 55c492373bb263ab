/**
 Sessions and refresh-token rotation (components/auth/src/functions.ts:68-93, 156-165, 302-377).  Tokens are
 numbers; generating one is a parameter, and so is the clock and the hash.
 */
module Sessions {
  import opened Options

  datatype Config = Config(accessTtl: nat, refreshTtl: nat, totalTtl: nat, grace: nat)

  /** A `sessions` row. */
  datatype Row = Row(
    user: string,
    tokenHash: nat,
    expiresAt: int,
    refreshHash: nat,
    refreshExpiresAt: int,
    prevHash: Option<nat>,
    absoluteExpiresAt: int,
    lastRefreshAt: int)

  /** The table by session id, which is the order of creation; a deleted session leaves a gap. */
  type Table = seq<Option<Row>>

  datatype Column = AccessToken | RefreshToken | PrevRefreshToken

  predicate Matches(row: Option<Row>, column: Column, hash: nat) {
    && row.Some?
    && match column
       case AccessToken => row.value.tokenHash == hash
       case RefreshToken => row.value.refreshHash == hash
       case PrevRefreshToken => row.value.prevHash == Some(hash)
  }

  /** The first session an index lookup finds. */
  function Find(rows: Table, column: Column, hash: nat, from: nat := 0): (r: Option<nat>)
    requires from <= |rows|
    ensures r.Some? ==> from <= r.value < |rows| && Matches(rows[r.value], column, hash)
    ensures r.Some? ==> forall i :: from <= i < r.value ==> !Matches(rows[i], column, hash)
    ensures r.None? ==> forall i :: from <= i < |rows| ==> !Matches(rows[i], column, hash)
    decreases |rows| - from
  {
    if from == |rows| then None
    else if Matches(rows[from], column, hash) then Some(from)
    else Find(rows, column, hash, from + 1)
  }

  /** The row `mintSession` inserts. */
  function Minted(cfg: Config, h: nat -> nat, user: string, now: int, token: nat, refresh: nat): Row {
    Row(user, h(token), now + cfg.accessTtl, h(refresh), now + cfg.refreshTtl, None, now + cfg.totalTtl, now)
  }

  /** The row `refresh` puts in place of one whose current refresh token was presented. */
  function Rotated(cfg: Config, h: nat -> nat, row: Row, now: int, token: nat, refresh: nat): Row {
    row.(
      tokenHash := h(token),
      expiresAt := now + cfg.accessTtl,
      prevHash := Some(row.refreshHash),
      refreshHash := h(refresh),
      refreshExpiresAt := now + cfg.refreshTtl,
      lastRefreshAt := now)
  }

  datatype Outcome = NewPair(session: nat) | Expired | Stale | Reused(session: nat) | Invalid

  predicate PastLife(row: Row, now: int) { now > row.absoluteExpiresAt || now > row.refreshExpiresAt }

  /** How `refresh` answers. */
  function Answer(cfg: Config, h: nat -> nat, rows: Table, presented: nat, now: int): (o: Outcome)
    ensures o.NewPair? || o.Reused? ==> o.session < |rows| && rows[o.session].Some?
  {
    match Find(rows, RefreshToken, h(presented))
    case Some(i) => if PastLife(rows[i].value, now) then Expired else NewPair(i)
    case None =>
      match Find(rows, PrevRefreshToken, h(presented))
      case Some(i) => if now - rows[i].value.lastRefreshAt <= cfg.grace then Stale else Reused(i)
      case None => Invalid
  }

  /** What `refresh` leaves in the table. */
  function Refreshed(cfg: Config, h: nat -> nat, rows: Table, presented: nat, now: int, token: nat,
                     refresh: nat): Table {
    match Answer(cfg, h, rows, presented, now)
    case NewPair(i) => rows[i := Some(Rotated(cfg, h, rows[i].value, now, token, refresh))]
    case Reused(i) => rows[i := None]
    case _ => rows
  }

  /** `getUserId`. */
  function UserOf(h: nat -> nat, rows: Table, token: nat, now: int): Option<string> {
    match Find(rows, AccessToken, h(token))
    case None => None
    case Some(i) => if now > rows[i].value.expiresAt then None else Some(rows[i].value.user)
  }

  /** `signOut`. */
  function SignedOut(h: nat -> nat, rows: Table, token: nat): Table {
    match Find(rows, AccessToken, h(token))
    case None => rows
    case Some(i) => rows[i := None]
  }

  // ---------------------------------------------------------------------------------------------
  // Runs
  // ---------------------------------------------------------------------------------------------

  /**
   The table, and what a bystander would write down: of every session its user, every refresh and access token,
   when it was minted and when it was last handed a pair; each refresh token that was exchanged for a new pair;
   and the clock.
   */
  datatype Sys = Sys(
    rows: Table,
    chains: seq<seq<nat>>,
    access: seq<seq<nat>>,
    users: seq<string>,
    minted: seq<int>,
    last: seq<int>,
    exchanged: seq<nat>,
    clock: int)

  datatype Event =
    | Mint(user: string, now: int, token: nat, refresh: nat)
    | Refresh(presented: nat, now: int, token: nat, refresh: nat)
    | SignOut(token: nat)
    | Revoke(session: nat)

  /** Nobody was ever given this token. */
  ghost predicate Unused(lists: seq<seq<nat>>, x: nat) {
    forall i, j :: 0 <= i < |lists| && 0 <= j < |lists[i]| ==> lists[i][j] != x
  }

  /** Generated tokens are new and the clock does not go back; what is presented is arbitrary. */
  ghost predicate Enabled(s: Sys, e: Event) {
    match e
    case Mint(_, now, token, refresh) => s.clock <= now && Unused(s.chains, refresh) && Unused(s.access, token)
    case Refresh(_, now, token, refresh) => s.clock <= now && Unused(s.chains, refresh) && Unused(s.access, token)
    case SignOut(_) => true
    case Revoke(_) => true
  }

  ghost function Next(cfg: Config, h: nat -> nat, s: Sys, e: Event): Sys {
    match e
    case Mint(user, now, token, refresh) =>
      Sys(s.rows + [Some(Minted(cfg, h, user, now, token, refresh))], s.chains + [[refresh]], s.access + [[token]],
          s.users + [user], s.minted + [now], s.last + [now], s.exchanged, now)
    case Refresh(presented, now, token, refresh) =>
      var s1 := s.(rows := Refreshed(cfg, h, s.rows, presented, now, token, refresh), clock := now);
      var o := Answer(cfg, h, s.rows, presented, now);
      if o.NewPair? && o.session < |s.chains| && o.session < |s.access| && o.session < |s.last| then
        s1.(chains := s.chains[o.session := s.chains[o.session] + [refresh]],
            access := s.access[o.session := s.access[o.session] + [token]],
            last := s.last[o.session := now],
            exchanged := s.exchanged + [presented])
      else s1
    case SignOut(token) => s.(rows := SignedOut(h, s.rows, token))
    case Revoke(i) => if i < |s.rows| then s.(rows := s.rows[i := None]) else s
  }

  ghost function RunOf(cfg: Config, h: nat -> nat, events: seq<Event>): Option<Sys> {
    if events == [] then Some(Sys([], [], [], [], [], [], [], 0))
    else
      var n := |events| - 1;
      match RunOf(cfg, h, events[..n])
      case None => None
      case Some(s) => if Enabled(s, events[n]) then Some(Next(cfg, h, s, events[n])) else None
  }

  // ---------------------------------------------------------------------------------------------
  // The invariant
  // ---------------------------------------------------------------------------------------------

  ghost predicate Injective(h: nat -> nat) { forall x: nat, y: nat :: h(x) == h(y) ==> x == y }

  /** No token was handed out twice. */
  ghost predicate AllDifferent(lists: seq<seq<nat>>) {
    forall i, j, i', j' ::
      0 <= i < |lists| && 0 <= j < |lists[i]| && 0 <= i' < |lists| && 0 <= j' < |lists[i']| &&
        lists[i][j] == lists[i'][j']
      ==> i == i' && j == j'
  }

  function Last(list: seq<nat>): nat
    requires list != []
  {
    list[|list| - 1]
  }

  /** What a live row stores of its session's history. */
  ghost predicate RowOk(cfg: Config, h: nat -> nat, row: Row, chain: seq<nat>, access: seq<nat>, user: string,
                        minted: int, last: int)
  {
    && chain != [] && access != [] && row.user == user
    && row.refreshHash == h(Last(chain))
    && row.prevHash == (if |chain| == 1 then None else Some(h(chain[|chain| - 2])))
    && row.tokenHash == h(Last(access))
    && row.absoluteExpiresAt == minted + cfg.totalTtl && last <= row.absoluteExpiresAt
    && row.expiresAt == last + cfg.accessTtl
    && row.refreshExpiresAt == last + cfg.refreshTtl
    && row.lastRefreshAt == last
  }

  ghost predicate RowsOk(cfg: Config, h: nat -> nat, s: Sys) {
    && |s.rows| == |s.chains| == |s.access| == |s.users| == |s.minted| == |s.last|
    && forall i :: 0 <= i < |s.rows| && s.rows[i].Some? ==>
         RowOk(cfg, h, s.rows[i].value, s.chains[i], s.access[i], s.users[i], s.minted[i], s.last[i])
  }

  /** An exchanged token is one that has a successor in its chain. */
  ghost predicate ExchangedOk(s: Sys) {
    && (forall k, l :: 0 <= k < l < |s.exchanged| ==> s.exchanged[k] != s.exchanged[l])
    && forall k :: 0 <= k < |s.exchanged| ==> HasSuccessor(s.chains, s.exchanged[k])
  }

  ghost predicate HasSuccessor(chains: seq<seq<nat>>, x: nat) {
    exists i, j :: 0 <= i < |chains| && 0 <= j < |chains[i]| - 1 && chains[i][j] == x
  }

  ghost predicate Inv(cfg: Config, h: nat -> nat, s: Sys) {
    RowsOk(cfg, h, s) && AllDifferent(s.chains) && AllDifferent(s.access) && ExchangedOk(s)
  }

  lemma GrowDifferent(lists: seq<seq<nat>>, i: nat, x: nat)
    requires AllDifferent(lists) && i < |lists| && Unused(lists, x)
    ensures AllDifferent(lists[i := lists[i] + [x]])
  {
  }

  lemma StartDifferent(lists: seq<seq<nat>>, x: nat)
    requires AllDifferent(lists) && Unused(lists, x)
    ensures AllDifferent(lists + [[x]])
  {
  }

  lemma SuccessorsStay(chains: seq<seq<nat>>, i: nat, r: nat, x: nat)
    requires i < |chains| && HasSuccessor(chains, x)
    ensures HasSuccessor(chains[i := chains[i] + [r]], x) && HasSuccessor(chains + [[r]], x)
  {
    var a, b :| 0 <= a < |chains| && 0 <= b < |chains[a]| - 1 && chains[a][b] == x;
    var grown, started := chains[i := chains[i] + [r]], chains + [[r]];
    assert b < |grown[a]| - 1 && grown[a][b] == x;
    assert started[a][b] == x;
  }

  // ---------------------------------------------------------------------------------------------
  // What a presented token is
  // ---------------------------------------------------------------------------------------------

  /** The newest refresh token of a live session. */
  ghost predicate Newest(s: Sys, i: nat, p: nat) {
    i < |s.rows| && i < |s.chains| && s.rows[i].Some? && s.chains[i] != [] && Last(s.chains[i]) == p
  }

  /** The one before the newest. */
  ghost predicate Previous(s: Sys, i: nat, p: nat) {
    i < |s.rows| && i < |s.chains| && s.rows[i].Some? && |s.chains[i]| >= 2 && s.chains[i][|s.chains[i]| - 2] == p
  }

  ghost predicate NewestAccess(s: Sys, i: nat, t: nat) {
    i < |s.rows| && i < |s.access| && s.rows[i].Some? && s.access[i] != [] && Last(s.access[i]) == t
  }

  /** The three columns of a row point at the newest two refresh tokens and the newest access token. */
  lemma ColumnsMean(cfg: Config, h: nat -> nat, s: Sys, i: nat, p: nat)
    requires Inv(cfg, h, s) && Injective(h) && i < |s.rows|
    ensures Matches(s.rows[i], RefreshToken, h(p)) <==> Newest(s, i, p)
    ensures Matches(s.rows[i], PrevRefreshToken, h(p)) <==> Previous(s, i, p)
    ensures Matches(s.rows[i], AccessToken, h(p)) <==> NewestAccess(s, i, p)
  {
  }

  /** A token has one place in the history. */
  lemma OnePlace(s: Sys, i: nat, j: nat, k: nat)
    requires AllDifferent(s.chains) && i < |s.chains| && j < |s.chains[i]|
    ensures Newest(s, k, s.chains[i][j]) ==> k == i && j == |s.chains[i]| - 1
    ensures Previous(s, k, s.chains[i][j]) ==> k == i && j == |s.chains[i]| - 2
  {
  }

  lemma OneAccessPlace(s: Sys, i: nat, j: nat, k: nat)
    requires AllDifferent(s.access) && i < |s.access| && j < |s.access[i]|
    ensures NewestAccess(s, k, s.access[i][j]) ==> k == i
  {
  }

  /** The newest token of a live session is exchanged unless the session is past its life. */
  lemma NewestAnswer(cfg: Config, h: nat -> nat, s: Sys, p: nat, now: int, i: nat)
    requires Inv(cfg, h, s) && Injective(h) && Newest(s, i, p)
    ensures Answer(cfg, h, s.rows, p, now) == if PastLife(s.rows[i].value, now) then Expired else NewPair(i)
  {
  }

  /** The one before it is a soft error for the grace time, and ends the session after that. */
  lemma PreviousAnswer(cfg: Config, h: nat -> nat, s: Sys, p: nat, now: int, i: nat)
    requires Inv(cfg, h, s) && Injective(h) && Previous(s, i, p)
    ensures Answer(cfg, h, s.rows, p, now) ==
            if now - s.rows[i].value.lastRefreshAt <= cfg.grace then Stale else Reused(i)
  {
  }

  /** Every other token, older, of an ended session or made up, changes nothing. */
  lemma OtherAnswer(cfg: Config, h: nat -> nat, s: Sys, p: nat, now: int)
    requires Inv(cfg, h, s) && Injective(h)
    requires forall i: nat :: !Newest(s, i, p) && !Previous(s, i, p)
    ensures Answer(cfg, h, s.rows, p, now) == Invalid
  {
    forall k: nat | k < |s.rows|
      ensures !Matches(s.rows[k], RefreshToken, h(p)) && !Matches(s.rows[k], PrevRefreshToken, h(p))
    {
      ColumnsMean(cfg, h, s, k, p);
    }
  }

  // ---------------------------------------------------------------------------------------------
  // The invariant is kept
  // ---------------------------------------------------------------------------------------------

  lemma MintKeeps(cfg: Config, h: nat -> nat, s: Sys, e: Event)
    requires Inv(cfg, h, s) && Enabled(s, e) && e.Mint?
    ensures Inv(cfg, h, Next(cfg, h, s, e))
  {
    var s' := Next(cfg, h, s, e);
    StartDifferent(s.chains, e.refresh);
    StartDifferent(s.access, e.token);
    forall k | 0 <= k < |s.exchanged| ensures HasSuccessor(s'.chains, s.exchanged[k]) {
      assert HasSuccessor(s.chains, s.exchanged[k]);
      SuccessorsStay(s.chains, 0, e.refresh, s.exchanged[k]);
    }
  }

  /** Both tokens of a fresh session work: the one names its user, the other can be exchanged. */
  lemma FreshPairWorks(cfg: Config, h: nat -> nat, s: Sys, e: Event)
    requires Inv(cfg, h, s) && Injective(h) && Enabled(s, e) && e.Mint?
    ensures var rows := Next(cfg, h, s, e).rows;
            && UserOf(h, rows, e.token, e.now) == Some(e.user)
            && Answer(cfg, h, rows, e.refresh, e.now) == NewPair(|s.rows|)
  {
    var s' := Next(cfg, h, s, e);
    var i := |s.rows|;
    MintKeeps(cfg, h, s, e);
    assert Newest(s', i, e.refresh) && NewestAccess(s', i, e.token);
    NewestAnswer(cfg, h, s', e.refresh, e.now, i);
    AccessFinds(cfg, h, s', e.token, i);
  }

  lemma AccessFinds(cfg: Config, h: nat -> nat, s: Sys, t: nat, i: nat)
    requires Inv(cfg, h, s) && Injective(h) && NewestAccess(s, i, t)
    ensures Find(s.rows, AccessToken, h(t)) == Some(i)
  {
    ColumnsMean(cfg, h, s, i, t);
    var found := Find(s.rows, AccessToken, h(t));
    ColumnsMean(cfg, h, s, found.value, t);
    assert s.access[i][|s.access[i]| - 1] == s.access[found.value][|s.access[found.value]| - 1];
  }

  /** A rotation appends to the chain of the session whose newest token was presented. */
  lemma RotationKeeps(cfg: Config, h: nat -> nat, s: Sys, e: Event, i: nat)
    requires Inv(cfg, h, s) && Enabled(s, e) && e.Refresh? && Injective(h)
    requires Answer(cfg, h, s.rows, e.presented, e.now) == NewPair(i)
    ensures i < |s.rows| && Newest(s, i, e.presented) && Inv(cfg, h, Next(cfg, h, s, e))
  {
    ColumnsMean(cfg, h, s, i, e.presented);
    var s' := Next(cfg, h, s, e);
    GrowDifferent(s.chains, i, e.refresh);
    GrowDifferent(s.access, i, e.token);
    RotationExchanges(s, s', e, i);
    RotatedRowOk(cfg, h, s.rows[i].value, s.chains[i], s.access[i], s.users[i], s.minted[i], s.last[i], e);
  }

  lemma RotatedRowOk(cfg: Config, h: nat -> nat, row: Row, chain: seq<nat>, access: seq<nat>, user: string,
                     minted: int, last: int, e: Event)
    requires e.Refresh? && RowOk(cfg, h, row, chain, access, user, minted, last) && !PastLife(row, e.now)
    ensures RowOk(cfg, h, Rotated(cfg, h, row, e.now, e.token, e.refresh), chain + [e.refresh], access + [e.token],
                  user, minted, e.now)
  {
  }

  lemma RotationExchanges(s: Sys, s': Sys, e: Event, i: nat)
    requires ExchangedOk(s) && AllDifferent(s.chains) && e.Refresh? && Newest(s, i, e.presented)
    requires s'.chains == s.chains[i := s.chains[i] + [e.refresh]] && s'.exchanged == s.exchanged + [e.presented]
    ensures ExchangedOk(s')
  {
    var at := |s.chains[i]| - 1;
    assert s'.chains[i][at] == e.presented;
    assert HasSuccessor(s'.chains, e.presented);
    forall k | 0 <= k < |s.exchanged| ensures HasSuccessor(s'.chains, s.exchanged[k]) && s.exchanged[k] != e.presented {
      SuccessorsStay(s.chains, i, e.refresh, s.exchanged[k]);
      var a, b :| 0 <= a < |s.chains| && 0 <= b < |s.chains[a]| - 1 && s.chains[a][b] == s.exchanged[k];
      assert s.chains[i][at] == e.presented;
    }
  }

  lemma NextKeeps(cfg: Config, h: nat -> nat, s: Sys, e: Event)
    requires Inv(cfg, h, s) && Enabled(s, e) && Injective(h)
    ensures Inv(cfg, h, Next(cfg, h, s, e))
  {
    match e
    case Mint(_, _, _, _) => MintKeeps(cfg, h, s, e);
    case Refresh(presented, now, _, _) =>
      match Answer(cfg, h, s.rows, presented, now) {
        case NewPair(i) => RotationKeeps(cfg, h, s, e, i);
        case _ =>
      }
    case SignOut(_) =>
    case Revoke(_) =>
  }

  lemma {:induction false} RunInv(cfg: Config, h: nat -> nat, events: seq<Event>)
    requires Injective(h) && RunOf(cfg, h, events).Some?
    ensures Inv(cfg, h, RunOf(cfg, h, events).value)
  {
    if events != [] {
      var n := |events| - 1;
      RunInv(cfg, h, events[..n]);
      NextKeeps(cfg, h, RunOf(cfg, h, events[..n]).value, events[n]);
    }
  }

  // ---------------------------------------------------------------------------------------------
  // Whole runs
  // ---------------------------------------------------------------------------------------------

  /** Session `i` may still be refreshed at `now`: within the sliding lifetime and below the fixed ceiling. */
  ghost predicate InLife(cfg: Config, s: Sys, i: nat, now: int) {
    i < |s.last| && i < |s.minted| && now <= s.last[i] + cfg.refreshTtl && now <= s.minted[i] + cfg.totalTtl
  }

  ghost predicate InGrace(cfg: Config, s: Sys, i: nat, now: int) { i < |s.last| && now <= s.last[i] + cfg.grace }

  /**
   After any run the answer to a presented refresh token depends on nothing but its place in the history, the
   newest of a live session, the one before it, or neither, and on when the session was minted and last refreshed.
   */
  lemma RefreshDecides(cfg: Config, h: nat -> nat, events: seq<Event>, p: nat, now: int)
    requires Injective(h) && RunOf(cfg, h, events).Some?
    ensures var s := RunOf(cfg, h, events).value;
            var o := Answer(cfg, h, s.rows, p, now);
            && (forall i: nat :: o == NewPair(i) <==> Newest(s, i, p) && InLife(cfg, s, i, now))
            && (forall i: nat :: o == Reused(i) <==> Previous(s, i, p) && !InGrace(cfg, s, i, now))
            && (o == Expired <==> exists i: nat :: Newest(s, i, p) && !InLife(cfg, s, i, now))
            && (o == Stale <==> exists i: nat :: Previous(s, i, p) && InGrace(cfg, s, i, now))
            && (o == Invalid <==> forall i: nat :: !Newest(s, i, p) && !Previous(s, i, p))
  {
    RunInv(cfg, h, events);
    var s := RunOf(cfg, h, events).value;
    forall i: nat | Newest(s, i, p)
      ensures Answer(cfg, h, s.rows, p, now) == if InLife(cfg, s, i, now) then NewPair(i) else Expired
    {
      NewestAnswer(cfg, h, s, p, now, i);
    }
    forall i: nat | Previous(s, i, p)
      ensures Answer(cfg, h, s.rows, p, now) == if InGrace(cfg, s, i, now) then Stale else Reused(i)
    {
      PreviousAnswer(cfg, h, s, p, now, i);
    }
    if forall i: nat :: !Newest(s, i, p) && !Previous(s, i, p) {
      OtherAnswer(cfg, h, s, p, now);
    }
  }

  lemma RunNext(cfg: Config, h: nat -> nat, events: seq<Event>, e: Event)
    requires RunOf(cfg, h, events).Some? && Enabled(RunOf(cfg, h, events).value, e)
    ensures RunOf(cfg, h, events + [e]) == Some(Next(cfg, h, RunOf(cfg, h, events).value, e))
  {
    assert (events + [e])[..|events|] == events;
  }

  lemma RefreshedAt(cfg: Config, h: nat -> nat, s: Sys, e: Event, i: nat)
    requires e.Refresh? && i < |s.rows|
    ensures var s', o := Next(cfg, h, s, e), Answer(cfg, h, s.rows, e.presented, e.now);
            && |s'.rows| == |s.rows|
            && (o == Reused(i) ==> s'.rows[i].None?)
            && (o != Reused(i) && o != NewPair(i) ==> s'.rows[i] == s.rows[i])
  {
  }

  lemma RotationMoves(cfg: Config, h: nat -> nat, s: Sys, e: Event, i: nat)
    requires Inv(cfg, h, s) && e.Refresh? && Answer(cfg, h, s.rows, e.presented, e.now) == NewPair(i)
    requires Newest(s, i, e.presented)
    ensures var s' := Next(cfg, h, s, e);
            Newest(s', i, e.refresh) && NewestAccess(s', i, e.token) && Previous(s', i, e.presented)
  {
  }

  /**
   What a refresh does to the sessions: the newest token of a session in life moves on the chain of that one, the
   one before it ends the session once the grace is over, and no other session, and nothing else, changes.
   */
  lemma RefreshEffects(cfg: Config, h: nat -> nat, events: seq<Event>, e: Event, i: nat)
    requires Injective(h) && RunOf(cfg, h, events).Some? && Enabled(RunOf(cfg, h, events).value, e) && e.Refresh?
    requires i < |RunOf(cfg, h, events).value.rows|
    ensures RunOf(cfg, h, events + [e]).Some?
    ensures var s, s' := RunOf(cfg, h, events).value, RunOf(cfg, h, events + [e]).value;
            && |s'.rows| == |s.rows|
            && if Newest(s, i, e.presented) && InLife(cfg, s, i, e.now)
               then Newest(s', i, e.refresh) && NewestAccess(s', i, e.token) && Previous(s', i, e.presented)
               else if Previous(s, i, e.presented) && !InGrace(cfg, s, i, e.now) then s'.rows[i].None?
               else s'.rows[i] == s.rows[i]
  {
    RefreshDecides(cfg, h, events, e.presented, e.now);
    RunInv(cfg, h, events);
    RunNext(cfg, h, events, e);
    var s := RunOf(cfg, h, events).value;
    RefreshedAt(cfg, h, s, e, i);
    if Answer(cfg, h, s.rows, e.presented, e.now) == NewPair(i) { RotationMoves(cfg, h, s, e, i); }
  }

  /** `signOut` ends the session whose newest access token it is given, expired or not, and no other. */
  lemma SignOutEnds(cfg: Config, h: nat -> nat, events: seq<Event>, t: nat, i: nat)
    requires Injective(h) && RunOf(cfg, h, events).Some? && i < |RunOf(cfg, h, events).value.rows|
    ensures RunOf(cfg, h, events + [SignOut(t)]).Some?
    ensures var s, s' := RunOf(cfg, h, events).value, RunOf(cfg, h, events + [SignOut(t)]).value;
            |s'.rows| == |s.rows| && s'.rows[i] == if NewestAccess(s, i, t) then None else s.rows[i]
  {
    RunInv(cfg, h, events);
    RunNext(cfg, h, events, SignOut(t));
    var s := RunOf(cfg, h, events).value;
    if NewestAccess(s, i, t) { AccessFinds(cfg, h, s, t, i); }
    var found := Find(s.rows, AccessToken, h(t));
    if found.Some? { ColumnsMean(cfg, h, s, found.value, t); }
  }

  /** The mints of a run, in order. */
  function Mints(events: seq<Event>): (r: seq<Event>)
    ensures forall i :: 0 <= i < |r| ==> r[i].Mint?
  {
    if events == [] then []
    else
      var n := |events| - 1;
      Mints(events[..n]) + if events[n].Mint? then [events[n]] else []
  }

  /** Sessions are mints: each keeps the user and the instant of its own. */
  lemma {:induction false} SessionsAreMints(cfg: Config, h: nat -> nat, events: seq<Event>)
    requires RunOf(cfg, h, events).Some?
    ensures var s, mints := RunOf(cfg, h, events).value, Mints(events);
            && |s.rows| == |s.users| == |s.minted| == |mints|
            && forall i :: 0 <= i < |mints| ==> s.users[i] == mints[i].user && s.minted[i] == mints[i].now
  {
    if events != [] { SessionsAreMints(cfg, h, events[..|events| - 1]); }
  }

  /** Event `e` hands out a new pair of session `i`. */
  ghost predicate HandsOut(cfg: Config, h: nat -> nat, s: Sys, e: Event, i: nat) {
    match e
    case Mint(_, _, _, _) => i == |s.rows|
    case Refresh(presented, now, _, _) => Answer(cfg, h, s.rows, presented, now) == NewPair(i)
    case _ => false
  }

  lemma HandedOut(cfg: Config, h: nat -> nat, s: Sys, e: Event, i: nat)
    requires Inv(cfg, h, s) && Injective(h) && Enabled(s, e) && HandsOut(cfg, h, s, e, i)
    ensures var s' := Next(cfg, h, s, e);
            && Inv(cfg, h, s') && i < |s'.rows| && s'.rows[i].Some?
            && s'.rows[i].value.refreshHash == h(e.refresh) && s'.rows[i].value.tokenHash == h(e.token)
            && s'.rows[i].value.lastRefreshAt == e.now
  {
    NextKeeps(cfg, h, s, e);
    if e.Mint? { MintKeeps(cfg, h, s, e); } else { RotationKeeps(cfg, h, s, e, i); }
  }

  /** What the columns of session `i` give at `now`, in terms of its history. */
  lemma ColumnsGive(cfg: Config, h: nat -> nat, s: Sys, token: nat, refresh: nat, i: nat, now: int)
    requires Inv(cfg, h, s) && Injective(h) && i < |s.rows| && s.rows[i].Some?
    requires s.rows[i].value.refreshHash == h(refresh) && s.rows[i].value.tokenHash == h(token)
    ensures UserOf(h, s.rows, token, now) == if now <= s.last[i] + cfg.accessTtl then Some(s.users[i]) else None
    ensures Answer(cfg, h, s.rows, refresh, now) == if InLife(cfg, s, i, now) then NewPair(i) else Expired
  {
    ColumnsMean(cfg, h, s, i, refresh);
    ColumnsMean(cfg, h, s, i, token);
    NewestAnswer(cfg, h, s, refresh, now, i);
    AccessFinds(cfg, h, s, token, i);
  }

  /**
   A pair that was handed out, by a mint or by a refresh, works as long as its session is left alone: the access
   token names the user of the session's mint for one access lifetime, and the refresh token can be exchanged for
   one refresh lifetime, but not past the ceiling that the mint has set.
   */
  lemma PairWorks(cfg: Config, h: nat -> nat, events: seq<Event>, n: nat, i: nat, now: int)
    requires Injective(h) && n < |events| && RunOf(cfg, h, events).Some?
    requires RunOf(cfg, h, events[..n]).Some? && RunOf(cfg, h, events[..n + 1]).Some?
    requires HandsOut(cfg, h, RunOf(cfg, h, events[..n]).value, events[n], i)
    requires var a, b := RunOf(cfg, h, events[..n + 1]).value, RunOf(cfg, h, events).value;
             i < |a.rows| && i < |b.rows| && b.rows[i] == a.rows[i]
    ensures i < |Mints(events)|
    ensures var e, mint, b := events[n], Mints(events)[i], RunOf(cfg, h, events).value;
            && UserOf(h, b.rows, e.token, now) == (if now <= e.now + cfg.accessTtl then Some(mint.user) else None)
            && Answer(cfg, h, b.rows, e.refresh, now) ==
               if now <= e.now + cfg.refreshTtl && now <= mint.now + cfg.totalTtl then NewPair(i) else Expired
  {
    var s, b := RunOf(cfg, h, events[..n]).value, RunOf(cfg, h, events).value;
    assert events[..n + 1][..n] == events[..n];
    RunInv(cfg, h, events[..n]);
    RunInv(cfg, h, events);
    HandedOut(cfg, h, s, events[n], i);
    SessionsAreMints(cfg, h, events);
    ColumnsGive(cfg, h, b, events[n].token, events[n].refresh, i, now);
  }

  /** Over a whole run no refresh token is exchanged for a new pair more than once. */
  lemma ExchangedAtMostOnce(cfg: Config, h: nat -> nat, events: seq<Event>, k: nat, l: nat)
    requires Injective(h) && RunOf(cfg, h, events).Some?
    requires k < l < |RunOf(cfg, h, events).value.exchanged|
    ensures var s := RunOf(cfg, h, events).value;
            s.exchanged[k] != s.exchanged[l] && HasSuccessor(s.chains, s.exchanged[k])
  {
    RunInv(cfg, h, events);
  }

  /** The ceiling of a session is where its mint put it, whatever happened since. */
  lemma CeilingIsFixed(cfg: Config, h: nat -> nat, events: seq<Event>, i: nat)
    requires Injective(h) && RunOf(cfg, h, events).Some?
    requires i < |RunOf(cfg, h, events).value.rows| && RunOf(cfg, h, events).value.rows[i].Some?
    ensures i < |Mints(events)|
    ensures RunOf(cfg, h, events).value.rows[i].value.absoluteExpiresAt == Mints(events)[i].now + cfg.totalTtl
  {
    RunInv(cfg, h, events);
    SessionsAreMints(cfg, h, events);
  }

  /**
   An access token is accepted exactly when it is the newest of a live session and one access lifetime has not
   passed since its pair was handed out, and then it names the user of the session's mint; never later than the
   session's ceiling plus one access lifetime.
   */
  lemma AccessDecides(cfg: Config, h: nat -> nat, events: seq<Event>, t: nat, now: int)
    requires Injective(h) && RunOf(cfg, h, events).Some?
    ensures var s := RunOf(cfg, h, events).value;
            && |s.last| == |s.minted| == |s.rows| == |Mints(events)|
            && (UserOf(h, s.rows, t, now).Some? <==>
                 exists i: nat :: NewestAccess(s, i, t) && now <= s.last[i] + cfg.accessTtl)
            && (UserOf(h, s.rows, t, now).Some? ==>
                 exists i: nat :: NewestAccess(s, i, t) &&
                   UserOf(h, s.rows, t, now) == Some(Mints(events)[i].user)
                   && now <= s.minted[i] + cfg.totalTtl + cfg.accessTtl)
  {
    RunInv(cfg, h, events);
    SessionsAreMints(cfg, h, events);
    var s := RunOf(cfg, h, events).value;
    var found := Find(s.rows, AccessToken, h(t));
    if found.Some? { ColumnsMean(cfg, h, s, found.value, t); }
    forall i: nat | NewestAccess(s, i, t) ensures found == Some(i) {
      AccessFinds(cfg, h, s, t, i);
    }
  }

  /** Session `i` has ended in `a`, and `b` has added nothing to it. */
  ghost predicate StillEnded(a: Sys, b: Sys, i: nat) {
    && i < |a.rows| && i < |b.rows| && a.rows[i].None? && b.rows[i].None?
    && i < |a.chains| && i < |b.chains| && b.chains[i] == a.chains[i]
    && i < |a.access| && i < |b.access| && b.access[i] == a.access[i]
  }

  lemma NextKeepsEnded(cfg: Config, h: nat -> nat, s: Sys, e: Event, i: nat)
    requires Inv(cfg, h, s) && Enabled(s, e) && i < |s.rows| && s.rows[i].None?
    ensures StillEnded(s, Next(cfg, h, s, e), i)
  {
  }

  lemma StillEndedOn(a: Sys, b: Sys, c: Sys, i: nat)
    requires StillEnded(a, b, i) && StillEnded(b, c, i)
    ensures StillEnded(a, c, i)
  {
  }

  lemma {:induction false} EndedStaysEnded(cfg: Config, h: nat -> nat, events: seq<Event>, m: nat, i: nat)
    requires Injective(h) && m <= |events| && RunOf(cfg, h, events).Some? && RunOf(cfg, h, events[..m]).Some?
    requires i < |RunOf(cfg, h, events[..m]).value.rows| && RunOf(cfg, h, events[..m]).value.rows[i].None?
    ensures StillEnded(RunOf(cfg, h, events[..m]).value, RunOf(cfg, h, events).value, i)
  {
    var a := RunOf(cfg, h, events[..m]).value;
    RunInv(cfg, h, events[..m]);
    if m == |events| {
      assert events[..m] == events;
    } else {
      var n := |events| - 1;
      assert events[..n][..m] == events[..m];
      var b := RunOf(cfg, h, events[..n]).value;
      EndedStaysEnded(cfg, h, events[..n], m, i);
      RunInv(cfg, h, events[..n]);
      NextKeepsEnded(cfg, h, b, events[n], i);
      StillEndedOn(a, b, RunOf(cfg, h, events).value, i);
    }
  }

  /**
   Once a session has ended, by reuse, sign-out or revocation, no later run accepts any token it ever
   handed out.
   */
  lemma EndedIsFinal(cfg: Config, h: nat -> nat, events: seq<Event>, m: nat, i: nat, j: nat, now: int)
    requires Injective(h) && m <= |events| && RunOf(cfg, h, events).Some? && RunOf(cfg, h, events[..m]).Some?
    requires i < |RunOf(cfg, h, events[..m]).value.rows| && RunOf(cfg, h, events[..m]).value.rows[i].None?
    ensures var a, b := RunOf(cfg, h, events[..m]).value, RunOf(cfg, h, events).value;
            && (i < |a.chains| && j < |a.chains[i]| ==> Answer(cfg, h, b.rows, a.chains[i][j], now) == Invalid)
            && (i < |a.access| && j < |a.access[i]| ==> UserOf(h, b.rows, a.access[i][j], now) == None)
  {
    EndedStaysEnded(cfg, h, events, m, i);
    RunInv(cfg, h, events);
    var a, b := RunOf(cfg, h, events[..m]).value, RunOf(cfg, h, events).value;
    if j < |a.chains[i]| {
      var p := a.chains[i][j];
      assert b.chains[i][j] == p;
      forall k: nat ensures !Newest(b, k, p) && !Previous(b, k, p) {
        OnePlace(b, i, j, k);
      }
      OtherAnswer(cfg, h, b, p, now);
    }
    if j < |a.access[i]| {
      AccessDecides(cfg, h, events, a.access[i][j], now);
      assert b.access[i][j] == a.access[i][j];
      forall k: nat ensures !NewestAccess(b, k, a.access[i][j]) {
        OneAccessPlace(b, i, j, k);
      }
    }
  }

  // ---------------------------------------------------------------------------------------------
  // The mutations
  // ---------------------------------------------------------------------------------------------

  /** The `sessions` table. */
  class SessionTable {
    var rows: Table
    const cfg: Config

    constructor (cfg: Config)
      ensures rows == [] && this.cfg == cfg
    {
      rows := [];
      this.cfg := cfg;
    }

    /** An index lookup. */
    method Lookup(column: Column, hash: nat) returns (found: Option<nat>)
      ensures found == Find(rows, column, hash)
    {
      var i := 0;
      while i < |rows|
        invariant 0 <= i <= |rows| && Find(rows, column, hash) == Find(rows, column, hash, i)
      {
        if Matches(rows[i], column, hash) { return Some(i); }
        i := i + 1;
      }
      return None;
    }

    /** `mintSession`, the `Mint` step of any run `s` whose table this is. */
    method MintSession(h: nat -> nat, user: string, now: int, token: nat, refresh: nat, ghost s: Sys)
      returns (session: nat)
      requires s.rows == rows
      modifies `rows
      ensures rows == Next(cfg, h, s, Mint(user, now, token, refresh)).rows && session == |s.rows|
      ensures Inv(cfg, h, s) && Injective(h) && Enabled(s, Mint(user, now, token, refresh)) ==>
                UserOf(h, rows, token, now) == Some(user) && Answer(cfg, h, rows, refresh, now) == NewPair(session)
    {
      session := |rows|;
      var row := Row(user, h(token), now + cfg.accessTtl, h(refresh), now + cfg.refreshTtl, None, now + cfg.totalTtl,
                     now);
      rows := rows + [Some(row)];
      if Inv(cfg, h, s) && Injective(h) && Enabled(s, Mint(user, now, token, refresh)) {
        FreshPairWorks(cfg, h, s, Mint(user, now, token, refresh));
      }
    }

    /** `signOut`. */
    method EndByToken(h: nat -> nat, token: nat)
      modifies `rows
      ensures rows == SignedOut(h, old(rows), token)
    {
      var found := Lookup(AccessToken, h(token));
      if found.Some? { rows := rows[found.value := None]; }
    }

    /** `getUserId`. */
    method GetUserId(h: nat -> nat, token: nat, now: int) returns (user: Option<string>)
      ensures user == UserOf(h, rows, token, now)
    {
      var found := Lookup(AccessToken, h(token));
      if found.None? || now > rows[found.value].value.expiresAt { return None; }
      return Some(rows[found.value].value.user);
    }

    /** `refresh`; the deletion on reuse is committed although the call fails. */
    method RefreshPair(h: nat -> nat, presented: nat, now: int, token: nat, refresh: nat) returns (o: Outcome)
      modifies `rows
      ensures o == Answer(cfg, h, old(rows), presented, now)
      ensures rows == Refreshed(cfg, h, old(rows), presented, now, token, refresh)
    {
      var current := Lookup(RefreshToken, h(presented));
      if current.Some? {
        var row := rows[current.value].value;
        if now > row.absoluteExpiresAt { return Expired; }
        if now > row.refreshExpiresAt { return Expired; }
        rows := rows[current.value := Some(row.(
          tokenHash := h(token), expiresAt := now + cfg.accessTtl, prevHash := Some(row.refreshHash),
          refreshHash := h(refresh), refreshExpiresAt := now + cfg.refreshTtl, lastRefreshAt := now))];
        return NewPair(current.value);
      }
      var reused := Lookup(PrevRefreshToken, h(presented));
      if reused.Some? {
        if now - rows[reused.value].value.lastRefreshAt <= cfg.grace { return Stale; }
        rows := rows[reused.value := None];
        return Reused(reused.value);
      }
      return Invalid;
    }
  }
}
