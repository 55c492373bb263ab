/**
 The materialised permission index and the mutations that keep it
 (components/authz/src/effective-permissions.ts:37-122, functions.ts:24-86, context.ts:21-62).
 */
module Authz {
  import opened Options
  import opened Roles
  import opened AuthzGroups

  datatype Scope = Scope(kind: string, id: string)

  /** The assignments in table order, the index rows, and the stored configuration hash. */
  datatype Db = Db(assigns: seq<Assign>, rows: set<Row>, stamp: Option<string>)

  const MANAGE_PERMISSION: string := Pattern("authz", "manage")

  function At(user: string, scope: Option<Scope>): Place {
    if scope.Some? then Place(user, scope.value.kind, scope.value.id) else Place(user, "", "")
  }

  /** `assertScope` lets everything through but a scope with an empty part. */
  predicate ScopeOk(scope: Option<Scope>) { scope.Some? ==> scope.value.kind != "" && scope.value.id != "" }

  // ---------------------------------------------------------------------------------------------
  // Reads
  // ---------------------------------------------------------------------------------------------

  predicate Held(rows: set<Row>, at: Place, keys: set<string>) {
    exists k :: k in keys && Row(at, k) in rows
  }

  /** `can`: the scope asked for, then the global one.  An absent or empty caller can do nothing. */
  predicate Can(rows: set<Row>, caller: Option<string>, permission: string, scope: Option<Scope>) {
    && caller.Some? && caller.value != ""
    && var keys := CandidateKeys(permission);
       Held(rows, At(caller.value, scope), keys) || Held(rows, At(caller.value, None), keys)
  }

  /** The roles `assignedRoles` returns: those held globally and those held in the scope. */
  function AssignedRoles(assigns: seq<Assign>, user: string, scope: Option<Scope>): set<string> {
    set a | a in assigns && (a.at == At(user, None) || a.at == At(user, scope)) :: a.role
  }

  /** `scopesWith`. */
  function ScopesWith(rows: set<Row>, user: string, permission: string, kind: Option<string>): set<string> {
    set r |
      && r in rows && r.at.user == user && (kind.None? || r.at.scopeType == kind.value)
      && r.permission in CandidateKeys(permission)
    :: r.at.scopeId
  }

  // ---------------------------------------------------------------------------------------------
  // Mutations; nothing is returned, and nothing is changed, when the mutation throws
  // ---------------------------------------------------------------------------------------------

  /** `reconcileEffectivePermissions`. */
  ghost function Reconcile(config: Config, hash: Config -> string, db: Db): Option<Db> {
    if db.stamp == Some(hash(config)) then Some(db)
    else if !AllSmall(config, Contents(db.assigns)) then None
    else Some(Db(db.assigns, Regrouped(config, db.assigns, db.rows), Some(hash(config))))
  }

  /** The assignment and the role's patterns, as `assignRole` and `bootstrapFirstAdmin` write them. */
  ghost function Granted(config: Config, db: Db, at: Place, role: string): Option<Db> {
    if !Small(config, role) then None
    else
      Some(db.(
        assigns := if Assign(at, role) in db.assigns then db.assigns else db.assigns + [Assign(at, role)],
        rows := db.rows + set p | p in Expand(config, role) :: Row(at, p)))
  }

  ghost function AssignRole(config: Config, db: Db, caller: Option<string>, user: string, role: string,
                            scope: Option<Scope>): Option<Db>
  {
    if !ScopeOk(scope) || !Can(db.rows, caller, MANAGE_PERMISSION, scope) then None
    else Granted(config, db, At(user, scope), role)
  }

  function Remaining(assigns: seq<Assign>, at: Place, role: string): set<Assign> {
    set a | a in assigns && a.at == at && a.role != role
  }

  /** The place's rows recomputed from the roles that stay. */
  ghost function Revoked(config: Config, db: Db, at: Place, role: string): Option<Db> {
    var rest := Remaining(db.assigns, at, role);
    if !AllSmall(config, rest) then None
    else
      Some(db.(
        assigns := Without(db.assigns, Assign(at, role)),
        rows := (set r | r in db.rows && r.at != at) + Index(config, rest)))
  }

  ghost function RevokeRole(config: Config, db: Db, caller: Option<string>, user: string, role: string,
                            scope: Option<Scope>): Option<Db>
  {
    if !ScopeOk(scope) || !Can(db.rows, caller, MANAGE_PERMISSION, scope) then None
    else Revoked(config, db, At(user, scope), role)
  }

  ghost function Rebuild(config: Config, hash: Config -> string, db: Db, caller: Option<string>): Option<Db> {
    if !Can(db.rows, caller, MANAGE_PERMISSION, None) then None else Reconcile(config, hash, db)
  }

  /** Whether some index row lets somebody manage roles somewhere. */
  predicate AdminExists(rows: set<Row>) { exists r :: r in rows && r.permission in CandidateKeys(MANAGE_PERMISSION) }

  ghost function Bootstrap(config: Config, db: Db, user: string, role: string): Option<Db> {
    if !RoleGrants(config, role, MANAGE_PERMISSION) || AdminExists(db.rows) then None
    else Granted(config, db, At(user, None), role)
  }

  // ---------------------------------------------------------------------------------------------
  // Runs
  // ---------------------------------------------------------------------------------------------

  datatype Event =
    | Boot(config: Config)
    | Assigns(caller: Option<string>, user: string, role: string, scope: Option<Scope>)
    | Revokes(caller: Option<string>, user: string, role: string, scope: Option<Scope>)
    | Rebuilds(caller: Option<string>)
    | Bootstraps(user: string, role: string)

  /** The configuration of the last successful boot, and the tables. */
  datatype Sys = Sys(config: Config, db: Db)

  ghost function Perform(hash: Config -> string, s: Sys, e: Event): Option<Db> {
    match e
    case Boot(config) => Reconcile(config, hash, s.db)
    case Assigns(caller, user, role, scope) => AssignRole(s.config, s.db, caller, user, role, scope)
    case Revokes(caller, user, role, scope) => RevokeRole(s.config, s.db, caller, user, role, scope)
    case Rebuilds(caller) => Rebuild(s.config, hash, s.db, caller)
    case Bootstraps(user, role) => Bootstrap(s.config, s.db, user, role)
  }

  ghost function Next(hash: Config -> string, s: Sys, e: Event): Sys {
    match Perform(hash, s, e)
    case None => s
    case Some(db) => Sys(if e.Boot? then e.config else s.config, db)
  }

  const EMPTY: Db := Db([], {}, None)

  /** A new deployment boots once on empty tables; then anything may happen. */
  ghost function RunOf(hash: Config -> string, first: Config, events: seq<Event>): Sys {
    if events == [] then Next(hash, Sys(first, EMPTY), Boot(first))
    else Next(hash, RunOf(hash, first, events[..|events| - 1]), events[|events| - 1])
  }

  /** No two configurations of the run share a hash. */
  ghost predicate NoCollision(hash: Config -> string, first: Config, events: seq<Event>) {
    forall c, d :: Booted(first, events, c) && Booted(first, events, d) && hash(c) == hash(d) ==> c == d
  }

  ghost predicate Booted(first: Config, events: seq<Event>, c: Config) { c == first || Boot(c) in events }

  /** The places the run assigned roles at. */
  function PlacesOf(events: seq<Event>): set<Place> {
    (set e | e in events && e.Assigns? :: At(e.user, e.scope)) +
    (set e | e in events && e.Bootstraps? :: At(e.user, None))
  }

  ghost predicate Inv(hash: Config -> string, s: Sys) {
    && s.db.rows == Index(s.config, Contents(s.db.assigns))
    && s.db.stamp == Some(hash(s.config))
    && AllSmall(s.config, Contents(s.db.assigns))
    && Unique(s.db.assigns)
  }

  lemma GrantKeeps(hash: Config -> string, s: Sys, at: Place, role: string)
    requires Inv(hash, s) && Granted(s.config, s.db, at, role).Some?
    ensures Inv(hash, Sys(s.config, Granted(s.config, s.db, at, role).value))
  {
    var a := Assign(at, role);
    InsertIs(s.db.assigns, a);
    MoreIndex(s.config, Contents(s.db.assigns), a);
  }

  lemma MoreIndex(config: Config, assigns: set<Assign>, a: Assign)
    ensures Index(config, assigns + {a}) == Index(config, assigns) + set p | p in Expand(config, a.role) :: Row(a.at, p)
  {
  }

  /** Patterns another role of the same place still grants survive; the others go. */
  lemma RevokeKeeps(hash: Config -> string, s: Sys, at: Place, role: string)
    requires Inv(hash, s) && Revoked(s.config, s.db, at, role).Some?
    ensures Inv(hash, Sys(s.config, Revoked(s.config, s.db, at, role).value))
  {
    WithoutIs(s.db.assigns, Assign(at, role));
    LessIndex(s.config, Contents(s.db.assigns), at, role, Remaining(s.db.assigns, at, role));
  }

  lemma LessIndex(config: Config, assigns: set<Assign>, at: Place, role: string, rest: set<Assign>)
    requires rest == set a | a in assigns && a.at == at && a.role != role
    ensures Index(config, assigns - {Assign(at, role)}) ==
            (set r | r in Index(config, assigns) && r.at != at) + Index(config, rest)
  {
  }

  /** The places of the tables; each index row is at an assigned place. */
  lemma RowsAreAssigned(config: Config, assigns: seq<Assign>, rows: set<Row>)
    requires rows == Index(config, Contents(assigns))
    ensures AssignedPlaces(assigns) + (set r | r in rows :: r.at) == AssignedPlaces(assigns)
  {
  }

  lemma BootKeeps(hash: Config -> string, s: Sys, config: Config)
    requires Inv(hash, s) && Distinct(AssignedPlaces(s.db.assigns))
    requires hash(config) == hash(s.config) ==> config == s.config
    ensures Inv(hash, Next(hash, s, Boot(config)))
  {
    RowsAreAssigned(s.config, s.db.assigns, s.db.rows);
    RegroupedIsIndex(config, s.db.assigns, s.db.rows);
  }

  lemma NextKeeps(hash: Config -> string, s: Sys, e: Event)
    requires Inv(hash, s) && Distinct(AssignedPlaces(s.db.assigns))
    requires e.Boot? && hash(e.config) == hash(s.config) ==> e.config == s.config
    ensures Inv(hash, Next(hash, s, e))
  {
    match e
    case Boot(config) => BootKeeps(hash, s, config);
    case Assigns(_, user, role, scope) =>
      if Perform(hash, s, e).Some? { GrantKeeps(hash, s, At(user, scope), role); }
    case Revokes(_, user, role, scope) =>
      if Perform(hash, s, e).Some? { RevokeKeeps(hash, s, At(user, scope), role); }
    case Rebuilds(_) =>
    case Bootstraps(user, role) =>
      if Perform(hash, s, e).Some? { GrantKeeps(hash, s, At(user, None), role); }
  }

  /** Roles are assigned at the places of the run. */
  lemma NextPlaces(hash: Config -> string, s: Sys, e: Event, places: set<Place>)
    requires Inv(hash, s) && AssignedPlaces(s.db.assigns) <= places
    requires (e.Assigns? ==> At(e.user, e.scope) in places) && (e.Bootstraps? ==> At(e.user, None) in places)
    ensures AssignedPlaces(Next(hash, s, e).db.assigns) <= places
  {
    if e.Revokes? { WithoutIs(s.db.assigns, Assign(At(e.user, e.scope), e.role)); }
    forall a | a in Next(hash, s, e).db.assigns ensures a.at in places {
      assert a in Contents(Next(hash, s, e).db.assigns);
      if a in s.db.assigns { assert a.at in AssignedPlaces(s.db.assigns); }
    }
  }

  /**
   After any run the index holds exactly the patterns of the assigned roles under the booted configuration,
   given that no two places of the run share a key and no two of its configurations a hash.
   */
  lemma {:induction false} IndexAgrees(hash: Config -> string, first: Config, events: seq<Event>)
    requires NoCollision(hash, first, events) && Distinct(PlacesOf(events))
    ensures var s := RunOf(hash, first, events);
            Inv(hash, s) && Booted(first, events, s.config) && AssignedPlaces(s.db.assigns) <= PlacesOf(events)
  {
    if events == [] {
      assert Grouping([]) == map[];
    } else {
      var n := |events| - 1;
      var before := events[..n];
      assert forall c :: Booted(first, before, c) ==> Booted(first, events, c);
      assert PlacesOf(before) <= PlacesOf(events);
      IndexAgrees(hash, first, before);
      var s := RunOf(hash, first, before);
      assert events[n].Boot? ==> Booted(first, events, events[n].config);
      assert Distinct(AssignedPlaces(s.db.assigns));
      NextKeeps(hash, s, events[n]);
      NextPlaces(hash, s, events[n], PlacesOf(events));
    }
  }

  /** Names without NUL characters are enough. */
  lemma NulFreeRun(events: seq<Event>)
    requires forall e :: e in events && e.Assigns? ==> NulFree(At(e.user, e.scope))
    requires forall e :: e in events && e.Bootstraps? ==> NulFree(At(e.user, None))
    ensures Distinct(PlacesOf(events))
  {
    NulFreeIsDistinct(PlacesOf(events));
  }

  // ---------------------------------------------------------------------------------------------
  // What the index decides
  // ---------------------------------------------------------------------------------------------

  /** One place: an index lookup finds a key exactly when a role assigned there grants the permission. */
  lemma HeldIff(config: Config, assigns: set<Assign>, at: Place, permission: string)
    requires ColonFree(config) && WellFormed(permission)
    ensures Held(Index(config, assigns), at, CandidateKeys(permission)) <==>
            exists a :: a in assigns && a.at == at && RoleGrants(config, a.role, permission)
  {
    var rows := Index(config, assigns);
    if Held(rows, at, CandidateKeys(permission)) {
      var k :| k in CandidateKeys(permission) && Row(at, k) in rows;
      var a :| a in assigns && a.at == at && k in Expand(config, a.role);
      var res, act := PatternsAreNamed(config, a.role, k);
      KeysAgree(res, act, permission);
      assert RoleGrants(config, a.role, permission);
    }
    if a :| a in assigns && a.at == at && RoleGrants(config, a.role, permission) {
      var p :| p in Expand(config, a.role) && Grants(p, permission);
      var res, act := PatternsAreNamed(config, a.role, p);
      KeysAgree(res, act, permission);
      assert Row(at, p) in rows;
    }
  }

  /** Some role the user holds, globally or in the scope, grants the permission. */
  ghost predicate Entitled(s: Sys, user: string, permission: string, scope: Option<Scope>) {
    exists role :: role in AssignedRoles(s.db.assigns, user, scope) && RoleGrants(s.config, role, permission)
  }

  /**
   After any run `can` answers yes exactly when some role the caller holds, globally or in the scope,
   grants the permission.
   */
  lemma CanDecidesRoles(hash: Config -> string, first: Config, events: seq<Event>, user: string, permission: string,
                        scope: Option<Scope>)
    requires NoCollision(hash, first, events) && Distinct(PlacesOf(events)) && user != "" && WellFormed(permission)
    requires ColonFree(RunOf(hash, first, events).config)
    ensures var s := RunOf(hash, first, events);
            Can(s.db.rows, Some(user), permission, scope) <==>
            Entitled(s, user, permission, scope)
  {
    IndexAgrees(hash, first, events);
    var s := RunOf(hash, first, events);
    HeldIff(s.config, Contents(s.db.assigns), At(user, scope), permission);
    HeldIff(s.config, Contents(s.db.assigns), At(user, None), permission);
    forall a | a in s.db.assigns && (a.at == At(user, None) || a.at == At(user, scope))
      ensures a.role in AssignedRoles(s.db.assigns, user, scope)
    {
    }
  }

  /** Whether a place counts for `scopesWith`: the user's, and of the kind asked for if one was. */
  predicate Listed(at: Place, user: string, kind: Option<string>) {
    at.user == user && (kind.None? || at.scopeType == kind.value)
  }

  lemma ScopesOfIndex(config: Config, assigns: set<Assign>, user: string, permission: string, kind: Option<string>,
                      id: string)
    requires ColonFree(config) && WellFormed(permission)
    ensures id in ScopesWith(Index(config, assigns), user, permission, kind) <==>
            exists a :: a in assigns && Listed(a.at, user, kind) && a.at.scopeId == id &&
              RoleGrants(config, a.role, permission)
  {
    var rows, keys := Index(config, assigns), CandidateKeys(permission);
    if id in ScopesWith(rows, user, permission, kind) {
      var r :| r in rows && Listed(r.at, user, kind) && r.permission in keys && r.at.scopeId == id;
      assert r == Row(r.at, r.permission) && Held(rows, r.at, keys);
      HeldIff(config, assigns, r.at, permission);
    }
    if a :| a in assigns && Listed(a.at, user, kind) && a.at.scopeId == id && RoleGrants(config, a.role, permission) {
      HeldIff(config, assigns, a.at, permission);
      var k :| k in keys && Row(a.at, k) in rows;
      assert Row(a.at, k).at.scopeId == id;
    }
  }

  /**
   `scopesWith` lists exactly the scopes, of one kind or of any, in which a role of the user grants the permission.
   */
  lemma ScopesWithIff(hash: Config -> string, first: Config, events: seq<Event>, user: string, permission: string,
                      kind: Option<string>, id: string)
    requires NoCollision(hash, first, events) && Distinct(PlacesOf(events)) && WellFormed(permission)
    requires ColonFree(RunOf(hash, first, events).config)
    ensures var s := RunOf(hash, first, events);
            id in ScopesWith(s.db.rows, user, permission, kind) <==>
            exists a :: a in s.db.assigns && Listed(a.at, user, kind) && a.at.scopeId == id &&
              RoleGrants(s.config, a.role, permission)
  {
    IndexAgrees(hash, first, events);
    var s := RunOf(hash, first, events);
    ScopesOfIndex(s.config, Contents(s.db.assigns), user, permission, kind, id);
  }

  lemma ManageIsWellFormed()
    ensures WellFormed(MANAGE_PERMISSION)
  {
    ColonAt("authz", "manage");
  }

  lemma AdminExistsIff(config: Config, assigns: set<Assign>)
    requires ColonFree(config)
    ensures AdminExists(Index(config, assigns)) <==>
            exists a :: a in assigns && RoleGrants(config, a.role, MANAGE_PERMISSION)
  {
    ManageIsWellFormed();
    var rows, keys := Index(config, assigns), CandidateKeys(MANAGE_PERMISSION);
    if AdminExists(rows) {
      var r :| r in rows && r.permission in keys;
      assert r == Row(r.at, r.permission) && Held(rows, r.at, keys);
      HeldIff(config, assigns, r.at, MANAGE_PERMISSION);
    }
    if a :| a in assigns && RoleGrants(config, a.role, MANAGE_PERMISSION) {
      HeldIff(config, assigns, a.at, MANAGE_PERMISSION);
    }
  }

  // ---------------------------------------------------------------------------------------------
  // Who may do what
  // ---------------------------------------------------------------------------------------------

  /** Some role the caller holds, globally or in the scope, grants `authz:manage`. */
  ghost predicate Manages(s: Sys, caller: Option<string>, scope: Option<Scope>) {
    && caller.Some? && caller.value != ""
    && Entitled(s, caller.value, MANAGE_PERMISSION, scope)
  }

  /** The mutation succeeds exactly if `may`, and then `assigns` is assigned; a failure changes nothing. */
  ghost predicate Performs(hash: Config -> string, s: Sys, e: Event, may: bool, assigns: set<Assign>) {
    var s' := Next(hash, s, e);
    && (Perform(hash, s, e).Some? <==> may) && s'.config == s.config && s'.db.stamp == s.db.stamp
    && if may then Contents(s'.db.assigns) == assigns else s' == s
  }

  lemma NobodyCan(rows: set<Row>, caller: Option<string>, permission: string, scope: Option<Scope>)
    ensures caller.None? || caller.value == "" ==> !Can(rows, caller, permission, scope)
  {
  }

  lemma MayManage(hash: Config -> string, first: Config, events: seq<Event>, caller: Option<string>,
                  scope: Option<Scope>)
    requires NoCollision(hash, first, events) && Distinct(PlacesOf(events))
    requires ColonFree(RunOf(hash, first, events).config)
    ensures var s := RunOf(hash, first, events);
            Inv(hash, s) && (Can(s.db.rows, caller, MANAGE_PERMISSION, scope) <==> Manages(s, caller, scope))
  {
    IndexAgrees(hash, first, events);
    ManageIsWellFormed();
    NobodyCan(RunOf(hash, first, events).db.rows, caller, MANAGE_PERMISSION, scope);
    if caller.Some? && caller.value != "" {
      CanDecidesRoles(hash, first, events, caller.value, MANAGE_PERMISSION, scope);
    }
  }

  /** A mutation that writes a grant if it is let through. */
  lemma GrantPerforms(hash: Config -> string, s: Sys, e: Event, may: bool, at: Place, role: string)
    requires !e.Boot? && Perform(hash, s, e) == if may then Granted(s.config, s.db, at, role) else None
    ensures Performs(hash, s, e, may && Small(s.config, role), Contents(s.db.assigns) + {Assign(at, role)})
  {
    InsertIs(s.db.assigns, Assign(at, role));
  }

  /** A role is assigned exactly if the scope is whole, the caller manages there and the role is not too big. */
  lemma AssignIff(hash: Config -> string, first: Config, events: seq<Event>, caller: Option<string>, user: string,
                  role: string, scope: Option<Scope>)
    requires NoCollision(hash, first, events) && Distinct(PlacesOf(events))
    requires ColonFree(RunOf(hash, first, events).config)
    ensures var s := RunOf(hash, first, events);
            Performs(hash, s, Assigns(caller, user, role, scope),
                     && (scope.Some? ==> scope.value.kind != "" && scope.value.id != "")
                     && Manages(s, caller, scope) && |Expand(s.config, role)| <= 1000,
                     Contents(s.db.assigns) + {Assign(At(user, scope), role)})
  {
    MayManage(hash, first, events, caller, scope);
    var s := RunOf(hash, first, events);
    var may := ScopeOk(scope) && Manages(s, caller, scope);
    GrantPerforms(hash, s, Assigns(caller, user, role, scope), may, At(user, scope), role);
  }

  lemma RevokePerforms(hash: Config -> string, s: Sys, e: Event, may: bool, at: Place, role: string)
    requires Inv(hash, s) && !e.Boot? && Perform(hash, s, e) == if may then Revoked(s.config, s.db, at, role) else None
    ensures Performs(hash, s, e, may, Contents(s.db.assigns) - {Assign(at, role)})
  {
    WithoutIs(s.db.assigns, Assign(at, role));
  }

  /** A role is revoked exactly if the scope is whole and the caller manages there. */
  lemma RevokeIff(hash: Config -> string, first: Config, events: seq<Event>, caller: Option<string>, user: string,
                  role: string, scope: Option<Scope>)
    requires NoCollision(hash, first, events) && Distinct(PlacesOf(events))
    requires ColonFree(RunOf(hash, first, events).config)
    ensures var s := RunOf(hash, first, events);
            Performs(hash, s, Revokes(caller, user, role, scope),
                     && (scope.Some? ==> scope.value.kind != "" && scope.value.id != "")
                     && Manages(s, caller, scope),
                     Contents(s.db.assigns) - {Assign(At(user, scope), role)})
  {
    MayManage(hash, first, events, caller, scope);
    var s := RunOf(hash, first, events);
    var may := ScopeOk(scope) && Manages(s, caller, scope);
    RevokePerforms(hash, s, Revokes(caller, user, role, scope), may, At(user, scope), role);
  }

  /** `rebuild` goes through exactly if the caller manages globally. */
  lemma RebuildIff(hash: Config -> string, first: Config, events: seq<Event>, caller: Option<string>)
    requires NoCollision(hash, first, events) && Distinct(PlacesOf(events))
    requires ColonFree(RunOf(hash, first, events).config)
    ensures var s := RunOf(hash, first, events);
            Performs(hash, s, Rebuilds(caller), Manages(s, caller, None), Contents(s.db.assigns))
  {
    MayManage(hash, first, events, caller, None);
  }

  lemma BootstrapPerforms(hash: Config -> string, s: Sys, user: string, role: string)
    ensures Performs(hash, s, Bootstraps(user, role),
                     RoleGrants(s.config, role, MANAGE_PERMISSION) && Small(s.config, role) && !AdminExists(s.db.rows),
                     Contents(s.db.assigns) + {Assign(At(user, None), role)})
  {
    var may := RoleGrants(s.config, role, MANAGE_PERMISSION) && !AdminExists(s.db.rows);
    GrantPerforms(hash, s, Bootstraps(user, role), may, At(user, None), role);
  }

  /** The first admin can be bootstrapped exactly while no assignment anywhere grants role management. */
  lemma BootstrapIff(hash: Config -> string, first: Config, events: seq<Event>, user: string, role: string)
    requires NoCollision(hash, first, events) && Distinct(PlacesOf(events))
    requires ColonFree(RunOf(hash, first, events).config)
    ensures var s := RunOf(hash, first, events);
            Performs(hash, s, Bootstraps(user, role),
                     && RoleGrants(s.config, role, MANAGE_PERMISSION) && |Expand(s.config, role)| <= 1000
                     && forall a :: a in s.db.assigns ==> !RoleGrants(s.config, a.role, MANAGE_PERMISSION),
                     Contents(s.db.assigns) + {Assign(At(user, None), role)})
  {
    IndexAgrees(hash, first, events);
    var s := RunOf(hash, first, events);
    AdminExistsIff(s.config, Contents(s.db.assigns));
    BootstrapPerforms(hash, s, user, role);
  }

  /** A boot succeeds exactly if its hash is the stamped one or no assigned role is too big; assignments stay. */
  lemma BootIff(hash: Config -> string, first: Config, events: seq<Event>, config: Config)
    ensures var s := RunOf(hash, first, events);
            var s' := Next(hash, s, Boot(config));
            if hash(config) == hash(s.config) || forall a :: a in s.db.assigns ==> |Expand(config, a.role)| <= 1000
            then s'.config == config && s'.db.assigns == s.db.assigns && s'.db.stamp == Some(hash(config))
            else s' == s
  {
    StampFollows(hash, first, events);
  }

  lemma RevokedUndoesGranted(hash: Config -> string, s: Sys, at: Place, role: string)
    requires Inv(hash, s) && Assign(at, role) !in s.db.assigns && Granted(s.config, s.db, at, role).Some?
    ensures Revoked(s.config, Granted(s.config, s.db, at, role).value, at, role) == Some(s.db)
  {
    var db := Granted(s.config, s.db, at, role).value;
    GrantKeeps(hash, s, at, role);
    RevokeKeeps(hash, Sys(s.config, db), at, role);
    WithoutLast(s.db.assigns, Assign(at, role));
  }

  /** Assigning a role takes nothing from anybody. */
  lemma GrantedKeepsCan(config: Config, db: Db, at: Place, role: string, caller: Option<string>, permission: string,
                        scope: Option<Scope>)
    requires Granted(config, db, at, role).Some? && Can(db.rows, caller, permission, scope)
    ensures Can(Granted(config, db, at, role).value.rows, caller, permission, scope)
  {
  }

  /** Revoking a role that was just assigned restores the tables. */
  lemma RevokeUndoesAssign(hash: Config -> string, s: Sys, caller: Option<string>, user: string, role: string,
                           scope: Option<Scope>)
    requires Inv(hash, s) && Assign(At(user, scope), role) !in s.db.assigns
    requires AssignRole(s.config, s.db, caller, user, role, scope).Some?
    ensures var db := AssignRole(s.config, s.db, caller, user, role, scope).value;
            RevokeRole(s.config, db, caller, user, role, scope) == Some(s.db)
  {
    GrantedKeepsCan(s.config, s.db, At(user, scope), role, caller, MANAGE_PERMISSION, scope);
    RevokedUndoesGranted(hash, s, At(user, scope), role);
  }

  /** The stamp is the hash of the booted configuration, whatever the names, collisions and callers. */
  lemma {:induction false} StampFollows(hash: Config -> string, first: Config, events: seq<Event>)
    ensures var s := RunOf(hash, first, events); s.db.stamp == Some(hash(s.config))
  {
    if events == [] {
      assert AllSmall(first, Contents(EMPTY.assigns));
    } else {
      StampFollows(hash, first, events[..|events| - 1]);
    }
  }

  /** `rebuild` never changes anything, in any run: the stamp it compares with is the one boot has written. */
  lemma RebuildIsNoop(hash: Config -> string, first: Config, events: seq<Event>, caller: Option<string>)
    ensures var s := RunOf(hash, first, events); Next(hash, s, Rebuilds(caller)) == s
  {
    StampFollows(hash, first, events);
  }

  /** What the roles assigned at a place grant together. */
  ghost function GrantedAt(config: Config, assigns: set<Assign>, at: Place): set<string> {
    set a, p | a in assigns && a.at == at && p in Expand(config, a.role) :: p
  }

  /** Two configurations give the assigned roles of every place the same patterns. */
  ghost predicate SameGrants(config: Config, other: Config, assigns: set<Assign>) {
    forall a :: a in assigns ==> GrantedAt(config, assigns, a.at) == GrantedAt(other, assigns, a.at)
  }

  lemma RowIsGranted(config: Config, assigns: set<Assign>, r: Row)
    ensures r in Index(config, assigns) <==> r.permission in GrantedAt(config, assigns, r.at)
  {
  }

  lemma SameIndexIff(config: Config, other: Config, assigns: set<Assign>)
    ensures Index(config, assigns) == Index(other, assigns) <==> SameGrants(config, other, assigns)
  {
    forall r ensures r in Index(config, assigns) <==> r.permission in GrantedAt(config, assigns, r.at) {
      RowIsGranted(config, assigns, r);
    }
    forall r ensures r in Index(other, assigns) <==> r.permission in GrantedAt(other, assigns, r.at) {
      RowIsGranted(other, assigns, r);
    }
    if Index(config, assigns) == Index(other, assigns) {
      forall a, p | a in assigns
        ensures p in GrantedAt(config, assigns, a.at) <==> p in GrantedAt(other, assigns, a.at)
      {
        assert Row(a.at, p) in Index(config, assigns) <==> Row(a.at, p) in Index(other, assigns);
      }
    }
  }

  /**
   Where keys tell places apart, a boot leaves an index that agrees exactly when the hash moved or both
   configurations give the roles of every place the same patterns.
   */
  lemma BootAgreesIff(hash: Config -> string, s: Sys, config: Config)
    requires Inv(hash, s) && AllSmall(config, Contents(s.db.assigns)) && Distinct(AssignedPlaces(s.db.assigns))
    ensures var s' := Next(hash, s, Boot(config));
            s'.db.rows == Index(config, Contents(s'.db.assigns)) <==>
            hash(config) != hash(s.config) || SameGrants(config, s.config, Contents(s.db.assigns))
  {
    RowsAreAssigned(s.config, s.db.assigns, s.db.rows);
    RegroupedIsIndex(config, s.db.assigns, s.db.rows);
    SameIndexIff(config, s.config, Contents(s.db.assigns));
  }

  // ---------------------------------------------------------------------------------------------
  // When a boot can be trusted
  // ---------------------------------------------------------------------------------------------

  /** No assignment twice, and no row at a place without one. */
  ghost predicate Tidy(db: Db) { Unique(db.assigns) && forall r :: r in db.rows ==> r.at in AssignedPlaces(db.assigns) }

  lemma RegroupedTidy(config: Config, assigns: seq<Assign>, rows: set<Row>)
    requires forall r :: r in rows ==> r.at in AssignedPlaces(assigns)
    ensures forall r :: r in Regrouped(config, assigns, rows) ==> r.at in AssignedPlaces(assigns)
  {
    GroupingIs(assigns);
  }

  lemma GrantTidy(config: Config, db: Db, at: Place, role: string)
    requires Tidy(db) && Granted(config, db, at, role).Some?
    ensures Tidy(Granted(config, db, at, role).value)
  {
    var db' := Granted(config, db, at, role).value;
    InsertIs(db.assigns, Assign(at, role));
    assert Assign(at, role) in db'.assigns;
    forall p | p in AssignedPlaces(db.assigns) ensures p in AssignedPlaces(db'.assigns) {
      var a :| a in db.assigns && a.at == p;
      assert a in db'.assigns;
    }
  }

  lemma RevokeTidy(config: Config, db: Db, at: Place, role: string)
    requires Tidy(db) && Revoked(config, db, at, role).Some?
    ensures Tidy(Revoked(config, db, at, role).value)
  {
    var db' := Revoked(config, db, at, role).value;
    WithoutIs(db.assigns, Assign(at, role));
    forall r | r in db'.rows ensures r.at in AssignedPlaces(db'.assigns) {
      var a :| a in db.assigns && a.at == r.at && (r.at != at || a in Remaining(db.assigns, at, role));
      assert a in Contents(db'.assigns);
    }
  }

  lemma {:induction false} RunTidy(hash: Config -> string, first: Config, events: seq<Event>)
    ensures Tidy(RunOf(hash, first, events).db)
  {
    if events == [] {
      RegroupedTidy(first, [], {});
    } else {
      var s, e := RunOf(hash, first, events[..|events| - 1]), events[|events| - 1];
      RunTidy(hash, first, events[..|events| - 1]);
      NextTidy(hash, s, e);
    }
  }

  lemma NextTidy(hash: Config -> string, s: Sys, e: Event)
    requires Tidy(s.db)
    ensures Tidy(Next(hash, s, e).db)
  {
    if Perform(hash, s, e).Some? {
      match e
      case Boot(config) => RegroupedTidy(config, s.db.assigns, s.db.rows);
      case Assigns(_, user, role, scope) => GrantTidy(s.config, s.db, At(user, scope), role);
      case Revokes(_, user, role, scope) => RevokeTidy(s.config, s.db, At(user, scope), role);
      case Rebuilds(_) => RegroupedTidy(s.config, s.db.assigns, s.db.rows);
      case Bootstraps(user, role) => GrantTidy(s.config, s.db, At(user, None), role);
    }
  }

  /**
   After any run, names and collisions as they may be: the rebuild that boot does gives the index under every
   configuration it may meet, if and only if no two places with an assignment share a key.
   */
  lemma BootIndexesIffDistinct(hash: Config -> string, first: Config, events: seq<Event>)
    ensures var db := RunOf(hash, first, events).db;
            Distinct(AssignedPlaces(db.assigns)) <==>
            forall config | AllSmall(config, Contents(db.assigns)) ::
              Regrouped(config, db.assigns, db.rows) == Index(config, Contents(db.assigns))
  {
    RunTidy(hash, first, events);
    var db := RunOf(hash, first, events).db;
    RegroupedIffDistinct(db.assigns, db.rows);
  }

  // ---------------------------------------------------------------------------------------------
  // A grant that outlives its role
  // ---------------------------------------------------------------------------------------------

  /** A permission string is among its own candidate keys. */
  lemma OwnKey(resource: string, action: string)
    requires ':' !in resource
    ensures Pattern(resource, action) in CandidateKeys(Pattern(resource, action))
  {
    ColonAt(resource, action);
  }

  /** The second of two places that share a key is not the place of its group. */
  lemma SecondIsLate(a: Assign, b: Assign, c: Assign)
    requires Key(b.at) == Key(c.at) && b.at != c.at && a.at != c.at
    ensures Key(c.at) in Grouping([a, b, c]) && Grouping([a, b, c])[Key(c.at)].at != c.at
  {
    assert [a, b, c][..2] == [a, b] && [a, b][..1] == [a] && [a][..0] == [];
    assert Grouping([a]) == Joined(map[], a) && Grouping([a, b]) == Joined(Grouping([a]), b);
  }

  lemma RunSteps(hash: Config -> string, first: Config, events: seq<Event>, e: Event, db: Db, db': Db)
    requires RunOf(hash, first, events) == Sys(first, db) && !e.Boot? && Perform(hash, Sys(first, db), e) == Some(db')
    ensures RunOf(hash, first, events + [e]) == Sys(first, db')
  {
    assert (events + [e])[..|events|] == events;
  }

  lemma FreshTables(hash: Config -> string, first: Config) returns (none: seq<Event>, db: Db)
    ensures RunOf(hash, first, none) == Sys(first, db) && db == Db([], {}, Some(hash(first)))
  {
    assert Grouping([]) == map[];
    return [], Db([], {}, Some(hash(first)));
  }

  /** `root` may manage globally. */
  predicate Rooted(db: Db, root: string) { Row(At(root, None), MANAGE_PERMISSION) in db.rows }

  /** Whoever holds a role with `authz:manage` globally may manage everywhere. */
  lemma AdminCan(db: Db, root: string, scope: Option<Scope>)
    requires root != "" && Rooted(db, root)
    ensures Can(db.rows, Some(root), MANAGE_PERMISSION, scope)
  {
    OwnKey("authz", "manage");
  }

  lemma NoAdminYet(db: Db)
    requires db.rows == {}
    ensures !AdminExists(db.rows)
  {
  }

  lemma GrantsItself(config: Config, role: string, permission: string)
    requires permission in Expand(config, role)
    ensures RoleGrants(config, role, permission)
  {
    assert Grants(permission, permission);
  }

  lemma Bootstrapped(config: Config, db: Db, user: string, role: string)
    requires RoleGrants(config, role, MANAGE_PERMISSION) && !AdminExists(db.rows)
    ensures Bootstrap(config, db, user, role) == Granted(config, db, At(user, None), role)
  {
  }

  lemma FirstGrant(config: Config, db: Db, at: Place, role: string) returns (db': Db)
    requires db.assigns == [] && db.rows == {} && Small(config, role)
    ensures Granted(config, db, at, role) == Some(db')
    ensures db'.assigns == [Assign(at, role)] && db'.stamp == db.stamp
    ensures db'.rows == set p | p in Expand(config, role) :: Row(at, p)
  {
    db' := Granted(config, db, at, role).value;
  }

  lemma FirstAdmin(hash: Config -> string, first: Config, admin: string, root: string)
    returns (events: seq<Event>, db: Db)
    requires MANAGE_PERMISSION in Expand(first, admin) && Small(first, admin)
    ensures RunOf(hash, first, events) == Sys(first, db)
    ensures db.assigns == [Assign(At(root, None), admin)] && db.stamp == Some(hash(first)) && Rooted(db, root)
    ensures db.rows == set p | p in Expand(first, admin) :: Row(At(root, None), p)
  {
    var none, empty := FreshTables(hash, first);
    GrantsItself(first, admin, MANAGE_PERMISSION);
    NoAdminYet(empty);
    Bootstrapped(first, empty, root, admin);
    db := FirstGrant(first, empty, At(root, None), admin);
    RunSteps(hash, first, none, Bootstraps(root, admin), empty, db);
    events := none + [Bootstraps(root, admin)];
  }

  lemma OneGrant(hash: Config -> string, first: Config, events: seq<Event>, db: Db, role: string, root: string,
                 user: string, p: Scope)
    returns (db': Db)
    requires RunOf(hash, first, events) == Sys(first, db) && root != "" && ScopeOk(Some(p)) && Small(first, role)
    requires Rooted(db, root) && Assign(At(user, Some(p)), role) !in db.assigns
    ensures RunOf(hash, first, events + [Assigns(Some(root), user, role, Some(p))]) == Sys(first, db')
    ensures db'.assigns == db.assigns + [Assign(At(user, Some(p)), role)] && Rooted(db', root) && db'.stamp == db.stamp
    ensures forall x :: x in Expand(first, role) ==> Row(At(user, Some(p)), x) in db'.rows
  {
    AdminCan(db, root, Some(p));
    db' := Granted(first, db, At(user, Some(p)), role).value;
    RunSteps(hash, first, events, Assigns(Some(root), user, role, Some(p)), db, db');
  }

  lemma NotIndexed(config: Config, a: Assign, b: Assign, c: Assign, x: string)
    requires a.at != c.at && b.at != c.at && x !in Expand(config, c.role)
    ensures Row(c.at, x) !in Index(config, Contents([a, b, c]))
  {
  }

  lemma LastBoot(hash: Config -> string, first: Config, second: Config, events: seq<Event>, db: Db)
    requires RunOf(hash, first, events) == Sys(first, db) && db.stamp == Some(hash(first))
    requires hash(first) != hash(second)
    requires AllSmall(second, Contents(db.assigns))
    ensures RunOf(hash, first, events + [Boot(second)]) ==
            Sys(second, Db(db.assigns, Regrouped(second, db.assigns, db.rows), Some(hash(second))))
  {
    assert (events + [Boot(second)])[..|events|] == events;
  }

  lemma GrantsOnce(hash: Config -> string, first: Config, admin: string, role: string, root: string, user: string,
                   p: Scope)
    returns (events: seq<Event>, db: Db)
    requires root != "" && ScopeOk(Some(p)) && MANAGE_PERMISSION in Expand(first, admin) && Small(first, admin)
    requires Small(first, role)
    ensures RunOf(hash, first, events) == Sys(first, db) && db.stamp == Some(hash(first)) && Rooted(db, root)
    ensures db.assigns == [Assign(At(root, None), admin), Assign(At(user, Some(p)), role)]
  {
    var ev1, db1 := FirstAdmin(hash, first, admin, root);
    db := OneGrant(hash, first, ev1, db1, role, root, user, p);
    events := ev1 + [Assigns(Some(root), user, role, Some(p))];
  }

  /** An administrator grants the role in both scopes. */
  lemma GrantsTwice(hash: Config -> string, first: Config, admin: string, role: string, root: string, user: string,
                    p: Scope, q: Scope)
    returns (events: seq<Event>, db: Db)
    requires root != "" && ScopeOk(Some(p)) && ScopeOk(Some(q)) && p != q
    requires MANAGE_PERMISSION in Expand(first, admin) && Small(first, admin) && Small(first, role)
    ensures RunOf(hash, first, events) == Sys(first, db) && db.stamp == Some(hash(first))
    ensures db.assigns ==
            [Assign(At(root, None), admin), Assign(At(user, Some(p)), role), Assign(At(user, Some(q)), role)]
    ensures forall x :: x in Expand(first, role) ==> Row(At(user, Some(q)), x) in db.rows
  {
    var ev, db1 := GrantsOnce(hash, first, admin, role, root, user, p);
    db := OneGrant(hash, first, ev, db1, role, root, user, q);
    events := ev + [Assigns(Some(root), user, role, Some(q))];
  }

  /**
   The index says that `user` has `x` in `q`, although the assignments do not put it there and, unless the user
   is the administrator, no role the user holds there or globally grants it.
   */
  ghost predicate Stale(s: Sys, root: string, user: string, q: Scope, x: string) {
    && Row(At(user, Some(q)), x) in s.db.rows && Can(s.db.rows, Some(user), x, Some(q))
    && Row(At(user, Some(q)), x) !in Index(s.config, Contents(s.db.assigns))
    && (user != root ==>
         forall r :: r in AssignedRoles(s.db.assigns, user, Some(q)) ==> !RoleGrants(s.config, r, x))
  }

  /** The first assignment's place is recomputed, so an administrator who may still manage is not locked out. */
  lemma FirstIsRebuilt(config: Config, a: Assign, rest: seq<Assign>, rows: set<Row>, x: string)
    requires x in Expand(config, a.role)
    ensures Row(a.at, x) in Regrouped(config, [a] + rest, rows)
  {
    var assigns := [a] + rest;
    var groups, k := Grouping(assigns), Key(a.at);
    GroupingIs(assigns);
    FirstKeepsItsGroup(a, rest);
    assert a in assigns && GroupIs(k, groups[k], assigns);
    assert a.role in groups[k].roles && x in Desired(config, groups[k].roles);
  }

  lemma {:induction false} FirstKeepsItsGroup(a: Assign, rest: seq<Assign>)
    ensures Key(a.at) in Grouping([a] + rest) && Grouping([a] + rest)[Key(a.at)].at == a.at
  {
    if rest == [] {
      assert [a] + rest == [a] && [a][..0] == [];
    } else {
      var n := |rest| - 1;
      FirstKeepsItsGroup(a, rest[..n]);
      assert ([a] + rest)[..n + 1] == [a] + rest[..n];
    }
  }

  /** Who holds what once the role is granted in both scopes. */
  lemma OnlyThatRole(root: string, admin: string, user: string, role: string, p: Scope, q: Scope, r: string)
    requires user != root && p != q
    requires var a, b := Assign(At(root, None), admin), Assign(At(user, Some(p)), role);
             r in AssignedRoles([a, b, Assign(At(user, Some(q)), role)], user, Some(q))
    ensures r == role
  {
  }

  /** The boot that should have taken the permission away. */
  lemma StaleAfterBoot(hash: Config -> string, first: Config, second: Config, events: seq<Event>, db: Db,
                       a: Assign, b: Assign, c: Assign, resource: string, action: string)
    requires RunOf(hash, first, events) == Sys(first, db) && db.stamp == Some(hash(first))
    requires hash(first) != hash(second)
    requires db.assigns == [a, b, c] && a.at != c.at && b.at != c.at && Key(b.at) == Key(c.at) && b.role == c.role
    requires Small(second, a.role) && Small(second, c.role) && Row(c.at, Pattern(resource, action)) in db.rows
    requires !RoleGrants(second, c.role, Pattern(resource, action))
    ensures var s := RunOf(hash, first, events + [Boot(second)]);
            && s.config == second && s.db.assigns == db.assigns
            && Row(c.at, Pattern(resource, action)) in s.db.rows
            && Row(c.at, Pattern(resource, action)) !in Index(second, Contents(s.db.assigns))
            && (MANAGE_PERMISSION in Expand(second, a.role) ==> Row(a.at, MANAGE_PERMISSION) in s.db.rows)
  {
    var x := Pattern(resource, action);
    LastBoot(hash, first, second, events, db);
    SecondIsLate(a, b, c);
    LeftAlone(second, [a, b, c], db.rows, c.at, x);
    if x in Expand(second, c.role) { GrantsItself(second, c.role, x); }
    NotIndexed(second, a, b, c, x);
    if MANAGE_PERMISSION in Expand(second, a.role) {
      assert [a, b, c] == [a] + [b, c];
      FirstIsRebuilt(second, a, [b, c], db.rows, MANAGE_PERMISSION);
    }
  }

  lemma HeldRowCan(rows: set<Row>, user: string, q: Scope, resource: string, action: string)
    requires user != "" && ':' !in resource && Row(At(user, Some(q)), Pattern(resource, action)) in rows
    ensures Can(rows, Some(user), Pattern(resource, action), Some(q))
  {
    OwnKey(resource, action);
  }

  /** The administrator may call `rebuild`, and it returns the tables as they are. */
  lemma RebuildReturns(hash: Config -> string, s: Sys, root: string)
    requires root != "" && Rooted(s.db, root) && s.db.stamp == Some(hash(s.config))
    ensures Perform(hash, s, Rebuilds(Some(root))) == Some(s.db)
  {
    AdminCan(s.db, root, None);
  }

  lemma IsStale(s: Sys, root: string, admin: string, user: string, role: string, p: Scope, q: Scope, resource: string,
                action: string)
    requires user != "" && ':' !in resource && p != q && !RoleGrants(s.config, role, Pattern(resource, action))
    requires s.db.assigns ==
             [Assign(At(root, None), admin), Assign(At(user, Some(p)), role), Assign(At(user, Some(q)), role)]
    requires Row(At(user, Some(q)), Pattern(resource, action)) in s.db.rows
    requires Row(At(user, Some(q)), Pattern(resource, action)) !in Index(s.config, Contents(s.db.assigns))
    ensures Stale(s, root, user, q, Pattern(resource, action))
  {
    HeldRowCan(s.db.rows, user, q, resource, action);
    if user != root {
      forall r | r in AssignedRoles(s.db.assigns, user, Some(q))
        ensures !RoleGrants(s.config, r, Pattern(resource, action))
      {
        OnlyThatRole(root, admin, user, role, p, q, r);
      }
    }
  }

  /**
   A stale grant.  Whenever two scopes of a user share a key, a role is granted in both by an administrator, and
   a new configuration takes a permission from the role, boot leaves the row in the second scope, and `can` says
   yes although no role the user holds grants the permission any more.  If the administrator may still manage,
   `rebuild` is allowed and leaves it too.
   */
  lemma StaleGrant(hash: Config -> string, first: Config, second: Config, admin: string, role: string,
                   root: string, user: string, p: Scope, q: Scope, resource: string, action: string)
    returns (events: seq<Event>)
    requires root != "" && user != "" && ':' !in resource && ScopeOk(Some(p)) && ScopeOk(Some(q))
    requires p != q && Key(At(user, Some(p))) == Key(At(user, Some(q)))
    requires MANAGE_PERMISSION in Expand(first, admin) && Small(first, admin) && Small(first, role)
    requires Pattern(resource, action) in Expand(first, role) && Small(second, admin) && Small(second, role)
    requires !RoleGrants(second, role, Pattern(resource, action)) && hash(first) != hash(second)
    ensures var s := RunOf(hash, first, events);
            && s.config == second && Stale(s, root, user, q, Pattern(resource, action))
            && (MANAGE_PERMISSION in Expand(second, admin) ==> Perform(hash, s, Rebuilds(Some(root))) == Some(s.db))
  {
    var before, db := GrantsTwice(hash, first, admin, role, root, user, p, q);
    var a, b, c := Assign(At(root, None), admin), Assign(At(user, Some(p)), role), Assign(At(user, Some(q)), role);
    events := before + [Boot(second)];
    StaleAfterBoot(hash, first, second, before, db, a, b, c, resource, action);
    var s := RunOf(hash, first, events);
    IsStale(s, root, admin, user, role, p, q, resource, action);
    StampFollows(hash, first, events);
    if MANAGE_PERMISSION in Expand(second, admin) { RebuildReturns(hash, s, root); }
  }

  // ---------------------------------------------------------------------------------------------
  // A rebuild that would have had something to repair
  // ---------------------------------------------------------------------------------------------

  lemma QuietBoot(hash: Config -> string, first: Config, second: Config, events: seq<Event>, db: Db)
    requires RunOf(hash, first, events) == Sys(first, db) && db.stamp == Some(hash(second))
    ensures RunOf(hash, first, events + [Boot(second)]) == Sys(second, db)
  {
    assert (events + [Boot(second)])[..|events|] == events;
  }

  lemma OneIndex(config: Config, a: Assign)
    ensures Index(config, Contents([a])) == set p | p in Expand(config, a.role) :: Row(a.at, p)
  {
    assert a in Contents([a]);
  }

  lemma IndexTellsApart(first: Config, second: Config, a: Assign)
    requires Expand(first, a.role) != Expand(second, a.role)
    ensures Index(first, Contents([a])) != Index(second, Contents([a]))
  {
    OneIndex(first, a);
    OneIndex(second, a);
    forall p ensures Row(a.at, p) in Index(first, Contents([a])) <==> p in Expand(first, a.role) {}
    forall p ensures Row(a.at, p) in Index(second, Contents([a])) <==> p in Expand(second, a.role) {}
  }

  lemma WrongButRepairable(first: Config, second: Config, a: Assign, rows: set<Row>)
    requires Expand(first, a.role) != Expand(second, a.role)
    requires rows == set p | p in Expand(first, a.role) :: Row(a.at, p)
    ensures rows != Index(second, Contents([a])) && Regrouped(second, [a], rows) == Index(second, Contents([a]))
  {
    OneIndex(first, a);
    IndexTellsApart(first, second, a);
    RowsAreAssigned(first, [a], rows);
    assert AssignedPlaces([a]) == {a.at};
    RegroupedIsIndex(second, [a], rows);
  }

  /**
   Whenever two configurations share a hash and give an administrator's role different patterns, a run in which
   the index is wrong, the administrator may call `rebuild`, recomputing would put it right, and the call
   leaves it wrong.
   */
  lemma RebuildRepairsNothing(hash: Config -> string, first: Config, second: Config, admin: string, root: string)
    returns (events: seq<Event>)
    requires root != "" && hash(first) == hash(second) && Expand(first, admin) != Expand(second, admin)
    requires MANAGE_PERMISSION in Expand(first, admin) && Small(first, admin)
    ensures var s := RunOf(hash, first, events);
            && s.config == second && Perform(hash, s, Rebuilds(Some(root))) == Some(s.db)
            && s.db.rows != Index(second, Contents(s.db.assigns))
            && Regrouped(second, s.db.assigns, s.db.rows) == Index(second, Contents(s.db.assigns))
  {
    var before, db := FirstAdmin(hash, first, admin, root);
    QuietBoot(hash, first, second, before, db);
    events := before + [Boot(second)];
    var a := Assign(At(root, None), admin);
    assert db.assigns == [a];
    RebuildReturns(hash, Sys(second, db), root);
    WrongButRepairable(first, second, a, db.rows);
  }
}
