/**
 The authz tables as lists of rows, updated in place by the mutations
 (components/authz/src/effective-permissions.ts:37-122, functions.ts:30-86, context.ts:32-47).
 */
module AuthzTables {
  import opened Options
  import opened Roles
  import opened AuthzGroups
  import opened Authz

  /** The roles of a place other than one, in table order. */
  function OtherRoles(assigns: seq<Assign>, at: Place, role: string): seq<string> {
    if assigns == [] then []
    else
      var a := assigns[0];
      (if a.at == at && a.role != role then [a.role] else []) + OtherRoles(assigns[1..], at, role)
  }

  lemma {:induction false} OtherRolesAre(assigns: seq<Assign>, at: Place, role: string, r: string)
    ensures r in OtherRoles(assigns, at, role) <==> r != role && Assign(at, r) in assigns
  {
    if assigns != [] {
      assert assigns == [assigns[0]] + assigns[1..];
      OtherRolesAre(assigns[1..], at, role, r);
    }
  }

  /** The remaining roles define the same rows as the remaining assignments of the place. */
  lemma RemainingRows(config: Config, assigns: seq<Assign>, at: Place, role: string)
    ensures var roles, rest := OtherRoles(assigns, at, role), Remaining(assigns, at, role);
            && (RolesSmall(config, roles) <==> AllSmall(config, rest))
            && (set p | p in Desired(config, roles) :: Row(at, p)) == Index(config, rest)
  {
    var roles, rest := OtherRoles(assigns, at, role), Remaining(assigns, at, role);
    forall r ensures r in roles <==> Assign(at, r) in rest {
      OtherRolesAre(assigns, at, role, r);
    }
    SameRows(config, roles, rest, at);
  }

  lemma SameRows(config: Config, roles: seq<string>, rest: set<Assign>, at: Place)
    requires forall r :: r in roles <==> Assign(at, r) in rest
    requires forall a :: a in rest ==> a.at == at
    ensures RolesSmall(config, roles) <==> AllSmall(config, rest)
    ensures (set p | p in Desired(config, roles) :: Row(at, p)) == Index(config, rest)
  {
  }

  lemma {:induction false} WithoutNone<T>(s: seq<T>, x: T)
    requires x !in s
    ensures Without(s, x) == s
  {
    if s != [] { WithoutNone(s[1..], x); }
  }

  class Tables {
    var assigns: seq<Assign>
    var rows: seq<Row>
    var stamp: Option<string>

    /** No row is there twice. */
    ghost predicate Valid()
      reads this
    {
      Unique(assigns) && Unique(rows)
    }

    ghost function View(): Db
      reads this
    {
      Db(assigns, Contents(rows), stamp)
    }

    constructor ()
      ensures Valid() && View() == EMPTY
    {
      assigns, rows, stamp := [], [], None;
    }

    /** Insert the patterns that are missing, one by one. */
    method InsertMissing(at: Place, patterns: set<string>, have: set<string>)
      requires Unique(rows) && forall p :: p in patterns ==> (p in have <==> Row(at, p) in rows)
      modifies `rows
      ensures Unique(rows) && Contents(rows) == old(Contents(rows)) + set p | p in patterns :: Row(at, p)
    {
      var left := patterns;
      while left != {}
        invariant left <= patterns && Unique(rows)
        invariant Contents(rows) == old(Contents(rows)) + set p | p in patterns - left :: Row(at, p)
        invariant forall p :: p in left ==> (p in have <==> Row(at, p) in rows)
      {
        var p :| p in left;
        ghost var before := rows;
        if p !in have {
          InsertIs(rows, Row(at, p));
          rows := rows + [Row(at, p)];
        }
        left := left - {p};
        assert Contents(rows) == Contents(before) + {Row(at, p)} by {
          if p in have { assert Row(at, p) in Contents(before); }
        }
        assert patterns - left == (patterns - left - {p}) + {p};
      }
    }

    /** `upsertPatterns`; false when the role is too large. */
    method UpsertPatterns(config: Config, at: Place, role: string) returns (ok: bool)
      requires Unique(rows)
      modifies `rows
      ensures ok <==> Small(config, role)
      ensures !ok ==> rows == old(rows)
      ensures ok ==> Unique(rows)
      ensures ok ==> Contents(rows) == old(Contents(rows)) + set p | p in Expand(config, role) :: Row(at, p)
    {
      var have := set r | r in rows && r.at == at :: r.permission;
      var patterns := ExpandRolePatterns(config, role);
      if patterns.None? { return false; }
      assert forall p :: p in patterns.value && Row(at, p) in rows ==> p in have;
      InsertMissing(at, patterns.value, have);
      return true;
    }

    /** The union of what the roles grant; nothing when one is too large. */
    method CollectDesired(config: Config, roles: seq<string>) returns (desired: Option<set<string>>)
      ensures desired == if RolesSmall(config, roles) then Some(Desired(config, roles)) else None
    {
      var out: set<string> := {};
      for i := 0 to |roles|
        invariant out == Desired(config, roles[..i]) && RolesSmall(config, roles[..i])
      {
        DesiredGrows(config, roles, i);
        var more := ExpandRolePatterns(config, roles[i]);
        if more.None? {
          assert roles[i] in roles;
          return None;
        }
        out := out + more.value;
      }
      assert roles[..|roles|] == roles;
      return Some(out);
    }

    /** Delete the place's rows that are not desired, and say which desired ones are there. */
    method DeleteOrphans(at: Place, desired: set<string>) returns (have: set<string>)
      requires Unique(rows)
      modifies `rows
      ensures Unique(rows)
      ensures Contents(rows) == set r | r in old(rows) && (r.at != at || r.permission in desired)
      ensures have == set r | r in old(rows) && r.at == at && r.permission in desired :: r.permission
    {
      var found := rows;
      have := {};
      for i := 0 to |found|
        invariant Unique(rows)
        invariant Contents(rows) == set r | r in found && (r.at != at || r.permission in desired || r in found[i..])
        invariant have == set r | r in found[..i] && r.at == at && r.permission in desired :: r.permission
      {
        var r := found[i];
        assert found[..i + 1] == found[..i] + [r] && found[i..] == [r] + found[i + 1..];
        if r.at == at {
          if r.permission in desired {
            have := have + {r.permission};
          } else {
            assert r !in found[i + 1..];
            WithoutIs(rows, r);
            rows := Without(rows, r);
          }
        }
      }
      assert found[..|found|] == found;
    }

    /** `reconcileScope`; false when a role is too large. */
    method ReconcileScope(config: Config, at: Place, roles: seq<string>) returns (ok: bool)
      requires Unique(rows)
      modifies `rows
      ensures ok <==> RolesSmall(config, roles)
      ensures !ok ==> rows == old(rows)
      ensures ok ==> Unique(rows)
      ensures ok ==>
              Contents(rows) ==
              (set r | r in old(rows) && r.at != at) + set p | p in Desired(config, roles) :: Row(at, p)
    {
      var desired := CollectDesired(config, roles);
      if desired.None? { return false; }
      var have := DeleteOrphans(at, desired.value);
      assert forall r :: r in rows <==> r in Contents(rows);
      InsertMissing(at, desired.value, have);
      return true;
    }

    /** Group the assignments by place. */
    method GroupByPlace() returns (groups: map<string, Group>)
      ensures groups == Grouping(assigns) && GroupsAre(groups, assigns)
    {
      groups := map[];
      for i := 0 to |assigns|
        invariant groups == Grouping(assigns[..i])
      {
        var a := assigns[i];
        var key := Key(a.at);
        assert assigns[..i + 1][..i] == assigns[..i];
        if key in groups {
          groups := groups[key := groups[key].(roles := groups[key].roles + [a.role])];
        } else {
          groups := groups[key := Group(a.at, [a.role])];
        }
      }
      assert assigns[..|assigns|] == assigns;
      GroupingIs(assigns);
    }

    /** Drop the rows of every place without an assignment. */
    method DropUngrouped(groups: map<string, Group>)
      requires Unique(rows)
      modifies `rows
      ensures Unique(rows) && Contents(rows) == set r | r in old(rows) && Key(r.at) in groups
    {
      var all := rows;
      for i := 0 to |all|
        invariant Unique(rows)
        invariant Contents(rows) == set r | r in all && (Key(r.at) in groups || r in all[i..])
      {
        assert all[i..] == [all[i]] + all[i + 1..];
        if Key(all[i].at) !in groups {
          assert all[i] !in all[i + 1..];
          WithoutIs(rows, all[i]);
          rows := Without(rows, all[i]);
        }
      }
    }

    /** Rebuild each grouped place; false when a role is too large. */
    method ReconcileGroups(config: Config, groups: map<string, Group>) returns (ok: bool)
      requires Unique(rows) && forall k :: k in groups ==> Key(groups[k].at) == k
      modifies `rows
      ensures ok <==> GroupsSmall(config, groups, groups.Keys)
      ensures ok ==> Unique(rows) && Contents(rows) == Rebuilt(config, groups, groups.Keys, old(Contents(rows)))
    {
      var left := groups.Keys;
      while left != {}
        invariant left <= groups.Keys && Unique(rows)
        invariant GroupsSmall(config, groups, groups.Keys - left)
        invariant Contents(rows) == Rebuilt(config, groups, groups.Keys - left, old(Contents(rows)))
      {
        var k :| k in left;
        OneMoreGroup(config, groups, groups.Keys - left, k, old(Contents(rows)));
        assert groups.Keys - (left - {k}) == (groups.Keys - left) + {k};
        assert forall r :: r in rows <==> r in Contents(rows);
        ok := ReconcileScope(config, groups[k].at, groups[k].roles);
        if !ok { return false; }
        left := left - {k};
      }
      return true;
    }

    /**
     `reconcileEffectivePermissions`, and the rollback of a transaction that throws.  `current` is the hash
     of the configuration.
     */
    method ReconcileAll(config: Config, current: string) returns (ok: bool)
      requires Valid()
      modifies this
      ensures Valid() && assigns == old(assigns)
      ensures !ok ==> rows == old(rows) && stamp == old(stamp)
      ensures old(Reconcile(config, _ => current, View())) == if ok then Some(View()) else None
    {
      if stamp == Some(current) { return true; }
      var saved := rows;
      var groups := GroupByPlace();
      GroupsSmallIff(config, groups, assigns);
      forall k | k in groups ensures Key(groups[k].at) == k {
        assert GroupIs(k, groups[k], assigns);
      }
      DropUngrouped(groups);
      ghost var kept := Contents(rows);
      ok := ReconcileGroups(config, groups);
      if !ok {
        rows := saved;
        return;
      }
      assert kept == set r | r in old(View()).rows && Key(r.at) in groups;
      stamp := Some(current);
    }

    /** `held`. */
    method HoldsOne(at: Place, keys: seq<string>) returns (hit: bool)
      ensures hit <==> Held(Contents(rows), at, Contents(keys))
    {
      for i := 0 to |keys|
        invariant !Held(Contents(rows), at, Contents(keys[..i]))
      {
        if Row(at, keys[i]) in rows {
          assert keys[i] in Contents(keys);
          return true;
        }
        assert keys[..i + 1] == keys[..i] + [keys[i]];
      }
      assert keys[..|keys|] == keys;
      return false;
    }

    /** `can`. */
    method CheckCan(caller: Option<string>, permission: string, scope: Option<Scope>) returns (yes: bool)
      ensures yes <==> Can(Contents(rows), caller, permission, scope)
    {
      if caller.None? || caller.value == "" { return false; }
      var res := First(permission);
      var act := if Rest(permission).Some? then Rest(permission).value else "";
      var keys := [Pattern(res, act), Pattern(res, "*"), Pattern("*", act), Pattern("*", "*")];
      assert Contents(keys) == CandidateKeys(permission);
      yes := HoldsOne(At(caller.value, scope), keys);
      if !yes && (At(caller.value, scope).scopeType != "" || At(caller.value, scope).scopeId != "") {
        yes := HoldsOne(At(caller.value, None), keys);
      }
    }

    /** The assignment if it is missing, then the patterns; the caller rolls back. */
    method WriteGrant(config: Config, at: Place, role: string) returns (ok: bool)
      requires Valid()
      modifies this
      ensures Valid() && (!ok ==> unchanged(this))
      ensures old(Granted(config, View(), at, role)) == if ok then Some(View()) else None
    {
      var saved := assigns;
      InsertIs(assigns, Assign(at, role));
      if Assign(at, role) !in assigns {
        assigns := assigns + [Assign(at, role)];
      }
      assert Contents(assigns) == old(Contents(assigns)) + {Assign(at, role)};
      ok := UpsertPatterns(config, at, role);
      if !ok { assigns := saved; }
    }

    /** `assignRole`. */
    method AssignTo(config: Config, caller: Option<string>, user: string, role: string, scope: Option<Scope>)
      returns (ok: bool)
      requires Valid()
      modifies this
      ensures Valid() && (!ok ==> unchanged(this))
      ensures old(AssignRole(config, View(), caller, user, role, scope)) == if ok then Some(View()) else None
    {
      if scope.Some? && (scope.value.kind == "" || scope.value.id == "") { return false; }
      var allowed := CheckCan(caller, MANAGE_PERMISSION, scope);
      if !allowed { return false; }
      ok := WriteGrant(config, At(user, scope), role);
    }

    /** Delete the place's assignments of the role. */
    method DeleteAssigns(at: Place, role: string)
      requires Unique(assigns)
      modifies `assigns
      ensures Unique(assigns) && assigns == Without(old(assigns), Assign(at, role))
    {
      var found := assigns;
      WithoutIs(found, Assign(at, role));
      for i := 0 to |found|
        invariant assigns == if Assign(at, role) in found[..i] then Without(found, Assign(at, role)) else found
      {
        assert found[..i + 1] == found[..i] + [found[i]];
        if found[i].at == at && found[i].role == role {
          assigns := Without(assigns, found[i]);
        }
      }
      assert found[..|found|] == found;
      if Assign(at, role) !in found { WithoutNone(found, Assign(at, role)); }
    }

    /** `revokeRole`. */
    method RevokeFrom(config: Config, caller: Option<string>, user: string, role: string, scope: Option<Scope>)
      returns (ok: bool)
      requires Valid()
      modifies this
      ensures Valid() && (!ok ==> unchanged(this))
      ensures old(RevokeRole(config, View(), caller, user, role, scope)) == if ok then Some(View()) else None
    {
      if scope.Some? && (scope.value.kind == "" || scope.value.id == "") { return false; }
      var allowed := CheckCan(caller, MANAGE_PERMISSION, scope);
      if !allowed { return false; }
      ok := WriteRevoke(config, At(user, scope), role);
    }

    method WriteRevoke(config: Config, at: Place, role: string) returns (ok: bool)
      requires Valid()
      modifies this
      ensures Valid() && (!ok ==> unchanged(this))
      ensures old(Revoked(config, View(), at, role)) == if ok then Some(View()) else None
    {
      var saved := assigns;
      assert (set r | r in old(rows) && r.at != at) == (set r | r in old(View()).rows && r.at != at);
      var remaining := OtherRoles(assigns, at, role);
      RemainingRows(config, assigns, at, role);
      DeleteAssigns(at, role);
      ok := ReconcileScope(config, at, remaining);
      if !ok { assigns := saved; }
    }

    /** Whether some row, anywhere, holds one of the keys. */
    method AnyRow(keys: set<string>) returns (hit: bool)
      ensures hit <==> exists r :: r in Contents(rows) && r.permission in keys
    {
      for i := 0 to |rows|
        invariant forall j :: 0 <= j < i ==> rows[j].permission !in keys
      {
        if rows[i].permission in keys {
          assert rows[i] in Contents(rows);
          return true;
        }
      }
      return false;
    }

    /** `bootstrapFirstAdmin`. */
    method BootstrapFirstAdmin(config: Config, user: string, role: string) returns (ok: bool)
      requires Valid()
      modifies this
      ensures Valid() && (!ok ==> unchanged(this))
      ensures old(Bootstrap(config, View(), user, role)) == if ok then Some(View()) else None
    {
      var grants := DecideRole(config, role, MANAGE_PERMISSION);
      if !grants { return false; }
      var taken := AnyRow(CandidateKeys(MANAGE_PERMISSION));
      if taken { return false; }
      ok := WriteGrant(config, At(user, None), role);
    }
  }
}
