/**
 Role definitions, inheritance and permission patterns (components/authz/src/roles.ts:11-33,
 components/authz/src/effective-permissions.ts:7-20).
 */
module Roles {
  import opened Options

  datatype Grant = Grant(resource: string, actions: seq<string>)

  datatype RoleDef = RoleDef(inherits: seq<string>, grants: seq<Grant>)

  datatype Config = Config(roles: map<string, RoleDef>)

  const MAX_PATTERNS_PER_ROLE: nat := 1000

  // ---------------------------------------------------------------------------------------------
  // Permission strings
  // ---------------------------------------------------------------------------------------------

  predicate FirstColonAt(s: string, i: nat) { i < |s| && s[i] == ':' && forall j :: 0 <= j < i ==> s[j] != ':' }

  lemma {:induction false} HasFirstColon(s: string)
    requires ':' in s
    ensures exists i: nat :: FirstColonAt(s, i)
  {
    if s[0] == ':' {
      assert FirstColonAt(s, 0);
    } else {
      HasFirstColon(s[1..]);
      var i: nat :| FirstColonAt(s[1..], i);
      assert FirstColonAt(s, i + 1);
    }
  }

  /** The position of the first colon, or the length. */
  function Colon(s: string): (i: nat)
    ensures i <= |s| && ':' !in s[..i] && (i < |s| ==> s[i] == ':')
  {
    if ':' in s then
      HasFirstColon(s);
      var i: nat :| i < |s| && FirstColonAt(s, i);
      i
    else |s|
  }

  /** `s.split(":")[0]`. */
  function First(s: string): string { s[..Colon(s)] }

  /** Everything after the first colon. */
  function Rest(s: string): Option<string> { if Colon(s) < |s| then Some(s[Colon(s) + 1..]) else None }

  /** `s.split(":")[1]`, or nothing when there is no colon. */
  function Second(s: string): Option<string> { if Rest(s).Some? then Some(First(Rest(s).value)) else None }

  function Pattern(resource: string, action: string): string { resource + ":" + action }

  /** Whether a stored pattern grants a permission, as `roleGrants` decides it. */
  predicate Grants(pattern: string, permission: string) {
    && (First(pattern) == First(permission) || First(pattern) == "*")
    && (Second(pattern) == Second(permission) || Second(pattern) == Some("*"))
  }

  /** The patterns looked up for a permission, as `candidateKeys` lists them. */
  function CandidateKeys(permission: string): set<string> {
    var res := First(permission);
    var act := if Rest(permission).Some? then Rest(permission).value else "";
    {Pattern(res, act), Pattern(res, "*"), Pattern("*", act), Pattern("*", "*")}
  }

  /** One colon, or more with a `*` after the first. */
  predicate WellFormed(permission: string) {
    var rest := Rest(permission);
    rest.Some? && (':' !in rest.value || First(rest.value) == "*")
  }

  lemma {:induction false} ColonIs(s: string, i: nat)
    requires i <= |s| && (forall j :: 0 <= j < i ==> s[j] != ':') && (i < |s| ==> s[i] == ':')
    ensures Colon(s) == i
  {
  }

  lemma ColonAt(r: string, a: string)
    requires ':' !in r
    ensures Colon(Pattern(r, a)) == |r| && First(Pattern(r, a)) == r && Rest(Pattern(r, a)) == Some(a)
  {
    ColonIs(Pattern(r, a), |r|);
  }

  lemma WholeIsFirst(a: string)
    requires ':' !in a
    ensures First(a) == a
  {
  }

  lemma PatternInjective(r: string, a: string, r': string, a': string)
    requires ':' !in r && ':' !in r'
    ensures Pattern(r, a) == Pattern(r', a') <==> r == r' && a == a'
  {
    ColonAt(r, a);
    ColonAt(r', a');
  }

  /** What the two decisions say of a pattern made of colon-free names. */
  lemma BothDecisions(r: string, a: string, permission: string)
    requires ':' !in r && ':' !in a
    ensures Grants(Pattern(r, a), permission) <==>
            (r == First(permission) || r == "*") && (Some(a) == Second(permission) || a == "*")
    ensures var act := if Rest(permission).Some? then Rest(permission).value else "";
            Pattern(r, a) in CandidateKeys(permission) <==>
              (r == First(permission) || r == "*") && (a == act || a == "*")
  {
    ColonAt(r, a);
    WholeIsFirst(a);
    var res := First(permission);
    var act := if Rest(permission).Some? then Rest(permission).value else "";
    PatternInjective(r, a, res, act);
    PatternInjective(r, a, res, "*");
    PatternInjective(r, a, "*", act);
    PatternInjective(r, a, "*", "*");
  }

  /** For a well-formed permission the looked-up keys are exactly the patterns that grant it. */
  lemma KeysAgree(r: string, a: string, permission: string)
    requires ':' !in r && ':' !in a && WellFormed(permission)
    ensures Pattern(r, a) in CandidateKeys(permission) <==> Grants(Pattern(r, a), permission)
  {
    BothDecisions(r, a, permission);
    var rest := Rest(permission).value;
    if ':' !in rest {
      WholeIsFirst(rest);
    } else if a == rest {
      assert false;
    }
  }

  /** The two decisions agree on every pattern of colon-free names exactly for well-formed permissions. */
  lemma KeysAgreeIff(permission: string)
    ensures WellFormed(permission) <==>
            forall r: string, a: string | ':' !in r && ':' !in a ::
              Pattern(r, a) in CandidateKeys(permission) <==> Grants(Pattern(r, a), permission)
  {
    if WellFormed(permission) {
      forall r: string, a: string | ':' !in r && ':' !in a
        ensures Pattern(r, a) in CandidateKeys(permission) <==> Grants(Pattern(r, a), permission)
      {
        KeysAgree(r, a, permission);
      }
    } else {
      var r := First(permission);
      var a := if Rest(permission).Some? then First(Rest(permission).value) else "";
      BothDecisions(r, a, permission);
      assert (Pattern(r, a) in CandidateKeys(permission)) != Grants(Pattern(r, a), permission);
    }
  }

  /** A pattern with a second colon grants a permission under whose keys it is not stored. */
  lemma SecondColonDisagrees(pattern: string) returns (permission: string)
    requires Rest(pattern).Some? && ':' in Rest(pattern).value
    ensures WellFormed(permission) && Grants(pattern, permission) && pattern !in CandidateKeys(permission)
  {
    var res, rest := First(pattern), Rest(pattern).value;
    var act := First(rest);
    permission := Pattern(res, act);
    ColonAt(res, act);
    WholeIsFirst(act);
    assert pattern == Pattern(res, rest);
    PatternInjective(res, rest, res, act);
    PatternInjective(res, rest, res, "*");
    PatternInjective(res, rest, "*", act);
    PatternInjective(res, rest, "*", "*");
  }

  /** A colon in either name puts a second colon in the pattern. */
  lemma ColonInNameIsSecond(r: string, a: string)
    requires ':' in r || ':' in a
    ensures Rest(Pattern(r, a)).Some? && ':' in Rest(Pattern(r, a)).value
  {
    var s := Pattern(r, a);
    if ':' in r {
      var i := Colon(r);
      ColonIs(s, i);
      assert s[i + 1..] == Pattern(r[i + 1..], a);
      assert s[i + 1..][|r| - i - 1] == ':';
    } else {
      ColonAt(r, a);
    }
  }

  /**
   Lookup and role check agree on a configured pattern for every well-formed permission exactly when its names are
   colon-free.
   */
  lemma NamesAgreeIff(r: string, a: string)
    ensures ':' !in r && ':' !in a <==>
            forall p | WellFormed(p) :: Pattern(r, a) in CandidateKeys(p) <==> Grants(Pattern(r, a), p)
  {
    if ':' !in r && ':' !in a {
      forall p | WellFormed(p) ensures Pattern(r, a) in CandidateKeys(p) <==> Grants(Pattern(r, a), p) {
        KeysAgree(r, a, p);
      }
    } else {
      ColonInNameIsSecond(r, a);
      var p := SecondColonDisagrees(Pattern(r, a));
    }
  }

  // ---------------------------------------------------------------------------------------------
  // Inheritance
  // ---------------------------------------------------------------------------------------------

  /** A chain of defined roles, each inheriting from the next. */
  ghost predicate Chain(config: Config, path: seq<string>) {
    && path != []
    && (forall i :: 0 <= i < |path| ==> path[i] in config.roles)
    && forall i :: 0 < i < |path| ==> path[i] in config.roles[path[i - 1]].inherits
  }

  ghost predicate Reaches(config: Config, from: string, to: string) {
    exists path :: Chain(config, path) && path[0] == from && path[|path| - 1] == to
  }

  /** The patterns a definition grants itself. */
  function Direct(def: RoleDef): set<string> {
    set g, a | g in def.grants && a in g.actions :: Pattern(g.resource, a)
  }

  ghost function Union(config: Config, names: set<string>): set<string> {
    set r, p | r in names && r in config.roles && p in Direct(config.roles[r]) :: p
  }

  ghost function Ancestors(config: Config, role: string): set<string> {
    set r | r in config.roles && Reaches(config, role, r)
  }

  /** Everything a role grants: the direct patterns of every role it inherits from, itself included. */
  ghost function Expand(config: Config, role: string): set<string> { Union(config, Ancestors(config, role)) }

  ghost predicate RoleGrants(config: Config, role: string, permission: string) {
    exists p :: p in Expand(config, role) && Grants(p, permission)
  }

  ghost predicate Small(config: Config, role: string) { |Expand(config, role)| <= MAX_PATTERNS_PER_ROLE }

  /** No colon in any resource or action name. */
  predicate ColonFree(config: Config) {
    forall r :: r in config.roles ==>
      forall g :: g in config.roles[r].grants ==> ':' !in g.resource && forall a :: a in g.actions ==> ':' !in a
  }

  lemma PatternsAreNamed(config: Config, role: string, p: string) returns (r: string, a: string)
    requires ColonFree(config) && p in Expand(config, role)
    ensures ':' !in r && ':' !in a && p == Pattern(r, a)
  {
    var name :| name in Ancestors(config, role) && name in config.roles && p in Direct(config.roles[name]);
    var g: Grant, act: string :| g in config.roles[name].grants && act in g.actions && p == Pattern(g.resource, act);
    return g.resource, act;
  }

  lemma ReachesSelf(config: Config, role: string)
    requires role in config.roles
    ensures Reaches(config, role, role)
  {
    assert Chain(config, [role]);
  }

  lemma ReachesThrough(config: Config, role: string, parent: string, to: string)
    requires role in config.roles && parent in config.roles[role].inherits && Reaches(config, parent, to)
    ensures Reaches(config, role, to)
  {
    var path :| Chain(config, path) && path[0] == parent && path[|path| - 1] == to;
    var longer := [role] + path;
    assert forall i :: 0 < i < |longer| ==> longer[i] == path[i - 1];
    assert Chain(config, longer) && longer[|longer| - 1] == to;
  }

  /** Every defined parent of a role in `names` is in `within`. */
  ghost predicate ParentsIn(config: Config, names: set<string>, within: set<string>) {
    forall r, q :: r in names && r in config.roles && q in config.roles[r].inherits && q in config.roles ==> q in within
  }

  lemma {:induction false} ClosedHoldsChain(config: Config, names: set<string>, path: seq<string>, k: nat)
    requires ParentsIn(config, names, names) && Chain(config, path) && path[0] in names && k < |path|
    ensures path[k] in names
  {
    if k > 0 {
      ClosedHoldsChain(config, names, path, k - 1);
    }
  }

  /** A closed set of ancestors that holds the role is the set of all its ancestors. */
  lemma ClosureIsAncestors(config: Config, names: set<string>, role: string)
    requires ParentsIn(config, names, names)
    requires forall r :: r in names ==> r in config.roles && Reaches(config, role, r)
    requires role in config.roles ==> role in names
    ensures names == Ancestors(config, role)
  {
    forall r | r in Ancestors(config, role) ensures r in names {
      var path :| Chain(config, path) && path[0] == role && path[|path| - 1] == r;
      ClosedHoldsChain(config, names, path, |path| - 1);
    }
  }

  lemma UnionSplits(config: Config, a: set<string>, b: set<string>)
    ensures Union(config, a + b) == Union(config, a) + Union(config, b)
  {
  }

  /** The `seen` set that one walk shares between all its calls. */
  class Seen {
    var names: set<string>

    constructor ()
      ensures names == {}
    {
      names := {};
    }
  }

  /** The inner loops of `expandRole`: the definition's own patterns. */
  method DirectPatterns(def: RoleDef) returns (out: set<string>)
    ensures out == Direct(def)
  {
    out := {};
    for i := 0 to |def.grants|
      invariant out == Direct(RoleDef(def.inherits, def.grants[..i]))
    {
      var g := def.grants[i];
      ghost var before := out;
      for j := 0 to |g.actions|
        invariant out == before + set a | a in g.actions[..j] :: Pattern(g.resource, a)
      {
        assert g.actions[..j + 1] == g.actions[..j] + [g.actions[j]];
        out := out + {Pattern(g.resource, g.actions[j])};
      }
      assert g.actions[..|g.actions|] == g.actions;
      assert def.grants[..i + 1] == def.grants[..i] + [g];
    }
    assert def.grants[..|def.grants|] == def.grants;
  }

  /**
   `expandRole`: a depth-first walk that skips what it has seen.  It returns the patterns of the roles it
   was the first to see, and it leaves no parent of theirs unseen.
   */
  method ExpandRole(config: Config, role: string, seen: Seen) returns (out: set<string>)
    modifies seen
    ensures old(seen.names) <= seen.names
    ensures role in config.roles ==> role in seen.names
    ensures forall r :: r in seen.names - old(seen.names) ==> r in config.roles && Reaches(config, role, r)
    ensures ParentsIn(config, seen.names - old(seen.names), seen.names)
    ensures out == Union(config, seen.names - old(seen.names))
    decreases config.roles.Keys - seen.names
  {
    out := {};
    if role !in config.roles || role in seen.names { return; }
    var def := config.roles[role];
    ghost var first := seen.names;
    seen.names := seen.names + {role};
    ReachesSelf(config, role);
    for i := 0 to |def.inherits|
      invariant first + {role} <= seen.names
      invariant forall r :: r in seen.names - first ==> r in config.roles && Reaches(config, role, r)
      invariant ParentsIn(config, seen.names - first - {role}, seen.names)
      invariant forall j :: 0 <= j < i && def.inherits[j] in config.roles ==> def.inherits[j] in seen.names
      invariant out == Union(config, seen.names - first - {role})
    {
      ghost var before := seen.names;
      var more := ExpandRole(config, def.inherits[i], seen);
      forall r | r in seen.names - before ensures Reaches(config, role, r) {
        ReachesThrough(config, role, def.inherits[i], r);
      }
      UnionSplits(config, before - first - {role}, seen.names - before);
      assert seen.names - first - {role} == (before - first - {role}) + (seen.names - before);
      out := out + more;
    }
    var own := DirectPatterns(def);
    UnionSplits(config, seen.names - first - {role}, {role});
    assert seen.names - first == (seen.names - first - {role}) + {role};
    assert Union(config, {role}) == own;
    out := out + own;
  }

  /** Over diamonds and cycles alike, a walk from nothing seen returns the whole inheritance closure. */
  method ExpandFresh(config: Config, role: string) returns (out: set<string>)
    ensures out == Expand(config, role)
  {
    var seen := new Seen();
    out := ExpandRole(config, role, seen);
    assert seen.names - {} == seen.names;
    ClosureIsAncestors(config, seen.names, role);
  }

  /** `expandRolePatterns`: nothing when the role is too large. */
  method ExpandRolePatterns(config: Config, role: string) returns (out: Option<set<string>>)
    ensures out == if Small(config, role) then Some(Expand(config, role)) else None
  {
    var patterns := ExpandFresh(config, role);
    out := if |patterns| > MAX_PATTERNS_PER_ROLE then None else Some(patterns);
  }

  /** `roleGrants`. */
  method DecideRole(config: Config, role: string, permission: string) returns (granted: bool)
    ensures granted <==> RoleGrants(config, role, permission)
  {
    var left := ExpandFresh(config, role);
    while left != {}
      invariant left <= Expand(config, role)
      invariant forall p :: p in Expand(config, role) - left ==> !Grants(p, permission)
    {
      var p :| p in left;
      if Grants(p, permission) { return true; }
      left := left - {p};
    }
    return false;
  }
}
