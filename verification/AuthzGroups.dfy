/**
 How the index is rebuilt (components/authz/src/effective-permissions.ts:77-122): assignments are grouped by a
 string key, rows without a group are dropped, and each group's place is recomputed.
 */
module AuthzGroups {
  import opened Options
  import opened Roles

  /** A user in a scope; the two empty strings are the global scope. */
  datatype Place = Place(user: string, scopeType: string, scopeId: string)

  /** A `role_assignments` row. */
  datatype Assign = Assign(at: Place, role: string)

  /** An `effective_permissions` row. */
  datatype Row = Row(at: Place, permission: string)

  /** The index as the assignments define it. */
  ghost function Index(config: Config, assigns: set<Assign>): set<Row> {
    set a, p | a in assigns && p in Expand(config, a.role) :: Row(a.at, p)
  }

  ghost predicate AllSmall(config: Config, assigns: set<Assign>) {
    forall a :: a in assigns ==> Small(config, a.role)
  }

  // ---------------------------------------------------------------------------------------------
  // Tables
  // ---------------------------------------------------------------------------------------------

  ghost predicate Unique<T>(s: seq<T>) { forall i, j :: 0 <= i < j < |s| ==> s[i] != s[j] }

  function Contents<T>(s: seq<T>): set<T> { set x | x in s }

  /** Deleting one row. */
  function Without<T(==)>(s: seq<T>, x: T): seq<T> {
    if s == [] then [] else if s[0] == x then s[1..] else [s[0]] + Without(s[1..], x)
  }

  lemma {:induction false} WithoutIs<T>(s: seq<T>, x: T)
    requires Unique(s)
    ensures Unique(Without(s, x)) && Contents(Without(s, x)) == Contents(s) - {x}
  {
    if s != [] {
      assert s == [s[0]] + s[1..];
      if s[0] == x {
        assert forall i :: 0 < i < |s| ==> s[i] != x;
      } else {
        WithoutIs(s[1..], x);
        var rest := Without(s[1..], x);
        forall i | 0 <= i < |rest| ensures rest[i] != s[0] {
          assert rest[i] in Contents(rest);
        }
        assert Contents([s[0]] + rest) == {s[0]} + Contents(rest);
        assert Contents(s) == {s[0]} + Contents(s[1..]);
      }
    }
  }

  lemma {:induction false} WithoutLast<T>(s: seq<T>, x: T)
    requires x !in s
    ensures Without(s + [x], x) == s
  {
    if s != [] {
      WithoutLast(s[1..], x);
      assert (s + [x])[1..] == s[1..] + [x];
    }
  }

  lemma InsertIs<T>(s: seq<T>, x: T)
    ensures Contents(s + [x]) == Contents(s) + {x}
    ensures Unique(s) && x !in s ==> Unique(s + [x])
  {
  }

  // ---------------------------------------------------------------------------------------------
  // Place keys
  // ---------------------------------------------------------------------------------------------

  /** The string a place is grouped under: its parts, separated by NUL. */
  function Key(at: Place): string { at.user + "\0" + at.scopeType + "\0" + at.scopeId }

  predicate NulFree(at: Place) { '\0' !in at.user && '\0' !in at.scopeType && '\0' !in at.scopeId }

  ghost predicate Distinct(places: set<Place>) {
    forall p, q :: p in places && q in places && Key(p) == Key(q) ==> p == q
  }

  lemma SplitAtNul(a: string, x: string, b: string, y: string)
    requires '\0' !in a && '\0' !in b && a + "\0" + x == b + "\0" + y
    ensures a == b && x == y
  {
    var s := a + "\0" + x;
    assert s[|a|] == '\0' && s[|b|] == '\0';
    assert forall i :: 0 <= i < |a| ==> s[i] == a[i] && a[i] in a;
    assert forall i :: 0 <= i < |b| ==> s[i] == b[i] && b[i] in b;
    assert a == s[..|a|] && b == s[..|b|] && x == s[|a| + 1..] && y == s[|b| + 1..];
  }

  /** Places without NUL characters are never grouped together by mistake. */
  lemma NulFreeIsDistinct(places: set<Place>)
    requires forall p :: p in places ==> NulFree(p)
    ensures Distinct(places)
  {
    forall p, q | p in places && q in places && Key(p) == Key(q) ensures p == q {
      assert Key(p) == p.user + "\0" + (p.scopeType + "\0" + p.scopeId);
      assert Key(q) == q.user + "\0" + (q.scopeType + "\0" + q.scopeId);
      SplitAtNul(p.user, p.scopeType + "\0" + p.scopeId, q.user, q.scopeType + "\0" + q.scopeId);
      SplitAtNul(p.scopeType, p.scopeId, q.scopeType, q.scopeId);
    }
  }

  /** A NUL inside a name makes two different places share a key. */
  lemma NulCollides(user: string, a: string, b: string, c: string)
    ensures Key(Place(user, a + "\0" + b, c)) == Key(Place(user, a, b + "\0" + c))
  {
    assert Key(Place(user, a + "\0" + b, c)) == user + "\0" + a + "\0" + b + "\0" + c;
    assert Key(Place(user, a, b + "\0" + c)) == user + "\0" + a + "\0" + b + "\0" + c;
  }

  /** One entry of `scopeMap`. */
  datatype Group = Group(at: Place, roles: seq<string>)

  ghost function Desired(config: Config, roles: seq<string>): set<string> {
    set r, p | r in roles && p in Expand(config, r) :: p
  }

  ghost predicate RolesSmall(config: Config, roles: seq<string>) { forall r :: r in roles ==> Small(config, r) }

  lemma DesiredGrows(config: Config, roles: seq<string>, i: nat)
    requires i < |roles|
    ensures Desired(config, roles[..i + 1]) == Desired(config, roles[..i]) + Expand(config, roles[i])
    ensures RolesSmall(config, roles[..i + 1]) <==> RolesSmall(config, roles[..i]) && Small(config, roles[i])
  {
  }

  ghost predicate GroupsAre(groups: map<string, Group>, assigns: seq<Assign>) {
    && (forall a :: a in assigns ==> Key(a.at) in groups)
    && forall k :: k in groups ==> GroupIs(k, groups[k], assigns)
  }

  ghost predicate GroupIs(k: string, g: Group, assigns: seq<Assign>) {
    && Key(g.at) == k
    && (exists a :: a in assigns && a.at == g.at)
    && (forall r :: r in g.roles <==> exists a :: a in assigns && a.role == r && Key(a.at) == k)
  }

  /** Another assignment joins the group of its key, or starts one. */
  function Joined(groups: map<string, Group>, a: Assign): map<string, Group> {
    var k := Key(a.at);
    if k in groups then groups[k := groups[k].(roles := groups[k].roles + [a.role])]
    else groups[k := Group(a.at, [a.role])]
  }

  lemma JoinedKeeps(groups: map<string, Group>, assigns: seq<Assign>, a: Assign, groups': map<string, Group>,
                    more: seq<Assign>)
    requires GroupsAre(groups, assigns) && groups' == Joined(groups, a) && more == assigns + [a]
    ensures GroupsAre(groups', more)
  {
  }

  /** `scopeMap`, one assignment after the other. */
  function Grouping(assigns: seq<Assign>): map<string, Group> {
    if assigns == [] then map[] else Joined(Grouping(assigns[..|assigns| - 1]), assigns[|assigns| - 1])
  }

  lemma {:induction false} GroupingIs(assigns: seq<Assign>)
    ensures GroupsAre(Grouping(assigns), assigns)
  {
    if assigns != [] {
      var before, a := assigns[..|assigns| - 1], assigns[|assigns| - 1];
      assert assigns == before + [a];
      GroupingIs(before);
      JoinedKeeps(Grouping(before), before, a, Grouping(assigns), assigns);
    }
  }

  /** The rows of the groups under `keys`, as the roles collected in them define them. */
  ghost function GroupRows(config: Config, groups: map<string, Group>, keys: set<string>): set<Row> {
    set k, p | k in keys && k in groups && p in Desired(config, groups[k].roles) :: Row(groups[k].at, p)
  }

  ghost predicate GroupsSmall(config: Config, groups: map<string, Group>, keys: set<string>) {
    forall k :: k in keys && k in groups ==> RolesSmall(config, groups[k].roles)
  }

  /** Whether a place is the place of one of the groups under `keys`. */
  ghost predicate Grouped(groups: map<string, Group>, keys: set<string>, at: Place) {
    exists k :: k in keys && k in groups && groups[k].at == at
  }

  /** The rows once the groups under `keys` are rebuilt. */
  ghost function Rebuilt(config: Config, groups: map<string, Group>, keys: set<string>, rows: set<Row>): set<Row> {
    (set r | r in rows && !Grouped(groups, keys, r.at)) + GroupRows(config, groups, keys)
  }

  /** Rebuilding one more place touches no place rebuilt before. */
  lemma OneMoreGroup(config: Config, groups: map<string, Group>, keys: set<string>, k: string, rows: set<Row>)
    requires k in groups && k !in keys && forall k :: k in groups ==> Key(groups[k].at) == k
    ensures Rebuilt(config, groups, keys + {k}, rows) ==
            (set r | r in Rebuilt(config, groups, keys, rows) && r.at != groups[k].at)
            + set p | p in Desired(config, groups[k].roles) :: Row(groups[k].at, p)
  {
  }

  lemma GroupsSmallIff(config: Config, groups: map<string, Group>, assigns: seq<Assign>)
    requires GroupsAre(groups, assigns)
    ensures GroupsSmall(config, groups, groups.Keys) <==> AllSmall(config, Contents(assigns))
  {
  }

  /** When keys tell places apart, dropping the ungrouped rows and rebuilding the rest gives the index. */
  lemma RebuiltIsIndex(config: Config, groups: map<string, Group>, assigns: seq<Assign>, rows: set<Row>,
                       places: set<Place>)
    requires GroupsAre(groups, assigns) && Distinct(places) && (forall a :: a in assigns ==> a.at in places)
    requires forall r :: r in rows ==> r.at in places && Key(r.at) in groups
    ensures Rebuilt(config, groups, groups.Keys, rows) == Index(config, Contents(assigns))
  {
  }

  // ---------------------------------------------------------------------------------------------
  // When the rebuild gives the index
  // ---------------------------------------------------------------------------------------------

  function AssignedPlaces(assigns: seq<Assign>): set<Place> { set a | a in assigns :: a.at }

  /** The index rows after the rebuild, as written. */
  ghost function Regrouped(config: Config, assigns: seq<Assign>, rows: set<Row>): set<Row> {
    var groups := Grouping(assigns);
    Rebuilt(config, groups, groups.Keys, set r | r in rows && Key(r.at) in groups)
  }

  /** When keys tell the places apart the rebuild gives the index, whatever the rows were. */
  lemma RegroupedIsIndex(config: Config, assigns: seq<Assign>, rows: set<Row>)
    requires Distinct(AssignedPlaces(assigns) + set r | r in rows :: r.at)
    ensures Regrouped(config, assigns, rows) == Index(config, Contents(assigns))
  {
    var groups := Grouping(assigns);
    GroupingIs(assigns);
    var kept := set r | r in rows && Key(r.at) in groups;
    RebuiltIsIndex(config, groups, assigns, kept, AssignedPlaces(assigns) + set r | r in rows :: r.at);
  }

  /** A place that is not the first of its group keeps the rows it had. */
  lemma LeftAlone(config: Config, assigns: seq<Assign>, rows: set<Row>, q: Place, x: string)
    requires q in AssignedPlaces(assigns)
    ensures Key(q) in Grouping(assigns)
    ensures Grouping(assigns)[Key(q)].at != q ==> (Row(q, x) in Regrouped(config, assigns, rows) <==> Row(q, x) in rows)
  {
    GroupingIs(assigns);
  }

  lemma {:induction false} LongerThanAll(names: set<string>) returns (n: nat)
    ensures forall p :: p in names ==> |p| <= n
    decreases |names|
  {
    n := 0;
    if names != {} {
      var x :| x in names;
      var m := LongerThanAll(names - {x});
      n := if m < |x| then |x| else m;
      forall p | p in names ensures |p| <= n { assert p != x ==> p in names - {x}; }
    }
  }

  /** A configuration in which one role grants one pattern. */
  function Solo(role: string, resource: string): Config { Config(map[role := RoleDef([], [Grant(resource, [""])])]) }

  lemma SoloExpands(role: string, resource: string, other: string)
    ensures Expand(Solo(role, resource), other) == if other == role then {Pattern(resource, "")} else {}
  {
    var config := Solo(role, resource);
    if other == role { ReachesSelf(config, role); }
    forall r | r in Ancestors(config, other) ensures r == role && other == role {
      var path :| Chain(config, path) && path[0] == other && path[|path| - 1] == r;
    }
    assert Direct(config.roles[role]) == {Pattern(resource, "")} by {
      var g := Grant(resource, [""]);
      assert g in config.roles[role].grants && "" in g.actions;
    }
  }

  /** Two places that share a key: some configuration is indexed wrongly. */
  lemma CollisionDisagrees(assigns: seq<Assign>, rows: set<Row>, p: Place, q: Place) returns (config: Config)
    requires p in AssignedPlaces(assigns) && q in AssignedPlaces(assigns) && p != q && Key(p) == Key(q)
    ensures AllSmall(config, Contents(assigns)) && Regrouped(config, assigns, rows) != Index(config, Contents(assigns))
  {
    LeftAlone(Config(map[]), assigns, rows, p, "");
    var late := if Grouping(assigns)[Key(p)].at != p then p else q;
    var a :| a in assigns && a.at == late;
    var n := LongerThanAll(set r | r in rows :: r.permission);
    var resource := seq(n, _ => 'x');
    var x := Pattern(resource, "");
    config := Solo(a.role, resource);
    forall b | b in Contents(assigns) ensures Small(config, b.role) { SoloExpands(a.role, resource, b.role); }
    SoloExpands(a.role, resource, a.role);
    assert Row(late, x) in Index(config, Contents(assigns));
    assert forall r :: r in rows ==> |r.permission| <= n;
    LeftAlone(config, assigns, rows, late, x);
  }

  /**
   The rebuild gives the index under every configuration if and only if no two assigned places share a key.
   */
  lemma RegroupedIffDistinct(assigns: seq<Assign>, rows: set<Row>)
    requires forall r :: r in rows ==> r.at in AssignedPlaces(assigns)
    ensures Distinct(AssignedPlaces(assigns)) <==>
            forall config | AllSmall(config, Contents(assigns)) ::
              Regrouped(config, assigns, rows) == Index(config, Contents(assigns))
  {
    if Distinct(AssignedPlaces(assigns)) {
      assert AssignedPlaces(assigns) + (set r | r in rows :: r.at) == AssignedPlaces(assigns);
      forall config | AllSmall(config, Contents(assigns))
        ensures Regrouped(config, assigns, rows) == Index(config, Contents(assigns))
      {
        RegroupedIsIndex(config, assigns, rows);
      }
    } else {
      var p, q :| p in AssignedPlaces(assigns) && q in AssignedPlaces(assigns) && Key(p) == Key(q) && p != q;
      var config := CollisionDisagrees(assigns, rows, p, q);
    }
  }
}
