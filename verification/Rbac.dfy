/**
  Scoped permissions: the capability engine (backend/internal/rbac/rbac.go), its
  Postgres resolver with the second, independent deny check
  (backend/internal/store/rbac_scoped.go), and the request check that combines both
  with the legacy roles (backend/internal/api/api.go).
 */
module Rbac {
  import opened Wrappers

  const PLATFORM := "platform"
  const RESELLER := "reseller"
  const ORG := "org"
  const TEAM := "team"
  const PROJECT := "project"
  const ENVIRONMENT := "environment"

  datatype Scope = Scope(kind: string, id: string)

  const PLATFORM_SCOPE := Scope(PLATFORM, "")

  datatype Assignment = Assignment(principalType: string, principalID: string, scope: Scope, role: string)

  /** A row of role_permissions; a NULL effect reads as allow. */
  datatype RolePermission = RolePermission(role: string, permission: string, effect: Option<string>)

  datatype GroupProject = GroupProject(group: string, project: string)

  /** The tables the checks read; a missing key stands for no row or a NULL column. */
  datatype Tables = Tables(
    assignments: seq<Assignment>,
    permissions: seq<RolePermission>,
    environmentProject: map<string, string>,
    groupProjects: seq<GroupProject>,
    groupOrg: map<string, string>,
    teamOrg: map<string, string>,
    projectOrg: map<string, string>)

  datatype Answer = Granted(yes: bool) | MissingArgument

  // ---------------------------------------------------------------------------
  // Ancestors
  // ---------------------------------------------------------------------------

  /** A scope with an id, if the id is not empty. */
  function Pushed(kind: string, id: string): seq<Scope> {
    if id != "" then [Scope(kind, id)] else []
  }

  function Looked(kind: string, m: map<string, string>, key: string): seq<Scope> {
    if key in m then Pushed(kind, m[key]) else []
  }

  function GroupScopes(t: Tables, rows: seq<GroupProject>, project: string): seq<Scope> {
    if rows == [] then []
    else
      var row := rows[|rows| - 1];
      GroupScopes(t, rows[..|rows| - 1], project) +
      if row.project == project then Pushed(TEAM, row.group) + Looked(ORG, t.groupOrg, row.group) else []
  }

  function Dedupe(s: seq<Scope>): seq<Scope> {
    if s == [] then []
    else
      var init, x := Dedupe(s[..|s| - 1]), s[|s| - 1];
      if x in s[..|s| - 1] then init else init + [x]
  }

  /** The scopes collected for anything but an environment, before the platform is added. */
  function Direct(t: Tables, s: Scope): seq<Scope> {
    if s.kind == PROJECT then GroupScopes(t, t.groupProjects, s.id) + Looked(ORG, t.projectOrg, s.id)
    else if s.kind == TEAM then Looked(ORG, t.groupOrg, s.id) + Looked(ORG, t.teamOrg, s.id)
    else []
  }

  function Ancestors(t: Tables, s: Scope): seq<Scope>
    decreases if s.kind == ENVIRONMENT then 1 else 0
  {
    if s.kind == ENVIRONMENT && s.id in t.environmentProject then
      var p := t.environmentProject[s.id];
      Dedupe(Pushed(PROJECT, p) + Ancestors(t, Scope(PROJECT, p)) + [PLATFORM_SCOPE])
    else Dedupe(Direct(t, s) + [PLATFORM_SCOPE])
  }

  ghost predicate Distinct(s: seq<Scope>) {
    forall i, j :: 0 <= i < j < |s| ==> s[i] != s[j]
  }

  lemma {:induction false} DedupeKeepsMembers(s: seq<Scope>, x: Scope)
    ensures x in Dedupe(s) <==> x in s
  {
    if s != [] {
      DedupeKeepsMembers(s[..|s| - 1], x);
      assert s == s[..|s| - 1] + [s[|s| - 1]];
    }
  }

  lemma {:induction false} DedupeDistinct(s: seq<Scope>)
    ensures Distinct(Dedupe(s))
  {
    if s != [] {
      DedupeDistinct(s[..|s| - 1]);
      DedupeKeepsMembers(s[..|s| - 1], s[|s| - 1]);
    }
  }

  /** `a` stands in the list before the first `b`. */
  ghost predicate Before(s: seq<Scope>, a: Scope, b: Scope) {
    exists p :: 0 <= p < |s| && s[p] == a && b !in s[..p + 1]
  }

  /** First occurrences come in the order of the list. */
  lemma {:induction false} DedupeOrdered(s: seq<Scope>, i: nat, j: nat)
    requires i < j < |Dedupe(s)|
    ensures Before(s, Dedupe(s)[i], Dedupe(s)[j])
  {
    var init, x := s[..|s| - 1], s[|s| - 1];
    var a, b := Dedupe(s)[i], Dedupe(s)[j];
    if j < |Dedupe(init)| {
      DedupeOrdered(init, i, j);
      var p :| 0 <= p < |init| && init[p] == a && b !in init[..p + 1];
      assert s[..p + 1] == init[..p + 1];
      assert s[p] == a;
    } else {
      DedupeKeepsMembers(init, a);
      assert a in Dedupe(init);
      var p :| 0 <= p < |init| && init[p] == a;
      assert s[..p + 1] == init[..p + 1] && b !in init[..p + 1];
      assert s[p] == a;
    }
  }

  lemma {:induction false} DedupeOfDistinct(s: seq<Scope>)
    requires Distinct(s)
    ensures Dedupe(s) == s
  {
    if s != [] {
      DedupeOfDistinct(s[..|s| - 1]);
      assert s == s[..|s| - 1] + [s[|s| - 1]];
    }
  }

  lemma {:induction false} DedupeSnoc(s: seq<Scope>, x: Scope)
    ensures Dedupe(s + [x]) == if x in s then Dedupe(s) else Dedupe(s) + [x]
  {
    assert (s + [x])[..|s|] == s;
  }

  lemma {:induction false} GroupScopesKinds(t: Tables, rows: seq<GroupProject>, project: string, x: Scope)
    requires x in GroupScopes(t, rows, project)
    ensures x.kind == TEAM || x.kind == ORG
  {
    if rows != [] && x in GroupScopes(t, rows[..|rows| - 1], project) {
      GroupScopesKinds(t, rows[..|rows| - 1], project, x);
    }
  }

  lemma {:induction false} DirectKinds(t: Tables, s: Scope, x: Scope)
    requires x in Direct(t, s)
    ensures x.kind == TEAM || x.kind == ORG
  {
    if s.kind == PROJECT && x in GroupScopes(t, t.groupProjects, s.id) {
      GroupScopesKinds(t, t.groupProjects, s.id, x);
    }
  }

  /** For every scope but a known environment: its direct parents, then the platform. */
  lemma {:induction false} AncestorsOfOther(t: Tables, s: Scope)
    requires s.kind != ENVIRONMENT || s.id !in t.environmentProject
    ensures Ancestors(t, s) == Dedupe(Direct(t, s)) + [PLATFORM_SCOPE]
  {
    hide Dedupe, Direct;
    DedupeSnoc(Direct(t, s), PLATFORM_SCOPE);
    if PLATFORM_SCOPE in Direct(t, s) {
      DirectKinds(t, s, PLATFORM_SCOPE);
    }
  }

  /** An environment's ancestors are its project, then the project's own ancestors. */
  lemma {:induction false} AncestorsOfEnvironment(t: Tables, e: string)
    requires e in t.environmentProject
    ensures var p := t.environmentProject[e];
            Ancestors(t, Scope(ENVIRONMENT, e)) == Pushed(PROJECT, p) + Ancestors(t, Scope(PROJECT, p))
  {
    var p := t.environmentProject[e];
    var up := Ancestors(t, Scope(PROJECT, p));
    var own := Pushed(PROJECT, p) + up;
    AncestorsOfOther(t, Scope(PROJECT, p));
    hide Ancestors, Dedupe, Direct;
    assert PLATFORM_SCOPE == up[|up| - 1];
    assert PLATFORM_SCOPE in up;
    DedupeSnoc(own, PLATFORM_SCOPE);
    assert PLATFORM_SCOPE in own;
    forall x | x in up ensures x.kind != PROJECT {
      ProjectNotAbove(t, p, x);
    }
    AncestorsDistinctOther(t, Scope(PROJECT, p));
    forall i, j | 0 <= i < j < |own| ensures own[i] != own[j] {
      if p != "" && i == 0 {
        assert own[j] in up;
      }
    }
    DedupeOfDistinct(own);
    AncestorsUnfold(t, e);
  }

  lemma {:induction false} AncestorsUnfold(t: Tables, e: string)
    requires e in t.environmentProject
    ensures var p := t.environmentProject[e];
            Ancestors(t, Scope(ENVIRONMENT, e)) ==
            Dedupe(Pushed(PROJECT, p) + Ancestors(t, Scope(PROJECT, p)) + [PLATFORM_SCOPE])
  {
  }

  lemma {:induction false} ProjectNotAbove(t: Tables, p: string, x: Scope)
    requires x in Ancestors(t, Scope(PROJECT, p))
    ensures x.kind != PROJECT
  {
    var s := Scope(PROJECT, p);
    AncestorsOfOther(t, s);
    hide Ancestors;
    DedupeKeepsMembers(Direct(t, s), x);
    if x in Direct(t, s) {
      DirectKinds(t, s, x);
    }
  }

  lemma {:induction false} AncestorsDistinctOther(t: Tables, s: Scope)
    requires s.kind != ENVIRONMENT || s.id !in t.environmentProject
    ensures Distinct(Ancestors(t, s))
  {
    DedupeDistinct(Direct(t, s) + [PLATFORM_SCOPE]);
  }

  /** Ancestors never repeat, and the last of them is always the platform. */
  lemma {:induction false} AncestorsEndInPlatform(t: Tables, s: Scope)
    ensures Distinct(Ancestors(t, s))
    ensures var a := Ancestors(t, s); a != [] && a[|a| - 1] == PLATFORM_SCOPE
  {
    if s.kind == ENVIRONMENT && s.id in t.environmentProject {
      var p := t.environmentProject[s.id];
      AncestorsOfEnvironment(t, s.id);
      AncestorsOfOther(t, Scope(PROJECT, p));
      AncestorsUnfold(t, s.id);
      DedupeDistinct(Pushed(PROJECT, p) + Ancestors(t, Scope(PROJECT, p)) + [PLATFORM_SCOPE]);
    } else {
      AncestorsOfOther(t, s);
      AncestorsDistinctOther(t, s);
    }
  }

  // ---------------------------------------------------------------------------
  // Meaning of a capability check
  // ---------------------------------------------------------------------------

  ghost predicate Matches(t: Tables, a: Assignment, s: Scope) {
    a.scope == s || a.scope in Ancestors(t, s)
  }

  datatype Principal = Principal(kind: string, id: string)

  ghost predicate Of(a: Assignment, p: Principal) {
    a.principalType == p.kind && a.principalID == p.id
  }

  /** Some assignment of the principal at the scope or above carries the role. */
  ghost predicate HoldsRole(t: Tables, p: Principal, s: Scope, role: string) {
    exists a :: a in t.assignments && Of(a, p) && Matches(t, a, s) && a.role == role
  }

  ghost predicate Says(t: Tables, p: Principal, cap: string, s: Scope, deny: bool) {
    exists r ::
      && r in t.permissions && r.permission == cap && (r.effect == Some("deny")) == deny
      && HoldsRole(t, p, s, r.role)
  }

  ghost predicate Allowed(t: Tables, p: Principal, cap: string, s: Scope) {
    Says(t, p, cap, s, false)
  }

  ghost predicate Denied(t: Tables, p: Principal, cap: string, s: Scope) {
    Says(t, p, cap, s, true)
  }

  ghost predicate Capable(t: Tables, p: Principal, cap: string, s: Scope) {
    Allowed(t, p, cap, s) && !Denied(t, p, cap, s)
  }

  // ---------------------------------------------------------------------------
  // Laws
  // ---------------------------------------------------------------------------

  ghost predicate SameRows(t: Tables, u: Tables) {
    && (forall a :: a in t.assignments <==> a in u.assignments)
    && (forall r :: r in t.permissions <==> r in u.permissions)
    && (forall g :: g in t.groupProjects <==> g in u.groupProjects)
    && t.environmentProject == u.environmentProject && t.groupOrg == u.groupOrg
    && t.teamOrg == u.teamOrg && t.projectOrg == u.projectOrg
  }

  lemma {:induction false} GroupScopesMembers(t: Tables, rows: seq<GroupProject>, project: string, x: Scope)
    ensures x in GroupScopes(t, rows, project) <==>
            exists g :: g in rows && g.project == project &&
              x in Pushed(TEAM, g.group) + Looked(ORG, t.groupOrg, g.group)
  {
    if rows != [] {
      var init, row := rows[..|rows| - 1], rows[|rows| - 1];
      GroupScopesMembers(t, init, project, x);
      assert rows == init + [row];
      if x in GroupScopes(t, init, project) {
        var g :| g in init && g.project == project && x in Pushed(TEAM, g.group) + Looked(ORG, t.groupOrg, g.group);
        assert g in rows;
      }
    }
  }

  lemma {:induction false} DirectSame(t: Tables, u: Tables, s: Scope, x: Scope)
    requires SameRows(t, u) && x in Direct(t, s)
    ensures x in Direct(u, s)
  {
    hide GroupScopes, Pushed;
    if s.kind == PROJECT {
      GroupScopesMembers(t, t.groupProjects, s.id, x);
      GroupScopesMembers(u, u.groupProjects, s.id, x);
      if x in GroupScopes(t, t.groupProjects, s.id) {
        var g :| g in t.groupProjects && g.project == s.id &&
                 x in Pushed(TEAM, g.group) + Looked(ORG, t.groupOrg, g.group);
        assert g in u.groupProjects;
      }
    }
  }

  lemma {:induction false} AncestorsSameOther(t: Tables, u: Tables, s: Scope, x: Scope)
    requires SameRows(t, u) && x in Ancestors(t, s)
    requires s.kind != ENVIRONMENT || s.id !in t.environmentProject
    ensures x in Ancestors(u, s)
  {
    AncestorsOfOther(t, s);
    AncestorsOfOther(u, s);
    hide Ancestors, Direct, Dedupe;
    DedupeKeepsMembers(Direct(t, s), x);
    DedupeKeepsMembers(Direct(u, s), x);
    if x in Direct(t, s) {
      DirectSame(t, u, s, x);
    }
  }

  lemma {:induction false} AncestorsSame(t: Tables, u: Tables, s: Scope, x: Scope)
    requires SameRows(t, u) && x in Ancestors(t, s)
    ensures x in Ancestors(u, s)
  {
    if s.kind == ENVIRONMENT && s.id in t.environmentProject {
      var p := t.environmentProject[s.id];
      AncestorsOfEnvironment(t, s.id);
      AncestorsOfEnvironment(u, s.id);
      hide Ancestors;
      if x in Ancestors(t, Scope(PROJECT, p)) {
        AncestorsSameOther(t, u, Scope(PROJECT, p), x);
      }
    } else {
      AncestorsSameOther(t, u, s, x);
    }
  }

  lemma {:induction false} SaysSame(t: Tables, u: Tables, p: Principal, cap: string, s: Scope, deny: bool)
    requires SameRows(t, u) && Says(t, p, cap, s, deny)
    ensures Says(u, p, cap, s, deny)
  {
    hide Ancestors;
    var r :| r in t.permissions && r.permission == cap && (r.effect == Some("deny")) == deny &&
             HoldsRole(t, p, s, r.role);
    var a :| a in t.assignments && Of(a, p) && Matches(t, a, s) && a.role == r.role;
    if a.scope != s {
      AncestorsSame(t, u, s, a.scope);
    }
    assert a in u.assignments && Matches(u, a, s);
    assert HoldsRole(u, p, s, r.role);
    assert r in u.permissions;
  }

  /** Neither the order nor the repetition of rows matters to any answer. */
  lemma {:induction false} RowOrderIrrelevant(t: Tables, u: Tables, p: Principal, cap: string, s: Scope)
    requires SameRows(t, u)
    ensures Capable(t, p, cap, s) <==> Capable(u, p, cap, s)
    ensures Denied(t, p, cap, s) <==> Denied(u, p, cap, s)
  {
    hide Says, SameRows;
    assert SameRows(u, t) by { SameRowsSymmetric(t, u); }
    forall deny ensures Says(t, p, cap, s, deny) <==> Says(u, p, cap, s, deny) {
      if Says(t, p, cap, s, deny) {
        SaysSame(t, u, p, cap, s, deny);
      }
      if Says(u, p, cap, s, deny) {
        SaysSame(u, t, p, cap, s, deny);
      }
    }
  }

  lemma {:induction false} SameRowsSymmetric(t: Tables, u: Tables)
    requires SameRows(t, u)
    ensures SameRows(u, t)
  {
  }

  /** What holds at a scope or above is said at everything beneath that scope. */
  lemma {:induction false} Inherited(t: Tables, p: Principal, cap: string, above: Scope, s: Scope, deny: bool)
    requires Says(t, p, cap, above, deny)
    requires above in Ancestors(t, s) && forall x :: x in Ancestors(t, above) ==> x in Ancestors(t, s)
    ensures Says(t, p, cap, s, deny)
  {
    var r :| r in t.permissions && r.permission == cap && (r.effect == Some("deny")) == deny &&
             HoldsRole(t, p, above, r.role);
    var a :| a in t.assignments && Of(a, p) && Matches(t, a, above) && a.role == r.role;
    assert Matches(t, a, s);
    assert HoldsRole(t, p, s, r.role);
  }

  /**
    Grants flow down: absent a matching deny, an allow at the platform reaches every
    scope, and one at a project, or above it, reaches the project's environments.
   */
  lemma {:induction false} AllowFlowsDown(t: Tables, p: Principal, cap: string, s: Scope)
    requires !Denied(t, p, cap, s)
    ensures Allowed(t, p, cap, PLATFORM_SCOPE) ==> Capable(t, p, cap, s)
    ensures (s.kind == ENVIRONMENT && s.id in t.environmentProject && t.environmentProject[s.id] != "") ==>
              (Allowed(t, p, cap, Scope(PROJECT, t.environmentProject[s.id])) ==> Capable(t, p, cap, s))
  {
    hide Says;
    AncestorsEndInPlatform(t, s);
    var all := Ancestors(t, s);
    assert all[|all| - 1] in all;
    if Says(t, p, cap, PLATFORM_SCOPE, false) {
      PlatformIsTop(t);
      Inherited(t, p, cap, PLATFORM_SCOPE, s, false);
    }
    if s.kind == ENVIRONMENT && s.id in t.environmentProject && t.environmentProject[s.id] != "" {
      var project := Scope(PROJECT, t.environmentProject[s.id]);
      AncestorsOfEnvironment(t, s.id);
      if Says(t, p, cap, project, false) {
        assert project in Ancestors(t, s) by {
          assert Pushed(PROJECT, project.id) == [project];
        }
        Inherited(t, p, cap, project, s, false);
      }
    }
  }

  lemma {:induction false} PlatformIsTop(t: Tables)
    ensures Ancestors(t, PLATFORM_SCOPE) == [PLATFORM_SCOPE]
  {
    AncestorsOfOther(t, PLATFORM_SCOPE);
  }

  /** Denials flow down as well: one at a project holds in all its environments. */
  lemma {:induction false} DenyFlowsDown(t: Tables, p: Principal, cap: string, e: string)
    requires e in t.environmentProject && t.environmentProject[e] != ""
    requires Denied(t, p, cap, Scope(PROJECT, t.environmentProject[e]))
    ensures Denied(t, p, cap, Scope(ENVIRONMENT, e)) && !Capable(t, p, cap, Scope(ENVIRONMENT, e))
  {
    var project := Scope(PROJECT, t.environmentProject[e]);
    AncestorsOfEnvironment(t, e);
    hide Ancestors, Says;
    assert Pushed(PROJECT, project.id) == [project];
    Inherited(t, p, cap, project, Scope(ENVIRONMENT, e), true);
  }

  // ---------------------------------------------------------------------------
  // Which scopes are above which
  // ---------------------------------------------------------------------------

  lemma {:induction false} AboveOther(t: Tables, s: Scope, x: Scope)
    requires s.kind != ENVIRONMENT || s.id !in t.environmentProject
    ensures x in Ancestors(t, s) <==> x in Direct(t, s) || x == PLATFORM_SCOPE
  {
    AncestorsOfOther(t, s);
    hide Ancestors, Direct;
    DedupeKeepsMembers(Direct(t, s), x);
  }

  lemma {:induction false} AboveEnvironment(t: Tables, e: string, x: Scope)
    requires e in t.environmentProject
    ensures var p := t.environmentProject[e];
            x in Ancestors(t, Scope(ENVIRONMENT, e)) <==>
            (p != "" && x == Scope(PROJECT, p)) || x in Ancestors(t, Scope(PROJECT, p))
  {
    AncestorsOfEnvironment(t, e);
    hide Ancestors;
  }

  /** A group of the project, by the tables alone. */
  ghost predicate HasGroup(t: Tables, p: string, g: string) {
    exists row :: row in t.groupProjects && row.project == p && row.group == g
  }

  /** A column of the tables that names something. */
  ghost predicate Gives(m: map<string, string>, key: string, value: string) {
    key in m && m[key] == value && value != ""
  }

  /**
    Above a project stand exactly the platform, its groups as teams, the orgs of those
    groups, and its own org.
   */
  ghost predicate OverProject(t: Tables, p: string, x: Scope) {
    || x == Scope("platform", "")
    || (x.kind == "team" && x.id != "" && HasGroup(t, p, x.id))
    || (x.kind == "org" && exists g :: HasGroup(t, p, g) && Gives(t.groupOrg, g, x.id))
    || (x.kind == "org" && Gives(t.projectOrg, p, x.id))
  }

  lemma {:induction false} AboveProject(t: Tables, p: string, x: Scope)
    ensures x in Ancestors(t, Scope(PROJECT, p)) <==> OverProject(t, p, x)
  {
    AboveOther(t, Scope(PROJECT, p), x);
    GroupScopesMembers(t, t.groupProjects, p, x);
    hide Ancestors, GroupScopes;
    forall row | row in t.groupProjects && row.project == p
      ensures x in Pushed(TEAM, row.group) + Looked(ORG, t.groupOrg, row.group) <==>
              || (x.kind == "team" && x.id != "" && row.group == x.id)
              || (x.kind == "org" && Gives(t.groupOrg, row.group, x.id))
    {
      assert x == Scope(x.kind, x.id);
    }
    assert x == Scope(x.kind, x.id);
    assert x in Looked(ORG, t.projectOrg, p) <==> x.kind == "org" && Gives(t.projectOrg, p, x.id);
    if x.kind == "org" && exists g :: HasGroup(t, p, g) && Gives(t.groupOrg, g, x.id) {
      var g :| HasGroup(t, p, g) && Gives(t.groupOrg, g, x.id);
      var row :| row in t.groupProjects && row.project == p && row.group == g;
      assert x in GroupScopes(t, t.groupProjects, p);
    }
    if x in GroupScopes(t, t.groupProjects, p) {
      var row :| row in t.groupProjects && row.project == p &&
                 x in Pushed(TEAM, row.group) + Looked(ORG, t.groupOrg, row.group);
      assert HasGroup(t, p, row.group);
    }
  }

  /** Above a team stand exactly the platform and the orgs that the two tables name for it. */
  lemma {:induction false} AboveTeam(t: Tables, g: string, x: Scope)
    ensures x in Ancestors(t, Scope(TEAM, g)) <==>
            || x == Scope("platform", "")
            || (x.kind == "org" && (Gives(t.groupOrg, g, x.id) || Gives(t.teamOrg, g, x.id)))
  {
    AboveOther(t, Scope(TEAM, g), x);
    hide Ancestors;
    assert x == Scope(x.kind, x.id);
  }

  /** Above an environment stand exactly its project, if it names one, and what is above that project. */
  lemma {:induction false} AboveEnvironmentIs(t: Tables, e: string, x: Scope)
    ensures x in Ancestors(t, Scope(ENVIRONMENT, e)) <==>
            || x == Scope("platform", "")
            || (e in t.environmentProject &&
                var p := t.environmentProject[e];
                (p != "" && x == Scope("project", p)) || x in Ancestors(t, Scope("project", p)))
  {
    if e in t.environmentProject {
      AboveEnvironment(t, e, x);
      AboveProject(t, t.environmentProject[e], x);
    } else {
      AboveOther(t, Scope(ENVIRONMENT, e), x);
    }
  }

  /** Above anything else stands the platform alone. */
  lemma {:induction false} AboveRest(t: Tables, s: Scope, x: Scope)
    requires s.kind != "project" && s.kind != "team" && s.kind != "environment"
    ensures x in Ancestors(t, s) <==> x == Scope("platform", "")
  {
    AboveOther(t, s, x);
  }

  /** What stands above a scope, by the tables alone. */
  ghost predicate StandsAbove(t: Tables, s: Scope, x: Scope) {
    if s.kind == "project" then OverProject(t, s.id, x)
    else if s.kind == "team" then
      || x == Scope("platform", "")
      || (x.kind == "org" && (Gives(t.groupOrg, s.id, x.id) || Gives(t.teamOrg, s.id, x.id)))
    else if s.kind == "environment" && s.id in t.environmentProject then
      var p := t.environmentProject[s.id];
      (p != "" && x == Scope("project", p)) || OverProject(t, p, x)
    else x == Scope("platform", "")
  }

  lemma {:induction false} AncestorsAre(t: Tables, s: Scope, x: Scope)
    ensures x in Ancestors(t, s) <==> StandsAbove(t, s, x)
  {
    assert s == Scope(s.kind, s.id);
    if s.kind == "project" {
      AboveProject(t, s.id, x);
    } else if s.kind == "team" {
      AboveTeam(t, s.id, x);
    } else if s.kind == "environment" {
      AboveEnvironmentIs(t, s.id, x);
      if s.id in t.environmentProject {
        AboveProject(t, t.environmentProject[s.id], x);
      }
    } else {
      AboveRest(t, s, x);
    }
  }

  /** What is said at a project's own org, or at the org of one of its groups, is said at the project. */
  lemma {:induction false} OrgReachesProject(t: Tables, p: Principal, cap: string, project: string, org: string)
    requires Gives(t.projectOrg, project, org) || exists g :: HasGroup(t, project, g) && Gives(t.groupOrg, g, org)
    ensures Denied(t, p, cap, Scope("org", org)) ==> Denied(t, p, cap, Scope("project", project))
    ensures Allowed(t, p, cap, Scope("org", org)) ==> Allowed(t, p, cap, Scope("project", project))
  {
    var above, s := Scope("org", org), Scope("project", project);
    AboveProject(t, project, above);
    forall x | x in Ancestors(t, above) ensures x in Ancestors(t, s) {
      AboveRest(t, above, x);
      AboveProject(t, project, x);
    }
    hide Says;
    forall deny | Says(t, p, cap, above, deny) ensures Says(t, p, cap, s, deny) {
      Inherited(t, p, cap, above, s, deny);
    }
  }

  /** A scope is listed among its own ancestors exactly when it is the platform. */
  lemma {:induction false} SelfAncestor(t: Tables, s: Scope)
    ensures s in Ancestors(t, s) <==> s == PLATFORM_SCOPE
  {
    hide Ancestors;
    if s.kind == ENVIRONMENT && s.id in t.environmentProject {
      var p := t.environmentProject[s.id];
      assert s == Scope(ENVIRONMENT, s.id);
      AboveEnvironment(t, s.id, s);
      AboveOther(t, Scope(PROJECT, p), s);
      if s in Direct(t, Scope(PROJECT, p)) {
        DirectKinds(t, Scope(PROJECT, p), s);
      }
    } else {
      AboveOther(t, s, s);
      if s in Direct(t, s) {
        DirectKinds(t, s, s);
        if s.kind == TEAM {
          TeamDirect(t, s.id, s);
        }
      }
    }
  }

  /**
    No scope has a reseller above it, so an assignment at a reseller counts at that very
    scope and nowhere below, although resellers are documented as standing above orgs.
   */
  lemma {:induction false} ResellerNeverAbove(t: Tables, a: Assignment, s: Scope)
    requires a.scope.kind == RESELLER
    ensures a.scope !in Ancestors(t, s)
    ensures Matches(t, a, s) <==> a.scope == s
  {
    hide Ancestors;
    if s.kind == ENVIRONMENT && s.id in t.environmentProject {
      var q := Scope(PROJECT, t.environmentProject[s.id]);
      assert s == Scope(ENVIRONMENT, s.id);
      AboveEnvironment(t, s.id, a.scope);
      AboveOther(t, q, a.scope);
      if a.scope in Direct(t, q) {
        DirectKinds(t, q, a.scope);
      }
    } else {
      AboveOther(t, s, a.scope);
      if a.scope in Direct(t, s) {
        DirectKinds(t, s, a.scope);
      }
    }
  }

  lemma {:induction false} TeamDirect(t: Tables, g: string, x: Scope)
    ensures x in Direct(t, Scope(TEAM, g)) <==> x in Looked(ORG, t.groupOrg, g) || x in Looked(ORG, t.teamOrg, g)
  {
  }

  /** The row puts a group on the project. */
  ghost predicate GroupOf(t: Tables, row: GroupProject, p: string) {
    row in t.groupProjects && row.project == p
  }

  /** What is above a scope's ancestors is above the scope. */
  ghost predicate Closed(t: Tables, s: Scope) {
    forall a, b :: a in Ancestors(t, s) && b in Ancestors(t, a) ==> b in Ancestors(t, s)
  }

  /** What the foreign keys and NOT NULL columns of the schema guarantee: a group on a project has its org. */
  ghost predicate SchemaHolds(t: Tables) {
    forall row :: row in t.groupProjects ==>
      row.group != "" && row.project != "" && row.group in t.groupOrg && t.groupOrg[row.group] != ""
  }

  /** An org that the teams table gives a group of the project is found for the project too. */
  ghost predicate TeamOrgsListed(t: Tables, p: string) {
    forall row, o :: GroupOf(t, row, p) && row.group != "" && o in Looked(ORG, t.teamOrg, row.group) ==>
                       o in Direct(t, Scope(PROJECT, p))
  }

  /** An org and the platform have only the platform above them. */
  lemma {:induction false} TopScopes(t: Tables, a: Scope, b: Scope)
    requires a.kind == ORG || a == PLATFORM_SCOPE
    ensures b in Ancestors(t, a) <==> b == PLATFORM_SCOPE
  {
    AboveOther(t, a, b);
  }

  lemma {:induction false} TeamAbove(t: Tables, g: string, b: Scope)
    ensures b in Ancestors(t, Scope(TEAM, g)) <==>
            b in Looked(ORG, t.groupOrg, g) || b in Looked(ORG, t.teamOrg, g) || b == PLATFORM_SCOPE
  {
    AboveOther(t, Scope(TEAM, g), b);
    TeamDirect(t, g, b);
  }

  lemma {:induction false} GroupAbove(t: Tables, row: GroupProject, p: string)
    requires GroupOf(t, row, p)
    ensures row.group != "" ==> Scope(TEAM, row.group) in Direct(t, Scope(PROJECT, p))
    ensures forall o :: o in Looked(ORG, t.groupOrg, row.group) ==> o in Direct(t, Scope(PROJECT, p))
  {
    hide GroupScopes;
    GroupScopesMembers(t, t.groupProjects, p, Scope(TEAM, row.group));
    forall o | o in Looked(ORG, t.groupOrg, row.group) ensures o in Direct(t, Scope(PROJECT, p)) {
      GroupScopesMembers(t, t.groupProjects, p, o);
    }
  }

  lemma {:induction false} TeamOfProject(t: Tables, p: string, g: string) returns (row: GroupProject)
    requires Scope(TEAM, g) in Direct(t, Scope(PROJECT, p))
    ensures GroupOf(t, row, p) && row.group == g && g != ""
  {
    hide GroupScopes;
    GroupScopesMembers(t, t.groupProjects, p, Scope(TEAM, g));
    row :| row in t.groupProjects && row.project == p &&
           Scope(TEAM, g) in Pushed(TEAM, row.group) + Looked(ORG, t.groupOrg, row.group);
  }

  /** A scope two steps above a project is one step above it, or the teams table's org of one of its groups. */
  lemma {:induction false} TwoAboveProject(t: Tables, p: string, a: Scope, b: Scope)
    requires a in Direct(t, Scope(PROJECT, p)) || a == PLATFORM_SCOPE
    requires b in Ancestors(t, a)
    requires TeamOrgsListed(t, p)
    ensures b in Direct(t, Scope(PROJECT, p)) || b == PLATFORM_SCOPE
  {
    hide Ancestors, Direct;
    if a != PLATFORM_SCOPE {
      DirectKinds(t, Scope(PROJECT, p), a);
    }
    if a.kind == TEAM {
      var row := TeamOfProject(t, p, a.id);
      GroupAbove(t, row, p);
      TeamAbove(t, a.id, b);
    } else {
      TopScopes(t, a, b);
    }
  }

  lemma {:induction false} ClosedProject(t: Tables, p: string)
    ensures Closed(t, Scope(PROJECT, p)) <==> TeamOrgsListed(t, p)
  {
    hide Ancestors, Direct, Looked;
    var s := Scope(PROJECT, p);
    forall x ensures x in Ancestors(t, s) <==> x in Direct(t, s) || x == PLATFORM_SCOPE {
      AboveOther(t, s, x);
    }
    if TeamOrgsListed(t, p) {
      forall a, b | a in Ancestors(t, s) && b in Ancestors(t, a) ensures b in Ancestors(t, s) {
        TwoAboveProject(t, p, a, b);
      }
    }
    if Closed(t, s) {
      forall row, o | GroupOf(t, row, p) && row.group != "" && o in Looked(ORG, t.teamOrg, row.group)
        ensures o in Direct(t, s)
      {
        GroupAbove(t, row, p);
        TeamAbove(t, row.group, o);
        OrgNotPlatform(t.teamOrg, row.group, o);
      }
    }
  }

  lemma {:induction false} OrgNotPlatform(m: map<string, string>, key: string, o: Scope)
    requires o in Looked(ORG, m, key)
    ensures o.kind == ORG
  {
  }

  lemma {:induction false} ClosedEnvironment(t: Tables, e: string)
    requires e in t.environmentProject
    ensures Closed(t, Scope(ENVIRONMENT, e)) <==> Closed(t, Scope(PROJECT, t.environmentProject[e]))
  {
    hide Ancestors;
    var s, q := Scope(ENVIRONMENT, e), Scope(PROJECT, t.environmentProject[e]);
    forall x ensures x in Ancestors(t, s) <==> (q.id != "" && x == q) || x in Ancestors(t, q) {
      AboveEnvironment(t, e, x);
    }
    forall a, b | a in Ancestors(t, q) && b in Ancestors(t, a) ensures b != q {
      AboveOther(t, q, a);
      if a != PLATFORM_SCOPE {
        DirectKinds(t, q, a);
      }
      AboveOther(t, a, b);
      if b != PLATFORM_SCOPE {
        DirectKinds(t, a, b);
      }
    }
  }

  lemma {:induction false} ClosedOther(t: Tables, s: Scope)
    requires s.kind != PROJECT && (s.kind != ENVIRONMENT || s.id !in t.environmentProject)
    ensures Closed(t, s)
  {
    hide Ancestors, Looked;
    forall a, b | a in Ancestors(t, s) && b in Ancestors(t, a) ensures b in Ancestors(t, s) {
      AboveOther(t, s, a);
      AboveOther(t, s, b);
      if a != PLATFORM_SCOPE {
        assert s.kind == TEAM;
        if a in Looked(ORG, t.groupOrg, s.id) {
          OrgNotPlatform(t.groupOrg, s.id, a);
        } else {
          OrgNotPlatform(t.teamOrg, s.id, a);
        }
      }
      TopScopes(t, a, b);
    }
  }

  /**
    The documented chain from the platform down to an environment holds together at every
    scope but a project, or an environment of one, that has a group for which the teams
    table names an org that neither the groups table nor the project itself leads to.
   */
  lemma {:induction false} ChainHolds(t: Tables, s: Scope)
    ensures Closed(t, s) <==>
            if s.kind == PROJECT then TeamOrgsListed(t, s.id)
            else if s.kind == ENVIRONMENT && s.id in t.environmentProject
            then TeamOrgsListed(t, t.environmentProject[s.id])
            else true
  {
    hide Closed, TeamOrgsListed;
    if s.kind == PROJECT {
      assert s == Scope(PROJECT, s.id);
      ClosedProject(t, s.id);
    } else if s.kind == ENVIRONMENT && s.id in t.environmentProject {
      assert s == Scope(ENVIRONMENT, s.id);
      ClosedEnvironment(t, s.id);
      ClosedProject(t, t.environmentProject[s.id]);
    } else {
      ClosedOther(t, s);
    }
  }

  /** Without rows in the teams table, which no code of the program inserts, the chain holds everywhere. */
  lemma {:induction false} ChainHoldsWithoutTeams(t: Tables, s: Scope)
    requires t.teamOrg == map[]
    ensures Closed(t, s)
  {
    hide Closed, Direct;
    ChainHolds(t, s);
  }

  /**
    A broken chain within the schema, where the two tables disagree about a team: its second
    org is above the team and the team above the project, but that org is not above the project.
   */
  lemma {:induction false} BrokenChain()
    ensures var t := Tables([], [], map[], [GroupProject("T", "P")], map["T" := "A"], map["T" := "O"], map[]);
            var org, team, project := Scope(ORG, "O"), Scope(TEAM, "T"), Scope(PROJECT, "P");
            && SchemaHolds(t)
            && org in Ancestors(t, team) && team in Ancestors(t, project) && org !in Ancestors(t, project)
  {
    var t := Tables([], [], map[], [GroupProject("T", "P")], map["T" := "A"], map["T" := "O"], map[]);
    var org, team, project := Scope(ORG, "O"), Scope(TEAM, "T"), Scope(PROJECT, "P");
    TeamAbove(t, "T", org);
    GroupAbove(t, GroupProject("T", "P"), "P");
    AboveOther(t, project, team);
    AboveOther(t, project, org);
    GroupScopesMembers(t, t.groupProjects, "P", org);
  }

  /** Where the chain holds, every allow and every deny at any scope above reaches the scope. */
  lemma {:induction false} GrantsFlowDown(t: Tables, p: Principal, cap: string, above: Scope, s: Scope)
    requires Closed(t, s) && above in Ancestors(t, s)
    ensures Denied(t, p, cap, above) ==> Denied(t, p, cap, s)
    ensures Allowed(t, p, cap, above) && !Denied(t, p, cap, s) ==> Capable(t, p, cap, s)
  {
    hide Says;
    forall deny | Says(t, p, cap, above, deny) ensures Says(t, p, cap, s, deny) {
      Inherited(t, p, cap, above, s, deny);
    }
  }

  // ---------------------------------------------------------------------------
  // The resolver
  // ---------------------------------------------------------------------------

  method DedupeScopes(input: seq<Scope>) returns (out: seq<Scope>)
    ensures out == Dedupe(input)
    ensures Distinct(out) && forall x :: x in out <==> x in input
    ensures forall i, j :: 0 <= i < j < |out| ==> Before(input, out[i], out[j])
  {
    hide Dedupe, Before, Distinct;
    DedupeNothing();
    var seen: set<Scope> := {};
    out := [];
    var i := 0;
    while i < |input|
      invariant 0 <= i <= |input|
      invariant out == Dedupe(input[..i])
      invariant forall x :: x in seen <==> x in input[..i]
    {
      DedupeSnoc(input[..i], input[i]);
      assert input[..i + 1] == input[..i] + [input[i]];
      if input[i] !in seen {
        seen := seen + {input[i]};
        out := out + [input[i]];
      }
      i := i + 1;
    }
    assert input[..i] == input;
    DedupeMeans(input);
  }

  lemma {:induction false} DedupeNothing()
    ensures Dedupe([]) == []
  {
  }

  lemma {:induction false} DedupeMeans(s: seq<Scope>)
    ensures Distinct(Dedupe(s)) && forall x :: x in Dedupe(s) <==> x in s
    ensures forall i, j :: 0 <= i < j < |Dedupe(s)| ==> Before(s, Dedupe(s)[i], Dedupe(s)[j])
  {
    hide Dedupe, Before, Distinct;
    DedupeDistinct(s);
    forall x ensures x in Dedupe(s) <==> x in s {
      DedupeKeepsMembers(s, x);
    }
    forall i, j | 0 <= i < j < |Dedupe(s)| ensures Before(s, Dedupe(s)[i], Dedupe(s)[j]) {
      DedupeOrdered(s, i, j);
    }
  }

  lemma {:induction false} GroupScopesSnoc(t: Tables, rows: seq<GroupProject>, i: nat, project: string)
    requires i < |rows|
    ensures GroupScopes(t, rows[..i + 1], project) ==
            GroupScopes(t, rows[..i], project) +
            if rows[i].project != project then []
            else Pushed(TEAM, rows[i].group) + Looked(ORG, t.groupOrg, rows[i].group)
  {
    assert rows[..i + 1][..i] == rows[..i];
  }

  method ScopeAncestors(t: Tables, s: Scope) returns (r: seq<Scope>)
    ensures r == Ancestors(t, s)
    ensures Distinct(r) && r != [] && r[|r| - 1] == PLATFORM_SCOPE
    ensures forall x :: x in r <==> StandsAbove(t, s, x)
    decreases if s.kind == ENVIRONMENT then 1 else 0
  {
    hide Dedupe, GroupScopes, StandsAbove, Distinct;
    var out := [];
    if s.kind == ENVIRONMENT {
      if s.id in t.environmentProject {
        var p := t.environmentProject[s.id];
        out := Pushed(PROJECT, p);
        var rest := ScopeAncestors(t, Scope(PROJECT, p));
        out := out + rest;
      }
    } else if s.kind == PROJECT {
      var i := 0;
      EmptyGroupScopes(t, s.id);
      while i < |t.groupProjects|
        invariant 0 <= i <= |t.groupProjects|
        invariant out == GroupScopes(t, t.groupProjects[..i], s.id)
      {
        GroupScopesSnoc(t, t.groupProjects, i, s.id);
        var row := t.groupProjects[i];
        if row.project == s.id {
          out := out + (Pushed(TEAM, row.group) + Looked(ORG, t.groupOrg, row.group));
        }
        i := i + 1;
      }
      assert t.groupProjects[..i] == t.groupProjects;
      out := out + Looked(ORG, t.projectOrg, s.id);
    } else if s.kind == TEAM {
      out := Looked(ORG, t.groupOrg, s.id);
      out := out + Looked(ORG, t.teamOrg, s.id);
    }
    out := out + [PLATFORM_SCOPE];
    r := DedupeScopes(out);
    AncestorsEndInPlatform(t, s);
    forall x ensures x in Ancestors(t, s) <==> StandsAbove(t, s, x) {
      AncestorsAre(t, s, x);
    }
  }

  lemma {:induction false} EmptyGroupScopes(t: Tables, project: string)
    ensures GroupScopes(t, [], project) == []
  {
  }

  method ScopeIn(s: Scope, list: seq<Scope>) returns (found: bool)
    ensures found <==> s in list
  {
    var i := 0;
    while i < |list|
      invariant 0 <= i <= |list| && s !in list[..i]
    {
      if list[i] == s {
        return true;
      }
      assert list[..i + 1] == list[..i] + [list[i]];
      i := i + 1;
    }
    assert list[..i] == list;
    return false;
  }

  /** The assignment loop of the capability engine: a set of matching roles. */
  method MatchingRoles(t: Tables, p: Principal, s: Scope) returns (roles: set<string>)
    ensures forall role :: role in roles <==> HoldsRole(t, p, s, role)
  {
    hide Ancestors;
    var ancestors := ScopeAncestors(t, s);
    roles := {};
    var i := 0;
    while i < |t.assignments|
      invariant 0 <= i <= |t.assignments|
      invariant forall role :: role in roles ==> HoldsRole(t, p, s, role)
      invariant forall j :: 0 <= j < i && Of(t.assignments[j], p) && Matches(t, t.assignments[j], s) ==>
                  t.assignments[j].role in roles
    {
      var a := t.assignments[i];
      if a.principalType == p.kind && a.principalID == p.id {
        var above := ScopeIn(a.scope, ancestors);
        if a.scope == s || above {
          assert a in t.assignments && Matches(t, a, s);
          roles := roles + {a.role};
        }
      }
      i := i + 1;
    }
    forall role | HoldsRole(t, p, s, role) ensures role in roles {
      var a :| a in t.assignments && Of(a, p) && Matches(t, a, s) && a.role == role;
      var j :| 0 <= j < |t.assignments| && t.assignments[j] == a;
      assert Of(t.assignments[j], p) && Matches(t, t.assignments[j], s);
    }
  }

  /** Deny wins; an answer needs all three arguments. */
  method HasCapability(t: Tables, p: Principal, cap: string, s: Scope) returns (r: Answer)
    ensures r.MissingArgument? <==> p.kind == "" || p.id == "" || cap == ""
    ensures r.Granted? ==> (r.yes <==> Capable(t, p, cap, s))
  {
    hide HoldsRole;
    if p.kind == "" || p.id == "" || cap == "" {
      return MissingArgument;
    }
    var roles := MatchingRoles(t, p, s);
    var allowed, denied := false, false;
    var i := 0;
    while i < |t.permissions|
      invariant 0 <= i <= |t.permissions|
      invariant allowed ==> Allowed(t, p, cap, s)
      invariant denied ==> Denied(t, p, cap, s)
      invariant forall j ::
                  0 <= j < i && t.permissions[j].permission == cap && HoldsRole(t, p, s, t.permissions[j].role) ==>
                  if t.permissions[j].effect == Some("deny") then denied else allowed
    {
      var c := t.permissions[i];
      if c.role in roles && c.permission == cap {
        if c.effect == Some("deny") {
          denied := true;
        } else {
          allowed := true;
        }
      }
      i := i + 1;
    }
    SaysByIndex(t, p, cap, s, false);
    SaysByIndex(t, p, cap, s, true);
    return Granted(if denied then false else allowed);
  }

  lemma {:induction false} SaysByIndex(t: Tables, p: Principal, cap: string, s: Scope, deny: bool)
    ensures Says(t, p, cap, s, deny) <==>
            exists j :: 0 <= j < |t.permissions| && t.permissions[j].permission == cap &&
                        (t.permissions[j].effect == Some("deny")) == deny && HoldsRole(t, p, s, t.permissions[j].role)
  {
    hide HoldsRole;
    if Says(t, p, cap, s, deny) {
      var r :| r in t.permissions && r.permission == cap && (r.effect == Some("deny")) == deny &&
               HoldsRole(t, p, s, r.role);
      var j :| 0 <= j < |t.permissions| && t.permissions[j] == r;
      assert t.permissions[j].permission == cap;
    }
  }

  /** The store's own matching: a list of roles, repeats included, and a search written inline. */
  method MatchingRoleList(t: Tables, p: Principal, s: Scope) returns (roles: seq<string>)
    ensures forall role :: role in roles <==> HoldsRole(t, p, s, role)
  {
    hide Ancestors;
    var ancestors := ScopeAncestors(t, s);
    roles := [];
    var i := 0;
    while i < |t.assignments|
      invariant 0 <= i <= |t.assignments|
      invariant forall role :: role in roles ==> HoldsRole(t, p, s, role)
      invariant forall j :: 0 <= j < i && Of(t.assignments[j], p) && Matches(t, t.assignments[j], s) ==>
                  t.assignments[j].role in roles
    {
      var a := t.assignments[i];
      if a.principalType == p.kind && a.principalID == p.id {
        var inScope := a.scope == s;
        var k := 0;
        while k < |ancestors| && !inScope
          invariant 0 <= k <= |ancestors|
          invariant inScope ==> Matches(t, a, s)
          invariant !inScope ==> a.scope != s && a.scope !in ancestors[..k]
        {
          inScope := ancestors[k] == a.scope;
          assert ancestors[..k + 1] == ancestors[..k] + [ancestors[k]];
          k := k + 1;
        }
        assert k == |ancestors| ==> ancestors[..k] == ancestors;
        if inScope {
          assert a in t.assignments;
          roles := roles + [a.role];
        }
      }
      i := i + 1;
    }
    forall role | HoldsRole(t, p, s, role) ensures role in roles {
      var a :| a in t.assignments && Of(a, p) && Matches(t, a, s) && a.role == role;
      var j :| 0 <= j < |t.assignments| && t.assignments[j] == a;
      assert Of(t.assignments[j], p) && Matches(t, t.assignments[j], s);
    }
  }

  method ScopedDeny(t: Tables, p: Principal, cap: string, s: Scope) returns (deny: bool)
    ensures deny <==> Denied(t, p, cap, s)
    ensures deny ==> !Capable(t, p, cap, s)
  {
    hide HoldsRole;
    var roles := MatchingRoleList(t, p, s);
    SaysByIndex(t, p, cap, s, true);
    var i := 0;
    while i < |t.permissions|
      invariant 0 <= i <= |t.permissions|
      invariant forall j ::
                  0 <= j < i && t.permissions[j].permission == cap && t.permissions[j].effect == Some("deny") ==>
                  !HoldsRole(t, p, s, t.permissions[j].role)
    {
      var c := t.permissions[i];
      if c.role in roles && c.permission == cap && c.effect == Some("deny") {
        return true;
      }
      i := i + 1;
    }
    return false;
  }

  // ---------------------------------------------------------------------------
  // The request check
  // ---------------------------------------------------------------------------

  /** What the legacy membership tables answer for this user and permission. */
  datatype Legacy = Legacy(orgMember: bool, orgPermission: bool, projectPermission: bool, anywhere: bool)

  /** No row says anything about the capability at the scope. */
  ghost predicate Silent(t: Tables, p: Principal, cap: string, s: Scope) {
    !Allowed(t, p, cap, s) && !Denied(t, p, cap, s)
  }

  ghost function Resolved(project: string, org: string): Scope {
    if project != "" then Scope(PROJECT, project) else if org != "" then Scope(ORG, org) else PLATFORM_SCOPE
  }

  /** The fallback once no scoped row decides. */
  ghost function Fallback(l: Legacy, project: string, org: string): bool {
    if project != "" then l.projectPermission
    else if org != "" && l.orgMember then l.orgPermission
    else l.anywhere
  }

  /**
    A scoped deny at the resolved scope always refuses; otherwise a scoped allow grants,
    and without either the legacy answer stands.
   */
  method CheckRequest(t: Tables, l: Legacy, user: string, perm: string, project: string, org: string) returns (ok: bool)
    ensures Denied(t, Principal("user", user), perm, Resolved(project, org)) ==> !ok
    ensures !Denied(t, Principal("user", user), perm, Resolved(project, org)) ==>
              (ok <==> (&& user != "" && perm != ""
                        && Allowed(t, Principal("user", user), perm, Resolved(project, org))) ||
                       Fallback(l, project, org))
    ensures var u := Principal("user", user);
            && (project != "" && Silent(t, u, perm, Scope("project", project)) ==> ok == l.projectPermission)
            && (project == "" && org != "" && Silent(t, u, perm, Scope("org", org)) ==>
                  ok == if l.orgMember then l.orgPermission else l.anywhere)
            && (project == "" && org == "" && Silent(t, u, perm, Scope("platform", "")) ==> ok == l.anywhere)
  {
    hide Says;
    var p := Principal("user", user);
    var s := PLATFORM_SCOPE;
    if project != "" {
      s := Scope(PROJECT, project);
    } else if org != "" {
      s := Scope(ORG, org);
      var has := HasCapability(t, p, perm, s);
      if has == Granted(true) {
        return true;
      }
      var deny := ScopedDeny(t, p, perm, s);
      if deny {
        return false;
      }
      if l.orgMember {
        return l.orgPermission;
      }
    }
    var has := HasCapability(t, p, perm, s);
    if has == Granted(true) {
      return true;
    }
    var deny := ScopedDeny(t, p, perm, s);
    if deny {
      return false;
    }
    if s.kind == PROJECT {
      return l.projectPermission;
    }
    return l.anywhere;
  }
}
