/**
 * The navigation queries of internal/store/postgres/repository.go and repository_tree.go: which organizations,
 * projects and environments a caller sees because of permissions held anywhere at or below them.
 */
module Navigation {
  import opened Wrappers
  import opened Text
  import opened Tables
  import opened Rbac
  import opened Narrowing

  /** One row of user_navigation_scopes: where a permission is held, and the permission's resource_type. */
  datatype NavScope = NavScope(kind: Kind, scopeId: Option<Id>, resourceType: string)

  function UserNavigationScopes(r: Rbac, now: Time, userId: Id): set<NavScope> {
    set b, code | b in r.bindings && code in r.permissions && Holds(r, now, userId, b, code) ::
      NavScope(r.bindings[b].kind, r.bindings[b].scopeId, r.permissions[code])
  }

  /** Some permission of one of the types is held at the scope. */
  predicate HeldAt(scopes: set<NavScope>, kind: Kind, scopeId: Option<Id>, types: set<string>) {
    exists s :: s in scopes && s.kind == kind && s.scopeId == scopeId && s.resourceType in types
  }

  predicate HeldGlobally(scopes: set<NavScope>, types: set<string>) {
    exists s :: s in scopes && s.kind == Global && s.resourceType in types
  }

  const FROM_SECRET := {"secret"}
  const FROM_FOLDER := {"folder", "secret"}
  const FROM_ENV := {"env", "folder", "secret"}
  const FROM_PROJECT := {"project", "env", "folder", "secret"}
  const FROM_ORG := {"org", "project", "env", "folder", "secret"}

  /** visible_organizations */
  predicate VisibleOrganization(t: Tables, scopes: set<NavScope>, o: Id) {
    || (ActiveOrg(t, o) && HeldGlobally(scopes, FROM_ORG))
    || HeldAt(scopes, Organization, Some(o), FROM_ORG)
    || (exists p :: p in t.projects && ActiveProject(t, p) && t.projects[p].orgId == o
                    && HeldAt(scopes, Project, Some(p), FROM_PROJECT))
    || (exists e :: e in t.environments && ActiveEnvironment(t, e) && EnvironmentIn(t, e, o)
                    && HeldAt(scopes, Environment, Some(e), FROM_ENV))
    || (exists f :: f in t.folders && ActiveFolder(t, f) && ActiveEnvironment(t, t.folders[f].environmentId)
                    && EnvironmentIn(t, t.folders[f].environmentId, o) && HeldAt(scopes, Folder, Some(f), FROM_FOLDER))
    || (exists s :: s in t.secrets && ActiveSecret(t, s) && ActiveFolder(t, t.secrets[s].folderId)
                    && ActiveEnvironment(t, t.folders[t.secrets[s].folderId].environmentId)
                    && EnvironmentIn(t, t.folders[t.secrets[s].folderId].environmentId, o)
                    && HeldAt(scopes, Secret, Some(s), FROM_SECRET))
  }

  /** The environment's project is active and belongs to the organization. */
  predicate EnvironmentIn(t: Tables, e: Id, o: Id)
    requires e in t.environments
  {
    ActiveProject(t, t.environments[e].projectId) && t.projects[t.environments[e].projectId].orgId == o
  }

  /** visible_projects */
  predicate VisibleProject(t: Tables, scopes: set<NavScope>, p: Id) {
    || (ActiveProject(t, p) && HeldGlobally(scopes, FROM_PROJECT))
    || (ActiveProject(t, p) && HeldAt(scopes, Organization, Some(t.projects[p].orgId), FROM_PROJECT))
    || HeldAt(scopes, Project, Some(p), FROM_PROJECT)
    || (exists e :: e in t.environments && ActiveEnvironment(t, e) && t.environments[e].projectId == p
                    && HeldAt(scopes, Environment, Some(e), FROM_ENV))
    || (exists f :: f in t.folders && ActiveFolder(t, f) && ActiveEnvironment(t, t.folders[f].environmentId)
                    && t.environments[t.folders[f].environmentId].projectId == p
                    && HeldAt(scopes, Folder, Some(f), FROM_FOLDER))
    || (exists s :: s in t.secrets && ActiveSecret(t, s) && ActiveFolder(t, t.secrets[s].folderId)
                    && ActiveEnvironment(t, t.folders[t.secrets[s].folderId].environmentId)
                    && t.environments[t.folders[t.secrets[s].folderId].environmentId].projectId == p
                    && HeldAt(scopes, Secret, Some(s), FROM_SECRET))
  }

  /** visible_environments */
  predicate VisibleEnvironment(t: Tables, scopes: set<NavScope>, e: Id) {
    || (ActiveEnvironment(t, e) && HeldGlobally(scopes, FROM_ENV))
    || (ActiveEnvironment(t, e) && ActiveProject(t, t.environments[e].projectId)
        && HeldAt(scopes, Organization, Some(t.projects[t.environments[e].projectId].orgId), FROM_ENV))
    || (ActiveEnvironment(t, e) && HeldAt(scopes, Project, Some(t.environments[e].projectId), FROM_ENV))
    || HeldAt(scopes, Environment, Some(e), FROM_ENV)
    || (exists f :: f in t.folders && ActiveFolder(t, f) && t.folders[f].environmentId == e
                    && HeldAt(scopes, Folder, Some(f), FROM_FOLDER))
    || (exists s :: s in t.secrets && ActiveSecret(t, s) && ActiveFolder(t, t.secrets[s].folderId)
                    && t.folders[t.secrets[s].folderId].environmentId == e
                    && HeldAt(scopes, Secret, Some(s), FROM_SECRET))
  }

  predicate ListedOrganization(t: Tables, scopes: set<NavScope>, o: Id) {
    ActiveOrg(t, o) && VisibleOrganization(t, scopes, o)
  }

  predicate ListedProject(t: Tables, scopes: set<NavScope>, p: Id) {
    ActiveProject(t, p) && VisibleProject(t, scopes, p)
  }

  predicate ListedEnvironment(t: Tables, scopes: set<NavScope>, e: Id) {
    ActiveEnvironment(t, e) && ActiveProject(t, t.environments[e].projectId) && VisibleEnvironment(t, scopes, e)
  }

  // ---- what is listed, told by the rows ----

  /** How fine a permission's resource_type is; -1 for the types navigation does not look at. */
  ghost function Fineness(resourceType: string): int {
    if resourceType == "org" then 0
    else if resourceType == "project" then 1
    else if resourceType == "env" then 2
    else if resourceType == "folder" then 3
    else if resourceType == "secret" then 4
    else -1
  }

  ghost function Depth(kind: Kind): nat {
    match kind case Global => 0 case Organization => 0 case Project => 1 case Environment => 2 case Folder => 3
               case Secret => 4
  }

  /** Going up from a resource through rows that are not deleted arrives at the other. */
  ghost predicate ClimbsTo(t: Tables, kind: Kind, from: Id, top: Kind, id: Id)
    decreases Depth(kind)
  {
    || (kind == top && from == id)
    || match kind
       case Secret => from in t.secrets && !t.secrets[from].isDeleted && ClimbsTo(t, Folder, t.secrets[from].folderId, top, id)
       case Folder => from in t.folders && !t.folders[from].isDeleted
                      && ClimbsTo(t, Environment, t.folders[from].environmentId, top, id)
       case Environment => from in t.environments && !t.environments[from].isDeleted
                           && ClimbsTo(t, Project, t.environments[from].projectId, top, id)
       case Project => from in t.projects && !t.projects[from].isDeleted
                       && ClimbsTo(t, Organization, t.projects[from].orgId, top, id)
       case _ => false
  }

  /** The row sits nowhere, or at, above or below the resource. */
  ghost predicate OnPath(t: Tables, row: Binding, kind: Kind, id: Id) {
    || row.kind == Global
    || (row.scopeId.Some? && (|| ClimbsTo(t, kind, id, row.kind, row.scopeId.value)
                              || ClimbsTo(t, row.kind, row.scopeId.value, kind, id)))
  }

  /** The row gives an enabled user some permission that is no coarser than the resource nor than the row's scope. */
  ghost predicate Points(t: Tables, r: Rbac, now: Time, userId: Id, row: Binding, code: string, kind: Kind, id: Id) {
    && userId in r.users && !r.users[userId].isDisabled
    && Gives(r, now, row, userId, code)
    && Fineness(r.permissions[code]) >= Depth(kind) && Fineness(r.permissions[code]) >= Depth(row.kind)
    && OnPath(t, row, kind, id)
  }

  ghost predicate Pointed(t: Tables, r: Rbac, now: Time, userId: Id, kind: Kind, id: Id) {
    exists b, code :: b in r.bindings && Points(t, r, now, userId, r.bindings[b], code, kind, id)
  }

  lemma {:induction false} HeldMeans(r: Rbac, now: Time, userId: Id, kind: Kind, scopeId: Option<Id>, types: set<string>)
    ensures HeldAt(UserNavigationScopes(r, now, userId), kind, scopeId, types) <==>
            userId in r.users && !r.users[userId].isDisabled &&
            exists b, code :: b in r.bindings && Gives(r, now, r.bindings[b], userId, code)
                              && r.permissions[code] in types && r.bindings[b].kind == kind && r.bindings[b].scopeId == scopeId
  {
    var scopes := UserNavigationScopes(r, now, userId);
    if s :| s in scopes && s.kind == kind && s.scopeId == scopeId && s.resourceType in types {
      var b, code :| b in r.bindings && code in r.permissions && Holds(r, now, userId, b, code)
                     && s == NavScope(r.bindings[b].kind, r.bindings[b].scopeId, r.permissions[code]);
      assert Gives(r, now, r.bindings[b], userId, code);
    }
    if userId in r.users && !r.users[userId].isDisabled {
      if b, code :| b in r.bindings && Gives(r, now, r.bindings[b], userId, code)
                    && r.permissions[code] in types && r.bindings[b].kind == kind && r.bindings[b].scopeId == scopeId {
        assert Holds(r, now, userId, b, code);
        assert NavScope(r.bindings[b].kind, r.bindings[b].scopeId, r.permissions[code]) in scopes;
      }
    }
  }

  lemma {:induction false} HeldPoints(t: Tables, r: Rbac, now: Time, userId: Id, kind: Kind, scopeId: Option<Id>,
                                      types: set<string>, target: Kind, id: Id)
    requires HeldAt(UserNavigationScopes(r, now, userId), kind, scopeId, types)
    requires forall ty :: ty in types ==> Fineness(ty) >= Depth(target) && Fineness(ty) >= Depth(kind)
    requires kind == Global || (scopeId.Some? && (ClimbsTo(t, target, id, kind, scopeId.value)
                                                  || ClimbsTo(t, kind, scopeId.value, target, id)))
    ensures Pointed(t, r, now, userId, target, id)
  {
    HeldMeans(r, now, userId, kind, scopeId, types);
    var b, code :| b in r.bindings && Gives(r, now, r.bindings[b], userId, code)
                   && r.permissions[code] in types && r.bindings[b].kind == kind && r.bindings[b].scopeId == scopeId;
    assert Points(t, r, now, userId, r.bindings[b], code, target, id);
  }

  lemma {:induction false} PointsHeld(r: Rbac, now: Time, userId: Id, b: Id, code: string, types: set<string>)
    requires b in r.bindings && userId in r.users && !r.users[userId].isDisabled
    requires Gives(r, now, r.bindings[b], userId, code) && r.permissions[code] in types
    ensures HeldAt(UserNavigationScopes(r, now, userId), r.bindings[b].kind, r.bindings[b].scopeId, types)
    ensures r.bindings[b].kind == Global ==> HeldGlobally(UserNavigationScopes(r, now, userId), types)
  {
    HeldMeans(r, now, userId, r.bindings[b].kind, r.bindings[b].scopeId, types);
  }

  /** The resource types at least as fine as a depth. */
  ghost function TypesFrom(depth: nat): set<string> {
    if depth == 0 then {"org", "project", "env", "folder", "secret"}
    else if depth == 1 then {"project", "env", "folder", "secret"}
    else if depth == 2 then {"env", "folder", "secret"}
    else if depth == 3 then {"folder", "secret"}
    else if depth == 4 then {"secret"}
    else {}
  }

  lemma {:induction false} TypesFromMeans(depth: nat)
    ensures forall ty :: ty in TypesFrom(depth) <==> Fineness(ty) >= depth
  {
    assert {"org", "project", "env", "folder", "secret"} == TypesFrom(0);
  }

  /** The chain up from a resource to its project. */
  lemma {:induction false} ClimbsUp(t: Tables, kind: Kind, from: Id, top: Kind, id: Id)
    ensures kind == Secret && from in t.secrets && !t.secrets[from].isDeleted && top != Secret ==>
              (ClimbsTo(t, kind, from, top, id) <==> ClimbsTo(t, Folder, t.secrets[from].folderId, top, id))
    ensures kind == Folder && from in t.folders && !t.folders[from].isDeleted && top != Folder ==>
              (ClimbsTo(t, kind, from, top, id) <==> ClimbsTo(t, Environment, t.folders[from].environmentId, top, id))
    ensures kind == Environment && from in t.environments && !t.environments[from].isDeleted && top != Environment ==>
              (ClimbsTo(t, kind, from, top, id) <==> ClimbsTo(t, Project, t.environments[from].projectId, top, id))
  {
  }

  /** From a held global scope. */
  lemma {:induction false} GlobalPoints(t: Tables, r: Rbac, now: Time, userId: Id, types: set<string>, target: Kind, id: Id)
    requires HeldGlobally(UserNavigationScopes(r, now, userId), types)
    requires forall ty :: ty in types ==> Fineness(ty) >= Depth(target)
    ensures Pointed(t, r, now, userId, target, id)
  {
    var s :| s in UserNavigationScopes(r, now, userId) && s.kind == Global && s.resourceType in types;
    HeldPoints(t, r, now, userId, Global, s.scopeId, types, target, id);
  }

  /** From a held scope at or above the resource, or below it. */
  lemma {:induction false} ScopePoints(t: Tables, r: Rbac, now: Time, userId: Id, kind: Kind, from: Id, target: Kind, id: Id)
    requires HeldAt(UserNavigationScopes(r, now, userId), kind, Some(from), TypesFrom(Max(Depth(kind), Depth(target))))
    requires ClimbsTo(t, target, id, kind, from) || ClimbsTo(t, kind, from, target, id)
    ensures Pointed(t, r, now, userId, target, id)
  {
    TypesFromMeans(Max(Depth(kind), Depth(target)));
    HeldPoints(t, r, now, userId, kind, Some(from), TypesFrom(Max(Depth(kind), Depth(target))), target, id);
  }

  ghost function Max(a: nat, b: nat): nat { if a < b then b else a }

  lemma {:induction false} EnvironmentPoints(t: Tables, r: Rbac, now: Time, userId: Id, e: Id)
    requires ActiveEnvironment(t, e) && HeldAt(UserNavigationScopes(r, now, userId), Environment, Some(e), FROM_ENV)
    ensures Pointed(t, r, now, userId, Project, t.environments[e].projectId)
    ensures var p := t.environments[e].projectId;
            ActiveProject(t, p) ==> Pointed(t, r, now, userId, Organization, t.projects[p].orgId)
  {
    var p := t.environments[e].projectId;
    ScopePoints(t, r, now, userId, Environment, e, Project, p);
    if ActiveProject(t, p) { ScopePoints(t, r, now, userId, Environment, e, Organization, t.projects[p].orgId); }
  }

  lemma {:induction false} FolderPoints(t: Tables, r: Rbac, now: Time, userId: Id, f: Id)
    requires ActiveFolder(t, f) && ActiveEnvironment(t, t.folders[f].environmentId)
    requires HeldAt(UserNavigationScopes(r, now, userId), Folder, Some(f), FROM_FOLDER)
    ensures var p := t.environments[t.folders[f].environmentId].projectId;
            && Pointed(t, r, now, userId, Project, p)
            && (ActiveProject(t, p) ==> Pointed(t, r, now, userId, Organization, t.projects[p].orgId))
  {
    var e := t.folders[f].environmentId;
    var p := t.environments[e].projectId;
    ScopePoints(t, r, now, userId, Folder, f, Project, p);
    if ActiveProject(t, p) {
      assert ClimbsTo(t, Environment, e, Organization, t.projects[p].orgId);
      ScopePoints(t, r, now, userId, Folder, f, Organization, t.projects[p].orgId);
    }
  }

  lemma {:induction false} SecretPoints(t: Tables, r: Rbac, now: Time, userId: Id, s: Id)
    requires ActiveSecret(t, s) && ActiveFolder(t, t.secrets[s].folderId)
    requires ActiveEnvironment(t, t.folders[t.secrets[s].folderId].environmentId)
    requires HeldAt(UserNavigationScopes(r, now, userId), Secret, Some(s), FROM_SECRET)
    ensures var p := t.environments[t.folders[t.secrets[s].folderId].environmentId].projectId;
            && Pointed(t, r, now, userId, Project, p)
            && (ActiveProject(t, p) ==> Pointed(t, r, now, userId, Organization, t.projects[p].orgId))
  {
    var f := t.secrets[s].folderId;
    var e := t.folders[f].environmentId;
    var p := t.environments[e].projectId;
    assert ClimbsTo(t, Folder, f, Project, p);
    ScopePoints(t, r, now, userId, Secret, s, Project, p);
    if ActiveProject(t, p) {
      assert ClimbsTo(t, Environment, e, Organization, t.projects[p].orgId);
      ScopePoints(t, r, now, userId, Secret, s, Organization, t.projects[p].orgId);
    }
  }

  lemma {:induction false} VisibleOrganizationPoints(t: Tables, r: Rbac, now: Time, userId: Id, o: Id)
    requires VisibleOrganization(t, UserNavigationScopes(r, now, userId), o)
    ensures Pointed(t, r, now, userId, Organization, o)
  {
    var scopes := UserNavigationScopes(r, now, userId);
    if HeldGlobally(scopes, FROM_ORG) {
      GlobalPoints(t, r, now, userId, FROM_ORG, Organization, o);
    } else if HeldAt(scopes, Organization, Some(o), FROM_ORG) {
      ScopePoints(t, r, now, userId, Organization, o, Organization, o);
    } else if p :| p in t.projects && ActiveProject(t, p) && t.projects[p].orgId == o
                   && HeldAt(scopes, Project, Some(p), FROM_PROJECT) {
      ScopePoints(t, r, now, userId, Project, p, Organization, o);
    } else if e :| e in t.environments && ActiveEnvironment(t, e) && EnvironmentIn(t, e, o)
                   && HeldAt(scopes, Environment, Some(e), FROM_ENV) {
      EnvironmentPoints(t, r, now, userId, e);
    } else if f :| f in t.folders && ActiveFolder(t, f) && ActiveEnvironment(t, t.folders[f].environmentId)
                   && EnvironmentIn(t, t.folders[f].environmentId, o) && HeldAt(scopes, Folder, Some(f), FROM_FOLDER) {
      FolderPoints(t, r, now, userId, f);
    } else {
      var s :| s in t.secrets && ActiveSecret(t, s) && ActiveFolder(t, t.secrets[s].folderId)
               && ActiveEnvironment(t, t.folders[t.secrets[s].folderId].environmentId)
               && EnvironmentIn(t, t.folders[t.secrets[s].folderId].environmentId, o)
               && HeldAt(scopes, Secret, Some(s), FROM_SECRET);
      SecretPoints(t, r, now, userId, s);
    }
  }

  lemma {:induction false} PointsVisibleOrganization(t: Tables, r: Rbac, now: Time, userId: Id, o: Id, b: Id, code: string)
    requires ActiveOrg(t, o) && b in r.bindings && Points(t, r, now, userId, r.bindings[b], code, Organization, o)
    ensures VisibleOrganization(t, UserNavigationScopes(r, now, userId), o)
  {
    var row := r.bindings[b];
    var depth := Depth(row.kind);
    TypesFromMeans(depth);
    PointsHeld(r, now, userId, b, code, TypesFrom(depth));
    if row.kind != Global && row.kind != Organization {
      var id := row.scopeId.value;
      assert ClimbsTo(t, row.kind, id, Organization, o);
      if row.kind == Secret { ClimbsUp(t, Folder, t.secrets[id].folderId, Organization, o); }
    }
  }

  /** A listed organization is an active one that some row of the caller points to. */
  lemma {:induction false} ListedOrganizationMeans(t: Tables, r: Rbac, now: Time, userId: Id, o: Id)
    ensures ListedOrganization(t, UserNavigationScopes(r, now, userId), o) <==>
            o in t.orgs && !t.orgs[o].isDeleted && Pointed(t, r, now, userId, Organization, o)
  {
    if ListedOrganization(t, UserNavigationScopes(r, now, userId), o) { VisibleOrganizationPoints(t, r, now, userId, o); }
    if ActiveOrg(t, o) {
      if b, code :| b in r.bindings && Points(t, r, now, userId, r.bindings[b], code, Organization, o) {
        PointsVisibleOrganization(t, r, now, userId, o, b, code);
      }
    }
  }

  lemma {:induction false} VisibleProjectPoints(t: Tables, r: Rbac, now: Time, userId: Id, p: Id)
    requires ActiveProject(t, p) && VisibleProject(t, UserNavigationScopes(r, now, userId), p)
    ensures Pointed(t, r, now, userId, Project, p)
  {
    var scopes := UserNavigationScopes(r, now, userId);
    if HeldGlobally(scopes, FROM_PROJECT) {
      GlobalPoints(t, r, now, userId, FROM_PROJECT, Project, p);
    } else if HeldAt(scopes, Organization, Some(t.projects[p].orgId), FROM_PROJECT) {
      ScopePoints(t, r, now, userId, Organization, t.projects[p].orgId, Project, p);
    } else if HeldAt(scopes, Project, Some(p), FROM_PROJECT) {
      ScopePoints(t, r, now, userId, Project, p, Project, p);
    } else if e :| e in t.environments && ActiveEnvironment(t, e) && t.environments[e].projectId == p
                   && HeldAt(scopes, Environment, Some(e), FROM_ENV) {
      EnvironmentPoints(t, r, now, userId, e);
    } else if f :| f in t.folders && ActiveFolder(t, f) && ActiveEnvironment(t, t.folders[f].environmentId)
                   && t.environments[t.folders[f].environmentId].projectId == p
                   && HeldAt(scopes, Folder, Some(f), FROM_FOLDER) {
      FolderPoints(t, r, now, userId, f);
    } else {
      var s :| s in t.secrets && ActiveSecret(t, s) && ActiveFolder(t, t.secrets[s].folderId)
               && ActiveEnvironment(t, t.folders[t.secrets[s].folderId].environmentId)
               && t.environments[t.folders[t.secrets[s].folderId].environmentId].projectId == p
               && HeldAt(scopes, Secret, Some(s), FROM_SECRET);
      SecretPoints(t, r, now, userId, s);
    }
  }

  lemma {:induction false} PointsVisibleProject(t: Tables, r: Rbac, now: Time, userId: Id, p: Id, b: Id, code: string)
    requires ActiveProject(t, p) && b in r.bindings && Points(t, r, now, userId, r.bindings[b], code, Project, p)
    ensures VisibleProject(t, UserNavigationScopes(r, now, userId), p)
  {
    var row := r.bindings[b];
    var depth := Max(Depth(row.kind), 1);
    TypesFromMeans(depth);
    PointsHeld(r, now, userId, b, code, TypesFrom(depth));
    if row.kind == Secret {
      var id := row.scopeId.value;
      assert ClimbsTo(t, Secret, id, Project, p);
      ClimbsUp(t, Folder, t.secrets[id].folderId, Project, p);
    }
  }

  /** A listed project is an active one that some row of the caller points to. */
  lemma {:induction false} ListedProjectMeans(t: Tables, r: Rbac, now: Time, userId: Id, p: Id)
    ensures ListedProject(t, UserNavigationScopes(r, now, userId), p) <==>
            p in t.projects && !t.projects[p].isDeleted && Pointed(t, r, now, userId, Project, p)
  {
    if ListedProject(t, UserNavigationScopes(r, now, userId), p) { VisibleProjectPoints(t, r, now, userId, p); }
    if ActiveProject(t, p) {
      if b, code :| b in r.bindings && Points(t, r, now, userId, r.bindings[b], code, Project, p) {
        PointsVisibleProject(t, r, now, userId, p, b, code);
      }
    }
  }

  lemma {:induction false} AbovePoints(t: Tables, r: Rbac, now: Time, userId: Id, e: Id)
    requires ActiveEnvironment(t, e) && ActiveProject(t, t.environments[e].projectId)
    ensures var p := t.environments[e].projectId; var scopes := UserNavigationScopes(r, now, userId);
            || HeldAt(scopes, Organization, Some(t.projects[p].orgId), FROM_ENV)
            || HeldAt(scopes, Project, Some(p), FROM_ENV) || HeldAt(scopes, Environment, Some(e), FROM_ENV) ==>
            Pointed(t, r, now, userId, Environment, e)
  {
    var scopes := UserNavigationScopes(r, now, userId);
    var p := t.environments[e].projectId;
    var o := t.projects[p].orgId;
    assert ClimbsTo(t, Project, p, Organization, o);
    if HeldAt(scopes, Organization, Some(o), FROM_ENV) {
      ScopePoints(t, r, now, userId, Organization, o, Environment, e);
    } else if HeldAt(scopes, Project, Some(p), FROM_ENV) {
      ScopePoints(t, r, now, userId, Project, p, Environment, e);
    } else if HeldAt(scopes, Environment, Some(e), FROM_ENV) {
      ScopePoints(t, r, now, userId, Environment, e, Environment, e);
    }
  }

  lemma {:induction false} FolderInPoints(t: Tables, r: Rbac, now: Time, userId: Id, f: Id)
    requires ActiveFolder(t, f) && HeldAt(UserNavigationScopes(r, now, userId), Folder, Some(f), FROM_FOLDER)
    ensures Pointed(t, r, now, userId, Environment, t.folders[f].environmentId)
  {
    ScopePoints(t, r, now, userId, Folder, f, Environment, t.folders[f].environmentId);
  }

  lemma {:induction false} SecretInPoints(t: Tables, r: Rbac, now: Time, userId: Id, s: Id)
    requires ActiveSecret(t, s) && ActiveFolder(t, t.secrets[s].folderId)
    requires HeldAt(UserNavigationScopes(r, now, userId), Secret, Some(s), FROM_SECRET)
    ensures Pointed(t, r, now, userId, Environment, t.folders[t.secrets[s].folderId].environmentId)
  {
    var e := t.folders[t.secrets[s].folderId].environmentId;
    assert ClimbsTo(t, Folder, t.secrets[s].folderId, Environment, e);
    ScopePoints(t, r, now, userId, Secret, s, Environment, e);
  }

  lemma {:induction false} VisibleEnvironmentPoints(t: Tables, r: Rbac, now: Time, userId: Id, e: Id)
    requires ActiveEnvironment(t, e) && ActiveProject(t, t.environments[e].projectId)
    requires VisibleEnvironment(t, UserNavigationScopes(r, now, userId), e)
    ensures Pointed(t, r, now, userId, Environment, e)
  {
    var scopes := UserNavigationScopes(r, now, userId);
    AbovePoints(t, r, now, userId, e);
    if HeldGlobally(scopes, FROM_ENV) {
      GlobalPoints(t, r, now, userId, FROM_ENV, Environment, e);
    } else if f :| f in t.folders && ActiveFolder(t, f) && t.folders[f].environmentId == e
                   && HeldAt(scopes, Folder, Some(f), FROM_FOLDER) {
      FolderInPoints(t, r, now, userId, f);
    } else if s :| s in t.secrets && ActiveSecret(t, s) && ActiveFolder(t, t.secrets[s].folderId)
                   && t.folders[t.secrets[s].folderId].environmentId == e && HeldAt(scopes, Secret, Some(s), FROM_SECRET) {
      SecretInPoints(t, r, now, userId, s);
    }
  }

  lemma {:induction false} PointsVisibleEnvironment(t: Tables, r: Rbac, now: Time, userId: Id, e: Id, b: Id, code: string)
    requires ActiveEnvironment(t, e) && ActiveProject(t, t.environments[e].projectId)
    requires b in r.bindings && Points(t, r, now, userId, r.bindings[b], code, Environment, e)
    ensures VisibleEnvironment(t, UserNavigationScopes(r, now, userId), e)
  {
    var row := r.bindings[b];
    var depth := Max(Depth(row.kind), 2);
    TypesFromMeans(depth);
    PointsHeld(r, now, userId, b, code, TypesFrom(depth));
    if row.kind == Organization {
      ClimbsUp(t, Environment, e, Organization, row.scopeId.value);
    }
  }

  /** A listed environment is an active one of an active project that some row of the caller points to. */
  lemma {:induction false} ListedEnvironmentMeans(t: Tables, r: Rbac, now: Time, userId: Id, e: Id)
    ensures ListedEnvironment(t, UserNavigationScopes(r, now, userId), e) <==>
            && e in t.environments && !t.environments[e].isDeleted
            && t.environments[e].projectId in t.projects && !t.projects[t.environments[e].projectId].isDeleted
            && Pointed(t, r, now, userId, Environment, e)
  {
    if ListedEnvironment(t, UserNavigationScopes(r, now, userId), e) { VisibleEnvironmentPoints(t, r, now, userId, e); }
    if ActiveEnvironment(t, e) && ActiveProject(t, t.environments[e].projectId) {
      if b, code :| b in r.bindings && Points(t, r, now, userId, r.bindings[b], code, Environment, e) {
        PointsVisibleEnvironment(t, r, now, userId, e, b, code);
      }
    }
  }

  // ---- upward closure ----

  lemma {:induction false} Wider(scopes: set<NavScope>, kind: Kind, scopeId: Option<Id>, narrow: set<string>,
                                 wide: set<string>)
    requires narrow <= wide
    ensures HeldAt(scopes, kind, scopeId, narrow) ==> HeldAt(scopes, kind, scopeId, wide)
    ensures HeldGlobally(scopes, narrow) ==> HeldGlobally(scopes, wide)
  {
  }

  /** A listed environment's project is listed. */
  lemma {:induction false} EnvironmentListsProject(t: Tables, scopes: set<NavScope>, e: Id)
    requires ListedEnvironment(t, scopes, e)
    ensures ListedProject(t, scopes, t.environments[e].projectId)
  {
    var p := t.environments[e].projectId;
    Wider(scopes, Organization, Some(t.projects[p].orgId), FROM_ENV, FROM_PROJECT);
    Wider(scopes, Project, Some(p), FROM_ENV, FROM_PROJECT);
  }

  /** A listed project's organization is listed. */
  lemma {:induction false} ProjectListsOrganization(t: Tables, scopes: set<NavScope>, p: Id)
    requires Chained(t) && ListedProject(t, scopes, p)
    ensures ListedOrganization(t, scopes, t.projects[p].orgId)
  {
    Wider(scopes, Organization, Some(t.projects[p].orgId), FROM_PROJECT, FROM_ORG);
  }

  // ---- folders ----

  /** The seeded permission row. */
  predicate ReadsFolders(r: Rbac) {
    READ in r.permissions ==> r.permissions[READ] == "folder"
  }

  /** Folder ids are not blank: they are UUIDs. */
  ghost predicate FolderIdsNamed(t: Tables) {
    forall f {:trigger TrimSpace(f)} :: f in t.folders ==> TrimSpace(f) != ""
  }

  predicate ParentActive(t: Tables, f: Id)
    requires f in t.folders
  {
    t.folders[f].parentId.Some? ==> ActiveFolder(t, t.folders[f].parentId.value)
  }

  lemma {:induction false} ReadIsHeld(r: Rbac, now: Time, userId: Id, b: Id)
    requires ReadsFolders(r) && Holds(r, now, userId, b, READ)
    ensures NavScope(r.bindings[b].kind, r.bindings[b].scopeId, "folder") in UserNavigationScopes(r, now, userId)
  {
  }

  /** A folder permission held at any scope the folder's row is compared with lists the environment. */
  lemma {:induction false} EntryListsEnvironment(t: Tables, scopes: set<NavScope>, f: Id, k: nat)
    requires FoldersNested(t.folders) && ActiveFolder(t, f) && ParentActive(t, f)
    requires ActiveEnvironment(t, t.folders[f].environmentId)
    requires ActiveProject(t, t.environments[t.folders[f].environmentId].projectId)
    requires k < 5 && HeldAt(scopes, FolderEntries(t, f)[k].kind, FolderEntries(t, f)[k].column, FROM_FOLDER)
    requires FolderEntries(t, f)[k].column.Some?
    ensures ListedEnvironment(t, scopes, t.folders[f].environmentId)
  {
    Wider(scopes, FolderEntries(t, f)[k].kind, FolderEntries(t, f)[k].column, FROM_FOLDER, FROM_ENV);
    assert Nested(t.folders, t.folders[f]);
  }

  lemma {:induction false} FolderListsEnvironment(t: Tables, r: Rbac, now: Time, userId: Id, f: Id)
    requires FoldersNested(t.folders) && ReadsFolders(r)
    requires FolderPasses(t, r, now, userId, READ, f) && ParentActive(t, f)
    ensures ListedEnvironment(t, UserNavigationScopes(r, now, userId), t.folders[f].environmentId)
  {
    var entries := FolderEntries(t, f);
    WhereMeans(r, now, userId, READ, entries);
    var b :| Holds(r, now, userId, b, READ) && (r.bindings[b].kind == Global || Matches(r.bindings[b], entries));
    ReadIsHeld(r, now, userId, b);
    var scope := NavScope(r.bindings[b].kind, r.bindings[b].scopeId, "folder");
    var scopes := UserNavigationScopes(r, now, userId);
    if scope.kind == Global {
      assert HeldGlobally(scopes, FROM_ENV);
    } else {
      var k :| 0 <= k < |entries| && entries[k].column.Some? && scope.kind == entries[k].kind && scope.scopeId == entries[k].column;
      assert HeldAt(scopes, entries[k].kind, entries[k].column, FROM_FOLDER);
      EntryListsEnvironment(t, scopes, f, k);
    }
  }

  /** A caller whose one binding gives folder:read on a folder. */
  function ReaderOf(folder: Id): Rbac {
    Rbac(map["u" := User("", "u@example.org", false)], map[READ := "folder"],
         map["r" := Role("folder_reader", "folder", {READ}, false)],
         map["b" := Binding("u", "r", Folder, Some(folder), None, false)])
  }

  lemma {:induction false} ReaderHolds(folder: Id)
    ensures Holds(ReaderOf(folder), 0, "u", "b", READ)
    ensures UserNavigationScopes(ReaderOf(folder), 0, "u") == {NavScope(Folder, Some(folder), "folder")}
    ensures ReadsFolders(ReaderOf(folder))
    ensures TrimSpace(folder) != "" ==> SchemaOk(ReaderOf(folder))
  {
    var r := ReaderOf(folder);
    assert Holds(r, 0, "u", "b", READ);
    assert NavScope(r.bindings["b"].kind, r.bindings["b"].scopeId, r.permissions[READ]) in UserNavigationScopes(r, 0, "u");
  }

  lemma {:induction false} DeletedFolderShowsNothing(t: Tables, folder: Id, e: Id)
    requires !ActiveFolder(t, folder)
    ensures !VisibleEnvironment(t, {NavScope(Folder, Some(folder), "folder")}, e)
  {
  }

  lemma {:induction false} ReaderOfParentPasses(t: Tables, f: Id)
    requires Chained(t) && ActiveFolder(t, f) && t.folders[f].parentId.Some?
    ensures FolderPasses(t, ReaderOf(t.folders[f].parentId.value), 0, "u", READ, f)
  {
    var parent := t.folders[f].parentId.value;
    ReaderHolds(parent);
    var entries := FolderEntries(t, f);
    WhereMeans(ReaderOf(parent), 0, "u", READ, entries);
    assert entries[1] == Entry(Folder, Some(parent));
    assert Matches(ReaderOf(parent).bindings["b"], entries);
  }

  lemma {:induction false} DeletedParentHides(t: Tables, f: Id)
    requires Consistent(t) && FolderIdsNamed(t) && ActiveFolder(t, f) && !ParentActive(t, f)
    ensures var r := ReaderOf(t.folders[f].parentId.value);
            && SchemaOk(r) && ReadsFolders(r) && FolderPasses(t, r, 0, "u", READ, f)
            && !ListedEnvironment(t, UserNavigationScopes(r, 0, "u"), t.folders[f].environmentId)
  {
    var parent := t.folders[f].parentId.value;
    assert Nested(t.folders, t.folders[f]);
    ReaderHolds(parent);
    ReaderOfParentPasses(t, f);
    DeletedFolderShowsNothing(t, parent, t.folders[f].environmentId);
  }

  /** Whoever is listed a folder for folder:read is listed its environment too, exactly for the folders whose
      parent folder, if any, is active. A level-2 folder that outlives its parent breaks the path. */
  lemma {:induction false} FolderPathIffParentActive(t: Tables, f: Id)
    requires Consistent(t) && FolderIdsNamed(t) && ActiveFolder(t, f)
    ensures ParentActive(t, f) <==>
            forall r: Rbac, now: Time, userId: Id ::
              SchemaOk(r) && ReadsFolders(r) && FolderPasses(t, r, now, userId, READ, f) ==>
              ListedEnvironment(t, UserNavigationScopes(r, now, userId), t.folders[f].environmentId)
  {
    if ParentActive(t, f) {
      forall r: Rbac, now: Time, userId: Id | SchemaOk(r) && ReadsFolders(r) && FolderPasses(t, r, now, userId, READ, f)
        ensures ListedEnvironment(t, UserNavigationScopes(r, now, userId), t.folders[f].environmentId)
      {
        FolderListsEnvironment(t, r, now, userId, f);
      }
    } else {
      DeletedParentHides(t, f);
    }
  }
}
