/** The RBAC tables, and the point check built on them: ResourceScopes and UserPermissions of
    internal/store/postgres/rbac.go, Allow of internal/auth/rbac.go. */
module Rbac {
  import opened Wrappers
  import opened Text
  import opened Tables

  type Time = int

  datatype Kind = Global | Organization | Project | Environment | Folder | Secret

  /** An auth.Scope; the id of the global scope is empty. */
  datatype Scope = Scope(kind: Kind, id: Id)

  datatype User = User(externalUserId: string, email: string, isDisabled: bool)

  datatype Role = Role(code: string, scopeType: string, permissions: set<string>, isDeleted: bool)

  datatype Binding = Binding(userId: Id, roleId: Id, kind: Kind, scopeId: Option<Id>, expiresAt: Option<Time>,
                             isDeleted: bool)

  /** `permissions` maps each code to its resource_type. */
  datatype Rbac = Rbac(users: map<Id, User>, permissions: map<string, string>, roles: map<Id, Role>,
                       bindings: map<Id, Binding>)

  /** user_role_bindings_scope_type_chk and user_role_bindings_scope_id_chk. */
  predicate BindingScopeOk(b: Binding) {
    && b.kind != Secret
    && (b.kind == Global <==> b.scopeId.None?)
    && (b.scopeId.Some? ==> TrimSpace(b.scopeId.value) != "")
  }

  /** The checks on bindings, and that user ids, being UUIDs, are not blank. */
  ghost predicate SchemaOk(r: Rbac) {
    && (forall b :: b in r.bindings ==> BindingScopeOk(r.bindings[b]))
    && (forall u :: u in r.users ==> TrimSpace(u) != "")
  }

  // ---- which permissions a user holds ----

  /** The join and where-clauses every permission query shares: binding b of `userId` is live at `now`,
      through a live role, and the account is enabled. */
  predicate Live(r: Rbac, now: Time, userId: Id, b: Id) {
    && b in r.bindings && r.bindings[b].userId == userId
    && userId in r.users && !r.users[userId].isDisabled
    && !r.bindings[b].isDeleted
    && (r.bindings[b].expiresAt.Some? ==> now < r.bindings[b].expiresAt.value)
    && r.bindings[b].roleId in r.roles && !r.roles[r.bindings[b].roleId].isDeleted
  }

  /** ... and its role carries the permission. */
  predicate Holds(r: Rbac, now: Time, userId: Id, b: Id, code: string) {
    Live(r, now, userId, b) && code in r.permissions && code in r.roles[r.bindings[b].roleId].permissions
  }

  /** One disjunct of buildUserPermissionsQuery. */
  predicate BoundAt(b: Binding, scope: Scope) {
    if scope.kind == Global then b.kind == Global && b.scopeId.None?
    else TrimSpace(scope.id) != "" && b.kind == scope.kind && b.scopeId == Some(scope.id)
  }

  function UserPermissions(r: Rbac, now: Time, userId: Id, scopes: seq<Scope>): set<string> {
    if TrimSpace(userId) == "" then {}
    else set b, code, k | b in r.bindings && code in r.permissions && 0 <= k < |scopes| &&
                          Holds(r, now, userId, b, code) && BoundAt(r.bindings[b], scopes[k]) :: code
  }

  // ---- which scopes reach a resource ----

  function NormalizeScopeType(value: string): Option<Kind> {
    match TrimSpace(value)
    case "global" => Some(Global)
    case "organization" => Some(Organization)
    case "project" => Some(Project)
    case "environment" => Some(Environment)
    case "folder" => Some(Folder)
    case "secret" => Some(Secret)
    case _ => None
  }

  function NormalizeResourceType(value: string): Option<Kind> {
    match TrimSpace(value)
    case "org" => Some(Organization)
    case "env" => Some(Environment)
    case _ => NormalizeScopeType(value)
  }

  lemma {:induction false} ResourceTypes()
    ensures NormalizeResourceType("global") == Some(Global)
    ensures NormalizeResourceType("organization") == Some(Organization)
    ensures NormalizeResourceType("project") == Some(Project)
    ensures NormalizeResourceType("environment") == Some(Environment)
    ensures NormalizeResourceType("folder") == Some(Folder)
    ensures NormalizeResourceType("secret") == Some(Secret)
    ensures NormalizeResourceType("org") == Some(Organization) && NormalizeResourceType("env") == Some(Environment)
  {
  }

  lemma {:induction false} GlobalType()
    ensures NormalizeResourceType("global") == Some(Global)
  {
    ResourceTypes();
  }

  lemma {:induction false} OrganizationType()
    ensures NormalizeResourceType("organization") == Some(Organization)
  {
    ResourceTypes();
  }

  lemma {:induction false} ProjectType()
    ensures NormalizeResourceType("project") == Some(Project)
  {
    ResourceTypes();
  }

  lemma {:induction false} EnvironmentType()
    ensures NormalizeResourceType("environment") == Some(Environment)
  {
    ResourceTypes();
  }

  lemma {:induction false} FolderType()
    ensures NormalizeResourceType("folder") == Some(Folder)
  {
    ResourceTypes();
  }

  lemma {:induction false} SecretType()
    ensures NormalizeResourceType("secret") == Some(Secret)
  {
    ResourceTypes();
  }

  function OrganizationScopes(t: Tables, id: Id): Result<seq<Scope>> {
    if !ActiveOrg(t, id) then Err(ErrNotFound)
    else Ok([Scope(Global, ""), Scope(Organization, id)])
  }

  function ProjectScopes(t: Tables, id: Id): Result<seq<Scope>> {
    if !ActiveProject(t, id) || !ActiveOrg(t, t.projects[id].orgId) then Err(ErrNotFound)
    else Ok([Scope(Global, ""), Scope(Organization, t.projects[id].orgId), Scope(Project, id)])
  }

  function EnvironmentScopes(t: Tables, id: Id): Result<seq<Scope>> {
    if !ActiveEnvironment(t, id) then Err(ErrNotFound)
    else
      var p := t.environments[id].projectId;
      if !ActiveProject(t, p) || !ActiveOrg(t, t.projects[p].orgId) then Err(ErrNotFound)
      else Ok([Scope(Global, ""), Scope(Organization, t.projects[p].orgId), Scope(Project, p),
               Scope(Environment, id)])
  }

  /** The chain above and including a folder; the parent folder is listed whether or not it is active. */
  function FolderChain(t: Tables, id: Id, p: Id): seq<Scope>
    requires id in t.folders && p in t.projects
  {
    var f := t.folders[id];
    var env := [Scope(Global, ""), Scope(Organization, t.projects[p].orgId), Scope(Project, p),
                Scope(Environment, f.environmentId)];
    if f.parentId.Some? then env + [Scope(Folder, f.parentId.value), Scope(Folder, id)] else env + [Scope(Folder, id)]
  }

  function FolderScopes(t: Tables, id: Id): Result<seq<Scope>> {
    if !ActiveFolder(t, id) || !ActiveEnvironment(t, t.folders[id].environmentId) then Err(ErrNotFound)
    else
      var p := t.environments[t.folders[id].environmentId].projectId;
      if !ActiveProject(t, p) || !ActiveOrg(t, t.projects[p].orgId) then Err(ErrNotFound)
      else Ok(FolderChain(t, id, p))
  }

  function SecretScopes(t: Tables, id: Id): Result<seq<Scope>> {
    if !ActiveSecret(t, id) then Err(ErrNotFound) else FolderScopes(t, t.secrets[id].folderId)
  }

  function ScopesOf(t: Tables, kind: Kind, id: Id): Result<seq<Scope>> {
    match kind
    case Global => Ok([Scope(Global, "")])
    case Organization => OrganizationScopes(t, id)
    case Project => ProjectScopes(t, id)
    case Environment => EnvironmentScopes(t, id)
    case Folder => FolderScopes(t, id)
    case Secret => SecretScopes(t, id)
  }

  function ResourceScopes(t: Tables, resourceType: string, id: Id): Result<seq<Scope>> {
    match NormalizeResourceType(resourceType)
    case Some(kind) => ScopesOf(t, kind, id)
    case None => Err(ErrOther)
  }

  // ---- the point check ----

  function PermissionCode(action: string, resourceType: string): string {
    var a, ty := TrimSpace(action), TrimSpace(resourceType);
    if a == "" then ""
    else if ':' in a then a
    else if ty == "" then ""
    else if ty == "env_template" && a == "read" then "env:template:read"
    else (if ty == "organization" then "org" else if ty == "environment" then "env" else ty) + ":" + a
  }

  /** Allow once the permission and the resource's type are settled. */
  function Permit(t: Tables, r: Rbac, now: Time, userId: Id, permission: string, kind: Option<Kind>,
                  id: Id): Result<()> {
    if TrimSpace(userId) == "" || permission == "" then Err(ErrPermissionDenied)
    else if kind.None? then Err(ErrOther)
    else
      match ScopesOf(t, kind.value, id)
      case Err(e) => Err(e)
      case Ok(scopes) =>
        if permission in UserPermissions(r, now, userId, scopes) then Ok(()) else Err(ErrPermissionDenied)
  }

  function Allow(t: Tables, r: Rbac, now: Time, userId: Id, action: string, resourceType: string, id: Id): Result<()> {
    Permit(t, r, now, userId, PermissionCode(action, resourceType), NormalizeResourceType(resourceType), id)
  }

  /** A permission code proper: Allow checks it unchanged, whatever the resource. */
  predicate IsCode(code: string) {
    Trimmed(code) && ':' in code
  }

  lemma {:induction false} CodeStays(code: string, resourceType: string)
    requires IsCode(code)
    ensures code != "" && PermissionCode(code, resourceType) == code
  {
    TrimmedStays(code);
  }

  lemma {:induction false} AllowIsPermit(t: Tables, r: Rbac, now: Time, userId: Id, code: string, resourceType: string,
                                         kind: Kind, id: Id)
    requires IsCode(code) && NormalizeResourceType(resourceType) == Some(kind)
    ensures Allow(t, r, now, userId, code, resourceType, id) == Permit(t, r, now, userId, code, Some(kind), id)
  {
    CodeStays(code, resourceType);
  }

  lemma {:induction false} PermitHolds(t: Tables, r: Rbac, now: Time, userId: Id, code: string, kind: Kind, id: Id)
    requires code != ""
    ensures Permit(t, r, now, userId, code, Some(kind), id).Ok? <==>
      && TrimSpace(userId) != "" && ScopesOf(t, kind, id).Ok?
      && exists b, k :: && 0 <= k < |ScopesOf(t, kind, id).value|
                        && Holds(r, now, userId, b, code)
                        && BoundAt(r.bindings[b], ScopesOf(t, kind, id).value[k])
  {
  }

  // ---- what the point check accepts, told by the rows ----

  /** The row gives its user the permission at time `now`. */
  ghost predicate Gives(r: Rbac, now: Time, row: Binding, userId: Id, code: string) {
    && row.userId == userId && !row.isDeleted
    && (match row.expiresAt case None => true case Some(end) => now < end)
    && row.roleId in r.roles && !r.roles[row.roleId].isDeleted
    && code in r.roles[row.roleId].permissions && code in r.permissions
  }

  ghost predicate UserEnabled(r: Rbac, userId: Id) {
    TrimSpace(userId) != "" && userId in r.users && r.users[userId].isDisabled == false
  }

  /** The row sits on the named scope itself. */
  ghost predicate SitsOn(row: Binding, kind: Kind, id: Id) {
    row.kind == kind && row.scopeId == Some(id) && TrimSpace(id) != ""
  }

  ghost predicate SitsNowhere(row: Binding) {
    row.kind == Global && row.scopeId == None
  }

  /** The resource and every row above it, up to the organization, is there and not deleted. */
  ghost predicate Standing(t: Tables, kind: Kind, id: Id) {
    match kind
    case Global => true
    case Organization => OrganizationStands(t, id)
    case Project => ProjectStands(t, id)
    case Environment => EnvironmentStands(t, id)
    case Folder => FolderStands(t, id)
    case Secret => id in t.secrets && !t.secrets[id].isDeleted && FolderStands(t, t.secrets[id].folderId)
  }

  ghost predicate OrganizationStands(t: Tables, id: Id) { id in t.orgs && !t.orgs[id].isDeleted }

  ghost predicate ProjectStands(t: Tables, id: Id) {
    id in t.projects && !t.projects[id].isDeleted && OrganizationStands(t, t.projects[id].orgId)
  }

  ghost predicate EnvironmentStands(t: Tables, id: Id) {
    id in t.environments && !t.environments[id].isDeleted && ProjectStands(t, t.environments[id].projectId)
  }

  ghost predicate FolderStands(t: Tables, id: Id) {
    id in t.folders && !t.folders[id].isDeleted && EnvironmentStands(t, t.folders[id].environmentId)
  }

  /** The row sits on the resource or on something above it: the global scope, the organization, the project, the
      environment, or the parent folder, active or not. A secret has no scope of its own. */
  ghost predicate Reaches(t: Tables, row: Binding, kind: Kind, id: Id)
    requires Standing(t, kind, id)
  {
    match kind
    case Global => SitsNowhere(row)
    case Organization => ReachesOrganization(row, id)
    case Project => ReachesProject(t, row, id)
    case Environment => ReachesEnvironment(t, row, id)
    case Folder => ReachesFolder(t, row, id)
    case Secret => ReachesFolder(t, row, t.secrets[id].folderId)
  }

  ghost predicate ReachesOrganization(row: Binding, id: Id) { SitsNowhere(row) || SitsOn(row, Organization, id) }

  ghost predicate ReachesProject(t: Tables, row: Binding, id: Id)
    requires ProjectStands(t, id)
  {
    ReachesOrganization(row, t.projects[id].orgId) || SitsOn(row, Project, id)
  }

  ghost predicate ReachesEnvironment(t: Tables, row: Binding, id: Id)
    requires EnvironmentStands(t, id)
  {
    ReachesProject(t, row, t.environments[id].projectId) || SitsOn(row, Environment, id)
  }

  ghost predicate ReachesFolder(t: Tables, row: Binding, id: Id)
    requires FolderStands(t, id)
  {
    || ReachesEnvironment(t, row, t.folders[id].environmentId)
    || (t.folders[id].parentId.Some? && SitsOn(row, Folder, t.folders[id].parentId.value))
    || SitsOn(row, Folder, id)
  }

  lemma {:induction false} HoldsMeans(r: Rbac, now: Time, userId: Id, b: Id, code: string)
    ensures Holds(r, now, userId, b, code) <==>
            b in r.bindings && userId in r.users && r.users[userId].isDisabled == false
            && Gives(r, now, r.bindings[b], userId, code)
  {
  }

  lemma {:induction false} ChainStands(t: Tables, kind: Kind, id: Id)
    ensures ScopesOf(t, kind, id).Ok? <==> Standing(t, kind, id)
    ensures ScopesOf(t, kind, id).Err? ==> ScopesOf(t, kind, id) == Err(ErrNotFound)
  {
  }

  /** One of the chain's scopes is where the row sits. */
  ghost predicate SitsAmong(row: Binding, chain: seq<Scope>) {
    exists k :: 0 <= k < |chain| && BoundAt(row, chain[k])
  }

  lemma {:induction false} SitsAmongSnoc(row: Binding, chain: seq<Scope>, last: Scope)
    ensures SitsAmong(row, chain + [last]) <==> SitsAmong(row, chain) || BoundAt(row, last)
  {
    var all := chain + [last];
    assert all[|chain|] == last && forall k :: 0 <= k < |chain| ==> all[k] == chain[k];
    if SitsAmong(row, chain) {
      var k :| 0 <= k < |chain| && BoundAt(row, chain[k]);
      assert BoundAt(row, all[k]);
    }
  }

  lemma {:induction false} OrganizationReaches(t: Tables, row: Binding, id: Id)
    requires OrganizationStands(t, id)
    ensures OrganizationScopes(t, id).Ok?
    ensures SitsAmong(row, OrganizationScopes(t, id).value) <==> ReachesOrganization(row, id)
  {
    SitsAmongSnoc(row, [], Scope(Global, ""));
    SitsAmongSnoc(row, [Scope(Global, "")], Scope(Organization, id));
    assert [] + [Scope(Global, "")] == [Scope(Global, "")];
    assert [Scope(Global, "")] + [Scope(Organization, id)] == OrganizationScopes(t, id).value;
  }

  lemma {:induction false} ProjectReaches(t: Tables, row: Binding, id: Id)
    requires ProjectStands(t, id)
    ensures ProjectScopes(t, id).Ok? && (SitsAmong(row, ProjectScopes(t, id).value) <==> ReachesProject(t, row, id))
  {
    var o := t.projects[id].orgId;
    OrganizationReaches(t, row, o);
    SitsAmongSnoc(row, OrganizationScopes(t, o).value, Scope(Project, id));
    assert ProjectScopes(t, id).value == OrganizationScopes(t, o).value + [Scope(Project, id)];
  }

  lemma {:induction false} EnvironmentReaches(t: Tables, row: Binding, id: Id)
    requires EnvironmentStands(t, id)
    ensures EnvironmentScopes(t, id).Ok?
    ensures SitsAmong(row, EnvironmentScopes(t, id).value) <==> ReachesEnvironment(t, row, id)
  {
    var p := t.environments[id].projectId;
    ProjectReaches(t, row, p);
    SitsAmongSnoc(row, ProjectScopes(t, p).value, Scope(Environment, id));
    assert EnvironmentScopes(t, id).value == ProjectScopes(t, p).value + [Scope(Environment, id)];
  }

  lemma {:induction false} FolderReaches(t: Tables, row: Binding, id: Id)
    requires FolderStands(t, id)
    ensures FolderScopes(t, id).Ok? && (SitsAmong(row, FolderScopes(t, id).value) <==> ReachesFolder(t, row, id))
  {
    var e := t.folders[id].environmentId;
    var env := EnvironmentScopes(t, e).value;
    EnvironmentReaches(t, row, e);
    if t.folders[id].parentId.Some? {
      var parent := Scope(Folder, t.folders[id].parentId.value);
      SitsAmongSnoc(row, env, parent);
      SitsAmongSnoc(row, env + [parent], Scope(Folder, id));
      assert FolderScopes(t, id).value == env + [parent] + [Scope(Folder, id)];
    } else {
      SitsAmongSnoc(row, env, Scope(Folder, id));
      assert FolderScopes(t, id).value == env + [Scope(Folder, id)];
    }
  }

  lemma {:induction false} ChainReaches(t: Tables, row: Binding, kind: Kind, id: Id)
    requires Standing(t, kind, id)
    ensures ScopesOf(t, kind, id).Ok? && (SitsAmong(row, ScopesOf(t, kind, id).value) <==> Reaches(t, row, kind, id))
  {
    ChainStands(t, kind, id);
    match kind {
      case Global =>
        SitsAmongSnoc(row, [], Scope(Global, ""));
        assert [] + [Scope(Global, "")] == [Scope(Global, "")];
      case Organization => OrganizationReaches(t, row, id);
      case Project => ProjectReaches(t, row, id);
      case Environment => EnvironmentReaches(t, row, id);
      case Folder => FolderReaches(t, row, id);
      case Secret => FolderReaches(t, row, t.secrets[id].folderId);
    }
  }

  /** What the point check accepts, told by the rows: the user exists and is not disabled, the resource and everything
      above it is active, and some binding of the user on it or above, neither deleted nor expired, has a role, not
      deleted, that carries the code. What it answers otherwise. */
  lemma {:induction false} PermitMeans(t: Tables, r: Rbac, now: Time, userId: Id, code: string, kind: Kind, id: Id)
    requires code != ""
    ensures Permit(t, r, now, userId, code, Some(kind), id).Ok? <==>
            && UserEnabled(r, userId) && Standing(t, kind, id)
            && exists b :: b in r.bindings && Gives(r, now, r.bindings[b], userId, code)
                           && Reaches(t, r.bindings[b], kind, id)
    ensures Permit(t, r, now, userId, code, Some(kind), id).Err? ==>
            Permit(t, r, now, userId, code, Some(kind), id)
            == if TrimSpace(userId) != "" && !Standing(t, kind, id) then Err(ErrNotFound) else Err(ErrPermissionDenied)
  {
    ChainStands(t, kind, id);
    if Standing(t, kind, id) {
      PermitHolds(t, r, now, userId, code, kind, id);
      forall b | b in r.bindings
        ensures SitsAmong(r.bindings[b], ScopesOf(t, kind, id).value) <==> Reaches(t, r.bindings[b], kind, id)
        ensures Holds(r, now, userId, b, code) <==>
                userId in r.users && r.users[userId].isDisabled == false && Gives(r, now, r.bindings[b], userId, code)
      {
        ChainReaches(t, r.bindings[b], kind, id);
        HoldsMeans(r, now, userId, b, code);
      }
    }
  }

  /** A nameless caller and an empty permission are denied before anything else is looked at; then an unknown resource
      type is an error. */
  lemma {:induction false} PermitRefuses(t: Tables, r: Rbac, now: Time, userId: Id, code: string, kind: Option<Kind>, id: Id)
    ensures TrimSpace(userId) == "" || code == "" ==> Permit(t, r, now, userId, code, kind, id) == Err(ErrPermissionDenied)
    ensures TrimSpace(userId) != "" && code != "" && kind == None ==> Permit(t, r, now, userId, code, kind, id) == Err(ErrOther)
  {
  }

  /** A disabled user, or one that does not exist, holds nothing anywhere. */
  lemma {:induction false} DisabledHoldNothing(t: Tables, r: Rbac, now: Time, userId: Id, scopes: seq<Scope>)
    requires userId !in r.users || r.users[userId].isDisabled
    ensures UserPermissions(r, now, userId, scopes) == {}
    ensures forall code, kind, id :: Permit(t, r, now, userId, code, kind, id).Err?
  {
  }

  /** The code a bare action stands for on a type of resource: the type in front, shortened for organizations and
      environments. */
  lemma {:induction false} BareAction(action: string, ty: string)
    requires action != "" && Trimmed(action) && ':' !in action && ty != "" && Trimmed(ty)
    ensures ty == "organization" ==> PermissionCode(action, ty) == "org:" + action
    ensures ty == "environment" ==> PermissionCode(action, ty) == "env:" + action
    ensures ty != "organization" && ty != "environment" && ty != "env_template" ==> PermissionCode(action, ty) == ty + ":" + action
    ensures ty == "env_template" ==>
            PermissionCode(action, ty) == if action == "read" then "env:template:read" else "env_template:" + action
  {
    TrimmedStays(action);
    TrimmedStays(ty);
  }

  lemma {:induction false} BlankActions(action: string, ty: string)
    ensures TrimSpace(action) == "" ==> PermissionCode(action, ty) == ""
    ensures TrimSpace(ty) == "" && ':' !in TrimSpace(action) ==> PermissionCode(action, ty) == ""
  {
  }

  /** Whatever Allow accepts lies on an active chain. */
  lemma {:induction false} AllowedIsScoped(t: Tables, r: Rbac, now: Time, userId: Id, action: string,
                                           resourceType: string,
                                           kind: Kind, id: Id)
    requires NormalizeResourceType(resourceType) == Some(kind)
    requires Allow(t, r, now, userId, action, resourceType, id).Ok?
    ensures ScopesOf(t, kind, id).Ok?
  {
  }
}
