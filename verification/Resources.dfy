/**
 * What the create and delete transactions of internal/store/postgres/repository.go do to the tables.
 * A new id that is already taken violates the primary key, which is a unique violation like the others
 * and comes back as ErrConflict.
 */
module Resources {
  import opened Wrappers
  import opened Text
  import opened Tables

  function Audited(t: Tables, resourceType: string, id: Id, action: string): Tables {
    t.(audits := t.audits + [Audit(resourceType, id, action)])
  }

  // ---- inserts ----

  function InsertOrganization(t: Tables, id: Id, code: string): Result<Tables> {
    var row := OrganizationRow(code, false);
    if id in t.orgs || exists k :: k in t.orgs && !t.orgs[k].isDeleted && t.orgs[k].code == code
    then Err(ErrConflict)
    else Ok(t.(orgs := t.orgs[id := row]))
  }

  function InsertProject(t: Tables, id: Id, orgId: Id, code: string): Result<Tables> {
    var row := ProjectRow(orgId, code, false);
    if id in t.projects || exists k :: k in t.projects && !t.projects[k].isDeleted && SameProject(t.projects[k], row)
    then Err(ErrConflict)
    else Ok(t.(projects := t.projects[id := row]))
  }

  /** environments.project_id references projects: an unknown project is an error. */
  function InsertEnvironment(t: Tables, id: Id, projectId: Id, code: string): Result<Tables> {
    var row := EnvironmentRow(projectId, code, false);
    if id in t.environments
       || exists k :: k in t.environments && !t.environments[k].isDeleted && SameEnvironment(t.environments[k], row)
    then Err(ErrConflict)
    else if projectId !in t.projects then Err(ErrOther)
    else Ok(t.(environments := t.environments[id := row]))
  }

  function InsertFolder(t: Tables, id: Id, row: FolderRow): Result<Tables> {
    if id in t.folders || exists k :: k in t.folders && !t.folders[k].isDeleted && SamePlace(t.folders[k], row)
    then Err(ErrConflict)
    else Ok(t.(folders := t.folders[id := row]))
  }

  function InsertSecret(t: Tables, id: Id, row: SecretRow): Result<Tables> {
    if id in t.secrets || exists k :: k in t.secrets && !t.secrets[k].isDeleted && SameKey(t.secrets[k], row)
    then Err(ErrConflict)
    else Ok(t.(secrets := t.secrets[id := row]))
  }

  // ---- creates ----

  /** A new row's id, and its code or parent. */
  datatype Spec = Spec(id: Id, name: string)

  function CreateOrganization(t: Tables, id: Id, code: string): Result<Tables> {
    match InsertOrganization(t, id, code)
    case Err(e) => Err(e)
    case Ok(t1) => Ok(Audited(t1, "organization", id, "create"))
  }

  function InsertEnvironments(t: Tables, projectId: Id, envs: seq<Spec>): Result<Tables> {
    if envs == [] then Ok(t)
    else
      match InsertEnvironments(t, projectId, envs[..|envs| - 1])
      case Err(e) => Err(e)
      case Ok(t1) => InsertEnvironment(t1, envs[|envs| - 1].id, projectId, envs[|envs| - 1].name)
  }

  function CreateProject(t: Tables, orgId: Id, id: Id, code: string, envs: seq<Spec>): Result<Tables> {
    match InsertProject(t, id, orgId, code)
    case Err(e) => Err(e)
    case Ok(t1) =>
      match InsertEnvironments(t1, id, envs)
      case Err(e) => Err(e)
      case Ok(t2) => Ok(Audited(t2, "project", id, "create"))
  }

  function CreateEnvironment(t: Tables, projectId: Id, id: Id, code: string): Result<Tables> {
    if !ActiveProject(t, projectId) then Err(ErrNotFound)
    else
      match InsertEnvironment(t, id, projectId, code)
      case Err(e) => Err(e)
      case Ok(t1) => Ok(Audited(t1, "environment", id, "create"))
  }

  function RowOf(spec: Spec, parents: map<Id, Id>, level: int, code: string): FolderRow
    requires level == 2 ==> spec.name in parents
  {
    FolderRow(spec.name, if level == 2 then Some(parents[spec.name]) else None, level, code, false)
  }

  /** One folder per spec, in order: the spec's name is the environment, its parent as `parents` says. */
  function InsertFolders(t: Tables, specs: seq<Spec>, parents: map<Id, Id>, level: int, code: string): Result<Tables>
    requires level == 2 ==> forall k :: 0 <= k < |specs| ==> specs[k].name in parents
  {
    if specs == [] then Ok(t)
    else
      match InsertFolders(t, specs[..|specs| - 1], parents, level, code)
      case Err(e) => Err(e)
      case Ok(t1) =>
        var spec := specs[|specs| - 1];
        match InsertFolder(t1, spec.id, RowOf(spec, parents, level, code))
        case Err(e) => Err(e)
        case Ok(t2) => Ok(Audited(t2, "folder", spec.id, "create"))
  }

  /** Level-1 folders, one per environment; every environment must be active. */
  function CreateTopLevelFolders(t: Tables, code: string, specs: seq<Spec>): Result<Tables> {
    if specs == [] then Err(ErrOther)
    else if exists k :: 0 <= k < |specs| && !ActiveEnvironment(t, specs[k].name) then Err(ErrNotFound)
    else InsertFolders(t, specs, map[], 1, code)
  }

  predicate IsSibling(t: Tables, envId: Id, parentCode: string, f: Id) {
    ActiveFolder(t, f) && t.folders[f].environmentId == envId && t.folders[f].code == parentCode && t.folders[f].level == 1
  }

  predicate HasSibling(t: Tables, envId: Id, parentCode: string) {
    exists f :: f in t.folders && IsSibling(t, envId, parentCode, f)
  }

  /** The unique indexes leave at most one candidate. */
  ghost function Sibling(t: Tables, envId: Id, parentCode: string): Id
    requires HasSibling(t, envId, parentCode)
  {
    var f :| f in t.folders && IsSibling(t, envId, parentCode, f); f
  }

  lemma {:induction false} SiblingUnique(t: Tables, envId: Id, parentCode: string, f: Id)
    requires Unique(t) && FoldersNested(t.folders) && IsSibling(t, envId, parentCode, f)
    ensures HasSibling(t, envId, parentCode) && Sibling(t, envId, parentCode) == f
  {
    assert f in t.folders;
    var g := Sibling(t, envId, parentCode);
    assert Nested(t.folders, t.folders[f]) && Nested(t.folders, t.folders[g]);
    assert SamePlace(t.folders[f], t.folders[g]);
  }

  ghost function Siblings(t: Tables, specs: seq<Spec>, parentCode: string): map<Id, Id> {
    map k | 0 <= k < |specs| && HasSibling(t, specs[k].name, parentCode) ::
      specs[k].name := Sibling(t, specs[k].name, parentCode)
  }

  /** Level-2 folders, one per environment, each under that environment's level-1 folder with parentCode. */
  ghost function CreateFoldersAcross(t: Tables, parentCode: string, code: string, specs: seq<Spec>): Result<Tables> {
    if specs == [] || TrimSpace(parentCode) == "" then Err(ErrOther)
    else if exists k :: 0 <= k < |specs| && !ActiveEnvironment(t, specs[k].name) then Err(ErrNotFound)
    else if exists k :: 0 <= k < |specs| && !HasSibling(t, specs[k].name, parentCode) then Err(ErrNotFound)
    else InsertFolders(t, specs, Siblings(t, specs, parentCode), 2, code)
  }

  function CreateSecret(t: Tables, id: Id, folderId: Id, key: string, ciphertext: string,
                        comment: string): Result<Tables> {
    match InsertSecret(t, id, SecretRow(folderId, key, ciphertext, comment, 1, false))
    case Err(e) => Err(e)
    case Ok(t1) => Ok(Audited(t1, "secret", id, "create"))
  }

  // ---- soft deletes ----

  function DeleteOrgs(t: Tables, ids: set<Id>): Tables {
    t.(orgs := map k | k in t.orgs :: if k in ids then t.orgs[k].(isDeleted := true) else t.orgs[k])
  }

  function DeleteProjects(t: Tables, ids: set<Id>): Tables {
    t.(projects := map k | k in t.projects :: if k in ids then t.projects[k].(isDeleted := true) else t.projects[k])
  }

  function DeleteEnvironments(t: Tables, ids: set<Id>): Tables {
    t.(environments := map k | k in t.environments ::
         if k in ids then t.environments[k].(isDeleted := true) else t.environments[k])
  }

  function DeleteFolders(t: Tables, ids: set<Id>): Tables {
    t.(folders := map k | k in t.folders :: if k in ids then t.folders[k].(isDeleted := true) else t.folders[k])
  }

  function DeleteSecrets(t: Tables, ids: set<Id>): Tables {
    t.(secrets := map k | k in t.secrets :: if k in ids then t.secrets[k].(isDeleted := true) else t.secrets[k])
  }

  /** The subqueries of the cascades. They join on ids alone, whether or not the middle rows are deleted. */
  function ProjectsOf(projects: map<Id, ProjectRow>, orgId: Id): set<Id> {
    set p | p in projects && projects[p].orgId == orgId
  }

  function EnvironmentsOf(environments: map<Id, EnvironmentRow>, projects: set<Id>): set<Id> {
    set e | e in environments && environments[e].projectId in projects
  }

  function FoldersOf(folders: map<Id, FolderRow>, environments: set<Id>): set<Id> {
    set f | f in folders && folders[f].environmentId in environments
  }

  /** The rows each update statement turns, which are the ids it returns. */
  function ActiveProjectsOf(projects: map<Id, ProjectRow>, orgId: Id): set<Id> {
    set p | p in projects && !projects[p].isDeleted && projects[p].orgId == orgId
  }

  function ActiveEnvironmentsOf(environments: map<Id, EnvironmentRow>, projects: set<Id>): set<Id> {
    set e | e in environments && !environments[e].isDeleted && environments[e].projectId in projects
  }

  function ActiveFoldersOf(folders: map<Id, FolderRow>, environments: set<Id>): set<Id> {
    set f | f in folders && !folders[f].isDeleted && folders[f].environmentId in environments
  }

  function ActiveSecretsOf(secrets: map<Id, SecretRow>, folders: set<Id>): set<Id> {
    set s | s in secrets && !secrets[s].isDeleted && secrets[s].folderId in folders
  }

  /** The ids a delete hands to cache invalidation; at most one organization. */
  datatype CascadeScope = CascadeScope(orgs: set<Id>, projects: set<Id>, environments: set<Id>, folders: set<Id>,
                                       secrets: set<Id>)

  datatype Deleted = Deleted(tables: Tables, scope: CascadeScope)

  /** The transaction of an organization delete. */
  function CascadeOrganization(t: Tables, id: Id): Result<Deleted> {
    if !ActiveOrg(t, id) then Err(ErrNotFound)
    else
      var t1 := Audited(DeleteOrgs(t, {id}), "organization", id, "delete");
      var projects := ActiveProjectsOf(t1.projects, id);
      var t2 := DeleteProjects(t1, projects);
      var environments := ActiveEnvironmentsOf(t2.environments, ProjectsOf(t2.projects, id));
      var t3 := DeleteEnvironments(t2, environments);
      var folders := ActiveFoldersOf(t3.folders, EnvironmentsOf(t3.environments, ProjectsOf(t3.projects, id)));
      var t4 := DeleteFolders(t3, folders);
      var parents := FoldersOf(t4.folders, EnvironmentsOf(t4.environments, ProjectsOf(t4.projects, id)));
      var secrets := ActiveSecretsOf(t4.secrets, parents);
      Ok(Deleted(DeleteSecrets(t4, secrets), CascadeScope({id}, projects, environments, folders, secrets)))
  }

  /** The whole call, when nothing comes between the count of active projects and the transaction. */
  function DeleteOrganization(t: Tables, id: Id, force: bool): Result<Deleted> {
    if !force && ActiveProjectsOf(t.projects, id) != {} then Err(ErrConflict) else CascadeOrganization(t, id)
  }

  function DeleteProject(t: Tables, id: Id): Result<Deleted> {
    if !ActiveProject(t, id) then Err(ErrNotFound)
    else
      var t1 := Audited(DeleteProjects(t, {id}), "project", id, "delete");
      var environments := ActiveEnvironmentsOf(t1.environments, {id});
      var t2 := DeleteEnvironments(t1, environments);
      var folders := ActiveFoldersOf(t2.folders, EnvironmentsOf(t2.environments, {id}));
      var t3 := DeleteFolders(t2, folders);
      var secrets := ActiveSecretsOf(t3.secrets, FoldersOf(t3.folders, EnvironmentsOf(t3.environments, {id})));
      Ok(Deleted(DeleteSecrets(t3, secrets), CascadeScope({}, {id}, environments, folders, secrets)))
  }

  function DeleteEnvironment(t: Tables, id: Id): Result<Deleted> {
    if !ActiveEnvironment(t, id) then Err(ErrNotFound)
    else
      var t1 := Audited(DeleteEnvironments(t, {id}), "environment", id, "delete");
      var folders := ActiveFoldersOf(t1.folders, {id});
      var t2 := DeleteFolders(t1, folders);
      var secrets := ActiveSecretsOf(t2.secrets, FoldersOf(t2.folders, {id}));
      Ok(Deleted(DeleteSecrets(t2, secrets), CascadeScope({}, {}, {id}, folders, secrets)))
  }

  /** Only the folder and its own secrets: child folders stay. */
  function DeleteFolder(t: Tables, id: Id): Result<Deleted> {
    if !ActiveFolder(t, id) then Err(ErrNotFound)
    else
      var t1 := Audited(DeleteFolders(t, {id}), "folder", id, "delete");
      var secrets := ActiveSecretsOf(t1.secrets, {id});
      Ok(Deleted(DeleteSecrets(t1, secrets), CascadeScope({}, {}, {}, {id}, secrets)))
  }

  function DeleteSecret(t: Tables, id: Id): Result<Deleted> {
    if !ActiveSecret(t, id) then Err(ErrNotFound)
    else Ok(Deleted(Audited(DeleteSecrets(t, {id}), "secret", id, "delete"), CascadeScope({}, {}, {}, {}, {id})))
  }
}
