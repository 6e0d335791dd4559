/** The resource tables of configs/schema.sql and the constraints declared on them. */
module Tables {
  import opened Wrappers

  type Id = string

  datatype OrganizationRow = OrganizationRow(code: string, isDeleted: bool)
  datatype ProjectRow = ProjectRow(orgId: Id, code: string, isDeleted: bool)
  datatype EnvironmentRow = EnvironmentRow(projectId: Id, code: string, isDeleted: bool)
  datatype FolderRow = FolderRow(environmentId: Id, parentId: Option<Id>, level: int, code: string, isDeleted: bool)
  datatype SecretRow = SecretRow(folderId: Id, key: string, ciphertext: string, comment: string, version: int,
                                 isDeleted: bool)

  /** One row of audit_records. */
  datatype Audit = Audit(resourceType: string, resourceId: Id, action: string)

  datatype Tables = Tables(
    orgs: map<Id, OrganizationRow>,
    projects: map<Id, ProjectRow>,
    environments: map<Id, EnvironmentRow>,
    folders: map<Id, FolderRow>,
    secrets: map<Id, SecretRow>,
    audits: seq<Audit>)

  const EMPTY := Tables(map[], map[], map[], map[], map[], [])

  predicate ActiveOrg(t: Tables, id: Id) { id in t.orgs && !t.orgs[id].isDeleted }
  predicate ActiveProject(t: Tables, id: Id) { id in t.projects && !t.projects[id].isDeleted }
  predicate ActiveEnvironment(t: Tables, id: Id) { id in t.environments && !t.environments[id].isDeleted }
  predicate ActiveFolder(t: Tables, id: Id) { id in t.folders && !t.folders[id].isDeleted }
  predicate ActiveSecret(t: Tables, id: Id) { id in t.secrets && !t.secrets[id].isDeleted }

  /** The active-only unique indexes. */
  ghost predicate Unique(t: Tables) {
    && UniqueOrgs(t.orgs) && UniqueProjects(t.projects) && UniqueEnvironments(t.environments)
    && UniquePlaces(t.folders) && UniqueKeys(t.secrets)
  }

  ghost predicate UniqueOrgs(orgs: map<Id, OrganizationRow>) {
    forall a, b | a in orgs && b in orgs && !orgs[a].isDeleted && !orgs[b].isDeleted
                  && orgs[a].code == orgs[b].code :: a == b
  }

  ghost predicate UniqueProjects(projects: map<Id, ProjectRow>) {
    forall a, b | a in projects && b in projects && !projects[a].isDeleted && !projects[b].isDeleted
                  && SameProject(projects[a], projects[b]) :: a == b
  }

  ghost predicate UniqueEnvironments(environments: map<Id, EnvironmentRow>) {
    forall a, b | a in environments && b in environments && !environments[a].isDeleted && !environments[b].isDeleted
                  && SameEnvironment(environments[a], environments[b]) :: a == b
  }

  ghost predicate UniquePlaces(folders: map<Id, FolderRow>) {
    forall a, b | a in folders && b in folders && !folders[a].isDeleted && !folders[b].isDeleted
                  && SamePlace(folders[a], folders[b]) :: a == b
  }

  /** secrets_folder_key_active_uidx */
  ghost predicate UniqueKeys(secrets: map<Id, SecretRow>) {
    forall a, b | a in secrets && b in secrets && !secrets[a].isDeleted && !secrets[b].isDeleted
                  && SameKey(secrets[a], secrets[b]) :: a == b
  }

  predicate SameProject(a: ProjectRow, b: ProjectRow) { a.orgId == b.orgId && a.code == b.code }

  predicate SameEnvironment(a: EnvironmentRow, b: EnvironmentRow) { a.projectId == b.projectId && a.code == b.code }

  predicate SameKey(a: SecretRow, b: SecretRow) { a.folderId == b.folderId && a.key == b.key }

  /** folders_env_parent_code_active_uidx: a null parent counts as the empty string. */
  predicate SamePlace(a: FolderRow, b: FolderRow) {
    a.environmentId == b.environmentId && a.parentId == b.parentId && a.code == b.code
  }

  /** folders_level_chk, folders_level_parent_chk, and the rule CreateFolder enforces on parents:
      a level-2 folder hangs under a level-1 folder of its own environment. */
  ghost predicate FoldersNested(folders: map<Id, FolderRow>) {
    forall f {:trigger Nested(folders, folders[f])} :: f in folders ==> Nested(folders, folders[f])
  }

  predicate Nested(folders: map<Id, FolderRow>, row: FolderRow) {
    && (row.level == 1 || row.level == 2)
    && (row.level == 1 <==> row.parentId.None?)
    && (row.level == 2 ==>
         && row.parentId.value in folders
         && folders[row.parentId.value].level == 1
         && folders[row.parentId.value].environmentId == row.environmentId)
  }

  /** Every active row's parent is active, from secret up to organization. A level-2 folder's parent folder
      is not part of the chain. */
  ghost predicate Chained(t: Tables) {
    && (forall p :: ActiveProject(t, p) ==> ActiveOrg(t, t.projects[p].orgId))
    && (forall e :: ActiveEnvironment(t, e) ==> ActiveProject(t, t.environments[e].projectId))
    && (forall f :: ActiveFolder(t, f) ==> ActiveEnvironment(t, t.folders[f].environmentId))
    && (forall s :: ActiveSecret(t, s) ==> ActiveFolder(t, t.secrets[s].folderId))
  }

  ghost predicate Consistent(t: Tables) {
    Chained(t) && FoldersNested(t.folders) && Unique(t)
  }

  /** Every row's parent row is there, deleted or not. Only environments have a foreign key that says so; for the others
      it is what a create looked at before it wrote. */
  ghost predicate Anchored(t: Tables) {
    && (forall p :: p in t.projects ==> t.projects[p].orgId in t.orgs)
    && (forall e :: e in t.environments ==> t.environments[e].projectId in t.projects)
    && (forall f :: f in t.folders ==> t.folders[f].environmentId in t.environments)
    && (forall s :: s in t.secrets ==> t.secrets[s].folderId in t.folders)
  }

  /** No row is gone or has moved: what a row hangs under never changes once it is written. */
  ghost predicate LinksKept(t: Tables, t': Tables) {
    && t.orgs.Keys <= t'.orgs.Keys && ProjectsKept(t.projects, t'.projects)
    && EnvironmentsKept(t.environments, t'.environments) && FoldersKept(t.folders, t'.folders)
    && SecretsKept(t.secrets, t'.secrets)
  }

  ghost predicate ProjectsKept(projects: map<Id, ProjectRow>, projects': map<Id, ProjectRow>) {
    forall p :: p in projects ==> p in projects' && projects'[p].orgId == projects[p].orgId
  }

  ghost predicate EnvironmentsKept(environments: map<Id, EnvironmentRow>, environments': map<Id, EnvironmentRow>) {
    forall e :: e in environments ==> e in environments' && environments'[e].projectId == environments[e].projectId
  }

  ghost predicate FoldersKept(folders: map<Id, FolderRow>, folders': map<Id, FolderRow>) {
    forall f :: f in folders ==> f in folders' && SameLinks(folders[f], folders'[f])
  }

  ghost predicate SecretsKept(secrets: map<Id, SecretRow>, secrets': map<Id, SecretRow>) {
    forall s :: s in secrets ==> s in secrets' && secrets'[s].folderId == secrets[s].folderId
  }

  predicate SameLinks(a: FolderRow, b: FolderRow) {
    a.environmentId == b.environmentId && a.parentId == b.parentId && a.level == b.level
  }
}
