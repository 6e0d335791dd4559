/**
 * The resource handlers as steps: a permission guard, one repository transaction, and the upsert or
 * invalidation of the per-type metadata cache. Each request brings its own caller and its own RBAC state.
 */
module Hierarchy {
  import opened Wrappers
  import opened Text
  import opened Tables
  import opened Rbac
  import opened Resources
  import B = SecretBatch

  datatype Op =
    | CreateOrganization(id: Id, code: string)
    | CreateProject(orgId: Id, id: Id, code: string, envs: seq<Spec>)
    | CreateEnvironment(projectId: Id, id: Id, code: string)
    | CreateTopLevelFolders(code: string, specs: seq<Spec>)
    | CreateFoldersAcross(parentCode: string, code: string, specs: seq<Spec>)
    | CreateSecret(id: Id, folderId: Id, key: string, ciphertext: string, comment: string)
    | CreateSecrets(items: seq<B.NewSecret>, ids: seq<Id>)
    | UpdateSecrets(changes: seq<B.Change>)
    | UpdateOrganization(id: Id)
    | UpdateProject(id: Id)
    | UpdateEnvironment(id: Id)
    | UpdateFolder(id: Id)
    | DeleteOrganization(id: Id, force: bool)
    | DeleteProject(id: Id)
    | DeleteEnvironment(id: Id)
    | DeleteFolder(id: Id)
    | DeleteSecret(id: Id)

  datatype Request = Request(rbac: Rbac, now: Time, userId: Id, op: Op)

  /** The ids in the four Redis metadata structures. */
  datatype MetaCache = MetaCache(orgs: set<Id>, projects: set<Id>, environments: set<Id>, folders: set<Id>)

  datatype Server = Server(tables: Tables, cache: MetaCache)

  const INIT := Server(EMPTY, MetaCache({}, {}, {}, {}))

  predicate Allowed(t: Tables, q: Request, code: string, resourceType: string, id: Id) {
    Allow(t, q.rbac, q.now, q.userId, code, resourceType, id).Ok?
  }

  /** The guard each handler or service runs before the repository call. Folder creation has none of its own. */
  predicate Guard(t: Tables, q: Request) {
    match q.op
    case CreateOrganization(_, _) => Allowed(t, q, "org:create", "global", "")
    case CreateProject(orgId, _, _, _) => Allowed(t, q, "project:create", "organization", orgId)
    case CreateEnvironment(projectId, _, _) => Allowed(t, q, "env:create", "project", projectId)
    case CreateTopLevelFolders(_, _) => true
    case CreateFoldersAcross(_, _, _) => true
    case CreateSecret(_, folderId, _, _, _) => Allowed(t, q, "secret:create", "folder", folderId)
    case CreateSecrets(items, _) =>
      forall k :: 0 <= k < |items| ==> Allowed(t, q, "secret:create", "folder", items[k].folderId)
    case UpdateSecrets(changes) =>
      forall k :: 0 <= k < |changes| ==> Allowed(t, q, "secret:update", "secret", changes[k].id)
    case UpdateOrganization(id) => Allowed(t, q, "org:update", "organization", id)
    case UpdateProject(id) => Allowed(t, q, "project:update", "project", id)
    case UpdateEnvironment(id) => Allowed(t, q, "env:update", "environment", id)
    case UpdateFolder(id) => Allowed(t, q, "folder:update", "folder", id)
    case DeleteOrganization(id, force) =>
      Allowed(t, q, "org:delete", "organization", id)
      && (force ==> Allowed(t, q, "org:force_delete", "organization", id))
    case DeleteProject(id) => Allowed(t, q, "project:delete", "project", id)
    case DeleteEnvironment(id) => Allowed(t, q, "env:delete", "environment", id)
    case DeleteFolder(id) => Allowed(t, q, "folder:delete", "folder", id)
    case DeleteSecret(id) => Allowed(t, q, "secret:delete", "secret", id)
  }

  ghost function Create(t: Tables, op: Op): Result<Tables>
    requires IsCreate(op)
  {
    match op
    case CreateOrganization(id, code) => Resources.CreateOrganization(t, id, code)
    case CreateProject(orgId, id, code, envs) => Resources.CreateProject(t, orgId, id, code, envs)
    case CreateEnvironment(projectId, id, code) => Resources.CreateEnvironment(t, projectId, id, code)
    case CreateTopLevelFolders(code, specs) => Resources.CreateTopLevelFolders(t, code, specs)
    case CreateFoldersAcross(parentCode, code, specs) => Resources.CreateFoldersAcross(t, parentCode, code, specs)
    case CreateSecret(id, folderId, key, ciphertext, comment) =>
      Resources.CreateSecret(t, id, folderId, key, ciphertext, comment)
    case CreateSecrets(items, ids) => B.BatchCreated(t, items, ids)
  }

  /** A batch draws one id per item. */
  predicate IsCreate(op: Op) {
    op.CreateOrganization? || op.CreateProject? || op.CreateEnvironment? || op.CreateTopLevelFolders?
    || op.CreateFoldersAcross? || op.CreateSecret? || (op.CreateSecrets? && |op.ids| == |op.items|)
  }

  predicate IsDelete(op: Op) {
    op.DeleteOrganization? || op.DeleteProject? || op.DeleteEnvironment? || op.DeleteFolder? || op.DeleteSecret?
  }

  function Delete(t: Tables, op: Op): Result<Deleted>
    requires IsDelete(op)
  {
    match op
    case DeleteOrganization(id, force) => Resources.DeleteOrganization(t, id, force)
    case DeleteProject(id) => Resources.DeleteProject(t, id)
    case DeleteEnvironment(id) => Resources.DeleteEnvironment(t, id)
    case DeleteFolder(id) => Resources.DeleteFolder(t, id)
    case DeleteSecret(id) => Resources.DeleteSecret(t, id)
  }

  /** The cache after a successful create or update. A project's new environments are not cached. */
  function Upserted(c: MetaCache, op: Op): MetaCache {
    match op
    case CreateOrganization(id, _) => c.(orgs := c.orgs + {id})
    case UpdateOrganization(id) => c.(orgs := c.orgs + {id})
    case CreateProject(_, id, _, _) => c.(projects := c.projects + {id})
    case UpdateProject(id) => c.(projects := c.projects + {id})
    case CreateEnvironment(_, id, _) => c.(environments := c.environments + {id})
    case UpdateEnvironment(id) => c.(environments := c.environments + {id})
    case CreateTopLevelFolders(_, specs) => c.(folders := c.folders + set k | 0 <= k < |specs| :: specs[k].id)
    case CreateFoldersAcross(_, _, specs) => c.(folders := c.folders + set k | 0 <= k < |specs| :: specs[k].id)
    case UpdateFolder(id) => c.(folders := c.folders + {id})
    case _ => c
  }

  /** cacheInvalidateCascade */
  function Invalidated(c: MetaCache, scope: CascadeScope): MetaCache {
    MetaCache(c.orgs - scope.orgs, c.projects - scope.projects, c.environments - scope.environments,
              c.folders - scope.folders)
  }

  class Metadata {
    var cache: MetaCache

    /** Walks the four id lists, dropping one id at a time, in any order. */
    method InvalidateCascade(scope: CascadeScope)
      modifies this
      ensures cache == Invalidated(old(cache), scope)
      ensures forall x :: x in cache.orgs <==> x in old(cache).orgs && x !in scope.orgs
      ensures forall x :: x in cache.projects <==> x in old(cache).projects && x !in scope.projects
      ensures forall x :: x in cache.environments <==> x in old(cache).environments && x !in scope.environments
      ensures forall x :: x in cache.folders <==> x in old(cache).folders && x !in scope.folders
    {
      cache := cache.(orgs := cache.orgs - scope.orgs);
      var ids := scope.projects;
      while ids != {}
        invariant ids <= scope.projects
        invariant cache == old(cache).(orgs := old(cache).orgs - scope.orgs,
                                       projects := old(cache).projects - (scope.projects - ids))
        decreases |ids|
      {
        var id :| id in ids;
        cache := cache.(projects := cache.projects - {id});
        ids := ids - {id};
      }
      ghost var mid := cache;
      ids := scope.environments;
      while ids != {}
        invariant ids <= scope.environments
        invariant cache == mid.(environments := mid.environments - (scope.environments - ids))
        decreases |ids|
      {
        var id :| id in ids;
        cache := cache.(environments := cache.environments - {id});
        ids := ids - {id};
      }
      ids := scope.folders;
      while ids != {}
        invariant ids <= scope.folders
        invariant cache == mid.(environments := mid.environments - scope.environments,
                                folders := mid.folders - (scope.folders - ids))
        decreases |ids|
      {
        var id :| id in ids;
        cache := cache.(folders := cache.folders - {id});
        ids := ids - {id};
      }
    }
  }

  /** updateEntity only touches active rows; nothing modelled here changes. */
  predicate UpdatesActive(t: Tables, op: Op) {
    match op
    case UpdateOrganization(id) => ActiveOrg(t, id)
    case UpdateProject(id) => ActiveProject(t, id)
    case UpdateEnvironment(id) => ActiveEnvironment(t, id)
    case UpdateFolder(id) => ActiveFolder(t, id)
    case _ => false
  }

  /** One admitted request: a failed transaction changes nothing. */
  ghost function Perform(s: Server, op: Op): Server {
    if IsCreate(op) then
      match Create(s.tables, op)
      case Err(_) => s
      case Ok(t) => Server(t, Upserted(s.cache, op))
    else if IsDelete(op) then
      match Delete(s.tables, op)
      case Err(_) => s
      case Ok(d) => Server(d.tables, Invalidated(s.cache, d.scope))
    else if op.UpdateSecrets? then
      match B.BatchUpdated(s.tables, op.changes)
      case Err(_) => s
      case Ok(t) => s.(tables := t)
    else if UpdatesActive(s.tables, op) then s.(cache := Upserted(s.cache, op))
    else s
  }

  /** One request: a refused one changes nothing. */
  ghost function Handle(s: Server, q: Request): Server {
    if Guard(s.tables, q) then Perform(s, q.op) else s
  }

  ghost function Run(s: Server, requests: seq<Request>): Server {
    if requests == [] then s else Handle(Run(s, requests[..|requests| - 1]), requests[|requests| - 1])
  }

  // ---- creates keep the tables consistent ----

  /** The parent a create names, where the guard rather than the repository looks at it. */
  predicate ParentActive(t: Tables, op: Op) {
    match op
    case CreateProject(orgId, _, _, _) => ActiveOrg(t, orgId)
    case CreateEnvironment(projectId, _, _) => ActiveProject(t, projectId)
    case CreateSecret(_, folderId, _, _, _) => ActiveFolder(t, folderId)
    case CreateSecrets(items, _) => forall k :: 0 <= k < |items| ==> ActiveFolder(t, items[k].folderId)
    case _ => true
  }

  lemma {:induction false} GuardedParents(t: Tables, q: Request)
    requires Guard(t, q)
    ensures ParentActive(t, q.op)
  {
    ResourceTypes();
    match q.op {
      case CreateProject(orgId, _, _, _) => AllowedOn(t, q, "project:create", "organization", Organization, orgId);
      case CreateEnvironment(projectId, _, _) => AllowedOn(t, q, "env:create", "project", Project, projectId);
      case CreateSecret(_, folderId, _, _, _) => AllowedOn(t, q, "secret:create", "folder", Folder, folderId);
      case CreateSecrets(items, _) =>
        forall k | 0 <= k < |items|
          ensures ActiveFolder(t, items[k].folderId)
        {
          AllowedOn(t, q, "secret:create", "folder", Folder, items[k].folderId);
        }
      case _ =>
    }
  }

  /** Whatever Allow accepts is active. */
  lemma {:induction false} AllowedOn(t: Tables, q: Request, code: string, resourceType: string, kind: Kind, id: Id)
    requires NormalizeResourceType(resourceType) == Some(kind) && Allowed(t, q, code, resourceType, id)
    ensures kind == Organization ==> ActiveOrg(t, id)
    ensures kind == Project ==> ActiveProject(t, id)
    ensures kind == Environment ==> ActiveEnvironment(t, id)
    ensures kind == Folder ==> ActiveFolder(t, id)
    ensures kind == Secret ==> ActiveSecret(t, id)
  {
    AllowedIsScoped(t, q.rbac, q.now, q.userId, code, resourceType, kind, id);
  }

  /** t' holds every row of t unchanged. */
  ghost predicate Grows(t: Tables, t': Tables) {
    && (forall k :: k in t.orgs ==> k in t'.orgs && t'.orgs[k] == t.orgs[k])
    && (forall k :: k in t.projects ==> k in t'.projects && t'.projects[k] == t.projects[k])
    && (forall k :: k in t.environments ==> k in t'.environments && t'.environments[k] == t.environments[k])
    && (forall k :: k in t.folders ==> k in t'.folders && t'.folders[k] == t.folders[k])
    && (forall k :: k in t.secrets ==> k in t'.secrets && t'.secrets[k] == t.secrets[k])
  }

  lemma {:induction false} InsertOrganizationKeeps(t: Tables, id: Id, code: string)
    requires Consistent(t) && InsertOrganization(t, id, code).Ok?
    ensures var t' := InsertOrganization(t, id, code).value; Consistent(t') && Grows(t, t')
  {
    var t' := InsertOrganization(t, id, code).value;
    assert Chained(t') by {
      assert forall k :: ActiveOrg(t, k) ==> ActiveOrg(t', k);
      assert t'.projects == t.projects && t'.environments == t.environments;
      assert t'.folders == t.folders && t'.secrets == t.secrets;
    }
    assert UniqueOrgs(t'.orgs);
  }

  lemma {:induction false} InsertProjectKeeps(t: Tables, id: Id, orgId: Id, code: string)
    requires Consistent(t) && ActiveOrg(t, orgId) && InsertProject(t, id, orgId, code).Ok?
    ensures var t' := InsertProject(t, id, orgId, code).value; Consistent(t') && Grows(t, t')
  {
    var t' := InsertProject(t, id, orgId, code).value;
    assert Chained(t') by {
      assert forall k :: ActiveProject(t, k) ==> ActiveProject(t', k);
    }
    assert UniqueProjects(t'.projects);
  }

  lemma {:induction false} InsertEnvironmentKeeps(t: Tables, id: Id, projectId: Id, code: string)
    requires Consistent(t) && ActiveProject(t, projectId) && InsertEnvironment(t, id, projectId, code).Ok?
    ensures var t' := InsertEnvironment(t, id, projectId, code).value; Consistent(t') && Grows(t, t')
  {
    var t' := InsertEnvironment(t, id, projectId, code).value;
    assert Chained(t') by {
      assert forall k :: ActiveEnvironment(t, k) ==> ActiveEnvironment(t', k);
    }
    assert UniqueEnvironments(t'.environments);
  }

  lemma {:induction false} InsertFolderChained(t: Tables, id: Id, row: FolderRow)
    requires Chained(t) && ActiveEnvironment(t, row.environmentId) && !row.isDeleted && InsertFolder(t, id, row).Ok?
    ensures Chained(InsertFolder(t, id, row).value)
  {
    var t' := InsertFolder(t, id, row).value;
    assert forall k :: ActiveFolder(t, k) ==> ActiveFolder(t', k);
  }

  lemma {:induction false} InsertFolderKeeps(t: Tables, id: Id, row: FolderRow)
    requires Consistent(t) && ActiveEnvironment(t, row.environmentId) && Nested(t.folders, row) && !row.isDeleted
    requires InsertFolder(t, id, row).Ok?
    ensures var t' := InsertFolder(t, id, row).value; Consistent(t') && Grows(t, t') && ActiveFolder(t', id)
  {
    var t' := InsertFolder(t, id, row).value;
    InsertFolderChained(t, id, row);
    assert UniquePlaces(t'.folders);
    NestedGrows(t.folders, t'.folders, id);
  }

  lemma {:induction false} NestedGrows(folders: map<Id, FolderRow>, folders': map<Id, FolderRow>, id: Id)
    requires FoldersNested(folders) && id !in folders && id in folders' && Nested(folders, folders'[id])
    requires folders' == folders[id := folders'[id]]
    ensures FoldersNested(folders')
  {
    forall f | f in folders'
      ensures Nested(folders', folders'[f])
    {
      if f != id { assert Nested(folders, folders[f]); }
    }
  }

  lemma {:induction false} InsertSecretKeeps(t: Tables, id: Id, row: SecretRow)
    requires Consistent(t) && ActiveFolder(t, row.folderId) && !row.isDeleted && InsertSecret(t, id, row).Ok?
    ensures var t' := InsertSecret(t, id, row).value; Consistent(t') && Grows(t, t')
  {
    var t' := InsertSecret(t, id, row).value;
    assert Chained(t') by {
      assert forall k :: ActiveSecret(t', k) ==> k == id || ActiveSecret(t, k);
    }
    assert UniqueKeys(t'.secrets);
  }

  lemma {:induction false} AuditKeeps(t: Tables, resourceType: string, id: Id, action: string)
    requires Consistent(t)
    ensures Consistent(Audited(t, resourceType, id, action))
  {
    var t' := Audited(t, resourceType, id, action);
    assert t'.orgs == t.orgs && t'.projects == t.projects && t'.environments == t.environments;
    assert t'.folders == t.folders && t'.secrets == t.secrets;
    assert Chained(t');
  }

  lemma {:induction false} InsertEnvironmentsKeeps(t: Tables, projectId: Id, envs: seq<Spec>)
    requires Consistent(t) && ActiveProject(t, projectId) && InsertEnvironments(t, projectId, envs).Ok?
    ensures var t' := InsertEnvironments(t, projectId, envs).value; Consistent(t') && Grows(t, t')
  {
    if envs != [] {
      var before := envs[..|envs| - 1];
      InsertEnvironmentsKeeps(t, projectId, before);
      InsertEnvironmentKeeps(InsertEnvironments(t, projectId, before).value, envs[|envs| - 1].id, projectId,
                             envs[|envs| - 1].name);
    }
  }

  /** The rows InsertFolders is about to write are acceptable. */
  ghost predicate SpecsOk(t: Tables, specs: seq<Spec>, parents: map<Id, Id>, level: int, code: string) {
    && (level == 1 || level == 2)
    && (level == 2 ==> forall k :: 0 <= k < |specs| ==> specs[k].name in parents)
    && (forall k :: 0 <= k < |specs| ==> SpecOk(t, specs[k], parents, level, code))
  }

  ghost predicate SpecOk(t: Tables, spec: Spec, parents: map<Id, Id>, level: int, code: string)
    requires level == 2 ==> spec.name in parents
  {
    ActiveEnvironment(t, spec.name) && Nested(t.folders, RowOf(spec, parents, level, code))
  }

  lemma {:induction false} SpecOkGrows(t: Tables, t': Tables, spec: Spec, parents: map<Id, Id>, level: int,
                                       code: string)
    requires level == 2 ==> spec.name in parents
    requires SpecOk(t, spec, parents, level, code) && Grows(t, t')
    ensures SpecOk(t', spec, parents, level, code)
  {
  }

  lemma {:induction false} InsertFoldersLast(t: Tables, before: seq<Spec>, spec: Spec, parents: map<Id, Id>,
                                             level: int, code: string)
    requires level == 2 ==> spec.name in parents && forall k :: 0 <= k < |before| ==> before[k].name in parents
    requires level == 2 ==> forall k :: 0 <= k < |before + [spec]| ==> (before + [spec])[k].name in parents
    requires InsertFolders(t, before + [spec], parents, level, code).Ok?
    ensures InsertFolders(t, before, parents, level, code).Ok?
    ensures var inserted := InsertFolder(InsertFolders(t, before, parents, level, code).value, spec.id,
                                         RowOf(spec, parents, level, code));
            && inserted.Ok?
            && InsertFolders(t, before + [spec], parents, level, code).value
               == Audited(inserted.value, "folder", spec.id, "create")
  {
    assert (before + [spec])[..|before|] == before;
  }

  lemma {:induction false} InsertFoldersKeeps(t: Tables, specs: seq<Spec>, parents: map<Id, Id>, level: int,
                                              code: string)
    requires Consistent(t) && SpecsOk(t, specs, parents, level, code)
    requires InsertFolders(t, specs, parents, level, code).Ok?
    ensures var t' := InsertFolders(t, specs, parents, level, code).value;
            Consistent(t') && Grows(t, t') && NewFoldersActive(t', specs)
  {
    if specs != [] {
      var before, spec := specs[..|specs| - 1], specs[|specs| - 1];
      assert specs == before + [spec];
      InsertFoldersLast(t, before, spec, parents, level, code);
      InsertFoldersKeeps(t, before, parents, level, code);
      assert SpecOk(t, specs[|specs| - 1], parents, level, code);
      InsertFolderNext(t, InsertFolders(t, before, parents, level, code).value, before, spec, parents, level, code);
    }
  }

  lemma {:induction false} InsertFolderNext(t: Tables, t1: Tables, before: seq<Spec>, spec: Spec, parents: map<Id, Id>,
                                            level: int, code: string)
    requires level == 2 ==> spec.name in parents
    requires Consistent(t1) && Grows(t, t1) && NewFoldersActive(t1, before) && SpecOk(t, spec, parents, level, code)
    requires InsertFolder(t1, spec.id, RowOf(spec, parents, level, code)).Ok?
    ensures var t2 := Audited(InsertFolder(t1, spec.id, RowOf(spec, parents, level, code)).value, "folder", spec.id, "create");
            Consistent(t2) && Grows(t, t2) && NewFoldersActive(t2, before + [spec])
  {
    SpecOkGrows(t, t1, spec, parents, level, code);
    InsertFolderKeeps(t1, spec.id, RowOf(spec, parents, level, code));
    AuditKeeps(InsertFolder(t1, spec.id, RowOf(spec, parents, level, code)).value, "folder", spec.id, "create");
  }

  /** The folders a request creates. */
  predicate NewFoldersActive(t: Tables, specs: seq<Spec>) {
    forall k :: 0 <= k < |specs| ==> ActiveFolder(t, specs[k].id)
  }

  lemma {:induction false} CreateOrganizationKeeps(t: Tables, id: Id, code: string)
    requires Consistent(t) && Resources.CreateOrganization(t, id, code).Ok?
    ensures var t' := Resources.CreateOrganization(t, id, code).value;
            Consistent(t') && Grows(t, t') && ActiveOrg(t', id)
  {
    InsertOrganizationKeeps(t, id, code);
    AuditKeeps(InsertOrganization(t, id, code).value, "organization", id, "create");
  }

  lemma {:induction false} CreateProjectKeeps(t: Tables, orgId: Id, id: Id, code: string, envs: seq<Spec>)
    requires Consistent(t) && ActiveOrg(t, orgId) && Resources.CreateProject(t, orgId, id, code, envs).Ok?
    ensures var t' := Resources.CreateProject(t, orgId, id, code, envs).value;
            Consistent(t') && Grows(t, t') && ActiveProject(t', id)
  {
    InsertProjectKeeps(t, id, orgId, code);
    var t1 := InsertProject(t, id, orgId, code).value;
    InsertEnvironmentsKeeps(t1, id, envs);
    AuditKeeps(InsertEnvironments(t1, id, envs).value, "project", id, "create");
  }

  lemma {:induction false} CreateEnvironmentKeeps(t: Tables, projectId: Id, id: Id, code: string)
    requires Consistent(t) && ActiveProject(t, projectId) && Resources.CreateEnvironment(t, projectId, id, code).Ok?
    ensures var t' := Resources.CreateEnvironment(t, projectId, id, code).value;
            Consistent(t') && Grows(t, t') && ActiveEnvironment(t', id)
  {
    InsertEnvironmentKeeps(t, id, projectId, code);
    AuditKeeps(InsertEnvironment(t, id, projectId, code).value, "environment", id, "create");
  }

  lemma {:induction false} CreateSecretKeeps(t: Tables, id: Id, folderId: Id, key: string, ciphertext: string,
                                             comment: string)
    requires Consistent(t) && ActiveFolder(t, folderId)
    requires Resources.CreateSecret(t, id, folderId, key, ciphertext, comment).Ok?
    ensures var t' := Resources.CreateSecret(t, id, folderId, key, ciphertext, comment).value;
            Consistent(t') && Grows(t, t')
  {
    var row := SecretRow(folderId, key, ciphertext, comment, 1, false);
    InsertSecretKeeps(t, id, row);
    AuditKeeps(InsertSecret(t, id, row).value, "secret", id, "create");
  }

  lemma {:induction false} InsertedKeeps(t: Tables, items: seq<B.NewSecret>, ids: seq<Id>)
    requires Consistent(t) && |ids| == |items| && B.Inserted(t, items, ids).Ok?
    requires forall k :: 0 <= k < |items| ==> ActiveFolder(t, items[k].folderId)
    ensures var t' := B.Inserted(t, items, ids).value; Consistent(t') && Grows(t, t')
  {
    if items != [] {
      var n := |items| - 1;
      InsertedKeeps(t, items[..n], ids[..n]);
      var t1 := B.Inserted(t, items[..n], ids[..n]).value;
      assert ActiveFolder(t1, items[n].folderId);
      InsertSecretKeeps(t1, ids[n], B.RowFor(items[n]));
    }
  }

  lemma {:induction false} CreateSecretsKeeps(t: Tables, items: seq<B.NewSecret>, ids: seq<Id>)
    requires Consistent(t) && |ids| == |items| && B.BatchCreated(t, items, ids).Ok?
    requires forall k :: 0 <= k < |items| ==> ActiveFolder(t, items[k].folderId)
    ensures var t' := B.BatchCreated(t, items, ids).value; Consistent(t') && Grows(t, t')
  {
    if items != [] {
      InsertedKeeps(t, items, ids);
      AuditKeeps(B.Inserted(t, items, ids).value, "folder", B.TemplateFolder(items), "create_batch");
    }
  }

  /** Changing keys and values moves no secret. */
  lemma {:induction false} UpdateSecretsKeeps(t: Tables, changes: seq<B.Change>)
    requires Consistent(t) && B.BatchUpdated(t, changes).Ok?
    ensures Consistent(B.BatchUpdated(t, changes).value)
  {
    if changes != [] {
      var t' := B.BatchUpdated(t, changes).value;
      B.UpdateExact(t, changes);
      forall s | ActiveSecret(t', s)
        ensures ActiveFolder(t', t'.secrets[s].folderId)
      {
        assert t'.secrets[s] == B.Final(t.secrets[s], changes, s);
        assert ActiveSecret(t, s);
      }
    }
  }

  lemma {:induction false} SiblingsOk(t: Tables, specs: seq<Spec>, parentCode: string, code: string, k: nat)
    requires k < |specs| && HasSibling(t, specs[k].name, parentCode) && ActiveEnvironment(t, specs[k].name)
    ensures specs[k].name in Siblings(t, specs, parentCode)
    ensures SpecOk(t, specs[k], Siblings(t, specs, parentCode), 2, code)
  {
    assert IsSibling(t, specs[k].name, parentCode, Siblings(t, specs, parentCode)[specs[k].name]);
  }

  lemma {:induction false} CreateTopLevelFoldersKeeps(t: Tables, code: string, specs: seq<Spec>)
    requires Consistent(t) && Resources.CreateTopLevelFolders(t, code, specs).Ok?
    ensures var t' := Resources.CreateTopLevelFolders(t, code, specs).value;
            Consistent(t') && Grows(t, t') && NewFoldersActive(t', specs)
  {
    InsertFoldersKeeps(t, specs, map[], 1, code);
  }

  lemma {:induction false} CreateFoldersAcrossKeeps(t: Tables, parentCode: string, code: string, specs: seq<Spec>)
    requires Consistent(t) && Resources.CreateFoldersAcross(t, parentCode, code, specs).Ok?
    ensures var t' := Resources.CreateFoldersAcross(t, parentCode, code, specs).value;
            Consistent(t') && Grows(t, t') && NewFoldersActive(t', specs)
  {
    var siblings := Siblings(t, specs, parentCode);
    forall k | 0 <= k < |specs|
      ensures specs[k].name in siblings
      ensures SpecOk(t, specs[k], siblings, 2, code)
    {
      SiblingsOk(t, specs, parentCode, code, k);
    }
    InsertFoldersKeeps(t, specs, siblings, 2, code);
  }

  lemma {:induction false} CacheGrows(t: Tables, t': Tables, c: MetaCache)
    requires Grows(t, t') && CacheLive(Server(t, c))
    ensures CacheLive(Server(t', c))
  {
  }

  /** What the request puts in the cache is active. */
  ghost predicate NewRowsActive(t: Tables, op: Op) {
    match op
    case CreateOrganization(id, _) => ActiveOrg(t, id)
    case CreateProject(_, id, _, _) => ActiveProject(t, id)
    case CreateEnvironment(_, id, _) => ActiveEnvironment(t, id)
    case CreateTopLevelFolders(_, specs) => NewFoldersActive(t, specs)
    case CreateFoldersAcross(_, _, specs) => NewFoldersActive(t, specs)
    case _ => true
  }

  lemma {:induction false} CreateKeepsRows(t: Tables, op: Op)
    requires Consistent(t) && IsCreate(op) && ParentActive(t, op) && Create(t, op).Ok?
    ensures Consistent(Create(t, op).value) && Grows(t, Create(t, op).value) && NewRowsActive(Create(t, op).value, op)
  {
    match op {
      case CreateOrganization(id, code) => CreateOrganizationKeeps(t, id, code);
      case CreateProject(orgId, id, code, envs) => CreateProjectKeeps(t, orgId, id, code, envs);
      case CreateEnvironment(projectId, id, code) => CreateEnvironmentKeeps(t, projectId, id, code);
      case CreateTopLevelFolders(code, specs) => CreateTopLevelFoldersKeeps(t, code, specs);
      case CreateFoldersAcross(parentCode, code, specs) => CreateFoldersAcrossKeeps(t, parentCode, code, specs);
      case CreateSecret(id, folderId, key, ciphertext, comment) =>
        CreateSecretKeeps(t, id, folderId, key, ciphertext, comment);
      case CreateSecrets(items, ids) => CreateSecretsKeeps(t, items, ids);
    }
  }

  lemma {:induction false} UpsertLive(t: Tables, op: Op, c: MetaCache)
    requires IsCreate(op) && CacheLive(Server(t, c)) && NewRowsActive(t, op)
    ensures CacheLive(Server(t, Upserted(c, op)))
  {
  }

  /** A create whose parent is active keeps the tables consistent, keeps every row, and what it caches is active. */
  lemma {:induction false} CreateKeeps(t: Tables, op: Op, c: MetaCache)
    requires Consistent(t) && IsCreate(op) && ParentActive(t, op) && Create(t, op).Ok? && CacheLive(Server(t, c))
    ensures var t' := Create(t, op).value;
            Consistent(t') && Grows(t, t') && CacheLive(Server(t', Upserted(c, op)))
  {
    CreateKeepsRows(t, op);
    CacheGrows(t, Create(t, op).value, c);
    UpsertLive(Create(t, op).value, op, c);
  }

  /** Without its guard a create keeps the tables consistent exactly when the parent is active as it is written. */
  lemma {:induction false} CreateConsistentIff(t: Tables, op: Op)
    requires Consistent(t) && IsCreate(op) && Create(t, op).Ok?
    ensures Consistent(Create(t, op).value) <==> ParentActive(t, op)
  {
    if ParentActive(t, op) {
      CreateKeepsRows(t, op);
    } else if op.CreateProject? {
      CreateProjectExact(t, op.orgId, op.id, op.code, op.envs);
      assert ActiveProject(Create(t, op).value, op.id);
    } else if op.CreateSecret? {
      assert ActiveSecret(Create(t, op).value, op.id);
    } else {
      var k :| 0 <= k < |op.items| && !ActiveFolder(t, op.items[k].folderId);
      B.CreateExact(t, op.items, op.ids);
      assert op.ids[k] in op.ids && ActiveSecret(Create(t, op).value, op.ids[k]);
    }
  }

  // ---- creates add exactly their rows ----

  function SpecIds(specs: seq<Spec>): set<Id> {
    if specs == [] then {} else SpecIds(specs[..|specs| - 1]) + {specs[|specs| - 1].id}
  }

  lemma {:induction false} SpecIdIn(specs: seq<Spec>, k: nat)
    requires k < |specs|
    ensures specs[k].id in SpecIds(specs)
  {
    if k < |specs| - 1 { SpecIdIn(specs[..|specs| - 1], k); }
  }

  lemma {:induction false} EnvironmentsAdded(t: Tables, projectId: Id, envs: seq<Spec>)
    requires InsertEnvironments(t, projectId, envs).Ok?
    ensures var t' := InsertEnvironments(t, projectId, envs).value;
            && t' == t.(environments := t'.environments) && SpecIds(envs) !! t.environments.Keys
            && t'.environments.Keys == t.environments.Keys + SpecIds(envs)
            && (forall e :: e in t.environments ==> t'.environments[e] == t.environments[e])
  {
    if envs != [] { EnvironmentsAdded(t, projectId, envs[..|envs| - 1]); }
  }

  lemma {:induction false} EnvironmentRowAdded(t: Tables, projectId: Id, envs: seq<Spec>, k: nat)
    requires InsertEnvironments(t, projectId, envs).Ok? && k < |envs|
    ensures var environments := InsertEnvironments(t, projectId, envs).value.environments;
            envs[k].id in environments && environments[envs[k].id] == EnvironmentRow(projectId, envs[k].name, false)
  {
    if k < |envs| - 1 {
      EnvironmentRowAdded(t, projectId, envs[..|envs| - 1], k);
    }
  }

  /** A project is created with exactly its environments and one audit record. */
  lemma {:induction false} CreateProjectExact(t: Tables, orgId: Id, id: Id, code: string, envs: seq<Spec>)
    requires Resources.CreateProject(t, orgId, id, code, envs).Ok?
    ensures var t' := Resources.CreateProject(t, orgId, id, code, envs).value;
            && id !in t.projects && t'.projects == t.projects[id := ProjectRow(orgId, code, false)]
            && t'.orgs == t.orgs && t'.folders == t.folders && t'.secrets == t.secrets
            && t'.environments.Keys == t.environments.Keys + SpecIds(envs) && SpecIds(envs) !! t.environments.Keys
            && (forall e :: e in t.environments ==> t'.environments[e] == t.environments[e])
            && (forall k :: 0 <= k < |envs| ==> envs[k].id in t'.environments
                                                && t'.environments[envs[k].id] == EnvironmentRow(id, envs[k].name, false))
            && t'.audits == t.audits + [Audit("project", id, "create")]
  {
    var t1 := InsertProject(t, id, orgId, code).value;
    EnvironmentsAdded(t1, id, envs);
    forall k | 0 <= k < |envs|
      ensures var environments := InsertEnvironments(t1, id, envs).value.environments;
              envs[k].id in environments && environments[envs[k].id] == EnvironmentRow(id, envs[k].name, false)
    {
      EnvironmentRowAdded(t1, id, envs, k);
    }
  }

  /** The audit records of the folders created, in order. */
  function FolderAudits(specs: seq<Spec>): seq<Audit> {
    if specs == [] then []
    else FolderAudits(specs[..|specs| - 1]) + [Audit("folder", specs[|specs| - 1].id, "create")]
  }

  /** Folder creation adds one new row and one audit record per spec and leaves everything else. */
  lemma {:induction false} FoldersAdded(t: Tables, specs: seq<Spec>, parents: map<Id, Id>, level: int, code: string)
    requires level == 2 ==> forall k :: 0 <= k < |specs| ==> specs[k].name in parents
    requires InsertFolders(t, specs, parents, level, code).Ok?
    ensures var t' := InsertFolders(t, specs, parents, level, code).value;
            && t' == t.(folders := t'.folders, audits := t'.audits) && SpecIds(specs) !! t.folders.Keys
            && t'.folders.Keys == t.folders.Keys + SpecIds(specs)
            && (forall f :: f in t.folders ==> t'.folders[f] == t.folders[f])
            && t'.audits == t.audits + FolderAudits(specs)
  {
    if specs != [] { FoldersAdded(t, specs[..|specs| - 1], parents, level, code); }
  }

  lemma {:induction false} FolderRowAdded(t: Tables, specs: seq<Spec>, parents: map<Id, Id>, level: int, code: string,
                                          k: nat)
    requires level == 2 ==> forall j :: 0 <= j < |specs| ==> specs[j].name in parents
    requires InsertFolders(t, specs, parents, level, code).Ok? && k < |specs|
    ensures var folders := InsertFolders(t, specs, parents, level, code).value.folders;
            specs[k].id in folders && folders[specs[k].id] == RowOf(specs[k], parents, level, code)
  {
    if k < |specs| - 1 {
      FolderRowAdded(t, specs[..|specs| - 1], parents, level, code, k);
    }
  }

  /** Each level-1 folder is created as asked. */
  lemma {:induction false} CreateTopLevelFoldersExact(t: Tables, code: string, specs: seq<Spec>, k: nat)
    requires Resources.CreateTopLevelFolders(t, code, specs).Ok? && k < |specs|
    ensures var t' := Resources.CreateTopLevelFolders(t, code, specs).value;
            && specs[k].id !in t.folders && specs[k].id in t'.folders
            && t'.folders[specs[k].id] == FolderRow(specs[k].name, None, 1, code, false)
  {
    FoldersAdded(t, specs, map[], 1, code);
    SpecIdIn(specs, k);
    FolderRowAdded(t, specs, map[], 1, code, k);
  }

  /** Each level-2 folder is created in its asked environment under that environment's own level-1 folder of the
      parent code. */
  lemma {:induction false} CreateFoldersAcrossExact(t: Tables, parentCode: string, code: string, specs: seq<Spec>,
                                                    k: nat)
    requires Resources.CreateFoldersAcross(t, parentCode, code, specs).Ok? && k < |specs|
    ensures var t' := Resources.CreateFoldersAcross(t, parentCode, code, specs).value;
            && specs[k].id !in t.folders && specs[k].id in t'.folders
            && var row := t'.folders[specs[k].id];
               && row.environmentId == specs[k].name && row.level == 2 && row.code == code && !row.isDeleted
               && row.parentId.Some? && IsSibling(t, specs[k].name, parentCode, row.parentId.value)
  {
    var siblings := Siblings(t, specs, parentCode);
    FoldersAdded(t, specs, siblings, 2, code);
    SpecIdIn(specs, k);
    FolderRowAdded(t, specs, siblings, 2, code, k);
    SiblingsOk(t, specs, parentCode, code, k);
    assert IsSibling(t, specs[k].name, parentCode, siblings[specs[k].name]);
  }

  // ---- when creates commit ----

  /** The k-th environment of a project create can be inserted: its id is new, and neither an active environment of the
      project nor an earlier one of the list has its code. */
  ghost predicate EnvironmentFits(t: Tables, projectId: Id, envs: seq<Spec>, k: nat)
    requires k < |envs|
  {
    && envs[k].id !in t.environments && (forall j :: 0 <= j < k ==> envs[j].id != envs[k].id && envs[j].name != envs[k].name)
    && forall e :: ActiveEnvironment(t, e) ==>
         !(t.environments[e].projectId == projectId && t.environments[e].code == envs[k].name)
  }

  lemma {:induction false} EnvironmentConflict(t: Tables, projectId: Id, envs: seq<Spec>, n: nat)
    requires n < |envs| && InsertEnvironments(t, projectId, envs[..n]).Ok?
    ensures var t1 := InsertEnvironments(t, projectId, envs[..n]).value; var row := EnvironmentRow(projectId, envs[n].name, false);
            (exists e :: e in t1.environments && !t1.environments[e].isDeleted && SameEnvironment(t1.environments[e], row)) <==>
            || (exists e :: ActiveEnvironment(t, e) && SameEnvironment(t.environments[e], row))
            || (exists j :: 0 <= j < n && envs[j].name == envs[n].name)
  {
    var t1, row := InsertEnvironments(t, projectId, envs[..n]).value, EnvironmentRow(projectId, envs[n].name, false);
    EnvironmentsAdded(t, projectId, envs[..n]);
    forall j | 0 <= j < n
      ensures envs[j].id in t1.environments && t1.environments[envs[j].id] == EnvironmentRow(projectId, envs[j].name, false)
    {
      EnvironmentRowAdded(t, projectId, envs[..n], j);
    }
    if e :| e in t1.environments && !t1.environments[e].isDeleted && SameEnvironment(t1.environments[e], row) {
      if e !in t.environments {
        var j := SpecIdHas(envs[..n], e);
        assert envs[j].name == envs[n].name;
      }
    }
    if e :| ActiveEnvironment(t, e) && SameEnvironment(t.environments[e], row) {
      assert e in t1.environments && SameEnvironment(t1.environments[e], row);
    }
    if j :| 0 <= j < n && envs[j].name == envs[n].name {
      assert SameEnvironment(t1.environments[envs[j].id], row);
    }
  }

  lemma {:induction false} SpecIdHas(specs: seq<Spec>, id: Id) returns (k: nat)
    requires id in SpecIds(specs)
    ensures k < |specs| && specs[k].id == id
  {
    if specs[|specs| - 1].id == id {
      k := |specs| - 1;
    } else {
      k := SpecIdHas(specs[..|specs| - 1], id);
    }
  }

  lemma {:induction false} SpecIdIff(specs: seq<Spec>, id: Id)
    ensures id in SpecIds(specs) <==> exists k :: 0 <= k < |specs| && specs[k].id == id
  {
    if id in SpecIds(specs) {
      var k := SpecIdHas(specs, id);
    }
    if k :| 0 <= k < |specs| && specs[k].id == id { SpecIdIn(specs, k); }
  }

  lemma {:induction false} NextEnvironmentFits(t: Tables, projectId: Id, envs: seq<Spec>, n: nat)
    requires projectId in t.projects && n < |envs| && InsertEnvironments(t, projectId, envs[..n]).Ok?
    ensures var result := InsertEnvironment(InsertEnvironments(t, projectId, envs[..n]).value, envs[n].id, projectId,
                                            envs[n].name);
            && (result.Ok? <==> EnvironmentFits(t, projectId, envs, n)) && (result.Err? ==> result == Err(ErrConflict))
  {
    EnvironmentsAdded(t, projectId, envs[..n]);
    EnvironmentConflict(t, projectId, envs, n);
    SpecIdIff(envs[..n], envs[n].id);
    assert forall j :: 0 <= j < n ==> envs[..n][j] == envs[j];
    assert envs[n].id in SpecIds(envs[..n]) <==> exists j :: 0 <= j < n && envs[j].id == envs[n].id;
  }

  lemma {:induction false} EnvironmentsFit(t: Tables, projectId: Id, envs: seq<Spec>)
    requires projectId in t.projects
    ensures InsertEnvironments(t, projectId, envs).Ok? <==> forall k :: 0 <= k < |envs| ==> EnvironmentFits(t, projectId, envs, k)
    ensures InsertEnvironments(t, projectId, envs).Err? ==> InsertEnvironments(t, projectId, envs) == Err(ErrConflict)
  {
    if envs != [] {
      var n := |envs| - 1;
      EnvironmentsFit(t, projectId, envs[..n]);
      forall k | 0 <= k < n
        ensures EnvironmentFits(t, projectId, envs[..n], k) <==> EnvironmentFits(t, projectId, envs, k)
      {
        assert forall j :: 0 <= j <= k ==> envs[..n][j] == envs[j];
      }
      if InsertEnvironments(t, projectId, envs[..n]).Ok? { NextEnvironmentFits(t, projectId, envs, n); }
    }
  }

  /** A project create commits exactly when the id is new, no active project of the organization has the code, and every
      environment fits; otherwise it answers a conflict. */
  lemma {:induction false} CreateProjectCommitsIff(t: Tables, orgId: Id, id: Id, code: string, envs: seq<Spec>)
    ensures Resources.CreateProject(t, orgId, id, code, envs).Ok? <==>
            && id !in t.projects
            && (forall p :: ActiveProject(t, p) ==> !(t.projects[p].orgId == orgId && t.projects[p].code == code))
            && forall k :: 0 <= k < |envs| ==> EnvironmentFits(t, id, envs, k)
    ensures Resources.CreateProject(t, orgId, id, code, envs).Err? ==>
            Resources.CreateProject(t, orgId, id, code, envs) == Err(ErrConflict)
  {
    if InsertProject(t, id, orgId, code).Ok? {
      var t1 := InsertProject(t, id, orgId, code).value;
      EnvironmentsFit(t1, id, envs);
      assert forall k :: 0 <= k < |envs| ==> (EnvironmentFits(t1, id, envs, k) <==> EnvironmentFits(t, id, envs, k));
    }
  }

  /** The k-th folder of a create can be inserted: its id is new, and no active folder, nor an earlier one of the list,
      is in its place. */
  ghost predicate FolderFits(t: Tables, specs: seq<Spec>, parents: map<Id, Id>, level: int, code: string, k: nat)
    requires k < |specs| && (level == 2 ==> forall j :: 0 <= j < |specs| ==> specs[j].name in parents)
  {
    && specs[k].id !in t.folders && (forall j :: 0 <= j < k ==> specs[j].id != specs[k].id && specs[j].name != specs[k].name)
    && forall f :: ActiveFolder(t, f) ==>
         !(t.folders[f].environmentId == specs[k].name && t.folders[f].code == code
           && t.folders[f].parentId == if level == 2 then Some(parents[specs[k].name]) else None)
  }

  lemma {:induction false} FolderFitsBefore(t: Tables, specs: seq<Spec>, parents: map<Id, Id>, level: int, code: string,
                                            n: nat, k: nat)
    requires k < n <= |specs| && (level == 2 ==> forall j :: 0 <= j < |specs| ==> specs[j].name in parents)
    ensures FolderFits(t, specs[..n], parents, level, code, k) <==> FolderFits(t, specs, parents, level, code, k)
  {
    assert forall j :: 0 <= j <= k ==> specs[..n][j] == specs[j];
  }

  lemma {:induction false} FolderConflict(t: Tables, specs: seq<Spec>, parents: map<Id, Id>, level: int, code: string,
                                          n: nat)
    requires n < |specs| && (level == 2 ==> forall j :: 0 <= j < |specs| ==> specs[j].name in parents)
    requires InsertFolders(t, specs[..n], parents, level, code).Ok?
    ensures var t1 := InsertFolders(t, specs[..n], parents, level, code).value;
            var row := RowOf(specs[n], parents, level, code);
            (exists f :: f in t1.folders && !t1.folders[f].isDeleted && SamePlace(t1.folders[f], row)) <==>
            || (exists f :: ActiveFolder(t, f) && SamePlace(t.folders[f], row))
            || (exists j :: 0 <= j < n && specs[j].name == specs[n].name)
  {
    var t1 := InsertFolders(t, specs[..n], parents, level, code).value;
    var row := RowOf(specs[n], parents, level, code);
    FoldersAdded(t, specs[..n], parents, level, code);
    forall j | 0 <= j < n
      ensures specs[j].id in t1.folders && t1.folders[specs[j].id] == RowOf(specs[j], parents, level, code)
    {
      FolderRowAdded(t, specs[..n], parents, level, code, j);
    }
    if f :| f in t1.folders && !t1.folders[f].isDeleted && SamePlace(t1.folders[f], row) {
      if f !in t.folders {
        var j := SpecIdHas(specs[..n], f);
        assert specs[j].name == specs[n].name;
      }
    }
    if f :| ActiveFolder(t, f) && SamePlace(t.folders[f], row) {
      assert f in t1.folders && SamePlace(t1.folders[f], row);
    }
    if j :| 0 <= j < n && specs[j].name == specs[n].name {
      assert SamePlace(t1.folders[specs[j].id], row);
    }
  }

  lemma {:induction false} NextFolderFits(t: Tables, specs: seq<Spec>, parents: map<Id, Id>, level: int, code: string,
                                          n: nat)
    requires n < |specs| && (level == 2 ==> forall j :: 0 <= j < |specs| ==> specs[j].name in parents)
    requires InsertFolders(t, specs[..n], parents, level, code).Ok?
    ensures var result := InsertFolder(InsertFolders(t, specs[..n], parents, level, code).value, specs[n].id,
                                       RowOf(specs[n], parents, level, code));
            && (result.Ok? <==> FolderFits(t, specs, parents, level, code, n)) && (result.Err? ==> result == Err(ErrConflict))
  {
    FoldersAdded(t, specs[..n], parents, level, code);
    FolderConflict(t, specs, parents, level, code, n);
    SpecIdIff(specs[..n], specs[n].id);
    assert forall j :: 0 <= j < n ==> specs[..n][j] == specs[j];
    assert specs[n].id in SpecIds(specs[..n]) <==> exists j :: 0 <= j < n && specs[j].id == specs[n].id;
  }

  /** Folders are created exactly when every one fits; otherwise the answer is a conflict. */
  lemma {:induction false} FoldersCommitIff(t: Tables, specs: seq<Spec>, parents: map<Id, Id>, level: int, code: string)
    requires level == 2 ==> forall j :: 0 <= j < |specs| ==> specs[j].name in parents
    ensures InsertFolders(t, specs, parents, level, code).Ok? <==>
            forall k :: 0 <= k < |specs| ==> FolderFits(t, specs, parents, level, code, k)
    ensures InsertFolders(t, specs, parents, level, code).Err? ==>
            InsertFolders(t, specs, parents, level, code) == Err(ErrConflict)
  {
    if specs != [] {
      var n := |specs| - 1;
      FoldersCommitIff(t, specs[..n], parents, level, code);
      forall k | 0 <= k < n
        ensures FolderFits(t, specs[..n], parents, level, code, k) <==> FolderFits(t, specs, parents, level, code, k)
      {
        FolderFitsBefore(t, specs, parents, level, code, n, k);
      }
      if InsertFolders(t, specs[..n], parents, level, code).Ok? { NextFolderFits(t, specs, parents, level, code, n); }
    }
  }

  /** What the level-1 create answers. */
  lemma {:induction false} TopLevelAnswers(t: Tables, code: string, specs: seq<Spec>)
    ensures Resources.CreateTopLevelFolders(t, code, specs).Ok? <==>
            && specs != [] && (forall k :: 0 <= k < |specs| ==> ActiveEnvironment(t, specs[k].name))
            && forall k :: 0 <= k < |specs| ==> FolderFits(t, specs, map[], 1, code, k)
    ensures Resources.CreateTopLevelFolders(t, code, specs).Err? ==>
            Resources.CreateTopLevelFolders(t, code, specs)
            == Err(if specs == [] then ErrOther
                   else if exists k :: 0 <= k < |specs| && !ActiveEnvironment(t, specs[k].name) then ErrNotFound
                   else ErrConflict)
  {
    FoldersCommitIff(t, specs, map[], 1, code);
  }

  /** What the level-2 create answers: each environment must have an active level-1 folder of the parent code. */
  lemma {:induction false} AcrossAnswers(t: Tables, parentCode: string, code: string, specs: seq<Spec>)
    ensures Resources.CreateFoldersAcross(t, parentCode, code, specs).Ok? <==>
            && specs != [] && TrimSpace(parentCode) != ""
            && (forall k :: 0 <= k < |specs| ==> ActiveEnvironment(t, specs[k].name))
            && (forall k :: 0 <= k < |specs| ==> HasLevelOne(t, specs[k].name, parentCode))
            && InsertsFit(t, specs, parentCode, code)
    ensures Resources.CreateFoldersAcross(t, parentCode, code, specs).Err? ==>
            Resources.CreateFoldersAcross(t, parentCode, code, specs)
            == Err(if specs == [] || TrimSpace(parentCode) == "" then ErrOther
                   else if exists k :: 0 <= k < |specs| && !ActiveEnvironment(t, specs[k].name) then ErrNotFound
                   else if exists k :: 0 <= k < |specs| && !HasLevelOne(t, specs[k].name, parentCode) then ErrNotFound
                   else ErrConflict)
  {
    LevelOnes(t, specs, parentCode);
    if forall k :: 0 <= k < |specs| ==> HasSibling(t, specs[k].name, parentCode) {
      FoldersCommitIff(t, specs, Siblings(t, specs, parentCode), 2, code);
    }
  }

  /** Each level-2 folder fits under its environment's level-1 folder. */
  ghost predicate InsertsFit(t: Tables, specs: seq<Spec>, parentCode: string, code: string) {
    (forall k :: 0 <= k < |specs| ==> specs[k].name in Siblings(t, specs, parentCode))
    && forall k :: 0 <= k < |specs| ==> FolderFits(t, specs, Siblings(t, specs, parentCode), 2, code, k)
  }

  lemma {:induction false} LevelOnes(t: Tables, specs: seq<Spec>, parentCode: string)
    ensures forall k :: 0 <= k < |specs| ==>
              (HasLevelOne(t, specs[k].name, parentCode) <==> HasSibling(t, specs[k].name, parentCode))
    ensures (forall k :: 0 <= k < |specs| ==> HasSibling(t, specs[k].name, parentCode)) ==>
            forall k :: 0 <= k < |specs| ==> specs[k].name in Siblings(t, specs, parentCode)
  {
    forall k | 0 <= k < |specs|
      ensures HasLevelOne(t, specs[k].name, parentCode) <==> HasSibling(t, specs[k].name, parentCode)
    {
      LevelOneIff(t, specs[k].name, parentCode);
    }
  }

  lemma {:induction false} LevelOneIff(t: Tables, e: Id, code: string)
    ensures HasLevelOne(t, e, code) <==> HasSibling(t, e, code)
  {
  }

  /** The environment has an active level-1 folder of the code. */
  ghost predicate HasLevelOne(t: Tables, e: Id, code: string) {
    exists f :: f in t.folders && !t.folders[f].isDeleted && t.folders[f].level == 1 && t.folders[f].environmentId == e
                && t.folders[f].code == code
  }

  // ---- deletes: exactly the subtree, and nothing left hanging ----

  /** after differs from before only in rows that became deleted. */
  ghost predicate OnlyDeletes(before: Tables, after: Tables) {
    && after.orgs.Keys == before.orgs.Keys && after.projects.Keys == before.projects.Keys
    && after.environments.Keys == before.environments.Keys && after.folders.Keys == before.folders.Keys
    && after.secrets.Keys == before.secrets.Keys
    && (forall k :: k in before.orgs ==>
         after.orgs[k] == before.orgs[k] || after.orgs[k] == before.orgs[k].(isDeleted := true))
    && (forall k :: k in before.projects ==>
         after.projects[k] == before.projects[k] || after.projects[k] == before.projects[k].(isDeleted := true))
    && (forall k :: k in before.environments ==>
         || after.environments[k] == before.environments[k]
         || after.environments[k] == before.environments[k].(isDeleted := true))
    && (forall k :: k in before.folders ==>
         after.folders[k] == before.folders[k] || after.folders[k] == before.folders[k].(isDeleted := true))
    && (forall k :: k in before.secrets ==>
         after.secrets[k] == before.secrets[k] || after.secrets[k] == before.secrets[k].(isDeleted := true))
  }

  /** The ids that were active before and are not after, type by type. */
  function Turned(before: Tables, after: Tables): CascadeScope {
    CascadeScope(
      set k | k in before.orgs && ActiveOrg(before, k) && !ActiveOrg(after, k),
      set k | k in before.projects && ActiveProject(before, k) && !ActiveProject(after, k),
      set k | k in before.environments && ActiveEnvironment(before, k) && !ActiveEnvironment(after, k),
      set k | k in before.folders && ActiveFolder(before, k) && !ActiveFolder(after, k),
      set k | k in before.secrets && ActiveSecret(before, k) && !ActiveSecret(after, k))
  }

  /** A row lies at or under the deleted one, following parents upward. */
  predicate ProjectUnder(t: Tables, op: Op, p: Id) {
    (op.DeleteProject? && op.id == p) || (p in t.projects && op.DeleteOrganization? && op.id == t.projects[p].orgId)
  }

  predicate EnvironmentUnder(t: Tables, op: Op, e: Id) {
    || (op.DeleteEnvironment? && op.id == e)
    || (e in t.environments && ProjectUnder(t, op, t.environments[e].projectId))
  }

  predicate FolderUnder(t: Tables, op: Op, f: Id) {
    || (op.DeleteFolder? && op.id == f)
    || (f in t.folders && EnvironmentUnder(t, op, t.folders[f].environmentId))
  }

  predicate SecretUnder(t: Tables, op: Op, s: Id) {
    || (op.DeleteSecret? && op.id == s)
    || (s in t.secrets && FolderUnder(t, op, t.secrets[s].folderId))
  }

  /** The active rows at or under the deleted one. */
  function Subtree(t: Tables, op: Op): CascadeScope
    requires IsDelete(op)
  {
    CascadeScope(
      set k | k in t.orgs && ActiveOrg(t, k) && op.DeleteOrganization? && op.id == k,
      set k | k in t.projects && ActiveProject(t, k) && ProjectUnder(t, op, k),
      set k | k in t.environments && ActiveEnvironment(t, k) && EnvironmentUnder(t, op, k),
      set k | k in t.folders && ActiveFolder(t, k) && FolderUnder(t, op, k),
      set k | k in t.secrets && ActiveSecret(t, k) && SecretUnder(t, op, k))
  }

  /** Every row of the scope marked deleted. */
  function Without(t: Tables, scope: CascadeScope): Tables {
    DeleteSecrets(DeleteFolders(DeleteEnvironments(DeleteProjects(DeleteOrgs(
      t, scope.orgs), scope.projects), scope.environments), scope.folders), scope.secrets)
  }

  ghost predicate AllActive(t: Tables, scope: CascadeScope) {
    && (forall k :: k in scope.orgs ==> ActiveOrg(t, k))
    && (forall k :: k in scope.projects ==> ActiveProject(t, k))
    && (forall k :: k in scope.environments ==> ActiveEnvironment(t, k))
    && (forall k :: k in scope.folders ==> ActiveFolder(t, k))
    && (forall k :: k in scope.secrets ==> ActiveSecret(t, k))
  }

  lemma {:induction false} WithoutTurns(t: Tables, audits: seq<Audit>, scope: CascadeScope)
    requires AllActive(t, scope)
    ensures var t' := Without(t.(audits := audits), scope);
            OnlyDeletes(t, t') && Turned(t, t') == scope && t'.audits == audits
  {
    var turned := Turned(t, Without(t.(audits := audits), scope));
    assert turned.orgs == scope.orgs;
    assert turned.projects == scope.projects;
    assert turned.environments == scope.environments;
    assert turned.folders == scope.folders;
    assert turned.secrets == scope.secrets;
  }

  /** Marking rows deleted moves no row to another parent. */
  lemma {:induction false} LinksStay(t: Tables, ids: set<Id>, orgId: Id, parents: set<Id>)
    ensures ProjectsOf(DeleteProjects(t, ids).projects, orgId) == ProjectsOf(t.projects, orgId)
    ensures EnvironmentsOf(DeleteEnvironments(t, ids).environments, parents) == EnvironmentsOf(t.environments, parents)
    ensures FoldersOf(DeleteFolders(t, ids).folders, parents) == FoldersOf(t.folders, parents)
  {
  }

  lemma {:induction false} DeleteNothing(t: Tables)
    ensures DeleteOrgs(t, {}) == t && DeleteProjects(t, {}) == t && DeleteEnvironments(t, {}) == t
    ensures DeleteFolders(t, {}) == t && DeleteSecrets(t, {}) == t
  {
    assert DeleteOrgs(t, {}).orgs == t.orgs;
    assert DeleteProjects(t, {}).projects == t.projects;
    assert DeleteEnvironments(t, {}).environments == t.environments;
    assert DeleteFolders(t, {}).folders == t.folders;
    assert DeleteSecrets(t, {}).secrets == t.secrets;
  }

  /** The scope each cascade computes between its updates, read off the tables it started from. */
  lemma {:induction false} OrganizationCascade(t: Tables, id: Id)
    requires CascadeOrganization(t, id).Ok?
    ensures var d := CascadeOrganization(t, id).value; var projects := ProjectsOf(t.projects, id);
            var environments := EnvironmentsOf(t.environments, projects); var folders := FoldersOf(t.folders, environments);
            && d.scope == CascadeScope({id}, ActiveProjectsOf(t.projects, id),
                                       ActiveEnvironmentsOf(t.environments, projects),
                                       ActiveFoldersOf(t.folders, environments), ActiveSecretsOf(t.secrets, folders))
            && d.tables == Without(Audited(t, "organization", id, "delete"), d.scope)
  {
    var t1 := Audited(DeleteOrgs(t, {id}), "organization", id, "delete");
    var projects := ActiveProjectsOf(t1.projects, id);
    LinksStay(t1, projects, id, {});
    var t2 := DeleteProjects(t1, projects);
    var environments := ActiveEnvironmentsOf(t2.environments, ProjectsOf(t2.projects, id));
    LinksStay(t2, environments, id, ProjectsOf(t.projects, id));
    var t3 := DeleteEnvironments(t2, environments);
    var folders := ActiveFoldersOf(t3.folders, EnvironmentsOf(t3.environments, ProjectsOf(t3.projects, id)));
    LinksStay(t3, folders, id, EnvironmentsOf(t.environments, ProjectsOf(t.projects, id)));
  }

  lemma {:induction false} ProjectCascade(t: Tables, id: Id)
    requires Resources.DeleteProject(t, id).Ok?
    ensures var d := Resources.DeleteProject(t, id).value; var environments := EnvironmentsOf(t.environments, {id});
            && d.scope == CascadeScope({}, {id}, ActiveEnvironmentsOf(t.environments, {id}),
                                       ActiveFoldersOf(t.folders, environments),
                                       ActiveSecretsOf(t.secrets, FoldersOf(t.folders, environments)))
            && d.tables == Without(Audited(t, "project", id, "delete"), d.scope)
  {
    DeleteNothing(Audited(t, "project", id, "delete"));
    var t1 := Audited(DeleteProjects(t, {id}), "project", id, "delete");
    var environments := ActiveEnvironmentsOf(t1.environments, {id});
    LinksStay(t1, environments, "", {id});
    var t2 := DeleteEnvironments(t1, environments);
    var folders := ActiveFoldersOf(t2.folders, EnvironmentsOf(t2.environments, {id}));
    LinksStay(t2, folders, "", EnvironmentsOf(t.environments, {id}));
  }

  lemma {:induction false} EnvironmentCascade(t: Tables, id: Id)
    requires Resources.DeleteEnvironment(t, id).Ok?
    ensures var d := Resources.DeleteEnvironment(t, id).value;
            && d.scope == CascadeScope({}, {}, {id}, ActiveFoldersOf(t.folders, {id}),
                                       ActiveSecretsOf(t.secrets, FoldersOf(t.folders, {id})))
            && d.tables == Without(Audited(t, "environment", id, "delete"), d.scope)
  {
    DeleteNothing(Audited(t, "environment", id, "delete"));
    var t1 := Audited(DeleteEnvironments(t, {id}), "environment", id, "delete");
    LinksStay(t1, ActiveFoldersOf(t1.folders, {id}), "", {id});
  }

  lemma {:induction false} FolderCascade(t: Tables, id: Id)
    requires Resources.DeleteFolder(t, id).Ok?
    ensures var d := Resources.DeleteFolder(t, id).value;
            && d.scope == CascadeScope({}, {}, {}, {id}, ActiveSecretsOf(t.secrets, {id}))
            && d.tables == Without(Audited(t, "folder", id, "delete"), d.scope)
  {
    DeleteNothing(Audited(t, "folder", id, "delete"));
  }

  lemma {:induction false} SecretCascade(t: Tables, id: Id)
    requires Resources.DeleteSecret(t, id).Ok?
    ensures var d := Resources.DeleteSecret(t, id).value;
            && d.scope == CascadeScope({}, {}, {}, {}, {id})
            && d.tables == Without(Audited(t, "secret", id, "delete"), d.scope)
  {
    DeleteNothing(Audited(t, "secret", id, "delete"));
  }

  /** The kind a delete's audit record names. */
  function KindName(op: Op): string
    requires IsDelete(op)
  {
    match op
    case DeleteOrganization(_, _) => "organization"
    case DeleteProject(_) => "project"
    case DeleteEnvironment(_) => "environment"
    case DeleteFolder(_) => "folder"
    case DeleteSecret(_) => "secret"
  }

  lemma {:induction false} OrganizationSubtree(t: Tables, id: Id, force: bool)
    requires ActiveOrg(t, id)
    ensures var projects := ProjectsOf(t.projects, id); var environments := EnvironmentsOf(t.environments, projects);
            Subtree(t, DeleteOrganization(id, force))
            == CascadeScope({id}, ActiveProjectsOf(t.projects, id), ActiveEnvironmentsOf(t.environments, projects),
                            ActiveFoldersOf(t.folders, environments),
                            ActiveSecretsOf(t.secrets, FoldersOf(t.folders, environments)))
  {
    var subtree := Subtree(t, DeleteOrganization(id, force));
    var projects := ProjectsOf(t.projects, id);
    var environments := EnvironmentsOf(t.environments, projects);
    assert subtree.orgs == {id};
    assert subtree.projects == ActiveProjectsOf(t.projects, id);
    assert subtree.environments == ActiveEnvironmentsOf(t.environments, projects);
    assert subtree.folders == ActiveFoldersOf(t.folders, environments);
    assert subtree.secrets == ActiveSecretsOf(t.secrets, FoldersOf(t.folders, environments));
  }

  lemma {:induction false} ProjectSubtree(t: Tables, id: Id)
    requires ActiveProject(t, id)
    ensures var environments := EnvironmentsOf(t.environments, {id});
            Subtree(t, DeleteProject(id))
            == CascadeScope({}, {id}, ActiveEnvironmentsOf(t.environments, {id}),
                            ActiveFoldersOf(t.folders, environments),
                            ActiveSecretsOf(t.secrets, FoldersOf(t.folders, environments)))
  {
    var subtree := Subtree(t, DeleteProject(id));
    var environments := EnvironmentsOf(t.environments, {id});
    assert subtree.projects == {id};
    assert subtree.environments == ActiveEnvironmentsOf(t.environments, {id});
    assert subtree.folders == ActiveFoldersOf(t.folders, environments);
    assert subtree.secrets == ActiveSecretsOf(t.secrets, FoldersOf(t.folders, environments));
  }

  lemma {:induction false} EnvironmentSubtree(t: Tables, id: Id)
    requires ActiveEnvironment(t, id)
    ensures Subtree(t, DeleteEnvironment(id))
            == CascadeScope({}, {}, {id}, ActiveFoldersOf(t.folders, {id}),
                            ActiveSecretsOf(t.secrets, FoldersOf(t.folders, {id})))
  {
    var subtree := Subtree(t, DeleteEnvironment(id));
    assert subtree.environments == {id};
    assert subtree.folders == ActiveFoldersOf(t.folders, {id});
    assert subtree.secrets == ActiveSecretsOf(t.secrets, FoldersOf(t.folders, {id}));
  }

  lemma {:induction false} FolderSubtree(t: Tables, id: Id)
    requires ActiveFolder(t, id)
    ensures Subtree(t, DeleteFolder(id)) == CascadeScope({}, {}, {}, {id}, ActiveSecretsOf(t.secrets, {id}))
  {
    var subtree := Subtree(t, DeleteFolder(id));
    assert subtree.folders == {id};
    assert subtree.secrets == ActiveSecretsOf(t.secrets, {id});
  }

  lemma {:induction false} SecretSubtree(t: Tables, id: Id)
    requires ActiveSecret(t, id)
    ensures Subtree(t, DeleteSecret(id)) == CascadeScope({}, {}, {}, {}, {id})
  {
    assert Subtree(t, DeleteSecret(id)).secrets == {id};
  }

  /** A successful delete reports exactly the active rows of the subtree, and marks those and one audit record. */
  lemma {:induction false} DeleteIsSubtree(t: Tables, op: Op)
    requires IsDelete(op) && Delete(t, op).Ok?
    ensures Delete(t, op).value.scope == Subtree(t, op)
    ensures Delete(t, op).value.tables == Without(Audited(t, KindName(op), op.id, "delete"), Subtree(t, op))
  {
    match op {
      case DeleteOrganization(id, force) => OrganizationCascade(t, id); OrganizationSubtree(t, id, force);
      case DeleteProject(id) => ProjectCascade(t, id); ProjectSubtree(t, id);
      case DeleteEnvironment(id) => EnvironmentCascade(t, id); EnvironmentSubtree(t, id);
      case DeleteFolder(id) => FolderCascade(t, id); FolderSubtree(t, id);
      case DeleteSecret(id) => SecretCascade(t, id); SecretSubtree(t, id);
    }
  }

  lemma {:induction false} SubtreeActive(t: Tables, op: Op)
    requires IsDelete(op)
    ensures AllActive(t, Subtree(t, op))
  {
  }

  /** A successful delete reports exactly the rows it turned from active to deleted, those are exactly the
      active rows of the subtree, and nothing else in the tables changes but one audit record. */
  lemma {:induction false} DeleteExact(t: Tables, op: Op)
    requires IsDelete(op) && Delete(t, op).Ok?
    ensures var d := Delete(t, op).value;
            && d.scope == Turned(t, d.tables) == Subtree(t, op)
            && OnlyDeletes(t, d.tables)
            && d.tables.audits == t.audits + [Audit(KindName(op), op.id, "delete")]
  {
    DeleteIsSubtree(t, op);
    SubtreeActive(t, op);
    WithoutTurns(t, t.audits + [Audit(KindName(op), op.id, "delete")], Subtree(t, op));
  }

  /** On active chains an organization's delete has nothing below it to report exactly when no project of it is active
      as its transaction runs. In one call without force the count before it makes sure of that. */
  lemma {:induction false} UnforcedDeleteIsBare(t: Tables, id: Id)
    requires Chained(t) && CascadeOrganization(t, id).Ok?
    ensures CascadeOrganization(t, id).value.scope == CascadeScope({id}, {}, {}, {}, {})
            <==> ActiveProjectsOf(t.projects, id) == {}
    ensures Resources.DeleteOrganization(t, id, false).Ok? ==>
            Resources.DeleteOrganization(t, id, false).value.scope == CascadeScope({id}, {}, {}, {}, {})
  {
    OrganizationCascade(t, id);
    if ActiveProjectsOf(t.projects, id) == {} { NothingBelow(t, id); }
  }

  lemma {:induction false} NothingBelow(t: Tables, id: Id)
    requires Chained(t) && ActiveProjectsOf(t.projects, id) == {}
    ensures var projects := ProjectsOf(t.projects, id); var environments := EnvironmentsOf(t.environments, projects);
            && ActiveEnvironmentsOf(t.environments, projects) == {} && ActiveFoldersOf(t.folders, environments) == {}
            && ActiveSecretsOf(t.secrets, FoldersOf(t.folders, environments)) == {}
  {
    var projects := ProjectsOf(t.projects, id);
    var environments := EnvironmentsOf(t.environments, projects);
    assert forall p :: ActiveProject(t, p) ==> p !in projects by {
      assert forall p :: ActiveProject(t, p) && p in projects ==> p in ActiveProjectsOf(t.projects, id);
    }
    assert forall e :: ActiveEnvironment(t, e) ==> e !in environments;
    assert forall f :: ActiveFolder(t, f) ==> f !in FoldersOf(t.folders, environments);
    assert ActiveSecretsOf(t.secrets, FoldersOf(t.folders, environments)) == {} by {
      assert forall s :: ActiveSecret(t, s) ==> ActiveFolder(t, t.secrets[s].folderId);
    }
  }

  /** Deleting a downward-closed set of rows keeps the tables consistent. */
  lemma {:induction false} DeleteKeeps(t: Tables, op: Op)
    requires Consistent(t) && IsDelete(op) && Delete(t, op).Ok?
    ensures Consistent(Delete(t, op).value.tables)
  {
    DeleteExact(t, op);
    var t' := Delete(t, op).value.tables;
    UniqueShrinks(t, t');
    NestedShrinks(t, t');
    ChainShrinks(t, t', op);
  }

  lemma {:induction false} UniqueShrinks(t: Tables, t': Tables)
    requires Unique(t) && OnlyDeletes(t, t')
    ensures Unique(t')
  {
    assert UniqueOrgs(t'.orgs);
    assert UniqueProjects(t'.projects);
    assert UniqueEnvironments(t'.environments);
    assert UniquePlaces(t'.folders);
    assert UniqueKeys(t'.secrets);
  }

  lemma {:induction false} NestedShrinks(t: Tables, t': Tables)
    requires FoldersNested(t.folders) && OnlyDeletes(t, t')
    ensures FoldersNested(t'.folders)
  {
    forall f | f in t'.folders
      ensures Nested(t'.folders, t'.folders[f])
    {
      assert Nested(t.folders, t.folders[f]);
    }
  }

  lemma {:induction false} ProjectsShrink(t: Tables, t': Tables, op: Op)
    requires Chained(t) && OnlyDeletes(t, t') && IsDelete(op) && Turned(t, t') == Subtree(t, op)
    ensures forall p :: ActiveProject(t', p) ==> ActiveOrg(t', t'.projects[p].orgId)
  {
    var gone := Subtree(t, op);
    forall p | ActiveProject(t', p)
      ensures ActiveOrg(t', t'.projects[p].orgId)
    {
      assert p !in gone.projects && ActiveProject(t, p);
      assert t.projects[p].orgId !in gone.orgs;
    }
  }

  lemma {:induction false} EnvironmentsShrink(t: Tables, t': Tables, op: Op)
    requires Chained(t) && OnlyDeletes(t, t') && IsDelete(op) && Turned(t, t') == Subtree(t, op)
    ensures forall e :: ActiveEnvironment(t', e) ==> ActiveProject(t', t'.environments[e].projectId)
  {
    var gone := Subtree(t, op);
    forall e | ActiveEnvironment(t', e)
      ensures ActiveProject(t', t'.environments[e].projectId)
    {
      assert e !in gone.environments && ActiveEnvironment(t, e);
      assert t.environments[e].projectId !in gone.projects;
    }
  }

  lemma {:induction false} FoldersShrink(t: Tables, t': Tables, op: Op)
    requires Chained(t) && OnlyDeletes(t, t') && IsDelete(op) && Turned(t, t') == Subtree(t, op)
    ensures forall f :: ActiveFolder(t', f) ==> ActiveEnvironment(t', t'.folders[f].environmentId)
  {
    var gone := Subtree(t, op);
    forall f | ActiveFolder(t', f)
      ensures ActiveEnvironment(t', t'.folders[f].environmentId)
    {
      assert f !in gone.folders && ActiveFolder(t, f);
      assert t.folders[f].environmentId !in gone.environments;
    }
  }

  lemma {:induction false} SecretsShrink(t: Tables, t': Tables, op: Op)
    requires Chained(t) && OnlyDeletes(t, t') && IsDelete(op) && Turned(t, t') == Subtree(t, op)
    ensures forall s :: ActiveSecret(t', s) ==> ActiveFolder(t', t'.secrets[s].folderId)
  {
    var gone := Subtree(t, op);
    forall s | ActiveSecret(t', s)
      ensures ActiveFolder(t', t'.secrets[s].folderId)
    {
      assert s !in gone.secrets && ActiveSecret(t, s);
      assert t.secrets[s].folderId !in gone.folders;
    }
  }

  lemma {:induction false} ChainShrinks(t: Tables, t': Tables, op: Op)
    requires Chained(t) && OnlyDeletes(t, t') && IsDelete(op) && Turned(t, t') == Subtree(t, op)
    ensures Chained(t')
  {
    ProjectsShrink(t, t', op);
    EnvironmentsShrink(t, t', op);
    FoldersShrink(t, t', op);
    SecretsShrink(t, t', op);
  }

  // ---- every run ----

  /** Every cached id names an active row. */
  ghost predicate CacheLive(s: Server) {
    && (forall k :: k in s.cache.orgs ==> ActiveOrg(s.tables, k))
    && (forall k :: k in s.cache.projects ==> ActiveProject(s.tables, k))
    && (forall k :: k in s.cache.environments ==> ActiveEnvironment(s.tables, k))
    && (forall k :: k in s.cache.folders ==> ActiveFolder(s.tables, k))
  }

  lemma {:induction false} InvalidationSuffices(s: Server, d: Deleted)
    requires CacheLive(s) && OnlyDeletes(s.tables, d.tables) && d.scope == Turned(s.tables, d.tables)
    ensures CacheLive(Server(d.tables, Invalidated(s.cache, d.scope)))
  {
  }

  lemma {:induction false} SecretsOnly(s: Server, t: Tables)
    requires CacheLive(s)
    ensures B.OnlySecretsAndAudits(s.tables, t) ==> CacheLive(s.(tables := t))
  {
  }

  lemma {:induction false} PerformKeeps(s: Server, op: Op)
    requires Consistent(s.tables) && CacheLive(s) && ParentActive(s.tables, op)
    ensures Consistent(Perform(s, op).tables) && CacheLive(Perform(s, op))
  {
    if IsCreate(op) && Create(s.tables, op).Ok? {
      CreateKeeps(s.tables, op, s.cache);
    } else if IsDelete(op) && Delete(s.tables, op).Ok? {
      DeleteKeeps(s.tables, op);
      DeleteExact(s.tables, op);
      InvalidationSuffices(s, Delete(s.tables, op).value);
    } else if op.UpdateSecrets? && B.BatchUpdated(s.tables, op.changes).Ok? {
      UpdateSecretsKeeps(s.tables, op.changes);
      SecretsOnly(s, B.BatchUpdated(s.tables, op.changes).value);
      if op.changes != [] { B.UpdateExact(s.tables, op.changes); }
    }
  }

  lemma {:induction false} HandleKeeps(s: Server, q: Request)
    requires Consistent(s.tables) && CacheLive(s)
    ensures Consistent(Handle(s, q).tables) && CacheLive(Handle(s, q))
  {
    if Guard(s.tables, q) {
      GuardedParents(s.tables, q);
      PerformKeeps(s, q.op);
    }
  }

  /** After any requests by anyone, each followed by its cache update: an active secret's folder, an active
      folder's environment, an active environment's project and an active project's organization are active;
      level-2 folders hang under level-1 folders of their environment; active codes and keys are unique under
      their parent; and the metadata cache holds no id of a deleted row. */
  lemma {:induction false} RunsStayConsistent(requests: seq<Request>)
    ensures Consistent(Run(INIT, requests).tables) && CacheLive(Run(INIT, requests))
  {
    if requests != [] {
      var before, q := requests[..|requests| - 1], requests[|requests| - 1];
      RunsStayConsistent(before);
      HandleKeeps(Run(INIT, before), q);
    }
  }

  // ---- who may do what ----

  /** The user exists, is not disabled, and some binding of theirs on the resource or above it, in force, carries the
      code; the resource and everything above it is active. */
  ghost predicate Entitled(t: Tables, q: Request, code: string, kind: Kind, id: Id) {
    && UserEnabled(q.rbac, q.userId) && Standing(t, kind, id)
    && exists b :: b in q.rbac.bindings && Gives(q.rbac, q.now, q.rbac.bindings[b], q.userId, code)
                   && Reaches(t, q.rbac.bindings[b], kind, id)
  }

  lemma {:induction false} AllowedMeans(t: Tables, q: Request, code: string, resourceType: string, kind: Kind, id: Id)
    requires IsCode(code) && NormalizeResourceType(resourceType) == Some(kind)
    ensures Allowed(t, q, code, resourceType, id) <==> Entitled(t, q, code, kind, id)
  {
    CodeStays(code, resourceType);
    AllowIsPermit(t, q.rbac, q.now, q.userId, code, resourceType, kind, id);
    PermitMeans(t, q.rbac, q.now, q.userId, code, kind, id);
  }

  /** The guard of each operation, by what it takes. Creating takes the right on the parent; creating folders has no
      guard of its own. */
  lemma {:induction false} FolderCreateGuard(t: Tables, q: Request)
    requires q.op.CreateTopLevelFolders? || q.op.CreateFoldersAcross?
    ensures Guard(t, q)
  {
  }

  lemma {:induction false} CreateOrganizationGuard(t: Tables, q: Request)
    requires q.op.CreateOrganization?
    ensures Guard(t, q) <==> Entitled(t, q, "org:create", Global, "")
  {
    assert "org:create"[3] == ':';
    GlobalType();
    AllowedMeans(t, q, "org:create", "global", Global, "");
  }

  lemma {:induction false} UpdateOrganizationGuard(t: Tables, q: Request)
    requires q.op.UpdateOrganization?
    ensures Guard(t, q) <==> Entitled(t, q, "org:update", Organization, q.op.id)
  {
    assert "org:update"[3] == ':';
    OrganizationType();
    AllowedMeans(t, q, "org:update", "organization", Organization, q.op.id);
  }

  lemma {:induction false} CreateProjectGuard(t: Tables, q: Request)
    requires q.op.CreateProject?
    ensures Guard(t, q) <==> Entitled(t, q, "project:create", Organization, q.op.orgId)
  {
    assert "project:create"[7] == ':';
    OrganizationType();
    AllowedMeans(t, q, "project:create", "organization", Organization, q.op.orgId);
  }

  lemma {:induction false} UpdateProjectGuard(t: Tables, q: Request)
    requires q.op.UpdateProject?
    ensures Guard(t, q) <==> Entitled(t, q, "project:update", Project, q.op.id)
  {
    assert "project:update"[7] == ':';
    ProjectType();
    AllowedMeans(t, q, "project:update", "project", Project, q.op.id);
  }

  lemma {:induction false} DeleteProjectGuard(t: Tables, q: Request)
    requires q.op.DeleteProject?
    ensures Guard(t, q) <==> Entitled(t, q, "project:delete", Project, q.op.id)
  {
    assert "project:delete"[7] == ':';
    ProjectType();
    AllowedMeans(t, q, "project:delete", "project", Project, q.op.id);
  }

  lemma {:induction false} CreateEnvironmentGuard(t: Tables, q: Request)
    requires q.op.CreateEnvironment?
    ensures Guard(t, q) <==> Entitled(t, q, "env:create", Project, q.op.projectId)
  {
    assert "env:create"[3] == ':';
    ProjectType();
    AllowedMeans(t, q, "env:create", "project", Project, q.op.projectId);
  }

  lemma {:induction false} UpdateEnvironmentGuard(t: Tables, q: Request)
    requires q.op.UpdateEnvironment?
    ensures Guard(t, q) <==> Entitled(t, q, "env:update", Environment, q.op.id)
  {
    assert "env:update"[3] == ':';
    EnvironmentType();
    AllowedMeans(t, q, "env:update", "environment", Environment, q.op.id);
  }

  lemma {:induction false} DeleteEnvironmentGuard(t: Tables, q: Request)
    requires q.op.DeleteEnvironment?
    ensures Guard(t, q) <==> Entitled(t, q, "env:delete", Environment, q.op.id)
  {
    assert "env:delete"[3] == ':';
    EnvironmentType();
    AllowedMeans(t, q, "env:delete", "environment", Environment, q.op.id);
  }

  lemma {:induction false} UpdateFolderGuard(t: Tables, q: Request)
    requires q.op.UpdateFolder?
    ensures Guard(t, q) <==> Entitled(t, q, "folder:update", Folder, q.op.id)
  {
    assert "folder:update"[6] == ':';
    FolderType();
    AllowedMeans(t, q, "folder:update", "folder", Folder, q.op.id);
  }

  lemma {:induction false} DeleteFolderGuard(t: Tables, q: Request)
    requires q.op.DeleteFolder?
    ensures Guard(t, q) <==> Entitled(t, q, "folder:delete", Folder, q.op.id)
  {
    assert "folder:delete"[6] == ':';
    FolderType();
    AllowedMeans(t, q, "folder:delete", "folder", Folder, q.op.id);
  }

  lemma {:induction false} CreateSecretGuard(t: Tables, q: Request)
    requires q.op.CreateSecret?
    ensures Guard(t, q) <==> Entitled(t, q, "secret:create", Folder, q.op.folderId)
  {
    assert "secret:create"[6] == ':';
    FolderType();
    AllowedMeans(t, q, "secret:create", "folder", Folder, q.op.folderId);
  }

  lemma {:induction false} DeleteSecretGuard(t: Tables, q: Request)
    requires q.op.DeleteSecret?
    ensures Guard(t, q) <==> Entitled(t, q, "secret:delete", Secret, q.op.id)
  {
    assert "secret:delete"[6] == ':';
    SecretType();
    AllowedMeans(t, q, "secret:delete", "secret", Secret, q.op.id);
  }

  lemma {:induction false} DeleteOrganizationGuard(t: Tables, q: Request)
    requires q.op.DeleteOrganization?
    ensures Guard(t, q) <==> Entitled(t, q, "org:delete", Organization, q.op.id)
                             && (q.op.force ==> Entitled(t, q, "org:force_delete", Organization, q.op.id))
  {
    assert "org:delete"[3] == ':' && "org:force_delete"[3] == ':';
    OrganizationType();
    AllowedMeans(t, q, "org:delete", "organization", Organization, q.op.id);
    AllowedMeans(t, q, "org:force_delete", "organization", Organization, q.op.id);
  }

  lemma {:induction false} CreateSecretsGuard(t: Tables, q: Request)
    requires q.op.CreateSecrets?
    ensures Guard(t, q) <==>
            forall k :: 0 <= k < |q.op.items| ==> Entitled(t, q, "secret:create", Folder, q.op.items[k].folderId)
  {
    assert "secret:create"[6] == ':';
    FolderType();
    forall k | 0 <= k < |q.op.items|
      ensures Allowed(t, q, "secret:create", "folder", q.op.items[k].folderId)
              <==> Entitled(t, q, "secret:create", Folder, q.op.items[k].folderId)
    {
      AllowedMeans(t, q, "secret:create", "folder", Folder, q.op.items[k].folderId);
    }
  }

  lemma {:induction false} UpdateSecretsGuard(t: Tables, q: Request)
    requires q.op.UpdateSecrets?
    ensures Guard(t, q) <==>
            forall k :: 0 <= k < |q.op.changes| ==> Entitled(t, q, "secret:update", Secret, q.op.changes[k].id)
  {
    assert "secret:update"[6] == ':';
    SecretType();
    forall k | 0 <= k < |q.op.changes|
      ensures Allowed(t, q, "secret:update", "secret", q.op.changes[k].id)
              <==> Entitled(t, q, "secret:update", Secret, q.op.changes[k].id)
    {
      AllowedMeans(t, q, "secret:update", "secret", Secret, q.op.changes[k].id);
    }
  }

  /** A request that is refused, or whose transaction fails, changes neither tables nor cache. */
  lemma {:induction false} RefusedChangesNothing(s: Server, q: Request)
    ensures !Guard(s.tables, q) ==> Handle(s, q) == s
    ensures IsCreate(q.op) && Create(s.tables, q.op).Err? ==> Handle(s, q) == s
    ensures IsDelete(q.op) && Delete(s.tables, q.op).Err? ==> Handle(s, q) == s
  {
  }

  /** An update reaches the cache exactly when the row it names is there and not deleted. */
  lemma {:induction false} UpdateCachesActive(s: Server, op: Op, id: Id)
    ensures var c, c' := s.cache, Perform(s, op).cache;
            && (op == UpdateOrganization(id) ==>
                 c' == c.(orgs := if id in s.tables.orgs && !s.tables.orgs[id].isDeleted then c.orgs + {id} else c.orgs))
            && (op == UpdateProject(id) ==>
                 c' == c.(projects := if id in s.tables.projects && !s.tables.projects[id].isDeleted
                                      then c.projects + {id} else c.projects))
            && (op == UpdateEnvironment(id) ==>
                 c' == c.(environments := if id in s.tables.environments && !s.tables.environments[id].isDeleted
                                          then c.environments + {id} else c.environments))
            && (op == UpdateFolder(id) ==>
                 c' == c.(folders := if id in s.tables.folders && !s.tables.folders[id].isDeleted
                                     then c.folders + {id} else c.folders))
    ensures !IsCreate(op) && !IsDelete(op) && !op.UpdateSecrets? ==> Perform(s, op).tables == s.tables
  {
  }

  /** What a create or update that went through leaves in the cache: the ids it is about, and whatever was there. */
  lemma {:induction false} PerformCaches(s: Server, op: Op)
    requires (IsCreate(op) && Create(s.tables, op).Ok?) || UpdatesActive(s.tables, op)
    ensures var c, c' := s.cache, Perform(s, op).cache;
            && c'.orgs == (if op.CreateOrganization? || op.UpdateOrganization? then c.orgs + {op.id} else c.orgs)
            && c'.projects == (if op.CreateProject? || op.UpdateProject? then c.projects + {op.id} else c.projects)
            && c'.environments
               == (if op.CreateEnvironment? || op.UpdateEnvironment? then c.environments + {op.id} else c.environments)
            && c.folders <= c'.folders
            && forall f :: f in c'.folders && f !in c.folders ==>
                 || (op.UpdateFolder? && op.id == f)
                 || ((op.CreateTopLevelFolders? || op.CreateFoldersAcross?) && f in SpecIds(op.specs))
    ensures op.UpdateFolder? ==> op.id in Perform(s, op).cache.folders
    ensures op.CreateTopLevelFolders? || op.CreateFoldersAcross? ==> SpecIds(op.specs) <= Perform(s, op).cache.folders
  {
    if op.CreateTopLevelFolders? || op.CreateFoldersAcross? {
      forall f
        ensures f in SpecIds(op.specs) <==> exists k :: 0 <= k < |op.specs| && op.specs[k].id == f
      {
        SpecIdIff(op.specs, f);
      }
    }
  }
}
