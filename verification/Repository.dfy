/** internal/store/postgres/repository.go as an object over its tables. A transaction works on `tx`, and
    assigning `tables` is the commit; returning before that rolls back. */
module Repository {
  import opened Wrappers
  import opened Text
  import opened Tables
  import R = Resources
  import H = Hierarchy

  class Repository {
    var tables: Tables

    constructor ()
      ensures tables == EMPTY
    {
      tables := EMPTY;
    }

    method CreateOrganization(id: Id, code: string) returns (r: Result<()>)
      modifies this
      ensures var t := old(tables);
              r == if id in t.orgs || exists o :: ActiveOrg(t, o) && t.orgs[o].code == code then Err(ErrConflict) else Ok(())
      ensures r.Err? ==> tables == old(tables)
      ensures r.Ok? ==>
        && tables == old(tables).(orgs := tables.orgs, audits := old(tables).audits + [Audit("organization", id, "create")])
        && tables.orgs == old(tables).orgs[id := OrganizationRow(code, false)]
      ensures Consistent(old(tables)) ==> Consistent(tables)
    {
      var inserted := R.InsertOrganization(tables, id, code);
      if inserted.Err? { return Err(inserted.error); }
      tables := R.Audited(inserted.value, "organization", id, "create");
      StaysConsistent(old(tables), H.CreateOrganization(id, code));
      return Ok(());
    }

    method CreateProject(orgId: Id, id: Id, code: string, envs: seq<R.Spec>) returns (r: Result<()>)
      modifies this
      ensures Committed(old(tables), tables, r, R.CreateProject(old(tables), orgId, id, code, envs))
    {
      var inserted := R.InsertProject(tables, id, orgId, code);
      if inserted.Err? { return Err(inserted.error); }
      var tx := inserted.value;
      var k := 0;
      while k < |envs|
        invariant k <= |envs| && R.InsertEnvironments(inserted.value, id, envs[..k]) == Ok(tx)
        invariant tables == old(tables)
      {
        var env := R.InsertEnvironment(tx, envs[k].id, id, envs[k].name);
        assert envs[..k + 1][..k] == envs[..k];
        if env.Err? {
          FailsEarly(inserted.value, id, envs, k + 1);
          return Err(env.error);
        }
        tx := env.value;
        k := k + 1;
      }
      assert envs[..k] == envs;
      tables := R.Audited(tx, "project", id, "create");
      return Ok(());
    }

    method CreateEnvironment(projectId: Id, id: Id, code: string) returns (r: Result<()>)
      modifies this
      ensures var t := old(tables);
              r == if !ActiveProject(t, projectId) then Err(ErrNotFound)
                   else if id in t.environments
                           || exists e :: ActiveEnvironment(t, e) && t.environments[e].projectId == projectId
                                          && t.environments[e].code == code
                   then Err(ErrConflict) else Ok(())
      ensures r.Err? ==> tables == old(tables)
      ensures r.Ok? ==>
        && tables == old(tables).(environments := tables.environments,
                                  audits := old(tables).audits + [Audit("environment", id, "create")])
        && tables.environments == old(tables).environments[id := EnvironmentRow(projectId, code, false)]
      ensures Consistent(old(tables)) ==> Consistent(tables)
    {
      if projectId !in tables.projects || tables.projects[projectId].isDeleted {
        return Err(ErrNotFound);
      }
      var inserted := R.InsertEnvironment(tables, id, projectId, code);
      if inserted.Err? { return Err(inserted.error); }
      tables := R.Audited(inserted.value, "environment", id, "create");
      StaysConsistent(old(tables), H.CreateEnvironment(projectId, id, code));
      return Ok(());
    }

    /** The first loop of both folder creators: every environment exists and is not deleted. */
    method VerifyEnvironments(specs: seq<R.Spec>) returns (ok: bool)
      ensures ok <==> forall k :: 0 <= k < |specs| ==> ActiveEnvironment(tables, specs[k].name)
    {
      var seen: set<Id> := {};
      for k := 0 to |specs|
        invariant forall j :: 0 <= j < k ==> ActiveEnvironment(tables, specs[j].name)
        invariant forall e :: e in seen ==> ActiveEnvironment(tables, e)
      {
        var e := specs[k].name;
        if e in seen { continue; }
        if e !in tables.environments || tables.environments[e].isDeleted {
          return false;
        }
        seen := seen + {e};
      }
      return true;
    }

    method InsertFolders(specs: seq<R.Spec>, parents: map<Id, Id>, level: int, code: string) returns (r: Result<()>)
      requires level == 2 ==> forall k :: 0 <= k < |specs| ==> specs[k].name in parents
      modifies this
      ensures Committed(old(tables), tables, r, R.InsertFolders(old(tables), specs, parents, level, code))
    {
      var tx := tables;
      var k := 0;
      while k < |specs|
        invariant k <= |specs| && R.InsertFolders(tables, specs[..k], parents, level, code) == Ok(tx)
        invariant tables == old(tables)
      {
        var spec := specs[k];
        var folder := R.InsertFolder(tx, spec.id, R.RowOf(spec, parents, level, code));
        assert specs[..k + 1][..k] == specs[..k];
        if folder.Err? {
          FolderFailsEarly(tables, specs, parents, level, code, k + 1);
          return Err(folder.error);
        }
        tx := R.Audited(folder.value, "folder", spec.id, "create");
        k := k + 1;
      }
      assert specs[..k] == specs;
      tables := tx;
      return Ok(());
    }

    method CreateTopLevelFolders(code: string, specs: seq<R.Spec>) returns (r: Result<()>)
      modifies this
      ensures Committed(old(tables), tables, r, R.CreateTopLevelFolders(old(tables), code, specs))
    {
      if specs == [] { return Err(ErrOther); }
      var ok := VerifyEnvironments(specs);
      if !ok { return Err(ErrNotFound); }
      r := InsertFolders(specs, map[], 1, code);
    }

    /** The second loop of the level-2 creator: the parent folder of each environment, looked up once. */
    method ResolveParents(specs: seq<R.Spec>, parentCode: string) returns (r: Result<map<Id, Id>>)
      requires Unique(tables) && FoldersNested(tables.folders)
      ensures r.Err? ==> r.error == ErrNotFound
      ensures r.Err? <==> exists k :: 0 <= k < |specs| && !R.HasSibling(tables, specs[k].name, parentCode)
      ensures r.Ok? ==> r.value == R.Siblings(tables, specs, parentCode)
    {
      var siblings: map<Id, Id> := map[];
      var k := 0;
      while k < |specs|
        invariant k <= |specs|
        invariant forall j :: 0 <= j < k ==> specs[j].name in siblings
        invariant forall e :: e in siblings ==>
          && (exists j :: 0 <= j < k && specs[j].name == e)
          && R.HasSibling(tables, e, parentCode) && siblings[e] == R.Sibling(tables, e, parentCode)
      {
        var e := specs[k].name;
        if e !in siblings {
          if !R.HasSibling(tables, e, parentCode) {
            return Err(ErrNotFound);
          }
          var f :| f in tables.folders && R.IsSibling(tables, e, parentCode, f);
          R.SiblingUnique(tables, e, parentCode, f);
          siblings := siblings[e := f];
        }
        k := k + 1;
      }
      assert siblings == R.Siblings(tables, specs, parentCode);
      return Ok(siblings);
    }

    method CreateFoldersAcross(parentCode: string, code: string, specs: seq<R.Spec>) returns (r: Result<()>)
      requires Unique(tables) && FoldersNested(tables.folders)
      modifies this
      ensures Committed(old(tables), tables, r, R.CreateFoldersAcross(old(tables), parentCode, code, specs))
    {
      if specs == [] || TrimSpace(parentCode) == "" { return Err(ErrOther); }
      var ok := VerifyEnvironments(specs);
      if !ok { return Err(ErrNotFound); }
      var siblings := ResolveParents(specs, parentCode);
      if siblings.Err? { return Err(siblings.error); }
      r := InsertFolders(specs, siblings.value, 2, code);
    }

    method CreateSecret(id: Id, folderId: Id, key: string, ciphertext: string, comment: string) returns (r: Result<()>)
      modifies this
      ensures var t := old(tables);
              r == if id in t.secrets
                      || exists s :: ActiveSecret(t, s) && t.secrets[s].folderId == folderId && t.secrets[s].key == key
                   then Err(ErrConflict) else Ok(())
      ensures r.Err? ==> tables == old(tables)
      ensures r.Ok? ==>
        && tables == old(tables).(secrets := tables.secrets, audits := old(tables).audits + [Audit("secret", id, "create")])
        && tables.secrets == old(tables).secrets[id := SecretRow(folderId, key, ciphertext, comment, 1, false)]
      ensures Consistent(old(tables)) && r.Ok? ==> (Consistent(tables) <==> ActiveFolder(old(tables), folderId))
    {
      var inserted := R.InsertSecret(tables, id, SecretRow(folderId, key, ciphertext, comment, 1, false));
      if inserted.Err? { return Err(inserted.error); }
      tables := R.Audited(inserted.value, "secret", id, "create");
      StaysConsistent(old(tables), H.CreateSecret(id, folderId, key, ciphertext, comment));
      return Ok(());
    }

    /** The count an unforced delete makes before its transaction begins. */
    method HasActiveProjects(id: Id) returns (some: bool)
      ensures some <==> exists p :: ActiveProject(tables, p) && tables.projects[p].orgId == id
    {
      var activeProjects := R.ActiveProjectsOf(tables.projects, id);
      assert forall p :: p in activeProjects <==> ActiveProject(tables, p) && tables.projects[p].orgId == id;
      return activeProjects != {};
    }

    /** The transaction of DeleteOrganization: it takes whatever is there when it runs. */
    method CascadeOrganization(id: Id) returns (r: Result<R.CascadeScope>)
      modifies this
      ensures r.Ok? <==> ActiveOrg(old(tables), id)
      ensures r.Err? ==> r.error == ErrNotFound
      ensures DeletesSubtree(old(tables), tables, r, H.DeleteOrganization(id, true))
      ensures r.Ok? ==> tables.audits == old(tables.audits) + [Audit("organization", id, "delete")]
      ensures r.Ok? && Chained(old(tables)) ==>
        (r.value == R.CascadeScope({id}, {}, {}, {}, {})
         <==> !exists p :: ActiveProject(old(tables), p) && old(tables).projects[p].orgId == id)
    {
      if id !in tables.orgs || tables.orgs[id].isDeleted { return Err(ErrNotFound); }
      var tx := R.Audited(R.DeleteOrgs(tables, {id}), "organization", id, "delete");
      var projects := R.ActiveProjectsOf(tx.projects, id);
      tx := R.DeleteProjects(tx, projects);
      var environments := R.ActiveEnvironmentsOf(tx.environments, R.ProjectsOf(tx.projects, id));
      tx := R.DeleteEnvironments(tx, environments);
      var folders := R.ActiveFoldersOf(tx.folders, R.EnvironmentsOf(tx.environments, R.ProjectsOf(tx.projects, id)));
      tx := R.DeleteFolders(tx, folders);
      var parents := R.FoldersOf(tx.folders, R.EnvironmentsOf(tx.environments, R.ProjectsOf(tx.projects, id)));
      var secrets := R.ActiveSecretsOf(tx.secrets, parents);
      tables := R.DeleteSecrets(tx, secrets);
      H.DeleteExact(old(tables), H.DeleteOrganization(id, true));
      BareIff(old(tables), id);
      return Ok(R.CascadeScope({id}, projects, environments, folders, secrets));
    }

    /** One call with nothing in between. */
    method DeleteOrganization(id: Id, force: bool) returns (r: Result<R.CascadeScope>)
      modifies this
      ensures var t := old(tables);
              r.Err? <==> !ActiveOrg(t, id) || (!force && exists p :: ActiveProject(t, p) && t.projects[p].orgId == id)
      ensures r.Err? ==>
        r.error == if !force && exists p :: ActiveProject(old(tables), p) && old(tables).projects[p].orgId == id
                   then ErrConflict else ErrNotFound
      ensures DeletesSubtree(old(tables), tables, r, H.DeleteOrganization(id, force))
    {
      if !force {
        var some := HasActiveProjects(id);
        if some { return Err(ErrConflict); }
      }
      SameSubtree(tables, id, force);
      r := CascadeOrganization(id);
    }

    method DeleteProject(id: Id) returns (r: Result<R.CascadeScope>)
      modifies this
      ensures r.Ok? <==> ActiveProject(old(tables), id)
      ensures r.Err? ==> r.error == ErrNotFound
      ensures DeletesSubtree(old(tables), tables, r, H.DeleteProject(id))
      ensures r.Ok? ==> tables.audits == old(tables.audits) + [Audit("project", id, "delete")]
    {
      if id !in tables.projects || tables.projects[id].isDeleted { return Err(ErrNotFound); }
      var tx := R.Audited(R.DeleteProjects(tables, {id}), "project", id, "delete");
      var environments := R.ActiveEnvironmentsOf(tx.environments, {id});
      tx := R.DeleteEnvironments(tx, environments);
      var folders := R.ActiveFoldersOf(tx.folders, R.EnvironmentsOf(tx.environments, {id}));
      tx := R.DeleteFolders(tx, folders);
      var secrets := R.ActiveSecretsOf(tx.secrets, R.FoldersOf(tx.folders, R.EnvironmentsOf(tx.environments, {id})));
      tables := R.DeleteSecrets(tx, secrets);
      H.DeleteExact(old(tables), H.DeleteProject(id));
      return Ok(R.CascadeScope({}, {id}, environments, folders, secrets));
    }

    method DeleteEnvironment(id: Id) returns (r: Result<R.CascadeScope>)
      modifies this
      ensures r.Ok? <==> ActiveEnvironment(old(tables), id)
      ensures r.Err? ==> r.error == ErrNotFound
      ensures DeletesSubtree(old(tables), tables, r, H.DeleteEnvironment(id))
      ensures r.Ok? ==> tables.audits == old(tables.audits) + [Audit("environment", id, "delete")]
    {
      if id !in tables.environments || tables.environments[id].isDeleted { return Err(ErrNotFound); }
      var tx := R.Audited(R.DeleteEnvironments(tables, {id}), "environment", id, "delete");
      var folders := R.ActiveFoldersOf(tx.folders, {id});
      tx := R.DeleteFolders(tx, folders);
      var secrets := R.ActiveSecretsOf(tx.secrets, R.FoldersOf(tx.folders, {id}));
      tables := R.DeleteSecrets(tx, secrets);
      H.DeleteExact(old(tables), H.DeleteEnvironment(id));
      return Ok(R.CascadeScope({}, {}, {id}, folders, secrets));
    }

    method DeleteFolder(id: Id) returns (r: Result<R.CascadeScope>)
      modifies this
      ensures r.Ok? <==> ActiveFolder(old(tables), id)
      ensures r.Err? ==> r.error == ErrNotFound
      ensures DeletesSubtree(old(tables), tables, r, H.DeleteFolder(id))
      ensures r.Ok? ==> tables.audits == old(tables.audits) + [Audit("folder", id, "delete")]
    {
      if id !in tables.folders || tables.folders[id].isDeleted { return Err(ErrNotFound); }
      var tx := R.Audited(R.DeleteFolders(tables, {id}), "folder", id, "delete");
      var secrets := R.ActiveSecretsOf(tx.secrets, {id});
      tables := R.DeleteSecrets(tx, secrets);
      H.DeleteExact(old(tables), H.DeleteFolder(id));
      return Ok(R.CascadeScope({}, {}, {}, {id}, secrets));
    }

    method DeleteSecret(id: Id) returns (r: Result<R.CascadeScope>)
      modifies this
      ensures r.Ok? <==> ActiveSecret(old(tables), id)
      ensures r.Err? ==> r.error == ErrNotFound
      ensures DeletesSubtree(old(tables), tables, r, H.DeleteSecret(id))
      ensures r.Ok? ==> tables.audits == old(tables.audits) + [Audit("secret", id, "delete")]
    {
      if id !in tables.secrets || tables.secrets[id].isDeleted { return Err(ErrNotFound); }
      tables := R.Audited(R.DeleteSecrets(tables, {id}), "secret", id, "delete");
      H.DeleteExact(old(tables), H.DeleteSecret(id));
      return Ok(R.CascadeScope({}, {}, {}, {}, {id}));
    }
  }

  /** A create commits exactly what it should, or reports the error and leaves the tables alone. */
  ghost predicate Committed(before: Tables, after: Tables, r: Result<()>, expected: Result<Tables>) {
    match expected
    case Ok(t) => r == Ok(()) && after == t
    case Err(e) => r == Err(e) && after == before
  }

  /** A delete turns exactly the active rows at or under the named one from active to deleted, reports exactly those,
      writes one audit record and changes nothing else; or it changes nothing at all. */
  ghost predicate DeletesSubtree(before: Tables, after: Tables, r: Result<R.CascadeScope>, op: H.Op)
    requires H.IsDelete(op)
  {
    match r
    case Err(_) => after == before
    case Ok(scope) =>
      && scope == H.Turned(before, after) == H.Subtree(before, op)
      && H.OnlyDeletes(before, after)
      && after.audits == before.audits + [Audit(H.KindName(op), op.id, "delete")]
  }

  /** Force decides whether a delete runs, not what it takes. */
  lemma {:induction false} SameSubtree(t: Tables, id: Id, force: bool)
    ensures H.Subtree(t, H.DeleteOrganization(id, force)) == H.Subtree(t, H.DeleteOrganization(id, true))
    ensures H.KindName(H.DeleteOrganization(id, force)) == H.KindName(H.DeleteOrganization(id, true))
  {
    var a, b := H.DeleteOrganization(id, force), H.DeleteOrganization(id, true);
    assert forall p :: H.ProjectUnder(t, a, p) <==> H.ProjectUnder(t, b, p);
    assert forall e :: H.EnvironmentUnder(t, a, e) <==> H.EnvironmentUnder(t, b, e);
    assert forall f :: H.FolderUnder(t, a, f) <==> H.FolderUnder(t, b, f);
  }

  lemma {:induction false} BareIff(t: Tables, id: Id)
    requires R.CascadeOrganization(t, id).Ok?
    ensures Chained(t) ==>
            (R.CascadeOrganization(t, id).value.scope == R.CascadeScope({id}, {}, {}, {}, {})
             <==> !exists p :: ActiveProject(t, p) && t.projects[p].orgId == id)
  {
    assert forall p :: p in R.ActiveProjectsOf(t.projects, id) <==> ActiveProject(t, p) && t.projects[p].orgId == id;
    if Chained(t) { H.UnforcedDeleteIsBare(t, id); }
  }

  lemma {:induction false} StaysConsistent(t: Tables, op: H.Op)
    requires H.IsCreate(op) && H.Create(t, op).Ok?
    ensures Consistent(t) ==> (Consistent(H.Create(t, op).value) <==> H.ParentActive(t, op))
  {
    if Consistent(t) { H.CreateConsistentIff(t, op); }
  }

  lemma {:induction false} FailsEarly(t: Tables, projectId: Id, envs: seq<R.Spec>, k: nat)
    requires k <= |envs| && R.InsertEnvironments(t, projectId, envs[..k]).Err?
    ensures R.InsertEnvironments(t, projectId, envs) == R.InsertEnvironments(t, projectId, envs[..k])
  {
    if k < |envs| {
      assert envs[..|envs| - 1][..k] == envs[..k];
      FailsEarly(t, projectId, envs[..|envs| - 1], k);
    } else {
      assert envs[..k] == envs;
    }
  }

  lemma {:induction false} FolderFailsEarly(t: Tables, specs: seq<R.Spec>, parents: map<Id, Id>, level: int,
                                            code: string, k: nat)
    requires level == 2 ==> forall j :: 0 <= j < |specs| ==> specs[j].name in parents
    requires k <= |specs| && R.InsertFolders(t, specs[..k], parents, level, code).Err?
    ensures R.InsertFolders(t, specs, parents, level, code) == R.InsertFolders(t, specs[..k], parents, level, code)
  {
    if k < |specs| {
      assert specs[..|specs| - 1][..k] == specs[..k];
      FolderFailsEarly(t, specs[..|specs| - 1], parents, level, code, k);
    } else {
      assert specs[..k] == specs;
    }
  }
}
