/**
 * Any number of resource requests at once. A request passes its guard, makes the reads the repository makes before
 * its write, one at a time, and then writes; steps of other requests may come between any two of these. Creating
 * folders looks at each environment and at each parent folder before its transaction begins, an unforced organization
 * delete counts projects before its own, and the look of an environment create takes no lock. A write, the inserts or
 * the cascade of one transaction, is one step.
 */
module Interleaving {
  import opened Wrappers
  import opened Text
  import opened Tables
  import opened Resources
  import H = Hierarchy
  import B = SecretBatch

  /** A request past its guard: how many of its looks were made, and the parent folders found so far. */
  datatype Flight = Flight(op: H.Op, seen: nat, parents: map<Id, Id>)

  datatype State = State(tables: Tables, flights: map<nat, Flight>)

  datatype Step =
    | Begin(id: nat, q: H.Request)         // the guard passes
    | Look(id: nat)                        // the next read passes
    | Find(id: nat, k: nat, parent: Id)    // the parent folder for the k-th environment is found
    | Write(id: nat)                       // the transaction, committed or failed
    | Abandon(id: nat)                     // an earlier error

  // ---- looks ----

  /** The folders a request creates, each with its environment as name. */
  function Folders(op: H.Op): seq<Spec> {
    match op
    case CreateTopLevelFolders(_, specs) => specs
    case CreateFoldersAcross(_, _, specs) => specs
    case _ => []
  }

  function Looks(op: H.Op): nat {
    if op.CreateEnvironment? || (op.DeleteOrganization? && !op.force) then 1 else |Folders(op)|
  }

  /** Environments already looked at are not looked at again. */
  predicate LookPasses(t: Tables, f: Flight)
    requires f.seen < Looks(f.op)
  {
    match f.op
    case CreateEnvironment(projectId, _, _) => ActiveProject(t, projectId)
    case DeleteOrganization(id, _) => ActiveProjectsOf(t.projects, id) == {}
    case _ =>
      var specs := Folders(f.op);
      ActiveEnvironment(t, specs[f.seen].name) || exists j :: 0 <= j < f.seen && specs[j].name == specs[f.seen].name
  }

  /** Parents are found in order, once the environments were looked at. */
  predicate Finds(t: Tables, f: Flight, k: nat, parent: Id) {
    && f.op.CreateFoldersAcross? && f.seen == Looks(f.op) && k < |f.op.specs|
    && (forall j :: 0 <= j < k ==> f.op.specs[j].name in f.parents) && f.op.specs[k].name !in f.parents
    && IsSibling(t, f.op.specs[k].name, f.op.parentCode, parent)
  }

  predicate Ready(f: Flight) {
    && f.seen == Looks(f.op)
    && (f.op.CreateTopLevelFolders? ==> f.op.specs != [])
    && (f.op.CreateFoldersAcross? ==>
         && f.op.specs != [] && TrimSpace(f.op.parentCode) != ""
         && forall k :: 0 <= k < |f.op.specs| ==> f.op.specs[k].name in f.parents)
    && (f.op.CreateSecrets? ==> |f.op.ids| == |f.op.items|)
  }

  // ---- writes ----

  /** The transaction, which repeats none of the looks; a delete still finds its own row active or not. */
  function Written(t: Tables, f: Flight): Result<Tables>
    requires Ready(f)
  {
    match f.op
    case CreateOrganization(id, code) => CreateOrganization(t, id, code)
    case CreateProject(orgId, id, code, envs) => CreateProject(t, orgId, id, code, envs)
    case CreateEnvironment(projectId, id, code) =>
      (match InsertEnvironment(t, id, projectId, code)
       case Err(e) => Err(e)
       case Ok(t1) => Ok(Audited(t1, "environment", id, "create")))
    case CreateTopLevelFolders(code, specs) => InsertFolders(t, specs, map[], 1, code)
    case CreateFoldersAcross(_, code, specs) => InsertFolders(t, specs, f.parents, 2, code)
    case CreateSecret(id, folderId, key, ciphertext, comment) => CreateSecret(t, id, folderId, key, ciphertext, comment)
    case CreateSecrets(items, ids) => B.BatchCreated(t, items, ids)
    case UpdateSecrets(changes) => B.BatchUpdated(t, changes)
    case _ => if H.IsDelete(f.op) then TablesOf(H.Delete(t, Forced(f.op))) else Ok(t)
  }

  /** In its transaction an organization delete no longer counts. */
  function Forced(op: H.Op): H.Op {
    match op
    case DeleteOrganization(id, _) => H.DeleteOrganization(id, true)
    case _ => op
  }

  function TablesOf(d: Result<Deleted>): Result<Tables> {
    match d
    case Err(e) => Err(e)
    case Ok(deleted) => Ok(deleted.tables)
  }

  predicate Enabled(s: State, step: Step) {
    match step
    case Begin(id, q) => id !in s.flights && H.Guard(s.tables, q)
    case Look(id) =>
      id in s.flights && s.flights[id].seen < Looks(s.flights[id].op) && LookPasses(s.tables, s.flights[id])
    case Find(id, k, parent) => id in s.flights && Finds(s.tables, s.flights[id], k, parent)
    case Write(id) => id in s.flights && Ready(s.flights[id])
    case Abandon(id) => id in s.flights
  }

  function Next(s: State, step: Step): State
    requires Enabled(s, step)
  {
    match step
    case Begin(id, q) => s.(flights := s.flights[id := Flight(q.op, 0, map[])])
    case Look(id) => s.(flights := s.flights[id := s.flights[id].(seen := s.flights[id].seen + 1)])
    case Find(id, k, parent) =>
      var f := s.flights[id];
      s.(flights := s.flights[id := f.(parents := f.parents[f.op.specs[k].name := parent])])
    case Write(id) =>
      (match Written(s.tables, s.flights[id])
       case Err(_) => s.(flights := s.flights - {id})
       case Ok(t) => State(t, s.flights - {id}))
    case Abandon(id) => s.(flights := s.flights - {id})
  }

  ghost predicate Runs(s: State, steps: seq<Step>)
    decreases |steps|, 0
  {
    steps == [] || (Runs(s, steps[..|steps| - 1]) && Enabled(After(s, steps[..|steps| - 1]), steps[|steps| - 1]))
  }

  ghost function After(s: State, steps: seq<Step>): State
    requires Runs(s, steps)
    decreases |steps|, 1
  {
    if steps == [] then s else Next(After(s, steps[..|steps| - 1]), steps[|steps| - 1])
  }

  // ---- a request alone is the single call ----

  /** When every look passes on tables that stay, writing is the whole call. */
  lemma {:induction false} AloneIsCall(t: Tables, f: Flight)
    requires Ready(f) && (H.IsCreate(f.op) || H.IsDelete(f.op))
    requires forall n :: 0 <= n < Looks(f.op) ==> LookPasses(t, f.(seen := n))
    requires f.op.CreateFoldersAcross? ==>
             forall k :: 0 <= k < |f.op.specs| ==>
               && HasSibling(t, f.op.specs[k].name, f.op.parentCode)
               && f.parents[f.op.specs[k].name] == Sibling(t, f.op.specs[k].name, f.op.parentCode)
    ensures H.IsCreate(f.op) ==> Written(t, f) == H.Create(t, f.op)
    ensures H.IsDelete(f.op) ==> Written(t, f) == TablesOf(H.Delete(t, f.op))
  {
    match f.op {
      case CreateEnvironment(_, _, _) => assert LookPasses(t, f.(seen := 0));
      case CreateTopLevelFolders(_, specs) => LooksAreActive(t, f);
      case CreateFoldersAcross(parentCode, code, specs) =>
        LooksAreActive(t, f);
        SameInserts(t, specs, f.parents, Siblings(t, specs, parentCode), code);
      case DeleteOrganization(_, force) => if !force { assert LookPasses(t, f.(seen := 0)); }
      case _ =>
    }
  }

  /** The looks of a folder create pass exactly when its environments are active. */
  lemma {:induction false} LooksAreActive(t: Tables, f: Flight)
    requires f.op.CreateTopLevelFolders? || f.op.CreateFoldersAcross?
    ensures (forall n :: 0 <= n < Looks(f.op) ==> LookPasses(t, f.(seen := n))) <==>
            forall k :: 0 <= k < |Folders(f.op)| ==> ActiveEnvironment(t, Folders(f.op)[k].name)
  {
    if forall n :: 0 <= n < Looks(f.op) ==> LookPasses(t, f.(seen := n)) {
      forall k | 0 <= k < |Folders(f.op)|
        ensures ActiveEnvironment(t, Folders(f.op)[k].name)
      {
        LookedIsActive(t, f, k);
      }
    }
  }

  lemma {:induction false} LookedIsActive(t: Tables, f: Flight, k: nat)
    requires f.op.CreateTopLevelFolders? || f.op.CreateFoldersAcross?
    requires forall n :: 0 <= n < Looks(f.op) ==> LookPasses(t, f.(seen := n))
    requires k < |Folders(f.op)|
    ensures ActiveEnvironment(t, Folders(f.op)[k].name)
  {
    assert LookPasses(t, f.(seen := k));
    if j :| 0 <= j < k && Folders(f.op)[j].name == Folders(f.op)[k].name && !ActiveEnvironment(t, Folders(f.op)[k].name) {
      LookedIsActive(t, f, j);
    }
  }

  lemma {:induction false} SameInserts(t: Tables, specs: seq<Spec>, parents: map<Id, Id>, others: map<Id, Id>,
                                       code: string)
    requires forall k :: 0 <= k < |specs| ==> specs[k].name in parents && specs[k].name in others
    requires forall k :: 0 <= k < |specs| ==> parents[specs[k].name] == others[specs[k].name]
    ensures InsertFolders(t, specs, parents, 2, code) == InsertFolders(t, specs, others, 2, code)
  {
    if specs != [] { SameInserts(t, specs[..|specs| - 1], parents, others, code); }
  }

  /** The other looks pass exactly when the project is active, or no active project of the organization is there. */
  lemma {:induction false} OtherLooks(t: Tables, f: Flight)
    requires f.op.CreateEnvironment? || (f.op.DeleteOrganization? && !f.op.force)
    requires f.seen == 0
    ensures Looks(f.op) == 1
    ensures f.op.CreateEnvironment? ==> (LookPasses(t, f) <==> ActiveProject(t, f.op.projectId))
    ensures f.op.DeleteOrganization? ==>
            (LookPasses(t, f) <==> forall p :: ActiveProject(t, p) ==> t.projects[p].orgId != f.op.id)
  {
    if f.op.DeleteOrganization? {
      assert forall p :: p in ActiveProjectsOf(t.projects, f.op.id)
                         <==> ActiveProject(t, p) && t.projects[p].orgId == f.op.id;
    }
  }

  /** An environment named twice is looked at once: whatever became of it, the second look passes. */
  lemma {:induction false} LookedAtOnce(t: Tables, f: Flight, j: nat)
    requires j < f.seen < |Folders(f.op)| && Folders(f.op)[j].name == Folders(f.op)[f.seen].name
    ensures LookPasses(t, f)
  {
  }

  /** A request ends with its write, committed or not, or when it is given up; only a commit changes the tables, and no
      other request is touched. */
  lemma {:induction false} EndsOnce(s: State, step: Step)
    requires Enabled(s, step) && (step.Write? || step.Abandon?)
    ensures Next(s, step).flights == s.flights - {step.id}
    ensures step.Abandon? ==> Next(s, step).tables == s.tables
    ensures step.Write? ==>
              var written := Written(s.tables, s.flights[step.id]);
              Next(s, step).tables == if written.Ok? then written.value else s.tables
  {
  }

  /** Beginning, looking and finding leave the tables and the other requests alone. */
  lemma {:induction false} LooksChangeNothing(s: State, step: Step)
    requires Enabled(s, step) && !step.Write? && !step.Abandon?
    ensures Next(s, step).tables == s.tables && Next(s, step).flights - {step.id} == s.flights - {step.id}
    ensures step.Begin? ==> Next(s, step).flights[step.id] == Flight(step.q.op, 0, map[])
    ensures step.Look? ==> Next(s, step).flights[step.id].seen == s.flights[step.id].seen + 1
    ensures step.Find? ==>
              var f := s.flights[step.id]; var env := f.op.specs[step.k].name;
              && Next(s, step).flights[step.id].parents == f.parents[env := step.parent]
              && ActiveFolder(s.tables, step.parent) && s.tables.folders[step.parent].environmentId == env
              && s.tables.folders[step.parent].level == 1 && s.tables.folders[step.parent].code == f.op.parentCode
    ensures !step.Begin? ==> Next(s, step).flights[step.id].op == s.flights[step.id].op
  {
  }

  // ---- what every interleaving keeps ----

  /** What the looks of a request found was there, and rows stay. */
  ghost predicate FlightOk(t: Tables, f: Flight) {
    && f.seen <= Looks(f.op)
    && (f.op.CreateProject? ==> f.op.orgId in t.orgs)
    && (forall j :: 0 <= j < f.seen && j < |Folders(f.op)| ==> Folders(f.op)[j].name in t.environments)
    && (forall e :: e in f.parents ==> ParentOf(t, e, f.parents[e]))
    && (f.op.CreateSecret? ==> f.op.folderId in t.folders)
  }

  predicate ParentOf(t: Tables, e: Id, parent: Id) {
    parent in t.folders && t.folders[parent].level == 1 && t.folders[parent].environmentId == e
  }

  /** Everything but the active chain. */
  ghost predicate Regular(t: Tables) {
    Anchored(t) && FoldersNested(t.folders) && Unique(t)
  }

  ghost predicate Sound(s: State) {
    Regular(s.tables) && forall id :: id in s.flights ==> FlightOk(s.tables, s.flights[id])
  }

  lemma {:induction false} FlightStays(t: Tables, t': Tables, f: Flight)
    requires FlightOk(t, f) && LinksKept(t, t')
    ensures FlightOk(t', f)
  {
  }

  lemma {:induction false} SpecIdFrom(specs: seq<Spec>, id: Id) returns (k: nat)
    requires id in H.SpecIds(specs)
    ensures k < |specs| && specs[k].id == id
  {
    if specs[|specs| - 1].id == id {
      k := |specs| - 1;
    } else {
      k := SpecIdFrom(specs[..|specs| - 1], id);
    }
  }

  lemma {:induction false} ProjectAnchors(t: Tables, orgId: Id, id: Id, code: string, envs: seq<Spec>)
    requires Anchored(t) && orgId in t.orgs && CreateProject(t, orgId, id, code, envs).Ok?
    ensures var t' := CreateProject(t, orgId, id, code, envs).value; Anchored(t') && LinksKept(t, t')
  {
    var t' := CreateProject(t, orgId, id, code, envs).value;
    H.CreateProjectExact(t, orgId, id, code, envs);
    forall e | e in t'.environments
      ensures t'.environments[e].projectId in t'.projects
    {
      if e !in t.environments {
        var k := SpecIdFrom(envs, e);
      }
    }
  }

  lemma {:induction false} FoldersAnchor(t: Tables, specs: seq<Spec>, parents: map<Id, Id>, level: int, code: string)
    requires Anchored(t) && level == 2 ==> forall k :: 0 <= k < |specs| ==> specs[k].name in parents
    requires Anchored(t) && forall k :: 0 <= k < |specs| ==> specs[k].name in t.environments
    requires InsertFolders(t, specs, parents, level, code).Ok?
    ensures var t' := InsertFolders(t, specs, parents, level, code).value; Anchored(t') && LinksKept(t, t')
  {
    var t' := InsertFolders(t, specs, parents, level, code).value;
    H.FoldersAdded(t, specs, parents, level, code);
    forall f | f in t'.folders
      ensures t'.folders[f].environmentId in t'.environments
    {
      if f !in t.folders {
        var k := SpecIdFrom(specs, f);
        H.FolderRowAdded(t, specs, parents, level, code, k);
      }
    }
  }

  lemma {:induction false} DeletesLink(t: Tables, t': Tables)
    requires H.OnlyDeletes(t, t')
    ensures LinksKept(t, t')
  {
  }

  lemma {:induction false} AnchoredByLinks(t: Tables, t': Tables)
    requires Anchored(t) && LinksKept(t, t')
    requires t'.projects.Keys == t.projects.Keys && t'.environments.Keys == t.environments.Keys
    requires t'.folders.Keys == t.folders.Keys && t'.secrets.Keys == t.secrets.Keys
    ensures Anchored(t')
  {
  }

  lemma {:induction false} DeletesAnchor(t: Tables, t': Tables)
    requires Anchored(t) && H.OnlyDeletes(t, t')
    ensures Anchored(t') && LinksKept(t, t')
  {
    DeletesLink(t, t');
    AnchoredByLinks(t, t');
  }

  lemma {:induction false} DeleteWriteAnchors(t: Tables, f: Flight)
    requires Anchored(t) && Ready(f) && H.IsDelete(f.op) && Written(t, f).Ok?
    ensures H.OnlyDeletes(t, Written(t, f).value)
    ensures Anchored(Written(t, f).value) && LinksKept(t, Written(t, f).value)
  {
    H.DeleteExact(t, Forced(f.op));
    DeletesAnchor(t, Written(t, f).value);
  }

  lemma {:induction false} OrganizationAnchors(t: Tables, id: Id, code: string)
    requires Anchored(t) && CreateOrganization(t, id, code).Ok?
    ensures var t' := CreateOrganization(t, id, code).value; Anchored(t') && LinksKept(t, t')
  {
  }

  lemma {:induction false} EnvironmentAnchors(t: Tables, id: Id, projectId: Id, code: string)
    requires Anchored(t) && InsertEnvironment(t, id, projectId, code).Ok?
    ensures var t' := Audited(InsertEnvironment(t, id, projectId, code).value, "environment", id, "create");
            Anchored(t') && LinksKept(t, t')
  {
  }

  lemma {:induction false} OneRowAnchors(t: Tables, f: Flight)
    requires Anchored(t) && FlightOk(t, f) && Ready(f) && Written(t, f).Ok?
    requires f.op.CreateOrganization? || f.op.CreateEnvironment? || f.op.CreateSecret?
    ensures Anchored(Written(t, f).value) && LinksKept(t, Written(t, f).value)
  {
    match f.op {
      case CreateOrganization(id, code) => OrganizationAnchors(t, id, code);
      case CreateEnvironment(projectId, id, code) => EnvironmentAnchors(t, id, projectId, code);
      case CreateSecret(_, _, _, _, _) => B.SecretsAnchor(t, Written(t, f).value);
    }
  }

  lemma {:induction false} Idle(f: Flight, t: Tables)
    requires Ready(f) && !H.IsCreate(f.op) && !H.IsDelete(f.op) && !f.op.UpdateSecrets?
    ensures Written(t, f) == Ok(t) && LinksKept(t, t)
  {
  }

  lemma {:induction false} WriteAnchors(t: Tables, f: Flight)
    requires Anchored(t) && FlightOk(t, f) && Ready(f) && Written(t, f).Ok?
    ensures Anchored(Written(t, f).value) && LinksKept(t, Written(t, f).value)
  {
    match f.op {
      case CreateProject(orgId, id, code, envs) => ProjectAnchors(t, orgId, id, code, envs);
      case CreateTopLevelFolders(code, specs) => FoldersAnchor(t, specs, map[], 1, code);
      case CreateFoldersAcross(_, code, specs) => FoldersAnchor(t, specs, f.parents, 2, code);
      case CreateSecrets(items, ids) => B.CreateAnchors(t, items, ids);
      case UpdateSecrets(changes) => B.UpdateAnchors(t, changes);
      case _ =>
        if H.IsDelete(f.op) { DeleteWriteAnchors(t, f); }
        else if H.IsCreate(f.op) { OneRowAnchors(t, f); }
        else { Idle(f, t); }
    }
  }

  lemma {:induction false} EnvironmentsUnique(t: Tables, projectId: Id, envs: seq<Spec>)
    requires Unique(t) && InsertEnvironments(t, projectId, envs).Ok?
    ensures Unique(InsertEnvironments(t, projectId, envs).value)
    ensures InsertEnvironments(t, projectId, envs).value.folders == t.folders
  {
    if envs != [] {
      var before, spec := envs[..|envs| - 1], envs[|envs| - 1];
      EnvironmentsUnique(t, projectId, before);
      EnvironmentUnique(InsertEnvironments(t, projectId, before).value, spec.id, projectId, spec.name);
    }
  }

  lemma {:induction false} EnvironmentUnique(t: Tables, id: Id, projectId: Id, code: string)
    requires Unique(t) && InsertEnvironment(t, id, projectId, code).Ok?
    ensures Unique(InsertEnvironment(t, id, projectId, code).value)
    ensures InsertEnvironment(t, id, projectId, code).value.folders == t.folders
  {
    assert UniqueEnvironments(InsertEnvironment(t, id, projectId, code).value.environments);
  }

  lemma {:induction false} ProjectUnique(t: Tables, orgId: Id, id: Id, code: string, envs: seq<Spec>)
    requires Unique(t) && CreateProject(t, orgId, id, code, envs).Ok?
    ensures Unique(CreateProject(t, orgId, id, code, envs).value)
    ensures CreateProject(t, orgId, id, code, envs).value.folders == t.folders
  {
    var t1 := InsertProject(t, id, orgId, code).value;
    assert UniqueProjects(t1.projects);
    EnvironmentsUnique(t1, id, envs);
  }

  lemma {:induction false} FolderRegular(t: Tables, id: Id, row: FolderRow)
    requires FoldersNested(t.folders) && Unique(t) && Nested(t.folders, row) && InsertFolder(t, id, row).Ok?
    ensures var t' := InsertFolder(t, id, row).value; FoldersNested(t'.folders) && Unique(t')
  {
    var t' := InsertFolder(t, id, row).value;
    assert UniquePlaces(t'.folders);
    H.NestedGrows(t.folders, t'.folders, id);
  }

  ghost predicate RowsFit(t: Tables, specs: seq<Spec>, parents: map<Id, Id>, level: int) {
    level == 1 || (level == 2 && forall k :: 0 <= k < |specs| ==>
                     specs[k].name in parents && ParentOf(t, specs[k].name, parents[specs[k].name]))
  }

  lemma {:induction false} FoldersRegular(t: Tables, specs: seq<Spec>, parents: map<Id, Id>, level: int, code: string)
    requires FoldersNested(t.folders) && Unique(t) && RowsFit(t, specs, parents, level)
    requires InsertFolders(t, specs, parents, level, code).Ok?
    ensures var t' := InsertFolders(t, specs, parents, level, code).value; FoldersNested(t'.folders) && Unique(t')
  {
    if specs != [] {
      var before, spec := specs[..|specs| - 1], specs[|specs| - 1];
      FoldersRegular(t, before, parents, level, code);
      H.FoldersAdded(t, before, parents, level, code);
      var t1 := InsertFolders(t, before, parents, level, code).value;
      assert level == 2 ==> ParentOf(t, spec.name, parents[spec.name]) && ParentOf(t1, spec.name, parents[spec.name]);
      FolderRegular(t1, spec.id, RowOf(spec, parents, level, code));
    }
  }

  lemma {:induction false} SecretsUnique(t: Tables, op: H.Op)
    requires Unique(t)
    ensures op.CreateSecret? && CreateSecret(t, op.id, op.folderId, op.key, op.ciphertext, op.comment).Ok? ==>
            Unique(CreateSecret(t, op.id, op.folderId, op.key, op.ciphertext, op.comment).value)
    ensures op.CreateSecrets? && |op.ids| == |op.items| && B.BatchCreated(t, op.items, op.ids).Ok? ==>
            var t' := B.BatchCreated(t, op.items, op.ids).value; Unique(t') && t'.folders == t.folders
    ensures op.UpdateSecrets? && B.BatchUpdated(t, op.changes).Ok? ==>
            var t' := B.BatchUpdated(t, op.changes).value; Unique(t') && t'.folders == t.folders
  {
    if op.CreateSecret? && CreateSecret(t, op.id, op.folderId, op.key, op.ciphertext, op.comment).Ok? {
      B.InsertKeepsUnique(t, op.id, SecretRow(op.folderId, op.key, op.ciphertext, op.comment, 1, false));
    } else if op.CreateSecrets? && |op.ids| == |op.items| && B.BatchCreated(t, op.items, op.ids).Ok? && op.items != [] {
      B.CreateExact(t, op.items, op.ids);
    } else if op.UpdateSecrets? && B.BatchUpdated(t, op.changes).Ok? && op.changes != [] {
      B.UpdateExact(t, op.changes);
    }
  }

  lemma {:induction false} CreateRegular(t: Tables, f: Flight)
    requires FoldersNested(t.folders) && Unique(t) && FlightOk(t, f) && Ready(f) && Written(t, f).Ok? && H.IsCreate(f.op)
    ensures FoldersNested(Written(t, f).value.folders) && Unique(Written(t, f).value)
  {
    match f.op {
      case CreateOrganization(id, code) => assert UniqueOrgs(Written(t, f).value.orgs);
      case CreateProject(orgId, id, code, envs) => ProjectUnique(t, orgId, id, code, envs);
      case CreateEnvironment(projectId, id, code) => EnvironmentUnique(t, id, projectId, code);
      case CreateTopLevelFolders(code, specs) => FoldersRegular(t, specs, map[], 1, code);
      case CreateFoldersAcross(_, code, specs) => FoldersRegular(t, specs, f.parents, 2, code);
      case _ => SecretsUnique(t, f.op);
    }
  }

  lemma {:induction false} DeleteRegular(t: Tables, f: Flight)
    requires Regular(t) && Ready(f) && Written(t, f).Ok? && H.IsDelete(f.op)
    ensures FoldersNested(Written(t, f).value.folders) && Unique(Written(t, f).value)
  {
    DeleteWriteAnchors(t, f);
    H.UniqueShrinks(t, Written(t, f).value);
    H.NestedShrinks(t, Written(t, f).value);
  }

  lemma {:induction false} WriteRegular(t: Tables, f: Flight)
    requires Regular(t) && FlightOk(t, f) && Ready(f) && Written(t, f).Ok?
    ensures Regular(Written(t, f).value) && LinksKept(t, Written(t, f).value)
  {
    WriteAnchors(t, f);
    if H.IsCreate(f.op) {
      CreateRegular(t, f);
    } else if H.IsDelete(f.op) {
      DeleteRegular(t, f);
    } else if f.op.UpdateSecrets? {
      SecretsUnique(t, f.op);
    } else {
      Idle(f, t);
    }
  }

  lemma {:induction false} BeginOk(t: Tables, q: H.Request)
    requires H.Guard(t, q)
    ensures FlightOk(t, Flight(q.op, 0, map[]))
  {
    H.GuardedParents(t, q);
  }

  lemma {:induction false} LookOk(s: State, step: Step)
    requires Sound(s) && Enabled(s, step) && (step.Look? || step.Find?)
    ensures FlightOk(s.tables, Next(s, step).flights[step.id])
  {
    var f, f' := s.flights[step.id], Next(s, step).flights[step.id];
    if step.Look? {
      forall j | 0 <= j < f'.seen && j < |Folders(f.op)|
        ensures Folders(f.op)[j].name in s.tables.environments
      {
      }
    }
  }

  lemma {:induction false} WriteSound(s: State, id: nat)
    requires Sound(s) && Enabled(s, Write(id)) && Written(s.tables, s.flights[id]).Ok?
    ensures Sound(Next(s, Write(id))) && LinksKept(s.tables, Next(s, Write(id)).tables)
  {
    var s' := Next(s, Write(id));
    WriteRegular(s.tables, s.flights[id]);
    forall x | x in s'.flights
      ensures FlightOk(s'.tables, s'.flights[x])
    {
      FlightStays(s.tables, s'.tables, s.flights[x]);
    }
  }

  lemma {:induction false} OneFlightChanged(s: State, s': State, id: nat)
    requires Sound(s) && s'.tables == s.tables && (id in s'.flights ==> FlightOk(s.tables, s'.flights[id]))
    requires forall x :: x in s'.flights && x != id ==> x in s.flights && s'.flights[x] == s.flights[x]
    ensures Sound(s') && LinksKept(s.tables, s'.tables)
  {
  }

  lemma {:induction false} SoundNext(s: State, step: Step)
    requires Sound(s) && Enabled(s, step)
    ensures Sound(Next(s, step)) && LinksKept(s.tables, Next(s, step).tables)
  {
    if step.Write? && Written(s.tables, s.flights[step.id]).Ok? {
      WriteSound(s, step.id);
    } else {
      if step.Begin? {
        BeginOk(s.tables, step.q);
      } else if step.Look? || step.Find? {
        LookOk(s, step);
      }
      OneFlightChanged(s, Next(s, step), step.id);
    }
  }

  /** In every interleaving, whatever its races: no row ever hangs under a row that does not exist, level-2 folders hang
      under level-1 folders of their environment, active codes and keys are unique, and no row vanishes or moves. */
  lemma {:induction false} EveryRunRegular(s: State, steps: seq<Step>)
    requires Sound(s) && Runs(s, steps)
    ensures Sound(After(s, steps)) && LinksKept(s.tables, After(s, steps).tables)
  {
    if steps != [] {
      var before := steps[..|steps| - 1];
      EveryRunRegular(s, before);
      SoundNext(After(s, before), steps[|steps| - 1]);
      LinksJoin(s.tables, After(s, before).tables, After(s, steps).tables);
    }
  }

  lemma {:induction false} LinksJoin(a: Tables, b: Tables, c: Tables)
    requires LinksKept(a, b) && LinksKept(b, c)
    ensures LinksKept(a, c)
  {
  }

  // ---- the active chain: exactly when no create loses its race ----

  /** The parents of what a request creates are active. */
  predicate ParentsActive(t: Tables, op: H.Op) {
    match op
    case CreateEnvironment(projectId, _, _) => ActiveProject(t, projectId)
    case CreateTopLevelFolders(_, specs) => EnvironmentsActive(t, specs)
    case CreateFoldersAcross(_, _, specs) => EnvironmentsActive(t, specs)
    case _ => H.ParentActive(t, op)
  }

  predicate EnvironmentsActive(t: Tables, specs: seq<Spec>) {
    forall k :: 0 <= k < |specs| ==> ActiveEnvironment(t, specs[k].name)
  }

  lemma {:induction false} FoldersChainIff(t: Tables, specs: seq<Spec>, parents: map<Id, Id>, level: int, code: string)
    requires Consistent(t) && RowsFit(t, specs, parents, level)
    requires InsertFolders(t, specs, parents, level, code).Ok?
    ensures Chained(InsertFolders(t, specs, parents, level, code).value) <==> EnvironmentsActive(t, specs)
  {
    var t' := InsertFolders(t, specs, parents, level, code).value;
    if EnvironmentsActive(t, specs) {
      forall k | 0 <= k < |specs|
        ensures H.SpecOk(t, specs[k], parents, level, code)
      {
        assert level == 2 ==> ParentOf(t, specs[k].name, parents[specs[k].name]);
      }
      H.InsertFoldersKeeps(t, specs, parents, level, code);
    } else {
      var k :| 0 <= k < |specs| && !ActiveEnvironment(t, specs[k].name);
      H.FoldersAdded(t, specs, parents, level, code);
      H.FolderRowAdded(t, specs, parents, level, code, k);
      assert ActiveFolder(t', specs[k].id);
    }
  }

  lemma {:induction false} EnvironmentChainIff(t: Tables, id: Id, projectId: Id, code: string)
    requires Consistent(t) && InsertEnvironment(t, id, projectId, code).Ok?
    ensures Chained(InsertEnvironment(t, id, projectId, code).value) <==> ActiveProject(t, projectId)
  {
    var t' := InsertEnvironment(t, id, projectId, code).value;
    if ActiveProject(t, projectId) {
      H.InsertEnvironmentKeeps(t, id, projectId, code);
    } else {
      assert ActiveEnvironment(t', id);
    }
  }

  lemma {:induction false} AuditChains(t: Tables, resourceType: string, id: Id, action: string)
    ensures Chained(Audited(t, resourceType, id, action)) <==> Chained(t)
  {
    var t' := Audited(t, resourceType, id, action);
    assert t'.orgs == t.orgs && t'.projects == t.projects && t'.environments == t.environments;
    assert t'.folders == t.folders && t'.secrets == t.secrets;
  }

  /** Creates whose look the guard or nobody makes: the transaction is the whole create. */
  predicate WholeCreate(op: H.Op) {
    op.CreateOrganization? || op.CreateProject? || op.CreateSecret? || (op.CreateSecrets? && |op.ids| == |op.items|)
  }

  lemma {:induction false} WholeChainIff(t: Tables, f: Flight)
    requires Consistent(t) && WholeCreate(f.op) && Regular(t) && FlightOk(t, f) && Ready(f) && Written(t, f).Ok?
    ensures Chained(Written(t, f).value) <==> ParentsActive(t, f.op)
  {
    assert H.Create(t, f.op) == Written(t, f);
    H.CreateConsistentIff(t, f.op);
    WriteRegular(t, f);
  }

  lemma {:induction false} LookedChainIff(t: Tables, f: Flight)
    requires Consistent(t) && FlightOk(t, f) && Ready(f) && Written(t, f).Ok?
    requires f.op.CreateEnvironment? || f.op.CreateTopLevelFolders? || f.op.CreateFoldersAcross?
    ensures Chained(Written(t, f).value) <==> ParentsActive(t, f.op)
  {
    match f.op {
      case CreateEnvironment(projectId, id, code) =>
        EnvironmentChainIff(t, id, projectId, code);
        AuditChains(InsertEnvironment(t, id, projectId, code).value, "environment", id, "create");
      case CreateTopLevelFolders(code, specs) => FoldersChainIff(t, specs, map[], 1, code);
      case CreateFoldersAcross(_, code, specs) => FoldersChainIff(t, specs, f.parents, 2, code);
    }
  }

  lemma {:induction false} WriteChainIff(t: Tables, f: Flight)
    requires Regular(t) && Chained(t) && FlightOk(t, f) && Ready(f) && Written(t, f).Ok?
    ensures Chained(Written(t, f).value) <==> ParentsActive(t, f.op)
  {
    match f.op {
      case CreateEnvironment(_, _, _) => LookedChainIff(t, f);
      case CreateTopLevelFolders(_, _) => LookedChainIff(t, f);
      case CreateFoldersAcross(_, _, _) => LookedChainIff(t, f);
      case UpdateSecrets(changes) => H.UpdateSecretsKeeps(t, changes);
      case _ =>
        if WholeCreate(f.op) {
          WholeChainIff(t, f);
        } else if H.IsDelete(f.op) {
          H.DeleteKeeps(t, Forced(f.op));
        }
    }
  }

  /** The write at step k commits. */
  ghost predicate Commits(s: State, steps: seq<Step>, k: nat)
    requires Runs(s, steps) && k < |steps| && Runs(s, steps[..k])
  {
    && steps[k].Write? && steps[k].id in After(s, steps[..k]).flights && Ready(After(s, steps[..k]).flights[steps[k].id])
    && Written(After(s, steps[..k]).tables, After(s, steps[..k]).flights[steps[k].id]).Ok?
  }

  lemma {:induction false} PrefixRuns(s: State, steps: seq<Step>, k: nat)
    requires Runs(s, steps) && k <= |steps|
    ensures Runs(s, steps[..k]) && (k < |steps| ==> Enabled(After(s, steps[..k]), steps[k]))
    ensures k < |steps| ==> Runs(s, steps[..k + 1]) && After(s, steps[..k + 1]) == Next(After(s, steps[..k]), steps[k])
    decreases |steps|
  {
    if k == |steps| {
      assert steps[..k] == steps;
    } else {
      var before := steps[..|steps| - 1];
      if k < |before| {
        PrefixRuns(s, before, k);
        assert before[..k] == steps[..k] && before[..k + 1] == steps[..k + 1];
      } else {
        assert steps[..k] == before && steps[..k + 1] == steps;
      }
    }
  }

  /** The tables are consistent after every step. */
  ghost predicate AlwaysConsistent(s: State, steps: seq<Step>)
    requires Runs(s, steps)
  {
    forall k :: 0 <= k <= |steps| && Runs(s, steps[..k]) ==> Consistent(After(s, steps[..k]).tables)
  }

  /** Every write that commits finds the parents of what it creates active. */
  ghost predicate NoRaceLost(s: State, steps: seq<Step>)
    requires Runs(s, steps)
  {
    forall k :: 0 <= k < |steps| && Runs(s, steps[..k]) && Commits(s, steps, k) ==>
      ParentsActive(After(s, steps[..k]).tables, After(s, steps[..k]).flights[steps[k].id].op)
  }

  lemma {:induction false} StepChainIff(s: State, step: Step)
    requires Sound(s) && Chained(s.tables) && Enabled(s, step)
    ensures Chained(Next(s, step).tables) <==>
            (step.Write? && Written(s.tables, s.flights[step.id]).Ok? ==> ParentsActive(s.tables, s.flights[step.id].op))
  {
    if step.Write? && Written(s.tables, s.flights[step.id]).Ok? {
      WriteChainIff(s.tables, s.flights[step.id]);
    }
  }

  lemma {:induction false} ConsistentUpTo(s: State, steps: seq<Step>, k: nat)
    requires Sound(s) && Chained(s.tables) && Runs(s, steps) && NoRaceLost(s, steps) && k <= |steps|
    ensures Runs(s, steps[..k]) && Consistent(After(s, steps[..k]).tables)
    decreases k
  {
    PrefixRuns(s, steps, k);
    EveryRunRegular(s, steps[..k]);
    if k > 0 {
      ConsistentUpTo(s, steps, k - 1);
      PrefixRuns(s, steps, k - 1);
      EveryRunRegular(s, steps[..k - 1]);
      StepChainIff(After(s, steps[..k - 1]), steps[k - 1]);
    }
  }

  lemma {:induction false} ParentsWereActive(s: State, steps: seq<Step>, k: nat)
    requires Sound(s) && Runs(s, steps) && AlwaysConsistent(s, steps)
    requires k < |steps| && Runs(s, steps[..k]) && Commits(s, steps, k)
    ensures ParentsActive(After(s, steps[..k]).tables, After(s, steps[..k]).flights[steps[k].id].op)
  {
    PrefixRuns(s, steps, k);
    EveryRunRegular(s, steps[..k]);
    assert Consistent(After(s, steps[..k]).tables) && Consistent(After(s, steps[..k + 1]).tables);
    StepChainIff(After(s, steps[..k]), steps[k]);
  }

  /** From consistent tables, in any interleaving of guards, looks and writes: the tables stay consistent throughout if
      and only if every create that commits finds the parents of its rows still active as it writes. */
  lemma {:induction false} InterleavedConsistentIff(t: Tables, steps: seq<Step>)
    requires Consistent(t) && Anchored(t) && Runs(State(t, map[]), steps)
    ensures AlwaysConsistent(State(t, map[]), steps) <==> NoRaceLost(State(t, map[]), steps)
  {
    var s := State(t, map[]);
    if AlwaysConsistent(s, steps) {
      forall k | 0 <= k < |steps| && Runs(s, steps[..k]) && Commits(s, steps, k)
        ensures ParentsActive(After(s, steps[..k]).tables, After(s, steps[..k]).flights[steps[k].id].op)
      {
        ParentsWereActive(s, steps, k);
      }
    }
    if NoRaceLost(s, steps) {
      forall k | 0 <= k <= |steps| && Runs(s, steps[..k])
        ensures Consistent(After(s, steps[..k]).tables)
      {
        ConsistentUpTo(s, steps, k);
      }
    }
  }
}
