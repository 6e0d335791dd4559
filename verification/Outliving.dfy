/** A level-2 folder that outlives its parent, reached by plain requests, and what it does to the navigation lists and
    to the coverage walk. */
module Outliving {
  import opened Wrappers
  import opened Text
  import opened Tables
  import opened Rbac
  import opened Resources
  import H = Hierarchy
  import Narrowing
  import Navigation
  import Coverage
  import ParentCoverage

  const CODES := {"org:create", "org:delete", "project:create", "env:delete", "folder:delete"}

  const PERMISSIONS := map["org:create" := "org", "org:delete" := "org", "project:create" := "project",
                           "env:delete" := "env", "folder:delete" := "folder"]

  /** One user who may do all of this everywhere. */
  const ADMIN := Rbac(map["u" := User("", "u@example.org", false)], PERMISSIONS,
                      map["r" := Role("admin", "global", CODES, false)],
                      map["b" := Binding("u", "r", Global, None, None, false)])

  lemma {:induction false} AdminHolds()
    ensures forall code :: code in CODES ==> Holds(ADMIN, 0, "u", "b", code)
    ensures TrimSpace("u") != "" && BoundAt(ADMIN.bindings["b"], Scope(Global, ""))
  {
    TrimmedStays("u");
  }

  lemma {:induction false} CodesProper()
    ensures forall code :: code in CODES ==> IsCode(code)
  {
    assert "org:create"[3] == ':' && "org:delete"[3] == ':' && "project:create"[7] == ':';
    assert "env:delete"[3] == ':' && "folder:delete"[6] == ':';
  }

  /** Whoever holds a code globally may use it on anything that has scopes. */
  lemma {:induction false} GlobalMay(t: Tables, r: Rbac, userId: Id, b: Id, code: string, resourceType: string, kind: Kind,
                                     id: Id)
    requires TrimSpace(userId) != "" && IsCode(code) && Holds(r, 0, userId, b, code)
    requires BoundAt(r.bindings[b], Scope(Global, ""))
    requires NormalizeResourceType(resourceType) == Some(kind) && ScopesOf(t, kind, id).Ok?
    ensures Allow(t, r, 0, userId, code, resourceType, id).Ok?
  {
    CodeStays(code, resourceType);
    var chain := ScopesOf(t, kind, id).value;
    assert chain[0] == Scope(Global, "");
  }

  lemma {:induction false} AdminMay(t: Tables, code: string, resourceType: string, kind: Kind, id: Id)
    requires code in CODES && NormalizeResourceType(resourceType) == Some(kind) && ScopesOf(t, kind, id).Ok?
    ensures Allow(t, ADMIN, 0, "u", code, resourceType, id).Ok?
  {
    AdminHolds();
    CodesProper();
    GlobalMay(t, ADMIN, "u", "b", code, resourceType, kind, id);
  }

  lemma {:induction false} AdminCreatesOrg(t: Tables)
    ensures H.Guard(t, Asked(MAKE_ORG))
  {
    ResourceTypes();
    AdminMay(t, "org:create", "global", Global, "");
  }

  lemma {:induction false} AdminDeletesOrg(t: Tables)
    requires ActiveOrg(t, "o")
    ensures H.Guard(t, Asked(H.DeleteOrganization("o", false)))
  {
    OrganizationType();
    AdminMay(t, "org:delete", "organization", Organization, "o");
  }

  lemma {:induction false} AdminCreatesProject(t: Tables)
    requires ActiveOrg(t, "o")
    ensures H.Guard(t, Asked(MAKE_PROJECT))
  {
    OrganizationType();
    AdminMay(t, "project:create", "organization", Organization, "o");
  }

  lemma {:induction false} AdminDeletesEnvironment(t: Tables)
    requires ScopesOf(t, Environment, "e").Ok?
    ensures H.Guard(t, Asked(H.DeleteEnvironment("e")))
  {
    EnvironmentType();
    AdminMay(t, "env:delete", "environment", Environment, "e");
  }

  lemma {:induction false} AdminDeletesFolder(t: Tables)
    requires ScopesOf(t, Folder, "f1").Ok?
    ensures H.Guard(t, Asked(DROP_PARENT))
  {
    FolderType();
    AdminMay(t, "folder:delete", "folder", Folder, "f1");
  }

  function Asked(op: H.Op): H.Request {
    H.Request(ADMIN, 0, "u", op)
  }

  const MAKE_ORG := H.CreateOrganization("o", "acme")
  const MAKE_PROJECT := H.CreateProject("o", "p", "web", [Spec("e", "dev")])
  const MAKE_PARENT := H.CreateTopLevelFolders("parent", [Spec("f1", "e")])
  const MAKE_CHILD := H.CreateFoldersAcross("parent", "child", [Spec("f2", "e")])
  const DROP_PARENT := H.DeleteFolder("f1")

  const ORGS := map["o" := OrganizationRow("acme", false)]
  const PROJECTS := map["p" := ProjectRow("o", "web", false)]
  const ENVIRONMENTS := map["e" := EnvironmentRow("p", "dev", false)]
  const PARENT := FolderRow("e", None, 1, "parent", false)
  const CHILD := FolderRow("e", Some("f1"), 2, "child", false)

  /** The tables apart from the audit. */
  predicate Stands(t: Tables, orgs: map<Id, OrganizationRow>, projects: map<Id, ProjectRow>,
                   environments: map<Id, EnvironmentRow>, folders: map<Id, FolderRow>) {
    t.orgs == orgs && t.projects == projects && t.environments == environments && t.folders == folders
    && t.secrets == map[]
  }

  lemma {:induction false} RunNext(requests: seq<H.Request>, q: H.Request)
    ensures H.Run(H.INIT, requests + [q]) == H.Handle(H.Run(H.INIT, requests), q)
  {
    assert (requests + [q])[..|requests|] == requests;
  }

  lemma {:induction false} OrgMade(s: H.Server)
    requires s.tables == EMPTY
    ensures Stands(H.Handle(s, Asked(MAKE_ORG)).tables, ORGS, map[], map[], map[])
  {
    AdminCreatesOrg(s.tables);
    assert H.Create(s.tables, MAKE_ORG) == CreateOrganization(s.tables, "o", "acme");
    assert CreateOrganization(s.tables, "o", "acme").Ok?;
  }

  lemma {:induction false} ProjectMade(s: H.Server)
    requires Stands(s.tables, ORGS, map[], map[], map[])
    ensures Stands(H.Handle(s, Asked(MAKE_PROJECT)).tables, ORGS, PROJECTS, ENVIRONMENTS, map[])
  {
    AdminCreatesProject(s.tables);
    ProjectLands(s.tables, ORGS);
    CreateIsOf(s.tables);
  }

  /** The transaction does not look at the organization. */
  lemma {:induction false} ProjectLands(t: Tables, orgs: map<Id, OrganizationRow>)
    requires Stands(t, orgs, map[], map[], map[])
    ensures CreateProject(t, "o", "p", "web", [Spec("e", "dev")]).Ok?
    ensures Stands(CreateProject(t, "o", "p", "web", [Spec("e", "dev")]).value, orgs, PROJECTS, ENVIRONMENTS, map[])
  {
    var envs := [Spec("e", "dev")];
    var t1 := InsertProject(t, "p", "o", "web").value;
    assert envs[..0] == [];
    assert InsertEnvironments(t1, "p", envs[..0]) == Ok(t1);
    assert InsertEnvironments(t1, "p", envs) == InsertEnvironment(t1, "e", "p", "dev");
  }

  lemma {:induction false} CreateIsOf(t: Tables)
    ensures H.Create(t, MAKE_PROJECT) == CreateProject(t, "o", "p", "web", [Spec("e", "dev")])
    ensures H.Create(t, MAKE_PARENT) == CreateTopLevelFolders(t, "parent", [Spec("f1", "e")])
    ensures H.Create(t, MAKE_CHILD) == CreateFoldersAcross(t, "parent", "child", [Spec("f2", "e")])
  {
  }

  lemma {:induction false} OneFolder(t: Tables, spec: Spec, parents: map<Id, Id>, level: int, code: string)
    requires level == 2 ==> spec.name in parents
    requires spec.id !in t.folders
    requires forall k :: k in t.folders ==> !SamePlace(t.folders[k], RowOf(spec, parents, level, code))
    ensures InsertFolders(t, [spec], parents, level, code)
            == Ok(Audited(t.(folders := t.folders[spec.id := RowOf(spec, parents, level, code)]), "folder", spec.id,
                          "create"))
  {
    assert [spec][..0] == [];
    assert InsertFolders(t, [spec][..0], parents, level, code) == Ok(t);
  }

  lemma {:induction false} ParentMade(s: H.Server)
    requires Stands(s.tables, ORGS, PROJECTS, ENVIRONMENTS, map[])
    ensures Stands(H.Handle(s, Asked(MAKE_PARENT)).tables, ORGS, PROJECTS, ENVIRONMENTS, map["f1" := PARENT])
  {
    OneFolder(s.tables, Spec("f1", "e"), map[], 1, "parent");
    CreateIsOf(s.tables);
  }

  lemma {:induction false} ChildCommits(t: Tables)
    requires Stands(t, ORGS, PROJECTS, ENVIRONMENTS, map["f1" := PARENT])
    ensures CreateFoldersAcross(t, "parent", "child", [Spec("f2", "e")]).Ok?
    ensures Stands(CreateFoldersAcross(t, "parent", "child", [Spec("f2", "e")]).value, ORGS, PROJECTS, ENVIRONMENTS,
                   map["f1" := PARENT, "f2" := CHILD])
  {
    var specs := [Spec("f2", "e")];
    assert IsSibling(t, "e", "parent", "f1");
    assert HasSibling(t, specs[0].name, "parent") && Sibling(t, "e", "parent") == "f1";
    var siblings := Siblings(t, specs, "parent");
    assert siblings["e"] == "f1";
    OneFolder(t, specs[0], siblings, 2, "child");
    TrimmedStays("parent");
  }

  lemma {:induction false} ChildMade(s: H.Server)
    requires Stands(s.tables, ORGS, PROJECTS, ENVIRONMENTS, map["f1" := PARENT])
    ensures Stands(H.Handle(s, Asked(MAKE_CHILD)).tables, ORGS, PROJECTS, ENVIRONMENTS,
                   map["f1" := PARENT, "f2" := CHILD])
  {
    ChildCommits(s.tables);
    CreateIsOf(s.tables);
  }

  lemma {:induction false} DropAllowed(t: Tables)
    requires Stands(t, ORGS, PROJECTS, ENVIRONMENTS, map["f1" := PARENT, "f2" := CHILD])
    ensures H.Guard(t, Asked(DROP_PARENT))
  {
    AdminDeletesFolder(t);
  }

  lemma {:induction false} DropCommits(t: Tables)
    requires Stands(t, ORGS, PROJECTS, ENVIRONMENTS, map["f1" := PARENT, "f2" := CHILD])
    ensures DeleteFolder(t, "f1").Ok?
    ensures Stands(DeleteFolder(t, "f1").value.tables, ORGS, PROJECTS, ENVIRONMENTS,
                   map["f1" := PARENT.(isDeleted := true), "f2" := CHILD])
  {
    assert DeleteFolders(t, {"f1"}).folders == map["f1" := PARENT.(isDeleted := true), "f2" := CHILD];
  }

  lemma {:induction false} ParentDropped(s: H.Server)
    requires Stands(s.tables, ORGS, PROJECTS, ENVIRONMENTS, map["f1" := PARENT, "f2" := CHILD])
    ensures Stands(H.Handle(s, Asked(DROP_PARENT)).tables, ORGS, PROJECTS, ENVIRONMENTS,
                   map["f1" := PARENT.(isDeleted := true), "f2" := CHILD])
  {
    DropAllowed(s.tables);
    DropCommits(s.tables);
    assert H.Delete(s.tables, DROP_PARENT) == DeleteFolder(s.tables, "f1");
  }

  const REQUESTS := [Asked(MAKE_ORG), Asked(MAKE_PROJECT), Asked(MAKE_PARENT), Asked(MAKE_CHILD), Asked(DROP_PARENT)]

  lemma {:induction false} FiveRequests(a: H.Request, b: H.Request, c: H.Request, d: H.Request, e: H.Request)
    ensures H.Run(H.INIT, [a, b, c, d, e])
            == H.Handle(H.Handle(H.Handle(H.Handle(H.Handle(H.INIT, a), b), c), d), e)
  {
    var all := [a, b, c, d, e];
    assert all[..5] == all && all[..0] == [];
    assert all[..1] == all[..0] + [a] && all[..2] == all[..1] + [b] && all[..3] == all[..2] + [c];
    assert all[..4] == all[..3] + [d] && all[..5] == all[..4] + [e];
    RunNext(all[..0], a);
    RunNext(all[..1], b);
    RunNext(all[..2], c);
    RunNext(all[..3], d);
    RunNext(all[..4], e);
  }

  /** Five requests leave an active level-2 folder under a deleted parent. */
  lemma {:induction false} ChildOutlivesParent()
    ensures var t := H.Run(H.INIT, REQUESTS).tables;
            && Stands(t, ORGS, PROJECTS, ENVIRONMENTS, map["f1" := PARENT.(isDeleted := true), "f2" := CHILD])
            && Consistent(t) && ActiveFolder(t, "f2") && t.folders["f2"].parentId == Some("f1") && !ActiveFolder(t, "f1")
  {
    FiveRequests(Asked(MAKE_ORG), Asked(MAKE_PROJECT), Asked(MAKE_PARENT), Asked(MAKE_CHILD), Asked(DROP_PARENT));
    var s1 := H.Handle(H.INIT, Asked(MAKE_ORG));
    OrgMade(H.INIT);
    var s2 := H.Handle(s1, Asked(MAKE_PROJECT));
    ProjectMade(s1);
    var s3 := H.Handle(s2, Asked(MAKE_PARENT));
    ParentMade(s2);
    var s4 := H.Handle(s3, Asked(MAKE_CHILD));
    ChildMade(s3);
    ParentDropped(s4);
    H.RunsStayConsistent(REQUESTS);
  }

  /** There a reader of the deleted parent is listed the child and not its environment. */
  lemma {:induction false} ReaderLosesPath()
    ensures var t := H.Run(H.INIT, REQUESTS).tables; var r := Navigation.ReaderOf("f1");
            && "f2" in t.folders && SchemaOk(r)
            && Narrowing.FolderPasses(t, r, 0, "u", Narrowing.READ, "f2")
            && !Navigation.ListedEnvironment(t, Navigation.UserNavigationScopes(r, 0, "u"), "e")
  {
    ChildOutlivesParent();
    TrimmedStays("f1");
    TrimmedStays("f2");
    Navigation.DeletedParentHides(H.Run(H.INIT, REQUESTS).tables, "f2");
  }

  lemma {:induction false} ReadSplits()
    ensures Coverage.ActionOf(Narrowing.READ) != ""
  {
    TrimmedStays(Narrowing.READ);
    assert Narrowing.READ[6] == ':' && Narrowing.READ[0] == 'f' && "env:template:"[0] == 'e';
  }

  /** And a caller who covers the role at the child is refused there, because the walk stops at the deleted parent. */
  lemma {:induction false} HolderIsRefused()
    ensures var t := H.Run(H.INIT, REQUESTS).tables; var r := Navigation.ReaderOf("f2");
            && FolderScopes(t, "f2").Ok?
            && ParentCoverage.CoversAt(t, r, 0, "u", {Narrowing.READ}, Scope(Folder, "f2")) == Ok(true)
            && ParentCoverage.Walk(t, r, 0, "u", {Narrowing.READ}, FolderScopes(t, "f2").value).Err?
  {
    ChildOutlivesParent();
    var t, r := H.Run(H.INIT, REQUESTS).tables, Navigation.ReaderOf("f2");
    HolderCovers(t, r);
    ParentCoverage.FolderWalkIsOneCheck(t, r, 0, "u", {Narrowing.READ}, "f2");
  }

  lemma {:induction false} HolderCovers(t: Tables, r: Rbac)
    requires Stands(t, ORGS, PROJECTS, ENVIRONMENTS, map["f1" := PARENT.(isDeleted := true), "f2" := CHILD])
    requires r == Navigation.ReaderOf("f2")
    ensures ParentCoverage.CoversAt(t, r, 0, "u", {Narrowing.READ}, Scope(Folder, "f2")) == Ok(true)
    ensures ParentCoverage.CoversAt(t, r, 0, "u", {Narrowing.READ}, Scope(Environment, "e")) == Ok(false)
  {
    ChildChain(t);
    var chain := FolderScopes(t, "f2").value;
    ReadSplits();
    ReaderOwns(chain, 5);
    CoversOne(t, r, Narrowing.READ, Scope(Folder, "f2"), chain);
    ReaderOwnsNothing(chain[..4]);
    CoversOne(t, r, Narrowing.READ, Scope(Environment, "e"), chain[..4]);
  }

  lemma {:induction false} ChildChain(t: Tables)
    requires Stands(t, ORGS, PROJECTS, ENVIRONMENTS, map["f1" := PARENT.(isDeleted := true), "f2" := CHILD])
    ensures FolderScopes(t, "f2").Ok?
    ensures var chain := FolderScopes(t, "f2").value;
            && |chain| == 6 && chain[5] == Scope(Folder, "f2") && EnvironmentScopes(t, "e") == Ok(chain[..4])
            && forall s :: s in chain[..4] ==> s.kind != Folder
  {
    ParentCoverage.FolderChainStarts(t, "f2");
  }

  /** For one code: holding it covers it, holding nothing does not. */
  lemma {:induction false} CoversOne(t: Tables, r: Rbac, code: string, scope: Scope, chain: seq<Scope>)
    requires ScopesOf(t, scope.kind, scope.id) == Ok(chain) && Coverage.ActionOf(code) != ""
    ensures code in UserPermissions(r, 0, "u", chain) ==>
            ParentCoverage.CoversAt(t, r, 0, "u", {code}, scope) == Ok(true)
    ensures UserPermissions(r, 0, "u", chain) == {} ==> ParentCoverage.CoversAt(t, r, 0, "u", {code}, scope) == Ok(false)
  {
    var owned := UserPermissions(r, 0, "u", chain);
    assert code in owned ==> Coverage.ActionOf(code) in ParentCoverage.Actions(owned);
    assert code in {code};
    assert ParentCoverage.Actions({}) == {};
  }

  lemma {:induction false} ReaderOwns(chain: seq<Scope>, k: nat)
    requires k < |chain| && chain[k] == Scope(Folder, "f2")
    ensures Narrowing.READ in UserPermissions(Navigation.ReaderOf("f2"), 0, "u", chain)
  {
    var r := Navigation.ReaderOf("f2");
    Navigation.ReaderHolds("f2");
    TrimmedStays("f2");
    TrimmedStays("u");
    assert BoundAt(r.bindings["b"], chain[k]);
  }

  lemma {:induction false} ReaderOwnsNothing(chain: seq<Scope>)
    requires forall s :: s in chain ==> s.kind != Folder
    ensures UserPermissions(Navigation.ReaderOf("f2"), 0, "u", chain) == {}
  {
    var r := Navigation.ReaderOf("f2");
    forall b, k | b in r.bindings && 0 <= k < |chain|
      ensures !BoundAt(r.bindings[b], chain[k])
    {
      assert chain[k] in chain;
    }
  }

  // ---- a folder under a deleted organization ----

  const GONE := map["o" := OrganizationRow("acme", true)]

  /** The folder lists show it to its reader; the point check does not find it. */
  lemma {:induction false} StrandedFolderIsListed(t: Tables)
    requires Stands(t, GONE, PROJECTS, ENVIRONMENTS, map["f1" := PARENT])
    ensures var r := Navigation.ReaderOf("f1");
            && SchemaOk(r) && !Chained(t)
            && Narrowing.FolderPasses(t, r, 0, "u", Narrowing.READ, "f1")
            && Permit(t, r, 0, "u", Narrowing.READ, Some(Folder), "f1").Err?
  {
    var r := Navigation.ReaderOf("f1");
    TrimmedStays("f1");
    Navigation.ReaderHolds("f1");
    assert ActiveProject(t, "p") && !ActiveOrg(t, "o");
    var entries := Narrowing.FolderEntries(t, "f1");
    Narrowing.WhereMeans(r, 0, "u", Narrowing.READ, entries);
    assert entries[0] == Narrowing.Entry(Folder, Some("f1"));
    assert Narrowing.Matches(r.bindings["b"], entries);
    Narrowing.NarrowingNeedsTheChain(t, r, 0, "u", Narrowing.READ, "f1");
  }
}
