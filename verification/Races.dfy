/** Runs of module Interleaving in which a delete comes between what a request looked at and what it writes. */
module Races {
  import opened Wrappers
  import opened Text
  import opened Tables
  import opened Rbac
  import opened Resources
  import H = Hierarchy
  import opened Interleaving
  import opened Outliving

  // ---- reaching states ----

  const START := State(EMPTY, map[])

  ghost predicate Reached(s: State) {
    exists steps :: Runs(START, steps) && After(START, steps) == s
  }

  lemma {:induction false} ReachedStart()
    ensures Reached(START)
  {
    assert Runs(START, []) && After(START, []) == START;
  }

  lemma {:induction false} ReachedNext(s: State, step: Step)
    requires Reached(s) && Enabled(s, step)
    ensures Reached(Next(s, step))
  {
    var steps :| Runs(START, steps) && After(START, steps) == s;
    assert (steps + [step])[..|steps|] == steps;
    assert Runs(START, steps + [step]);
  }

  /** The request is begun: its guard passes. */
  lemma {:induction false} Begun(s: State, id: nat, op: H.Op)
    requires Reached(s) && id !in s.flights && H.Guard(s.tables, Asked(op))
    ensures Reached(s.(flights := s.flights[id := Flight(op, 0, map[])]))
  {
    ReachedNext(s, Begin(id, Asked(op)));
  }

  lemma {:induction false} LookNext(s: State, id: nat)
    requires Enabled(s, Look(id))
    ensures Next(s, Look(id)) == s.(flights := s.flights[id := s.flights[id].(seen := s.flights[id].seen + 1)])
  {
  }

  lemma {:induction false} Looked(s: State, id: nat)
    requires Reached(s) && Enabled(s, Look(id))
    ensures Reached(s.(flights := s.flights[id := s.flights[id].(seen := s.flights[id].seen + 1)]))
  {
    LookNext(s, id);
    ReachedNext(s, Look(id));
  }

  lemma {:induction false} Wrote(s: State, id: nat, t: Tables)
    requires Reached(s) && id in s.flights && Ready(s.flights[id]) && Written(s.tables, s.flights[id]) == Ok(t)
    ensures Reached(State(t, s.flights - {id}))
  {
    ReachedNext(s, Write(id));
  }

  // ---- the requests ----

  const DROP_ORG := H.DeleteOrganization("o", false)
  const DROP_ENV := H.DeleteEnvironment("e")

  function New(op: H.Op): Flight { Flight(op, 0, map[]) }

  /** Past its one look. */
  function Seen(op: H.Op): Flight { Flight(op, 1, map[]) }

  lemma {:induction false} WrittenAre(t: Tables)
    ensures Written(t, New(MAKE_ORG)) == CreateOrganization(t, "o", "acme")
    ensures Written(t, New(MAKE_PROJECT)) == CreateProject(t, "o", "p", "web", [Spec("e", "dev")])
    ensures Written(t, Seen(MAKE_PARENT)) == InsertFolders(t, [Spec("f1", "e")], map[], 1, "parent")
    ensures Written(t, Seen(DROP_ORG)) == TablesOf(CascadeOrganization(t, "o"))
    ensures Written(t, New(DROP_ENV)) == TablesOf(DeleteEnvironment(t, "e"))
  {
  }

  lemma {:induction false} OrganizationBegun()
    ensures Reached(State(EMPTY, map[1 := New(MAKE_ORG)]))
  {
    ReachedStart();
    AdminCreatesOrg(EMPTY);
    Begun(START, 1, MAKE_ORG);
  }

  lemma {:induction false} OrganizationLands()
    ensures CreateOrganization(EMPTY, "o", "acme").Ok?
    ensures Stands(CreateOrganization(EMPTY, "o", "acme").value, ORGS, map[], map[], map[])
  {
  }

  lemma {:induction false} OrganizationMade() returns (s: State)
    ensures Reached(s) && Stands(s.tables, ORGS, map[], map[], map[]) && s.flights == map[]
  {
    OrganizationBegun();
    OrganizationLands();
    WrittenAre(EMPTY);
    var begun := State(EMPTY, map[1 := New(MAKE_ORG)]);
    s := State(CreateOrganization(EMPTY, "o", "acme").value, map[]);
    Wrote(begun, 1, s.tables);
    assert begun.flights - {1} == map[];
  }

  lemma {:induction false} FolderWrites(t: Tables, environments: map<Id, EnvironmentRow>, orgs: map<Id, OrganizationRow>)
    requires Stands(t, orgs, PROJECTS, environments, map[])
    ensures Written(t, Seen(MAKE_PARENT)).Ok?
    ensures Stands(Written(t, Seen(MAKE_PARENT)).value, orgs, PROJECTS, environments, map["f1" := PARENT])
  {
    WrittenAre(t);
    OneFolder(t, Spec("f1", "e"), map[], 1, "parent");
  }

  lemma {:induction false} OneLook(t: Tables)
    ensures Looks(MAKE_PARENT) == 1 && Looks(DROP_ORG) == 1
    ensures ActiveEnvironment(t, "e") ==> LookPasses(t, New(MAKE_PARENT))
    ensures ActiveProjectsOf(t.projects, "o") == {} ==> LookPasses(t, New(DROP_ORG))
  {
  }

  /** One flight takes off or moves on. */
  lemma {:induction false} BeganNext(t: Tables, before: map<nat, Flight>, id: nat, op: H.Op)
    requires Reached(State(t, before)) && id !in before && H.Guard(t, Asked(op))
    ensures Reached(State(t, before[id := New(op)]))
  {
    Begun(State(t, before), id, op);
  }

  lemma {:induction false} SawNext(t: Tables, before: map<nat, Flight>, id: nat, op: H.Op)
    requires Reached(State(t, before)) && id in before && before[id] == New(op) && Looks(op) == 1
    requires LookPasses(t, New(op))
    ensures Reached(State(t, before[id := Seen(op)]))
  {
    Looked(State(t, before), id);
  }

  // ---- a project create and an organization delete ----

  lemma {:induction false} BothGuarded() returns (t: Tables)
    ensures Reached(State(t, map[1 := New(MAKE_PROJECT), 2 := New(DROP_ORG)])) && Stands(t, ORGS, map[], map[], map[])
  {
    var s0 := OrganizationMade();
    t := s0.tables;
    AdminCreatesProject(t);
    BeganNext(t, map[], 1, MAKE_PROJECT);
    AdminDeletesOrg(t);
    BeganNext(t, map[1 := New(MAKE_PROJECT)], 2, DROP_ORG);
  }

  /** Both requests past everything they look at: the create saw the organization, the delete saw no project. */
  lemma {:induction false} BothBegun() returns (s: State)
    ensures Reached(s) && Stands(s.tables, ORGS, map[], map[], map[])
    ensures s.flights == map[1 := New(MAKE_PROJECT), 2 := Seen(DROP_ORG)]
  {
    var t := BothGuarded();
    NoProjects(t);
    OneLook(t);
    SawNext(t, map[1 := New(MAKE_PROJECT), 2 := New(DROP_ORG)], 2, DROP_ORG);
    s := State(t, map[1 := New(MAKE_PROJECT), 2 := Seen(DROP_ORG)]);
    assert map[1 := New(MAKE_PROJECT), 2 := New(DROP_ORG)][2 := Seen(DROP_ORG)] == s.flights;
  }

  lemma {:induction false} NoProjects(t: Tables)
    requires t.projects == map[]
    ensures ActiveProjectsOf(t.projects, "o") == {}
  {
  }

  lemma {:induction false} OrgDrops(t: Tables)
    requires Stands(t, ORGS, map[], map[], map[])
    ensures Written(t, Seen(DROP_ORG)).Ok? && Stands(Written(t, Seen(DROP_ORG)).value, GONE, map[], map[], map[])
  {
    WrittenAre(t);
    H.OrganizationCascade(t, "o");
    var d := CascadeOrganization(t, "o").value;
    assert DeleteOrgs(t, {"o"}).orgs == GONE;
    H.DeleteExact(t, H.DeleteOrganization("o", true));
  }

  lemma {:induction false} ProjectWrites(t: Tables, orgs: map<Id, OrganizationRow>)
    requires Stands(t, orgs, map[], map[], map[])
    ensures Written(t, New(MAKE_PROJECT)).Ok?
    ensures Stands(Written(t, New(MAKE_PROJECT)).value, orgs, PROJECTS, ENVIRONMENTS, map[])
  {
    WrittenAre(t);
    ProjectLands(t, orgs);
  }

  /** The delete writes first: the project lands under a deleted organization. */
  lemma {:induction false} DeleteFirst() returns (s: State)
    ensures Reached(s) && Stands(s.tables, GONE, PROJECTS, ENVIRONMENTS, map[]) && s.flights == map[]
  {
    var s0 := BothBegun();
    OrgDrops(s0.tables);
    var t1 := Written(s0.tables, s0.flights[2]).value;
    Wrote(s0, 2, t1);
    var s1 := State(t1, map[1 := New(MAKE_PROJECT)]);
    assert s0.flights - {2} == s1.flights;
    ProjectWrites(t1, GONE);
    var t2 := Written(t1, s1.flights[1]).value;
    Wrote(s1, 1, t2);
    s := State(t2, map[]);
    assert s1.flights - {1} == map[];
  }

  /** The guard saw the organization, the transaction does not look again: an active project under a deleted
      organization. */
  lemma {:induction false} RacingCreateBreaksChain()
    ensures exists s :: Reached(s) && s.flights == map[] && Regular(s.tables) && ActiveProject(s.tables, "p")
                        && s.tables.projects["p"].orgId == "o" && !ActiveOrg(s.tables, "o")
  {
    var s := DeleteFirst();
    ReachedRegular(s);
    assert ActiveProject(s.tables, "p") && !ActiveOrg(s.tables, "o");
  }

  lemma {:induction false} ReachedRegular(s: State)
    requires Reached(s)
    ensures Regular(s.tables)
  {
    var steps :| Runs(START, steps) && After(START, steps) == s;
    assert Unique(EMPTY) && FoldersNested(EMPTY.folders);
    EveryRunRegular(START, steps);
  }

  /** A folder created there later is shown to its reader by the folder lists and not found by the point check. */
  lemma {:induction false} StrandedFolderIsReached()
    ensures exists s :: Reached(s) && Stands(s.tables, GONE, PROJECTS, ENVIRONMENTS, map["f1" := PARENT])
  {
    var s := DeleteFirst();
    BeganNext(s.tables, map[], 3, MAKE_PARENT);
    OneLook(s.tables);
    SawNext(s.tables, map[3 := New(MAKE_PARENT)], 3, MAKE_PARENT);
    assert map[3 := New(MAKE_PARENT)][3 := Seen(MAKE_PARENT)] == map[3 := Seen(MAKE_PARENT)];
    var s2 := s.(flights := map[3 := Seen(MAKE_PARENT)]);
    FolderWrites(s.tables, ENVIRONMENTS, GONE);
    var t := Written(s.tables, Seen(MAKE_PARENT)).value;
    Wrote(s2, 3, t);
    assert Reached(State(t, s2.flights - {3}));
  }

  lemma {:induction false} CreateFirst() returns (s: State)
    ensures Reached(s) && Stands(s.tables, ORGS, PROJECTS, ENVIRONMENTS, map[]) && s.flights == map[2 := Seen(DROP_ORG)]
  {
    var s0 := BothBegun();
    ProjectWrites(s0.tables, ORGS);
    var t := Written(s0.tables, s0.flights[1]).value;
    Wrote(s0, 1, t);
    s := State(t, map[2 := Seen(DROP_ORG)]);
    assert s0.flights - {1} == s.flights;
  }

  /** The create writes first: the unforced delete, which counted no project, reports and deletes one. */
  lemma {:induction false} UnforcedDeleteTakesProject()
    ensures exists s :: && Reached(s) && 2 in s.flights && s.flights[2] == Seen(DROP_ORG) && Ready(s.flights[2])
                        && Consistent(s.tables) && CascadeOrganization(s.tables, "o").Ok?
                        && CascadeOrganization(s.tables, "o").value.scope.projects == {"p"}
  {
    var s := CreateFirst();
    ReachedRegular(s);
    CascadeTakesProject(s.tables);
    OneLook(s.tables);
  }

  lemma {:induction false} CascadeTakesProject(t: Tables)
    requires Stands(t, ORGS, PROJECTS, ENVIRONMENTS, map[])
    ensures Chained(t) && CascadeOrganization(t, "o").Ok?
    ensures CascadeOrganization(t, "o").value.scope.projects == {"p"}
  {
    H.OrganizationCascade(t, "o");
    assert ActiveProjectsOf(t.projects, "o") == {"p"};
  }

  // ---- a folder create and an environment delete ----

  lemma {:induction false} ProjectMadeAlone() returns (s: State)
    ensures Reached(s) && Stands(s.tables, ORGS, PROJECTS, ENVIRONMENTS, map[]) && s.flights == map[]
  {
    var s0 := OrganizationMade();
    AdminCreatesProject(s0.tables);
    Begun(s0, 1, MAKE_PROJECT);
    var s1 := s0.(flights := map[1 := New(MAKE_PROJECT)]);
    ProjectWrites(s0.tables, ORGS);
    var t := Written(s0.tables, s1.flights[1]).value;
    Wrote(s1, 1, t);
    s := State(t, map[]);
    assert s1.flights - {1} == map[];
  }

  /** The create saw the environment, the delete passed its guard. */
  lemma {:induction false} EnvironmentSeen() returns (s: State)
    ensures Reached(s) && Stands(s.tables, ORGS, PROJECTS, ENVIRONMENTS, map[])
    ensures s.flights == map[1 := Seen(MAKE_PARENT), 2 := New(DROP_ENV)]
  {
    var s0 := ProjectMadeAlone();
    var t := s0.tables;
    BeganNext(t, map[], 1, MAKE_PARENT);
    OneLook(t);
    SawNext(t, map[1 := New(MAKE_PARENT)], 1, MAKE_PARENT);
    assert map[1 := New(MAKE_PARENT)][1 := Seen(MAKE_PARENT)] == map[1 := Seen(MAKE_PARENT)];
    EnvironmentScoped(t);
    AdminDeletesEnvironment(t);
    BeganNext(t, map[1 := Seen(MAKE_PARENT)], 2, DROP_ENV);
    s := State(t, map[1 := Seen(MAKE_PARENT), 2 := New(DROP_ENV)]);
  }

  lemma {:induction false} EnvironmentScoped(t: Tables)
    requires Stands(t, ORGS, PROJECTS, ENVIRONMENTS, map[])
    ensures ScopesOf(t, Environment, "e").Ok?
  {
  }

  const GONE_ENV := map["e" := EnvironmentRow("p", "dev", true)]

  lemma {:induction false} EnvDrops(t: Tables)
    requires Stands(t, ORGS, PROJECTS, ENVIRONMENTS, map[])
    ensures Written(t, New(DROP_ENV)).Ok? && Stands(Written(t, New(DROP_ENV)).value, ORGS, PROJECTS, GONE_ENV, map[])
  {
    WrittenAre(t);
    assert DeleteEnvironments(t, {"e"}).environments == GONE_ENV;
    H.DeleteExact(t, DROP_ENV);
  }

  /** The folder's insert does not look again: an active folder under a deleted environment. */
  lemma {:induction false} RacingFolderBreaksChain()
    ensures exists s :: Reached(s) && s.flights == map[] && Regular(s.tables) && ActiveFolder(s.tables, "f1")
                        && s.tables.folders["f1"].environmentId == "e" && !ActiveEnvironment(s.tables, "e")
  {
    var s0 := EnvironmentSeen();
    EnvDrops(s0.tables);
    var t1 := Written(s0.tables, s0.flights[2]).value;
    Wrote(s0, 2, t1);
    var s1 := State(t1, map[1 := Seen(MAKE_PARENT)]);
    assert s0.flights - {2} == s1.flights;
    FolderWrites(t1, GONE_ENV, ORGS);
    var t2 := Written(t1, s1.flights[1]).value;
    Wrote(s1, 1, t2);
    var s := State(t2, map[]);
    assert s1.flights - {1} == map[];
    ReachedRegular(s);
  }
}
