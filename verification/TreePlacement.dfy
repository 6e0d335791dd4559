/** Where buildTree puts each visible node: how often, and under which parent. */
module TreePlacement {
  import opened TreeAssembly

  // ---- counting ----

  /** How often a node of the type with the id occurs in the trees, at any depth. */
  function Count(trees: seq<TreeNode>, ty: NodeType, id: Id): nat
    decreases trees
  {
    if trees == [] then 0
    else Count(trees[..|trees| - 1], ty, id) + CountIn(trees[|trees| - 1], ty, id)
  }

  function CountIn(n: TreeNode, ty: NodeType, id: Id): nat
    decreases n
  {
    (if n.ty == ty && n.id == id then 1 else 0) + Count(n.children, ty, id)
  }

  lemma {:induction false} CountSnoc(trees: seq<TreeNode>, n: TreeNode, ty: NodeType, id: Id)
    ensures Count(trees + [n], ty, id) == Count(trees, ty, id) + CountIn(n, ty, id)
  {
    assert (trees + [n])[..|trees|] == trees;
  }

  lemma {:induction false} CountExtended(trees: seq<TreeNode>, n: TreeNode, added: bool, ty: NodeType, id: Id)
    ensures Count(Extended(trees, n, added), ty, id) == Count(trees, ty, id) + (if added then CountIn(n, ty, id) else 0)
  {
    if added { CountSnoc(trees, n, ty, id); }
  }

  lemma {:induction false} CountConcat(a: seq<TreeNode>, b: seq<TreeNode>, ty: NodeType, id: Id)
    ensures Count(a + b, ty, id) == Count(a, ty, id) + Count(b, ty, id)
  {
    if b == [] {
      assert a + b == a;
    } else {
      var b0, n := b[..|b| - 1], b[|b| - 1];
      CountConcat(a, b0, ty, id);
      assert a + b == (a + b0) + [n] && b == b0 + [n];
      CountSnoc(a + b0, n, ty, id);
      CountSnoc(b0, n, ty, id);
    }
  }

  // ---- conservation: mounting neither loses nor repeats ----

  function KidsCount(bases: seq<TreeNode>, nodes: seq<TreeNode>, ty: NodeType, id: Id): nat {
    if bases == [] then 0
    else KidsCount(bases[..|bases| - 1], nodes, ty, id) + Count(Kids(nodes, bases[|bases| - 1].id), ty, id)
  }

  ghost predicate Plain(bases: seq<TreeNode>) {
    && (forall i, j :: 0 <= i < j < |bases| ==> bases[i].id != bases[j].id)
    && (forall k :: 0 <= k < |bases| ==> bases[k].children == [])
  }

  function IdsOf(trees: seq<TreeNode>): set<Id> {
    set k | 0 <= k < |trees| :: trees[k].id
  }

  lemma {:induction false} MountedCount(bases: seq<TreeNode>, nodes: seq<TreeNode>, ty: NodeType, id: Id)
    requires Plain(bases)
    ensures Count(Mounted(bases, nodes), ty, id) == Count(bases, ty, id) + KidsCount(bases, nodes, ty, id)
  {
    if bases != [] {
      var before, last := bases[..|bases| - 1], bases[|bases| - 1];
      MountedCount(before, nodes, ty, id);
      MountedLast(bases, nodes);
      CountSnoc(Mounted(before, nodes), last.(children := Kids(nodes, last.id)), ty, id);
      RootSplit(last, Kids(nodes, last.id), ty, id);
    }
  }

  lemma {:induction false} MountedLast(bases: seq<TreeNode>, nodes: seq<TreeNode>)
    requires bases != []
    ensures var last := bases[|bases| - 1];
            Mounted(bases, nodes) == Mounted(bases[..|bases| - 1], nodes) + [last.(children := Kids(nodes, last.id))]
  {
  }

  lemma {:induction false} RootSplit(n: TreeNode, kids: seq<TreeNode>, ty: NodeType, id: Id)
    requires n.children == []
    ensures CountIn(n.(children := kids), ty, id) == CountIn(n, ty, id) + Count(kids, ty, id)
  {
    assert Count([], ty, id) == 0;
  }

  /** One more node adds its count under its one parent, or nowhere. */
  lemma {:induction false} KidsCountSnoc(bases: seq<TreeNode>, nodes: seq<TreeNode>, n: TreeNode, ty: NodeType, id: Id)
    requires forall i, j :: 0 <= i < j < |bases| ==> bases[i].id != bases[j].id
    ensures KidsCount(bases, nodes + [n], ty, id)
            == KidsCount(bases, nodes, ty, id) + (if n.parentId in IdsOf(bases) then CountIn(n, ty, id) else 0)
  {
    if bases != [] {
      var before, last := bases[..|bases| - 1], bases[|bases| - 1];
      KidsCountSnoc(before, nodes, n, ty, id);
      KidsSnoc(nodes, n, last.id);
      CountExtended(Kids(nodes, last.id), n, n.parentId == last.id, ty, id);
      IdsOfLast(bases);
    }
  }

  lemma {:induction false} IdsOfLast(trees: seq<TreeNode>)
    requires trees != [] && forall i, j :: 0 <= i < j < |trees| ==> trees[i].id != trees[j].id
    ensures IdsOf(trees) == IdsOf(trees[..|trees| - 1]) + {trees[|trees| - 1].id}
    ensures trees[|trees| - 1].id !in IdsOf(trees[..|trees| - 1])
  {
    IdsOfSnoc(trees[..|trees| - 1], trees[|trees| - 1]);
    assert trees == trees[..|trees| - 1] + [trees[|trees| - 1]];
  }

  lemma {:induction false} IdsOfSnoc(trees: seq<TreeNode>, n: TreeNode)
    ensures IdsOf(trees + [n]) == IdsOf(trees) + {n.id}
  {
    var all := trees + [n];
    assert all[|trees|] == n;
    assert forall k :: 0 <= k < |trees| ==> all[k] == trees[k];
  }

  lemma {:induction false} KidsAndStrays(bases: seq<TreeNode>, nodes: seq<TreeNode>, ty: NodeType, id: Id)
    requires forall i, j :: 0 <= i < j < |bases| ==> bases[i].id != bases[j].id
    ensures KidsCount(bases, nodes, ty, id) + Count(Strays(nodes, IdsOf(bases)), ty, id) == Count(nodes, ty, id)
  {
    if nodes == [] {
      NoKids(bases, ty, id);
    } else {
      var before, last := nodes[..|nodes| - 1], nodes[|nodes| - 1];
      KidsAndStrays(bases, before, ty, id);
      assert nodes == before + [last];
      KidsCountSnoc(bases, before, last, ty, id);
      CountSnoc(before, last, ty, id);
      StraysSnoc(before, last, IdsOf(bases));
      CountExtended(Strays(before, IdsOf(bases)), last, last.parentId !in IdsOf(bases), ty, id);
    }
  }

  lemma {:induction false} NoKids(bases: seq<TreeNode>, ty: NodeType, id: Id)
    ensures KidsCount(bases, [], ty, id) == 0
  {
    if bases != [] { NoKids(bases[..|bases| - 1], ty, id); }
  }

  /** Mounting is conservative: what goes under the parents and what strays is everything, once. */
  lemma {:induction false} MountConserves(bases: seq<TreeNode>, nodes: seq<TreeNode>, ty: NodeType, id: Id)
    requires Plain(bases)
    ensures Count(Mounted(bases, nodes), ty, id) + Count(Strays(nodes, IdsOf(bases)), ty, id)
            == Count(bases, ty, id) + Count(nodes, ty, id)
  {
    MountedCount(bases, nodes, ty, id);
    KidsAndStrays(bases, nodes, ty, id);
  }

  ghost predicate Visible(orgs: seq<Entity>, projects: seq<Entity>, envs: seq<Entity>, folders: seq<FolderEntry>) {
    Distinct(orgs) && Distinct(projects) && Distinct(envs) && DistinctFolders(folders)
  }

  lemma {:induction false} BasesPlain(entities: seq<Entity>, ty: NodeType)
    requires Distinct(entities)
    ensures Plain(Bases(entities, ty)) && IdsOf(Bases(entities, ty)) == Ids(entities)
  {
    KeysAreIds(entities, Bases(entities, ty));
  }

  lemma {:induction false} NoStrays(nodes: seq<TreeNode>, parents: set<Id>, ty: NodeType, id: Id)
    requires forall k :: 0 <= k < |nodes| ==> nodes[k].parentId in parents
    ensures Strays(nodes, parents) == []
  {
    if Strays(nodes, parents) != [] { StraysAre(nodes, parents, Strays(nodes, parents)[0]); }
  }

  /** With the orphans kept, the forest holds every organization, project, environment, copied level-1 folder and
      orphan folder, each with what hangs under it, exactly as often as those lists do. */
  lemma {:induction false} Conservation(orgs: seq<Entity>, projects: seq<Entity>, envs: seq<Entity>,
                                        folders: seq<FolderEntry>,
                     ty: NodeType, id: Id)
    requires Visible(orgs, projects, envs, folders)
    ensures Count(OrgTrees(orgs, projects, envs, folders), ty, id) + Count(Orphans(orgs, projects, envs, folders), ty, id)
            == Count(Bases(orgs, OrganizationNode), ty, id) + Count(Bases(projects, ProjectNode), ty, id)
               + Count(Bases(envs, EnvironmentNode), ty, id) + FolderCount(envs, folders, ty, id)
  {
    BasesPlain(orgs, OrganizationNode);
    BasesPlain(projects, ProjectNode);
    BasesPlain(envs, EnvironmentNode);
    var copied := Copied(folders, Ids(envs), |folders|);
    MountConserves(Bases(orgs, OrganizationNode), ProjectTrees(projects, envs, folders), ty, id);
    MountConserves(Bases(projects, ProjectNode), EnvTrees(envs, folders), ty, id);
    MountConserves(Bases(envs, EnvironmentNode), copied, ty, id);
    CopiedHaveParents(folders, Ids(envs), |folders|);
    NoStrays(copied, Ids(envs), ty, id);
    var a := OrphanFolders(folders, Ids(envs), |folders|);
    var b := Strays(EnvTrees(envs, folders), Ids(projects));
    CountConcat(a, b, ty, id);
    CountConcat(a + b, Strays(ProjectTrees(projects, envs, folders), Ids(orgs)), ty, id);
  }

  function FolderCount(envs: seq<Entity>, folders: seq<FolderEntry>, ty: NodeType, id: Id): nat {
    Count(Copied(folders, Ids(envs), |folders|), ty, id) + Count(OrphanFolders(folders, Ids(envs), |folders|), ty, id)
  }

  lemma {:induction false} CopiedHaveParents(folders: seq<FolderEntry>, envIds: set<Id>, t: nat)
    requires t <= |folders|
    ensures forall k :: 0 <= k < |Copied(folders, envIds, t)| ==> Copied(folders, envIds, t)[k].parentId in envIds
  {
    if t > 0 { CopiedHaveParents(folders, envIds, t - 1); }
  }

  // ---- what each list counts ----

  lemma {:induction false} BasesCount(entities: seq<Entity>, ty: NodeType, wanted: NodeType, id: Id)
    requires Distinct(entities)
    ensures Count(Bases(entities, ty), wanted, id) == if ty == wanted && id in Ids(entities) then 1 else 0
  {
    if entities != [] {
      var before, last := entities[..|entities| - 1], entities[|entities| - 1];
      BasesCount(before, ty, wanted, id);
      BasesLast(before, last, ty);
      assert entities == before + [last];
      CountSnoc(Bases(before, ty), NodeOf(last, ty), wanted, id);
      NodeOfCount(last, ty, wanted, id);
      IdsSnoc(before, last);
    }
  }

  lemma {:induction false} BasesLast(entities: seq<Entity>, e: Entity, ty: NodeType)
    ensures Bases(entities + [e], ty) == Bases(entities, ty) + [NodeOf(e, ty)]
  {
  }

  lemma {:induction false} NodeOfCount(e: Entity, ty: NodeType, wanted: NodeType, id: Id)
    ensures CountIn(NodeOf(e, ty), wanted, id) == if ty == wanted && e.id == id then 1 else 0
  {
    assert Count([], wanted, id) == 0;
  }

  lemma {:induction false} IdsSnoc(entities: seq<Entity>, e: Entity)
    requires Distinct(entities + [e])
    ensures Ids(entities + [e]) == Ids(entities) + {e.id} && e.id !in Ids(entities)
  {
    var all := entities + [e];
    assert all[|entities|] == e;
    assert forall k :: 0 <= k < |entities| ==> all[k] == entities[k];
  }

  /** Nothing but folders hangs under folders. */
  lemma {:induction false} FolderTreesAreFolders(folders: seq<FolderEntry>, id: Id, t: nat, ty: NodeType, wanted: Id)
    requires t <= |folders| && ty != FolderNode
    ensures Count(KidsAt(folders, id, t), ty, wanted) == 0
    decreases t
  {
    if t > 0 {
      FolderTreesAreFolders(folders, id, t - 1, ty, wanted);
      FolderTreesAreFolders(folders, folders[t - 1].id, t - 1, ty, wanted);
      KidsAtLast(folders, id, t, ty, wanted);
      FolderRootCount(folders, t - 1, t - 1, ty, wanted);
    }
  }

  lemma {:induction false} FolderRootCount(folders: seq<FolderEntry>, j: nat, t: nat, ty: NodeType, id: Id)
    requires j < |folders| && t <= |folders|
    ensures CountIn(NodeAt(folders, j, t), ty, id)
            == (if ty == FolderNode && folders[j].id == id then 1 else 0) + Count(KidsAt(folders, folders[j].id, t), ty, id)
  {
  }

  lemma {:induction false} KidsAtLast(folders: seq<FolderEntry>, id: Id, t: nat, ty: NodeType, wanted: Id)
    requires 0 < t <= |folders|
    ensures Count(KidsAt(folders, id, t), ty, wanted)
            == Count(KidsAt(folders, id, t - 1), ty, wanted)
               + (if folders[t - 1].level != 1 && folders[t - 1].parentId == id
                  then CountIn(NodeAt(folders, t - 1, t - 1), ty, wanted) else 0)
  {
    KidsNext(folders, id, t - 1);
    CountExtended(KidsAt(folders, id, t - 1), NodeAt(folders, t - 1, t - 1),
               folders[t - 1].level != 1 && folders[t - 1].parentId == id, ty, wanted);
  }

  lemma {:induction false} CopiedLast(folders: seq<FolderEntry>, envIds: set<Id>, t: nat, ty: NodeType, id: Id)
    requires 0 < t <= |folders|
    ensures Count(Copied(folders, envIds, t), ty, id)
            == Count(Copied(folders, envIds, t - 1), ty, id)
               + (if CopiedNext(folders, envIds, t - 1) then CountIn(NodeAt(folders, t - 1, t - 1), ty, id) else 0)
  {
    CountExtended(Copied(folders, envIds, t - 1), NodeAt(folders, t - 1, t - 1), CopiedNext(folders, envIds, t - 1), ty, id);
  }

  lemma {:induction false} OrphansLast(folders: seq<FolderEntry>, envIds: set<Id>, t: nat, ty: NodeType, id: Id)
    requires 0 < t <= |folders|
    ensures Count(OrphanFolders(folders, envIds, t), ty, id)
            == Count(OrphanFolders(folders, envIds, t - 1), ty, id)
               + (if IsOrphan(folders, envIds, t - 1) then CountIn(NodeAt(folders, t - 1, |folders|), ty, id) else 0)
  {
    CountExtended(OrphanFolders(folders, envIds, t - 1), NodeAt(folders, t - 1, |folders|),
               IsOrphan(folders, envIds, t - 1), ty, id);
  }

  lemma {:induction false} FolderHoldsNoOthers(folders: seq<FolderEntry>, j: nat, t: nat, ty: NodeType, wanted: Id)
    requires j < |folders| && t <= |folders| && ty != FolderNode
    ensures CountIn(NodeAt(folders, j, t), ty, wanted) == 0
  {
    FolderTreesAreFolders(folders, folders[j].id, t, ty, wanted);
    FolderRootCount(folders, j, t, ty, wanted);
  }

  lemma {:induction false} NoneAdded(trees: seq<TreeNode>, n: TreeNode, added: bool, ty: NodeType, wanted: Id)
    requires Count(trees, ty, wanted) == 0 && CountIn(n, ty, wanted) == 0
    ensures Count(Extended(trees, n, added), ty, wanted) == 0
  {
    CountExtended(trees, n, added, ty, wanted);
  }

  lemma {:induction false} CopiedHoldNoOthers(folders: seq<FolderEntry>, envIds: set<Id>, t: nat, ty: NodeType,
                                              wanted: Id)
    requires t <= |folders| && ty != FolderNode
    ensures Count(Copied(folders, envIds, t), ty, wanted) == 0
    decreases t
  {
    if t > 0 {
      var before, n := Copied(folders, envIds, t - 1), NodeAt(folders, t - 1, t - 1);
      CopiedHoldNoOthers(folders, envIds, t - 1, ty, wanted);
      FolderHoldsNoOthers(folders, t - 1, t - 1, ty, wanted);
      NoneAdded(before, n, CopiedNext(folders, envIds, t - 1), ty, wanted);
      assert Copied(folders, envIds, t) == Extended(before, n, CopiedNext(folders, envIds, t - 1));
    }
  }

  lemma {:induction false} OrphansHoldNoOthers(folders: seq<FolderEntry>, envIds: set<Id>, t: nat, ty: NodeType,
                                               wanted: Id)
    requires t <= |folders| && ty != FolderNode
    ensures Count(OrphanFolders(folders, envIds, t), ty, wanted) == 0
    decreases t
  {
    if t > 0 {
      var before, n := OrphanFolders(folders, envIds, t - 1), NodeAt(folders, t - 1, |folders|);
      OrphansHoldNoOthers(folders, envIds, t - 1, ty, wanted);
      FolderHoldsNoOthers(folders, t - 1, |folders|, ty, wanted);
      NoneAdded(before, n, IsOrphan(folders, envIds, t - 1), ty, wanted);
      assert OrphanFolders(folders, envIds, t) == Extended(before, n, IsOrphan(folders, envIds, t - 1));
    }
  }

  lemma {:induction false} FoldersHoldNoOthers(envs: seq<Entity>, folders: seq<FolderEntry>, ty: NodeType, wanted: Id)
    requires ty != FolderNode
    ensures FolderCount(envs, folders, ty, wanted) == 0
  {
    CopiedHoldNoOthers(folders, Ids(envs), |folders|, ty, wanted);
    OrphansHoldNoOthers(folders, Ids(envs), |folders|, ty, wanted);
  }

  /** How often the forest built with includeOrphans holds something that is not the orphan root. */
  lemma {:induction false} TreeCount(orgs: seq<Entity>, projects: seq<Entity>, envs: seq<Entity>,
                                     folders: seq<FolderEntry>,
                  ty: NodeType, id: Id)
    requires Visible(orgs, projects, envs, folders) && !(ty == FolderNode && id == ORPHANS)
    ensures Count(Tree(orgs, projects, envs, folders, true), ty, id)
            == (if ty == OrganizationNode && id in Ids(orgs) then 1 else 0)
               + (if ty == ProjectNode && id in Ids(projects) then 1 else 0)
               + (if ty == EnvironmentNode && id in Ids(envs) then 1 else 0)
               + FolderCount(envs, folders, ty, id)
  {
    Conservation(orgs, projects, envs, folders, ty, id);
    BasesCount(orgs, OrganizationNode, ty, id);
    BasesCount(projects, ProjectNode, ty, id);
    BasesCount(envs, EnvironmentNode, ty, id);
    RootsCount(OrgTrees(orgs, projects, envs, folders), Orphans(orgs, projects, envs, folders), ty, id);
  }

  lemma {:induction false} OrphanRootCount(orphans: seq<TreeNode>, ty: NodeType, id: Id)
    requires !(ty == FolderNode && id == ORPHANS)
    ensures CountIn(OrphanRoot(orphans), ty, id) == Count(orphans, ty, id)
  {
  }

  lemma {:induction false} RootsCount(roots: seq<TreeNode>, orphans: seq<TreeNode>, ty: NodeType, id: Id)
    requires !(ty == FolderNode && id == ORPHANS)
    ensures Count(Extended(roots, OrphanRoot(orphans), |orphans| > 0), ty, id)
            == Count(roots, ty, id) + Count(orphans, ty, id)
  {
    OrphanRootCount(orphans, ty, id);
    CountExtended(roots, OrphanRoot(orphans), |orphans| > 0, ty, id);
  }

  /** Every visible organization, project and environment occurs exactly once. */
  lemma {:induction false} EntitiesOnce(orgs: seq<Entity>, projects: seq<Entity>, envs: seq<Entity>,
                                        folders: seq<FolderEntry>, id: Id)
    requires Visible(orgs, projects, envs, folders)
    ensures Count(Tree(orgs, projects, envs, folders, true), OrganizationNode, id) == if id in Ids(orgs) then 1 else 0
    ensures Count(Tree(orgs, projects, envs, folders, true), ProjectNode, id) == if id in Ids(projects) then 1 else 0
    ensures Count(Tree(orgs, projects, envs, folders, true), EnvironmentNode, id) == if id in Ids(envs) then 1 else 0
  {
    TreeCount(orgs, projects, envs, folders, OrganizationNode, id);
    TreeCount(orgs, projects, envs, folders, ProjectNode, id);
    TreeCount(orgs, projects, envs, folders, EnvironmentNode, id);
    FoldersHoldNoOthers(envs, folders, OrganizationNode, id);
    FoldersHoldNoOthers(envs, folders, ProjectNode, id);
    FoldersHoldNoOthers(envs, folders, EnvironmentNode, id);
  }

  // ---- folders ----

  /** The schema's shape: two levels, and a visible parent of a level-2 folder is a level-1 folder. */
  ghost predicate TwoLevels(folders: seq<FolderEntry>) {
    && (forall k :: 0 <= k < |folders| ==> folders[k].level == 1 || folders[k].level == 2)
    && (forall m, j :: 0 <= m < |folders| && 0 <= j < |folders| && ChildOf(folders, m, j) ==> folders[j].level == 1)
  }

  predicate ChildOf(folders: seq<FolderEntry>, m: nat, j: nat)
    requires m < |folders| && j < |folders|
  {
    folders[m].level == 2 && folders[m].parentId == folders[j].id
  }

  /** Nothing hangs under a level-2 folder. */
  lemma {:induction false} LeafKids(folders: seq<FolderEntry>, m: nat, t: nat)
    requires DistinctFolders(folders) && TwoLevels(folders) && m < |folders| && t <= |folders| && folders[m].level == 2
    ensures KidsAt(folders, folders[m].id, t) == []
    decreases t
  {
    if t > 0 {
      LeafKids(folders, m, t - 1);
      KidsNext(folders, folders[m].id, t - 1);
      assert folders[t - 1].level == 1 || folders[t - 1].level == 2;
      assert !ChildOf(folders, t - 1, m);
    }
  }

  /** Folder m occurs among the kids folder j has after t steps exactly when m is its child and was handled by then. */
  lemma {:induction false} KidsAtCount(folders: seq<FolderEntry>, j: nat, t: nat, m: nat)
    requires DistinctFolders(folders) && TwoLevels(folders) && j < |folders| && t <= |folders| && m < |folders|
    ensures Count(KidsAt(folders, folders[j].id, t), FolderNode, folders[m].id)
            == if m < t && ChildOf(folders, m, j) then 1 else 0
    decreases t
  {
    if t > 0 {
      KidsAtCount(folders, j, t - 1, m);
      KidsAtLast(folders, folders[j].id, t, FolderNode, folders[m].id);
      assert folders[t - 1].level == 1 || folders[t - 1].level == 2;
      if folders[t - 1].level == 2 { LeafCount(folders, t - 1, t - 1, m); }
    }
  }

  lemma {:induction false} LeafCount(folders: seq<FolderEntry>, k: nat, t: nat, m: nat)
    requires DistinctFolders(folders) && TwoLevels(folders) && k < |folders| && t <= |folders| && m < |folders|
    requires folders[k].level == 2
    ensures CountIn(NodeAt(folders, k, t), FolderNode, folders[m].id) == if k == m then 1 else 0
  {
    LeafKids(folders, k, t);
    FolderRootCount(folders, k, t, FolderNode, folders[m].id);
    assert Count([], FolderNode, folders[m].id) == 0;
  }

  lemma {:induction false} NodeAtCount(folders: seq<FolderEntry>, j: nat, t: nat, m: nat)
    requires DistinctFolders(folders) && TwoLevels(folders) && j < |folders| && t <= |folders| && m < |folders|
    ensures CountIn(NodeAt(folders, j, t), FolderNode, folders[m].id)
            == (if j == m then 1 else 0) + (if m < t && ChildOf(folders, m, j) then 1 else 0)
  {
    KidsAtCount(folders, j, t, m);
    FolderRootCount(folders, j, t, FolderNode, folders[m].id);
  }

  predicate ParentAmong(folders: seq<FolderEntry>, m: nat, j: nat, t: nat)
    requires m < |folders| && t <= |folders|
  {
    j < t && ChildOf(folders, m, j)
  }

  /** Among the first t folders there is a copied parent of m that comes after m. */
  ghost predicate CopiedAfter(folders: seq<FolderEntry>, envIds: set<Id>, m: nat, t: nat)
    requires m < |folders| && t <= |folders|
  {
    exists j :: ParentAmong(folders, m, j, t) && m < j && CopiedNext(folders, envIds, j)
  }

  ghost predicate ParentOrphaned(folders: seq<FolderEntry>, envIds: set<Id>, m: nat, t: nat)
    requires m < |folders| && t <= |folders|
  {
    exists j :: ParentAmong(folders, m, j, t) && IsOrphan(folders, envIds, j)
  }

  lemma {:induction false} ParentNext(folders: seq<FolderEntry>, envIds: set<Id>, m: nat, t: nat)
    requires DistinctFolders(folders) && m < |folders| && 0 < t <= |folders|
    ensures var j := t - 1; var last := ChildOf(folders, m, j);
            && (CopiedAfter(folders, envIds, m, t) <==>
                CopiedAfter(folders, envIds, m, j) || (last && m < j && CopiedNext(folders, envIds, j)))
            && (ParentOrphaned(folders, envIds, m, t) <==>
                ParentOrphaned(folders, envIds, m, j) || (last && IsOrphan(folders, envIds, j)))
            && (last ==> !CopiedAfter(folders, envIds, m, j) && !ParentOrphaned(folders, envIds, m, j))
  {
    assert forall j :: ParentAmong(folders, m, j, t) <==>
             ParentAmong(folders, m, j, t - 1) || (j == t - 1 && ChildOf(folders, m, j));
  }

  /** Folder m among the copies: itself, or inside the copy of a parent handled after it. */
  lemma {:induction false} CopiedCount(folders: seq<FolderEntry>, envIds: set<Id>, t: nat, m: nat)
    requires DistinctFolders(folders) && TwoLevels(folders) && t <= |folders| && m < |folders|
    ensures Count(Copied(folders, envIds, t), FolderNode, folders[m].id)
            == (if m < t && CopiedNext(folders, envIds, m) then 1 else 0) + (if CopiedAfter(folders, envIds, m, t) then 1 else 0)
  {
    if t > 0 {
      CopiedCount(folders, envIds, t - 1, m);
      CopiedLast(folders, envIds, t, FolderNode, folders[m].id);
      NodeAtCount(folders, t - 1, t - 1, m);
      ParentNext(folders, envIds, m, t);
    }
  }

  /** Folder m among the orphans: itself, or inside an orphan parent. */
  lemma {:induction false} OrphansCount(folders: seq<FolderEntry>, envIds: set<Id>, t: nat, m: nat)
    requires DistinctFolders(folders) && TwoLevels(folders) && t <= |folders| && m < |folders|
    ensures Count(OrphanFolders(folders, envIds, t), FolderNode, folders[m].id)
            == (if m < t && IsOrphan(folders, envIds, m) then 1 else 0) + (if ParentOrphaned(folders, envIds, m, t) then 1 else 0)
  {
    if t > 0 {
      OrphansCount(folders, envIds, t - 1, m);
      OrphansLast(folders, envIds, t, FolderNode, folders[m].id);
      NodeAtCount(folders, t - 1, |folders|, m);
      ParentNext(folders, envIds, m, t);
    }
  }

  /** Every visible level-1 folder occurs exactly once. */
  lemma {:induction false} LevelOneOnce(orgs: seq<Entity>, projects: seq<Entity>, envs: seq<Entity>,
                                        folders: seq<FolderEntry>, m: nat)
    requires Visible(orgs, projects, envs, folders) && TwoLevels(folders)
    requires m < |folders| && folders[m].level == 1 && folders[m].id != ORPHANS
    ensures Count(Tree(orgs, projects, envs, folders, true), FolderNode, folders[m].id) == 1
  {
    TreeCount(orgs, projects, envs, folders, FolderNode, folders[m].id);
    CopiedCount(folders, Ids(envs), |folders|, m);
    OrphansCount(folders, Ids(envs), |folders|, m);
  }

  /** A level-2 folder occurs once if its parent is not visible, or the parent's environment is not, or it comes
      before its parent in the input; otherwise it is nowhere in the forest. */
  lemma {:induction false} LevelTwoPlacement(orgs: seq<Entity>, projects: seq<Entity>, envs: seq<Entity>,
                                             folders: seq<FolderEntry>, m: nat)
    requires Visible(orgs, projects, envs, folders) && TwoLevels(folders)
    requires m < |folders| && folders[m].level == 2 && folders[m].id != ORPHANS
    ensures Count(Tree(orgs, projects, envs, folders, true), FolderNode, folders[m].id)
            == if || folders[m].parentId !in FolderIds(folders)
                  || (exists j :: 0 <= j < |folders| && folders[j].id == folders[m].parentId
                                  && (folders[j].environmentId !in Ids(envs) || m < j))
               then 1 else 0
  {
    TreeCount(orgs, projects, envs, folders, FolderNode, folders[m].id);
    CopiedCount(folders, Ids(envs), |folders|, m);
    OrphansCount(folders, Ids(envs), |folders|, m);
    if folders[m].parentId in FolderIds(folders) {
      var j :| 0 <= j < |folders| && folders[j].id == folders[m].parentId;
      assert ParentAmong(folders, m, j, |folders|);
      assert forall i :: ParentAmong(folders, m, i, |folders|) ==> i == j;
    }
  }

  // ---- under the right parent ----

  /** Every child in the tree names the node it is under. */
  predicate Parented(n: TreeNode)
    decreases n
  {
    forall k :: 0 <= k < |n.children| ==> n.children[k].parentId == n.id && Parented(n.children[k])
  }

  ghost predicate AllParented(trees: seq<TreeNode>) {
    forall k :: 0 <= k < |trees| ==> Parented(trees[k])
  }

  lemma {:induction false} KidsAtParented(folders: seq<FolderEntry>, id: Id, t: nat)
    requires t <= |folders|
    ensures AllParented(KidsAt(folders, id, t))
    ensures forall k :: 0 <= k < |KidsAt(folders, id, t)| ==> KidsAt(folders, id, t)[k].parentId == id
    decreases t
  {
    if t > 0 {
      KidsAtParented(folders, id, t - 1);
      KidsAtParented(folders, folders[t - 1].id, t - 1);
      KidsNext(folders, id, t - 1);
    }
  }

  lemma {:induction false} FoldersParented(folders: seq<FolderEntry>, envIds: set<Id>, t: nat)
    requires t <= |folders|
    ensures AllParented(Copied(folders, envIds, t)) && AllParented(OrphanFolders(folders, envIds, t))
  {
    if t > 0 {
      FoldersParented(folders, envIds, t - 1);
      KidsAtParented(folders, folders[t - 1].id, t - 1);
      KidsAtParented(folders, folders[t - 1].id, |folders|);
    }
  }

  lemma {:induction false} KidsAre(nodes: seq<TreeNode>, id: Id)
    requires AllParented(nodes)
    ensures AllParented(Kids(nodes, id))
    ensures forall k :: 0 <= k < |Kids(nodes, id)| ==> Kids(nodes, id)[k].parentId == id
  {
    if nodes != [] { KidsAre(nodes[..|nodes| - 1], id); }
  }

  lemma {:induction false} MountedParented(bases: seq<TreeNode>, nodes: seq<TreeNode>)
    requires AllParented(nodes)
    ensures AllParented(Mounted(bases, nodes))
  {
    forall k | 0 <= k < |bases|
      ensures Parented(Mounted(bases, nodes)[k])
    {
      KidsAre(nodes, bases[k].id);
    }
  }

  /** Everywhere but directly under the orphan root, a node's children are ones that name it as their parent; the
      orphan root's own children name a parent that is not visible. */
  lemma {:induction false} EveryoneUnderTheirParent(orgs: seq<Entity>, projects: seq<Entity>, envs: seq<Entity>,
                                                    folders: seq<FolderEntry>)
    ensures AllParented(OrgTrees(orgs, projects, envs, folders))
    ensures AllParented(Orphans(orgs, projects, envs, folders))
    ensures forall n :: n in Orphans(orgs, projects, envs, folders) ==>
      || (n.parentId !in Ids(orgs) && n in ProjectTrees(projects, envs, folders))
      || (n.parentId !in Ids(projects) && n in EnvTrees(envs, folders))
      || exists k :: 0 <= k < |folders| && n == NodeAt(folders, k, |folders|) && IsOrphan(folders, Ids(envs), k)
  {
    FoldersParented(folders, Ids(envs), |folders|);
    MountedParented(Bases(envs, EnvironmentNode), Copied(folders, Ids(envs), |folders|));
    MountedParented(Bases(projects, ProjectNode), EnvTrees(envs, folders));
    MountedParented(Bases(orgs, OrganizationNode), ProjectTrees(projects, envs, folders));
    forall n | n in Orphans(orgs, projects, envs, folders)
      ensures Parented(n)
      ensures || (n.parentId !in Ids(orgs) && n in ProjectTrees(projects, envs, folders))
              || (n.parentId !in Ids(projects) && n in EnvTrees(envs, folders))
              || exists k :: 0 <= k < |folders| && n == NodeAt(folders, k, |folders|) && IsOrphan(folders, Ids(envs), k)
    {
      OrphanOrigin(orgs, projects, envs, folders, n);
    }
  }

  lemma {:induction false} OrphanOrigin(orgs: seq<Entity>, projects: seq<Entity>, envs: seq<Entity>,
                                        folders: seq<FolderEntry>, n: TreeNode)
    requires n in Orphans(orgs, projects, envs, folders)
    ensures || (n.parentId !in Ids(orgs) && n in ProjectTrees(projects, envs, folders))
            || (n.parentId !in Ids(projects) && n in EnvTrees(envs, folders))
            || (n in OrphanFolders(folders, Ids(envs), |folders|)
                && exists k :: 0 <= k < |folders| && n == NodeAt(folders, k, |folders|) && IsOrphan(folders, Ids(envs), k))
  {
    if n in OrphanFolders(folders, Ids(envs), |folders|) {
      var k := OrphanFoldersAre(folders, Ids(envs), |folders|, n);
    } else if n in Strays(EnvTrees(envs, folders), Ids(projects)) {
      StraysAre(EnvTrees(envs, folders), Ids(projects), n);
    } else {
      StraysAre(ProjectTrees(projects, envs, folders), Ids(orgs), n);
    }
  }

  /** A missed child shown: a level-2 folder listed right after its level-1 parent disappears. */
  lemma {:induction false} LateChildIsLost(env: Id, parent: Id, child: Id)
    requires parent != child && child != ORPHANS && parent != ORPHANS
    ensures var folders := [FolderEntry(parent, env, "", 1, "a"), FolderEntry(child, env, parent, 2, "b")];
            Count(Tree([], [], [Entity(env, "p", "e")], folders, true), FolderNode, child) == 0
  {
    var folders := [FolderEntry(parent, env, "", 1, "a"), FolderEntry(child, env, parent, 2, "b")];
    var envs := [Entity(env, "p", "e")];
    LevelTwoPlacement([], [], envs, folders, 1);
    assert folders[0].id in FolderIds(folders) && envs[0].id in Ids(envs);
  }
}
