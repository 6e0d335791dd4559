/**
 * buildTree of internal/service/tree_service.go. Nodes are linked through an index from id to
 * node, but a child is copied by value into its parent, so a copy does not see what its original gains later.
 */
module TreeAssembly {
  import opened Wrappers

  type Id = string

  datatype NodeType = OrganizationNode | ProjectNode | EnvironmentNode | FolderNode

  datatype TreeNode = TreeNode(id: Id, ty: NodeType, level: int, parentId: Id, code: string, children: seq<TreeNode>)

  datatype Entity = Entity(id: Id, parentId: Id, code: string)

  datatype FolderEntry = FolderEntry(id: Id, environmentId: Id, parentId: Id, level: int, code: string)

  const ORPHANS := "__orphans__"

  // ---- projections ----

  function NodeOf(e: Entity, ty: NodeType): TreeNode {
    TreeNode(e.id, ty, 0, if ty == OrganizationNode then "" else e.parentId, e.code, [])
  }

  /** The node's parent is the environment for level 1, the parent folder otherwise. */
  function FolderNodeOf(f: FolderEntry): TreeNode {
    TreeNode(f.id, FolderNode, f.level, if f.level == 1 then f.environmentId else f.parentId, f.code, [])
  }

  function Bases(entities: seq<Entity>, ty: NodeType): (bases: seq<TreeNode>)
    ensures |bases| == |entities| && forall k :: 0 <= k < |entities| ==> bases[k] == NodeOf(entities[k], ty)
  {
    seq(|entities|, k requires 0 <= k < |entities| => NodeOf(entities[k], ty))
  }

  predicate Distinct(entities: seq<Entity>) {
    forall i, j :: 0 <= i < j < |entities| ==> entities[i].id != entities[j].id
  }

  predicate DistinctFolders(folders: seq<FolderEntry>) {
    forall i, j :: 0 <= i < j < |folders| ==> folders[i].id != folders[j].id
  }

  function Ids(entities: seq<Entity>): set<Id> {
    set k | 0 <= k < |entities| :: entities[k].id
  }

  function FolderIds(folders: seq<FolderEntry>): set<Id> {
    set k | 0 <= k < |folders| :: folders[k].id
  }

  // ---- what the tree is ----

  function Extended(nodes: seq<TreeNode>, n: TreeNode, added: bool): seq<TreeNode> {
    if added then nodes + [n] else nodes
  }

  /** The nodes whose parent is `id`, in order. */
  function Kids(nodes: seq<TreeNode>, id: Id): seq<TreeNode> {
    if nodes == [] then []
    else Extended(Kids(nodes[..|nodes| - 1], id), nodes[|nodes| - 1], nodes[|nodes| - 1].parentId == id)
  }

  /** The nodes whose parent is not among `parents`, in order. */
  function Strays(nodes: seq<TreeNode>, parents: set<Id>): seq<TreeNode> {
    if nodes == [] then []
    else Extended(Strays(nodes[..|nodes| - 1], parents), nodes[|nodes| - 1], nodes[|nodes| - 1].parentId !in parents)
  }

  /** Each base with its kids. */
  function Mounted(bases: seq<TreeNode>, nodes: seq<TreeNode>): (trees: seq<TreeNode>)
    ensures |trees| == |bases|
    ensures forall k :: 0 <= k < |bases| ==> trees[k] == bases[k].(children := Kids(nodes, bases[k].id))
  {
    seq(|bases|, k requires 0 <= k < |bases| => bases[k].(children := Kids(nodes, bases[k].id)))
  }

  /** The children folder `id` has after the first t folders were handled. */
  function KidsAt(folders: seq<FolderEntry>, id: Id, t: nat): seq<TreeNode>
    requires t <= |folders|
    decreases t, 0
  {
    if t == 0 then []
    else
      var f := folders[t - 1];
      Extended(KidsAt(folders, id, t - 1), NodeAt(folders, t - 1, t - 1), f.level != 1 && f.parentId == id)
  }

  /** Folder j as it stands after the first t folders were handled. */
  function NodeAt(folders: seq<FolderEntry>, j: nat, t: nat): TreeNode
    requires j < |folders| && t <= |folders|
    decreases t, 1
  {
    FolderNodeOf(folders[j]).(children := KidsAt(folders, folders[j].id, t))
  }

  predicate CopiedNext(folders: seq<FolderEntry>, envIds: set<Id>, i: nat)
    requires i < |folders|
  {
    folders[i].level == 1 && folders[i].environmentId in envIds
  }

  /** The level-1 folders among the first t whose environment is visible, each as it stood when it was copied. */
  function Copied(folders: seq<FolderEntry>, envIds: set<Id>, t: nat): seq<TreeNode>
    requires t <= |folders|
  {
    if t == 0 then []
    else
      Extended(Copied(folders, envIds, t - 1), NodeAt(folders, t - 1, t - 1), CopiedNext(folders, envIds, t - 1))
  }

  predicate IsOrphan(folders: seq<FolderEntry>, envIds: set<Id>, k: nat)
    requires k < |folders|
  {
    if folders[k].level == 1 then folders[k].environmentId !in envIds else folders[k].parentId !in FolderIds(folders)
  }

  /** The orphan folders among the first t, as they stand at the end. */
  function OrphanFolders(folders: seq<FolderEntry>, envIds: set<Id>, t: nat): seq<TreeNode>
    requires t <= |folders|
  {
    if t == 0 then []
    else Extended(OrphanFolders(folders, envIds, t - 1), NodeAt(folders, t - 1, |folders|), IsOrphan(folders, envIds, t - 1))
  }

  function EnvTrees(envs: seq<Entity>, folders: seq<FolderEntry>): seq<TreeNode> {
    Mounted(Bases(envs, EnvironmentNode), Copied(folders, Ids(envs), |folders|))
  }

  function ProjectTrees(projects: seq<Entity>, envs: seq<Entity>, folders: seq<FolderEntry>): seq<TreeNode> {
    Mounted(Bases(projects, ProjectNode), EnvTrees(envs, folders))
  }

  function OrgTrees(orgs: seq<Entity>, projects: seq<Entity>, envs: seq<Entity>,
                    folders: seq<FolderEntry>): seq<TreeNode> {
    Mounted(Bases(orgs, OrganizationNode), ProjectTrees(projects, envs, folders))
  }

  /** Folders, then environments, then projects whose parent is not visible. */
  function Orphans(orgs: seq<Entity>, projects: seq<Entity>, envs: seq<Entity>,
                   folders: seq<FolderEntry>): seq<TreeNode> {
    OrphanFolders(folders, Ids(envs), |folders|) + Strays(EnvTrees(envs, folders), Ids(projects))
    + Strays(ProjectTrees(projects, envs, folders), Ids(orgs))
  }

  function OrphanRoot(orphans: seq<TreeNode>): TreeNode {
    TreeNode(ORPHANS, FolderNode, 0, "", ORPHANS, orphans)
  }

  function Tree(orgs: seq<Entity>, projects: seq<Entity>, envs: seq<Entity>, folders: seq<FolderEntry>,
                includeOrphans: bool): seq<TreeNode>
  {
    var orphans := Orphans(orgs, projects, envs, folders);
    Extended(OrgTrees(orgs, projects, envs, folders), OrphanRoot(orphans), includeOrphans && |orphans| > 0)
  }

  // ---- the loops ----

  method Index(bases: seq<TreeNode>) returns (nodes: map<Id, TreeNode>)
    requires forall i, j :: 0 <= i < j < |bases| ==> bases[i].id != bases[j].id
    ensures nodes.Keys == set k | 0 <= k < |bases| :: bases[k].id
    ensures forall k :: 0 <= k < |bases| ==> nodes[bases[k].id] == bases[k]
  {
    nodes := map[];
    for i := 0 to |bases|
      invariant nodes.Keys == set k | 0 <= k < i :: bases[k].id
      invariant forall k :: 0 <= k < i ==> nodes[bases[k].id] == bases[k]
    {
      nodes := nodes[bases[i].id := bases[i]];
    }
  }

  function Deref(ids: seq<Id>, nodes: map<Id, TreeNode>): (out: seq<TreeNode>)
    requires forall k :: 0 <= k < |ids| ==> ids[k] in nodes
    ensures |out| == |ids| && forall k :: 0 <= k < |ids| ==> out[k] == nodes[ids[k]]
  {
    seq(|ids|, k requires 0 <= k < |ids| => nodes[ids[k]])
  }

  /** `mounted` is `parents` with each entry's kids among `nodes` appended to its children. */
  ghost predicate KidsAdded(mounted: map<Id, TreeNode>, parents: map<Id, TreeNode>, nodes: seq<TreeNode>) {
    mounted.Keys == parents.Keys &&
    forall p :: p in parents ==> mounted[p] == parents[p].(children := parents[p].children + Kids(nodes, p))
  }

  lemma {:induction false} KidsSnoc(nodes: seq<TreeNode>, n: TreeNode, id: Id)
    ensures Kids(nodes + [n], id) == Extended(Kids(nodes, id), n, n.parentId == id)
  {
    assert (nodes + [n])[..|nodes|] == nodes;
  }

  lemma {:induction false} StraysSnoc(nodes: seq<TreeNode>, n: TreeNode, parents: set<Id>)
    ensures Strays(nodes + [n], parents) == Extended(Strays(nodes, parents), n, n.parentId !in parents)
  {
    assert (nodes + [n])[..|nodes|] == nodes;
  }

  lemma {:induction false} KidsAddedCopy(mounted: map<Id, TreeNode>, parents: map<Id, TreeNode>, nodes: seq<TreeNode>,
                                         n: TreeNode)
    requires KidsAdded(mounted, parents, nodes) && n.parentId in parents
    ensures var parent := mounted[n.parentId];
            KidsAdded(mounted[n.parentId := parent.(children := parent.children + [n])], parents, nodes + [n])
  {
    var parent := mounted[n.parentId];
    var mounted' := mounted[n.parentId := parent.(children := parent.children + [n])];
    forall p | p in parents
      ensures mounted'[p] == parents[p].(children := parents[p].children + Kids(nodes + [n], p))
    {
      KidsSnoc(nodes, n, p);
      assert mounted[p].children == parents[p].children + Kids(nodes, p);
      assert parents[p].children + Kids(nodes, p) + [n] == parents[p].children + (Kids(nodes, p) + [n]);
    }
  }

  lemma {:induction false} KidsAddedSkip(mounted: map<Id, TreeNode>, parents: map<Id, TreeNode>, nodes: seq<TreeNode>,
                                         n: TreeNode)
    requires KidsAdded(mounted, parents, nodes) && n.parentId !in parents
    ensures KidsAdded(mounted, parents, nodes + [n])
  {
    forall p | p in parents
      ensures Kids(nodes + [n], p) == Kids(nodes, p)
    {
      KidsSnoc(nodes, n, p);
    }
  }

  lemma {:induction false} NodeIdsSnoc(nodes: seq<TreeNode>, n: TreeNode)
    ensures NodeIds(nodes + [n]) == NodeIds(nodes) + [n.id]
  {
  }

  /** One of the mounting loops: each entity's node is copied into its parent, or its id set aside. */
  method Mount(entities: seq<Entity>, nodes: seq<TreeNode>, parents: map<Id, TreeNode>)
    returns (mounted: map<Id, TreeNode>, orphans: seq<Id>)
    requires |nodes| == |entities|
    requires forall k :: 0 <= k < |nodes| ==> nodes[k].id == entities[k].id && nodes[k].parentId == entities[k].parentId
    ensures KidsAdded(mounted, parents, nodes)
    ensures orphans == NodeIds(Strays(nodes, parents.Keys))
  {
    mounted, orphans := parents, [];
    for i := 0 to |entities|
      invariant KidsAdded(mounted, parents, nodes[..i])
      invariant orphans == NodeIds(Strays(nodes[..i], parents.Keys))
    {
      assert nodes[..i + 1] == nodes[..i] + [nodes[i]];
      StraysSnoc(nodes[..i], nodes[i], parents.Keys);
      NodeIdsSnoc(Strays(nodes[..i], parents.Keys), nodes[i]);
      var parent := entities[i].parentId;
      if parent !in mounted {
        KidsAddedSkip(mounted, parents, nodes[..i], nodes[i]);
        orphans := orphans + [entities[i].id];
      } else {
        KidsAddedCopy(mounted, parents, nodes[..i], nodes[i]);
        var node := mounted[parent];
        mounted := mounted[parent := node.(children := node.children + [nodes[i]])];
      }
    }
    assert nodes[..|nodes|] == nodes;
  }

  function NodeIds(nodes: seq<TreeNode>): (ids: seq<Id>)
    ensures |ids| == |nodes| && forall k :: 0 <= k < |nodes| ==> ids[k] == nodes[k].id
  {
    seq(|nodes|, k requires 0 <= k < |nodes| => nodes[k].id)
  }

  function FolderBases(folders: seq<FolderEntry>): (bases: seq<TreeNode>)
    ensures |bases| == |folders| && forall k :: 0 <= k < |folders| ==> bases[k] == FolderNodeOf(folders[k])
  {
    seq(|folders|, k requires 0 <= k < |folders| => FolderNodeOf(folders[k]))
  }

  /** The environments after the first t folders. */
  ghost predicate EnvsAt(mounted: map<Id, TreeNode>, envs: map<Id, TreeNode>, folders: seq<FolderEntry>, t: nat)
    requires t <= |folders|
  {
    KidsAdded(mounted, envs, Copied(folders, envs.Keys, t))
  }

  ghost predicate NodesAt(nodes: map<Id, TreeNode>, folders: seq<FolderEntry>, t: nat)
    requires t <= |folders|
  {
    nodes.Keys == FolderIds(folders) && forall j :: 0 <= j < |folders| ==> nodes[folders[j].id] == NodeAt(folders, j, t)
  }

  lemma {:induction false} EnvsCopy(mounted: map<Id, TreeNode>, envs: map<Id, TreeNode>, folders: seq<FolderEntry>,
                                    i: nat, node: TreeNode)
    requires i < |folders| && EnvsAt(mounted, envs, folders, i) && CopiedNext(folders, envs.Keys, i)
    requires node == NodeAt(folders, i, i)
    ensures var env := mounted[folders[i].environmentId];
            EnvsAt(mounted[folders[i].environmentId := env.(children := env.children + [node])], envs, folders, i + 1)
  {
    KidsAddedCopy(mounted, envs, Copied(folders, envs.Keys, i), node);
    assert Copied(folders, envs.Keys, i + 1) == Copied(folders, envs.Keys, i) + [node];
  }

  lemma {:induction false} EnvsIdle(mounted: map<Id, TreeNode>, envs: map<Id, TreeNode>, folders: seq<FolderEntry>,
                                    i: nat)
    requires i < |folders| && EnvsAt(mounted, envs, folders, i) && !CopiedNext(folders, envs.Keys, i)
    ensures EnvsAt(mounted, envs, folders, i + 1)
  {
    assert Copied(folders, envs.Keys, i + 1) == Copied(folders, envs.Keys, i);
  }

  lemma {:induction false} NodesAttach(nodes: map<Id, TreeNode>, folders: seq<FolderEntry>, i: nat, node: TreeNode)
    requires i < |folders| && NodesAt(nodes, folders, i)
    requires folders[i].level != 1 && folders[i].parentId in nodes && node == NodeAt(folders, i, i)
    ensures var parent := nodes[folders[i].parentId];
            NodesAt(nodes[folders[i].parentId := parent.(children := parent.children + [node])], folders, i + 1)
  {
    var parent := nodes[folders[i].parentId];
    var nodes' := nodes[folders[i].parentId := parent.(children := parent.children + [node])];
    assert nodes'.Keys == nodes.Keys;
    forall j | 0 <= j < |folders|
      ensures nodes'[folders[j].id] == NodeAt(folders, j, i + 1)
    {
      AttachOne(nodes, folders, i, node, j);
    }
  }

  lemma {:induction false} AttachOne(nodes: map<Id, TreeNode>, folders: seq<FolderEntry>, i: nat, node: TreeNode,
                                     j: nat)
    requires i < |folders| && j < |folders| && folders[j].id in nodes && nodes[folders[j].id] == NodeAt(folders, j, i)
    requires folders[i].level != 1 && folders[i].parentId in nodes && node == NodeAt(folders, i, i)
    ensures var parent := nodes[folders[i].parentId];
            nodes[folders[i].parentId := parent.(children := parent.children + [node])][folders[j].id]
            == NodeAt(folders, j, i + 1)
  {
    NodeNext(folders, j, i);
  }

  lemma {:induction false} NodeNext(folders: seq<FolderEntry>, j: nat, i: nat)
    requires i < |folders| && j < |folders|
    ensures var n := NodeAt(folders, j, i);
            NodeAt(folders, j, i + 1)
            == if folders[i].level != 1 && folders[i].parentId == folders[j].id
               then n.(children := n.children + [NodeAt(folders, i, i)]) else n
  {
  }

  lemma {:induction false} NodesIdle(nodes: map<Id, TreeNode>, folders: seq<FolderEntry>, i: nat)
    requires i < |folders| && NodesAt(nodes, folders, i)
    requires folders[i].level == 1 || folders[i].parentId !in nodes
    ensures NodesAt(nodes, folders, i + 1)
  {
    forall j | 0 <= j < |folders|
      ensures nodes[folders[j].id] == NodeAt(folders, j, i + 1)
    {
      assert folders[j].id in nodes;
      NodeNext(folders, j, i);
    }
  }

  lemma {:induction false} KidsNext(folders: seq<FolderEntry>, id: Id, i: nat)
    requires i < |folders|
    ensures KidsAt(folders, id, i + 1)
            == Extended(KidsAt(folders, id, i), NodeAt(folders, i, i), folders[i].level != 1 && folders[i].parentId == id)
  {
  }

  lemma {:induction false} OrphansNext(folders: seq<FolderEntry>, envIds: set<Id>, i: nat)
    requires i < |folders|
    ensures var ids := NodeIds(OrphanFolders(folders, envIds, i));
            NodeIds(OrphanFolders(folders, envIds, i + 1)) == if IsOrphan(folders, envIds, i) then ids + [folders[i].id] else ids
  {
  }

  lemma {:induction false} KeysAreFolderIds(folders: seq<FolderEntry>)
    ensures var bases := FolderBases(folders); (set k | 0 <= k < |bases| :: bases[k].id) == FolderIds(folders)
  {
    var bases := FolderBases(folders);
    forall x | x in FolderIds(folders)
      ensures x in set k | 0 <= k < |bases| :: bases[k].id
    {
      var k :| 0 <= k < |folders| && folders[k].id == x;
      assert bases[k].id == x;
    }
  }

  method IndexFolders(folders: seq<FolderEntry>) returns (nodes: map<Id, TreeNode>)
    requires DistinctFolders(folders)
    ensures NodesAt(nodes, folders, 0)
  {
    var bases := FolderBases(folders);
    nodes := Index(bases);
    KeysAreFolderIds(folders);
    forall j | 0 <= j < |folders|
      ensures nodes[folders[j].id] == NodeAt(folders, j, 0)
    {
      assert nodes[bases[j].id] == bases[j];
    }
  }

  lemma {:induction false} EnvsStart(envs: map<Id, TreeNode>, folders: seq<FolderEntry>)
    ensures EnvsAt(envs, envs, folders, 0)
  {
  }

  /** One turn of the folder loop: a level-1 folder is copied into its environment, another into its parent
      folder, and one whose parent is not visible is set aside. */
  method MountFolder(folders: seq<FolderEntry>, ghost envs: map<Id, TreeNode>, i: nat, envNodes: map<Id, TreeNode>,
                     folderNodes: map<Id, TreeNode>, stray: seq<Id>)
    returns (mounted: map<Id, TreeNode>, nodes: map<Id, TreeNode>, orphans: seq<Id>)
    requires i < |folders| && EnvsAt(envNodes, envs, folders, i) && NodesAt(folderNodes, folders, i)
    requires stray == NodeIds(OrphanFolders(folders, envs.Keys, i))
    ensures EnvsAt(mounted, envs, folders, i + 1) && NodesAt(nodes, folders, i + 1)
    ensures orphans == NodeIds(OrphanFolders(folders, envs.Keys, i + 1))
  {
    var f := folders[i];
    var node := folderNodes[f.id];
    mounted, nodes, orphans := envNodes, folderNodes, stray;
    OrphansNext(folders, envs.Keys, i);
    if f.level == 1 {
      NodesIdle(folderNodes, folders, i);
      if f.environmentId !in envNodes {
        EnvsIdle(envNodes, envs, folders, i);
        orphans := orphans + [f.id];
      } else {
        EnvsCopy(envNodes, envs, folders, i, node);
        var env := envNodes[f.environmentId];
        mounted := envNodes[f.environmentId := env.(children := env.children + [node])];
      }
    } else {
      EnvsIdle(envNodes, envs, folders, i);
      if f.parentId !in folderNodes {
        NodesIdle(folderNodes, folders, i);
        orphans := orphans + [f.id];
      } else {
        NodesAttach(folderNodes, folders, i, node);
        var parent := folderNodes[f.parentId];
        nodes := folderNodes[f.parentId := parent.(children := parent.children + [node])];
      }
    }
  }

  method MountFolders(folders: seq<FolderEntry>, envs: map<Id, TreeNode>)
    returns (mounted: map<Id, TreeNode>, nodes: map<Id, TreeNode>, orphans: seq<Id>)
    requires DistinctFolders(folders)
    ensures EnvsAt(mounted, envs, folders, |folders|) && NodesAt(nodes, folders, |folders|)
    ensures orphans == NodeIds(OrphanFolders(folders, envs.Keys, |folders|))
  {
    nodes := IndexFolders(folders);
    mounted, orphans := envs, [];
    EnvsStart(envs, folders);
    for i := 0 to |folders|
      invariant EnvsAt(mounted, envs, folders, i) && NodesAt(nodes, folders, i)
      invariant orphans == NodeIds(OrphanFolders(folders, envs.Keys, i))
    {
      mounted, nodes, orphans := MountFolder(folders, envs, i, mounted, nodes, orphans);
    }
  }

  // ---- the whole method ----

  /** The index holds exactly the given trees under their ids. */
  ghost predicate Holds(nodes: map<Id, TreeNode>, trees: seq<TreeNode>) {
    nodes.Keys == (set k | 0 <= k < |trees| :: trees[k].id) && forall k :: 0 <= k < |trees| ==> nodes[trees[k].id] == trees[k]
  }

  lemma {:induction false} MountedHeld(bases: seq<TreeNode>, nodes: seq<TreeNode>, before: map<Id, TreeNode>,
                                       after: map<Id, TreeNode>)
    requires Holds(before, bases) && KidsAdded(after, before, nodes)
    requires forall k :: 0 <= k < |bases| ==> bases[k].children == []
    ensures Holds(after, Mounted(bases, nodes))
  {
    var trees := Mounted(bases, nodes);
    forall k | 0 <= k < |bases|
      ensures after[trees[k].id] == trees[k]
    {
      assert bases[k].id in before && before[bases[k].id] == bases[k];
      assert [] + Kids(nodes, bases[k].id) == Kids(nodes, bases[k].id);
    }
    assert forall k :: 0 <= k < |bases| ==> trees[k].id == bases[k].id;
  }

  /** The trees, read off the index in input order. */
  function Read(entities: seq<Entity>, nodes: map<Id, TreeNode>): (out: seq<TreeNode>)
    requires forall k :: 0 <= k < |entities| ==> entities[k].id in nodes
    ensures |out| == |entities| && forall k :: 0 <= k < |entities| ==> out[k] == nodes[entities[k].id]
  {
    seq(|entities|, k requires 0 <= k < |entities| => nodes[entities[k].id])
  }

  lemma {:induction false} ReadHeld(entities: seq<Entity>, nodes: map<Id, TreeNode>, trees: seq<TreeNode>)
    requires Holds(nodes, trees) && |trees| == |entities|
    requires forall k :: 0 <= k < |entities| ==> trees[k].id == entities[k].id
    ensures (forall k :: 0 <= k < |entities| ==> entities[k].id in nodes) && Read(entities, nodes) == trees
  {
  }

  lemma {:induction false} KeysAreIds(entities: seq<Entity>, trees: seq<TreeNode>)
    requires |trees| == |entities| && forall k :: 0 <= k < |entities| ==> trees[k].id == entities[k].id
    ensures (set k | 0 <= k < |trees| :: trees[k].id) == Ids(entities)
  {
    forall x | x in Ids(entities)
      ensures x in set k | 0 <= k < |trees| :: trees[k].id
    {
      var k :| 0 <= k < |entities| && entities[k].id == x;
      assert trees[k].id == x;
    }
  }

  lemma {:induction false} DerefStrays(trees: seq<TreeNode>, parents: set<Id>, nodes: map<Id, TreeNode>)
    requires Holds(nodes, trees)
    ensures var ids := NodeIds(Strays(trees, parents));
            (forall k :: 0 <= k < |ids| ==> ids[k] in nodes) && Deref(ids, nodes) == Strays(trees, parents)
  {
    var strays := Strays(trees, parents);
    forall k | 0 <= k < |strays|
      ensures strays[k].id in nodes && nodes[strays[k].id] == strays[k]
    {
      StraysAre(trees, parents, strays[k]);
      var j :| 0 <= j < |trees| && trees[j] == strays[k];
    }
  }

  lemma {:induction false} StraysAre(nodes: seq<TreeNode>, parents: set<Id>, n: TreeNode)
    requires n in Strays(nodes, parents)
    ensures n in nodes && n.parentId !in parents
  {
    if n != nodes[|nodes| - 1] || nodes[|nodes| - 1].parentId in parents {
      StraysAre(nodes[..|nodes| - 1], parents, n);
    }
  }

  lemma {:induction false} OrphanFoldersAre(folders: seq<FolderEntry>, envIds: set<Id>, t: nat,
                                            n: TreeNode) returns (k: nat)
    requires t <= |folders| && n in OrphanFolders(folders, envIds, t)
    ensures k < t && IsOrphan(folders, envIds, k) && n == NodeAt(folders, k, |folders|)
  {
    if IsOrphan(folders, envIds, t - 1) && n == NodeAt(folders, t - 1, |folders|) {
      k := t - 1;
    } else {
      k := OrphanFoldersAre(folders, envIds, t - 1, n);
    }
  }

  lemma {:induction false} DerefOrphanFolders(folders: seq<FolderEntry>, envIds: set<Id>, nodes: map<Id, TreeNode>)
    requires NodesAt(nodes, folders, |folders|)
    ensures var orphans := OrphanFolders(folders, envIds, |folders|); var ids := NodeIds(orphans);
            (forall k :: 0 <= k < |ids| ==> ids[k] in nodes) && Deref(ids, nodes) == orphans
  {
    var orphans := OrphanFolders(folders, envIds, |folders|);
    forall k | 0 <= k < |orphans|
      ensures orphans[k].id in nodes && nodes[orphans[k].id] == orphans[k]
    {
      var j := OrphanFoldersAre(folders, envIds, |folders|, orphans[k]);
      assert folders[j].id in FolderIds(folders);
    }
  }

  /** Environments end up holding the folders copied into them. */
  method MountIntoEnvs(envs: seq<Entity>, folders: seq<FolderEntry>)
    returns (envNodes: map<Id, TreeNode>, orphans: seq<TreeNode>)
    requires Distinct(envs) && DistinctFolders(folders)
    ensures Holds(envNodes, EnvTrees(envs, folders))
    ensures orphans == OrphanFolders(folders, Ids(envs), |folders|)
  {
    var bases := Bases(envs, EnvironmentNode);
    var index := Index(bases);
    KeysAreIds(envs, bases);
    var folderNodes, ids;
    envNodes, folderNodes, ids := MountFolders(folders, index);
    MountedHeld(bases, Copied(folders, Ids(envs), |folders|), index, envNodes);
    DerefOrphanFolders(folders, Ids(envs), folderNodes);
    orphans := Deref(ids, folderNodes);
  }

  /** Mounts finished trees into the next level up. */
  method MountInto(parents: seq<Entity>, ty: NodeType, entities: seq<Entity>, nodes: map<Id, TreeNode>,
                   ghost trees: seq<TreeNode>)
    returns (parentNodes: map<Id, TreeNode>, orphans: seq<TreeNode>)
    requires Distinct(parents) && Holds(nodes, trees) && |trees| == |entities|
    requires forall k :: 0 <= k < |trees| ==> trees[k].id == entities[k].id && trees[k].parentId == entities[k].parentId
    ensures Holds(parentNodes, Mounted(Bases(parents, ty), trees))
    ensures orphans == Strays(trees, Ids(parents))
  {
    var bases := Bases(parents, ty);
    var index := Index(bases);
    KeysAreIds(parents, bases);
    ReadHeld(entities, nodes, trees);
    var ids;
    parentNodes, ids := Mount(entities, Read(entities, nodes), index);
    MountedHeld(bases, trees, index, parentNodes);
    DerefStrays(trees, Ids(parents), nodes);
    orphans := Deref(ids, nodes);
  }

  method BuildTree(orgs: seq<Entity>, projects: seq<Entity>, envs: seq<Entity>, folders: seq<FolderEntry>,
                   includeOrphans: bool)
    returns (roots: seq<TreeNode>, dropped: nat, totalOrphans: nat)
    requires Distinct(orgs) && Distinct(projects) && Distinct(envs) && DistinctFolders(folders)
    ensures roots == Tree(orgs, projects, envs, folders, includeOrphans)
    ensures dropped == 0 && totalOrphans == |Orphans(orgs, projects, envs, folders)|
  {
    var envNodes, orphanFolders := MountIntoEnvs(envs, folders);
    var projectNodes, orphanEnvs := MountInto(projects, ProjectNode, envs, envNodes, EnvTrees(envs, folders));
    var orgNodes, orphanProjects :=
      MountInto(orgs, OrganizationNode, projects, projectNodes, ProjectTrees(projects, envs, folders));
    ReadHeld(orgs, orgNodes, OrgTrees(orgs, projects, envs, folders));
    roots := Read(orgs, orgNodes);
    totalOrphans := |orphanFolders| + |orphanEnvs| + |orphanProjects|;
    if includeOrphans && totalOrphans > 0 {
      roots := roots + [OrphanRoot(orphanFolders + orphanEnvs + orphanProjects)];
    }
    dropped := 0;
  }
}
