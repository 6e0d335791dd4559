/** Every node buildTree shows carries its own row's data, sits one level under its kind of parent, and the orphan root is
    there exactly when it is asked for and needed. */
module TreeData {
  import opened TreeAssembly

  datatype Rows = Rows(orgs: seq<Entity>, projects: seq<Entity>, envs: seq<Entity>, folders: seq<FolderEntry>)

  /** The node shows a row of its kind: id, code, level and the parent it hangs under. */
  ghost predicate ShowsRow(n: TreeNode, rows: Rows) {
    match n.ty
    case OrganizationNode =>
      exists k :: 0 <= k < |rows.orgs| && n.id == rows.orgs[k].id && n.code == rows.orgs[k].code && n.parentId == ""
                  && n.level == 0
    case ProjectNode =>
      exists k :: 0 <= k < |rows.projects| && n.id == rows.projects[k].id && n.code == rows.projects[k].code
                  && n.parentId == rows.projects[k].parentId && n.level == 0
    case EnvironmentNode =>
      exists k :: 0 <= k < |rows.envs| && n.id == rows.envs[k].id && n.code == rows.envs[k].code
                  && n.parentId == rows.envs[k].parentId && n.level == 0
    case FolderNode =>
      exists k :: 0 <= k < |rows.folders| && n.id == rows.folders[k].id && n.code == rows.folders[k].code
                  && n.level == rows.folders[k].level
                  && n.parentId == (if n.level == 1 then rows.folders[k].environmentId else rows.folders[k].parentId)
  }

  /** What may hang under a node of a kind. */
  ghost predicate MayHold(parent: NodeType, child: NodeType) {
    match parent
    case OrganizationNode => child == ProjectNode
    case ProjectNode => child == EnvironmentNode
    case EnvironmentNode => child == FolderNode
    case FolderNode => child == FolderNode
  }

  /** The node and everything below it. */
  ghost predicate Genuine(n: TreeNode, rows: Rows)
    decreases n
  {
    && ShowsRow(n, rows)
    && forall k :: 0 <= k < |n.children| ==> MayHold(n.ty, n.children[k].ty) && Genuine(n.children[k], rows)
  }

  ghost predicate AllGenuine(trees: seq<TreeNode>, ty: NodeType, rows: Rows) {
    forall k :: 0 <= k < |trees| ==> trees[k].ty == ty && Genuine(trees[k], rows)
  }

  lemma {:induction false} KidsGenuine(nodes: seq<TreeNode>, id: Id, ty: NodeType, rows: Rows)
    requires AllGenuine(nodes, ty, rows)
    ensures AllGenuine(Kids(nodes, id), ty, rows)
  {
    if nodes != [] { KidsGenuine(nodes[..|nodes| - 1], id, ty, rows); }
  }

  lemma {:induction false} StraysGenuine(nodes: seq<TreeNode>, parents: set<Id>, ty: NodeType, rows: Rows)
    requires AllGenuine(nodes, ty, rows)
    ensures AllGenuine(Strays(nodes, parents), ty, rows)
  {
    if nodes != [] { StraysGenuine(nodes[..|nodes| - 1], parents, ty, rows); }
  }

  lemma {:induction false} MountedGenuine(bases: seq<TreeNode>, nodes: seq<TreeNode>, ty: NodeType, child: NodeType,
                                          rows: Rows)
    requires AllGenuine(nodes, child, rows) && MayHold(ty, child)
    requires forall k :: 0 <= k < |bases| ==> bases[k].ty == ty && ShowsRow(bases[k], rows)
    ensures AllGenuine(Mounted(bases, nodes), ty, rows)
  {
    forall k | 0 <= k < |bases|
      ensures Genuine(Mounted(bases, nodes)[k], rows)
    {
      KidsGenuine(nodes, bases[k].id, child, rows);
      var n := Mounted(bases, nodes)[k];
      assert ShowsRow(n, rows);
    }
  }

  lemma {:induction false} KidsAtGenuine(rows: Rows, id: Id, t: nat)
    requires t <= |rows.folders|
    ensures AllGenuine(KidsAt(rows.folders, id, t), FolderNode, rows)
    decreases t, 0
  {
    if t > 0 {
      KidsAtGenuine(rows, id, t - 1);
      NodeAtGenuine(rows, t - 1, t - 1);
      KidsNext(rows.folders, id, t - 1);
    }
  }

  lemma {:induction false} NodeAtGenuine(rows: Rows, j: nat, t: nat)
    requires j < |rows.folders| && t <= |rows.folders|
    ensures NodeAt(rows.folders, j, t).ty == FolderNode && Genuine(NodeAt(rows.folders, j, t), rows)
    decreases t, 1
  {
    KidsAtGenuine(rows, rows.folders[j].id, t);
    var n := NodeAt(rows.folders, j, t);
    assert n.id == rows.folders[j].id && n.code == rows.folders[j].code && n.level == rows.folders[j].level;
    assert ShowsRow(n, rows);
  }

  lemma {:induction false} CopiedGenuine(rows: Rows, envIds: set<Id>, t: nat)
    requires t <= |rows.folders|
    ensures AllGenuine(Copied(rows.folders, envIds, t), FolderNode, rows)
  {
    if t > 0 {
      CopiedGenuine(rows, envIds, t - 1);
      NodeAtGenuine(rows, t - 1, t - 1);
    }
  }

  lemma {:induction false} OrphanFoldersGenuine(rows: Rows, envIds: set<Id>, t: nat)
    requires t <= |rows.folders|
    ensures AllGenuine(OrphanFolders(rows.folders, envIds, t), FolderNode, rows)
  {
    if t > 0 {
      OrphanFoldersGenuine(rows, envIds, t - 1);
      NodeAtGenuine(rows, t - 1, |rows.folders|);
    }
  }

  lemma {:induction false} BasesShow(rows: Rows)
    ensures forall k :: 0 <= k < |rows.orgs| ==> ShowsRow(NodeOf(rows.orgs[k], OrganizationNode), rows)
    ensures forall k :: 0 <= k < |rows.projects| ==> ShowsRow(NodeOf(rows.projects[k], ProjectNode), rows)
    ensures forall k :: 0 <= k < |rows.envs| ==> ShowsRow(NodeOf(rows.envs[k], EnvironmentNode), rows)
  {
    forall k | 0 <= k < |rows.orgs|
      ensures ShowsRow(NodeOf(rows.orgs[k], OrganizationNode), rows)
    {
      assert NodeOf(rows.orgs[k], OrganizationNode).id == rows.orgs[k].id;
    }
    forall k | 0 <= k < |rows.projects|
      ensures ShowsRow(NodeOf(rows.projects[k], ProjectNode), rows)
    {
      assert NodeOf(rows.projects[k], ProjectNode).id == rows.projects[k].id;
    }
    forall k | 0 <= k < |rows.envs|
      ensures ShowsRow(NodeOf(rows.envs[k], EnvironmentNode), rows)
    {
      assert NodeOf(rows.envs[k], EnvironmentNode).id == rows.envs[k].id;
    }
  }

  lemma {:induction false} LevelsGenuine(rows: Rows)
    ensures AllGenuine(EnvTrees(rows.envs, rows.folders), EnvironmentNode, rows)
    ensures AllGenuine(ProjectTrees(rows.projects, rows.envs, rows.folders), ProjectNode, rows)
    ensures AllGenuine(OrgTrees(rows.orgs, rows.projects, rows.envs, rows.folders), OrganizationNode, rows)
  {
    BasesShow(rows);
    CopiedGenuine(rows, Ids(rows.envs), |rows.folders|);
    MountedGenuine(Bases(rows.envs, EnvironmentNode), Copied(rows.folders, Ids(rows.envs), |rows.folders|),
                   EnvironmentNode, FolderNode, rows);
    MountedGenuine(Bases(rows.projects, ProjectNode), EnvTrees(rows.envs, rows.folders), ProjectNode, EnvironmentNode,
                   rows);
    MountedGenuine(Bases(rows.orgs, OrganizationNode), ProjectTrees(rows.projects, rows.envs, rows.folders),
                   OrganizationNode, ProjectNode, rows);
  }

  /** The roots are organizations, and every node of the forest and of the orphan bucket shows its row and holds only
      nodes of the kind that belongs under it. */
  lemma {:induction false} EveryNodeGenuine(rows: Rows)
    ensures AllGenuine(OrgTrees(rows.orgs, rows.projects, rows.envs, rows.folders), OrganizationNode, rows)
    ensures forall n :: n in Orphans(rows.orgs, rows.projects, rows.envs, rows.folders) ==> Genuine(n, rows)
  {
    LevelsGenuine(rows);
    OrphanFoldersGenuine(rows, Ids(rows.envs), |rows.folders|);
    StraysGenuine(EnvTrees(rows.envs, rows.folders), Ids(rows.projects), EnvironmentNode, rows);
    StraysGenuine(ProjectTrees(rows.projects, rows.envs, rows.folders), Ids(rows.orgs), ProjectNode, rows);
  }

  /** Without orphans, or when they are not asked for, the forest is the organizations' trees; otherwise one more root
      follows, marked as the orphans' and holding all of them. */
  lemma {:induction false} OrphanRootLast(rows: Rows, includeOrphans: bool)
    ensures var trees := OrgTrees(rows.orgs, rows.projects, rows.envs, rows.folders);
            var orphans := Orphans(rows.orgs, rows.projects, rows.envs, rows.folders);
            var forest := Tree(rows.orgs, rows.projects, rows.envs, rows.folders, includeOrphans);
            if includeOrphans && orphans != [] then
              && |forest| == |trees| + 1 && forest[..|trees|] == trees
              && forest[|trees|].id == "__orphans__" && forest[|trees|].code == "__orphans__"
              && forest[|trees|].ty == FolderNode && forest[|trees|].children == orphans
            else forest == trees
  {
  }
}
