/** buildTree keeps the order of its inputs: at every level of the forest and in the orphan bucket. */
module TreeOrder {
  import opened TreeAssembly

  // ---- subsequences ----

  /** xs is what is left of ys when some entries are dropped. */
  predicate Sub(xs: seq<Id>, ys: seq<Id>) {
    xs == [] || (ys != [] && (|| Sub(xs, ys[..|ys| - 1])
                              || (xs[|xs| - 1] == ys[|ys| - 1] && Sub(xs[..|xs| - 1], ys[..|ys| - 1]))))
  }

  lemma {:induction false} SubSkip(xs: seq<Id>, ys: seq<Id>, y: Id)
    requires Sub(xs, ys)
    ensures Sub(xs, ys + [y])
  {
    assert (ys + [y])[..|ys|] == ys;
  }

  lemma {:induction false} SubTake(xs: seq<Id>, ys: seq<Id>, y: Id)
    requires Sub(xs, ys)
    ensures Sub(xs + [y], ys + [y])
  {
    assert (ys + [y])[..|ys|] == ys && (xs + [y])[..|xs|] == xs;
  }

  lemma {:induction false} SubSelf(xs: seq<Id>)
    ensures Sub(xs, xs)
  {
    if xs != [] {
      SubSelf(xs[..|xs| - 1]);
      SubTake(xs[..|xs| - 1], xs[..|xs| - 1], xs[|xs| - 1]);
      assert xs == xs[..|xs| - 1] + [xs[|xs| - 1]];
    }
  }

  lemma {:induction false} SubTransitive(xs: seq<Id>, ys: seq<Id>, zs: seq<Id>)
    requires Sub(xs, ys) && Sub(ys, zs)
    ensures Sub(xs, zs)
    decreases |zs|
  {
    if xs != [] {
      var zs' := zs[..|zs| - 1];
      if Sub(ys, zs') {
        SubTransitive(xs, ys, zs');
      } else if Sub(xs, ys[..|ys| - 1]) {
        SubTransitive(xs, ys[..|ys| - 1], zs');
      } else {
        SubTransitive(xs[..|xs| - 1], ys[..|ys| - 1], zs');
      }
    }
  }

  lemma {:induction false} SubConcat(xs: seq<Id>, ys: seq<Id>, us: seq<Id>, vs: seq<Id>)
    requires Sub(xs, ys) && Sub(us, vs)
    ensures Sub(xs + us, ys + vs)
    decreases |vs|
  {
    if us == [] && vs == [] {
      assert xs + us == xs && ys + vs == ys;
    } else {
      var vs', v := vs[..|vs| - 1], vs[|vs| - 1];
      assert ys + vs == (ys + vs') + [v];
      if Sub(us, vs') {
        SubConcat(xs, ys, us, vs');
        SubSkip(xs + us, ys + vs', v);
      } else {
        SubConcat(xs, ys, us[..|us| - 1], vs');
        SubTake(xs + us[..|us| - 1], ys + vs', v);
        assert xs + us == (xs + us[..|us| - 1]) + [v];
      }
    }
  }

  // ---- the inputs ----

  function EntityIds(entities: seq<Entity>): (ids: seq<Id>)
    ensures |ids| == |entities| && forall k :: 0 <= k < |entities| ==> ids[k] == entities[k].id
  {
    seq(|entities|, k requires 0 <= k < |entities| => entities[k].id)
  }

  function EntryIds(folders: seq<FolderEntry>): (ids: seq<Id>)
    ensures |ids| == |folders| && forall k :: 0 <= k < |folders| ==> ids[k] == folders[k].id
  {
    seq(|folders|, k requires 0 <= k < |folders| => folders[k].id)
  }

  /** The input lists as ids, in order. */
  datatype Lists = Lists(projects: seq<Id>, envs: seq<Id>, folders: seq<Id>)

  /** The list a node's children come from. */
  function Below(ty: NodeType, lists: Lists): seq<Id> {
    match ty
    case OrganizationNode => lists.projects
    case ProjectNode => lists.envs
    case EnvironmentNode => lists.folders
    case FolderNode => lists.folders
  }

  /** At every level under n, children come in the order of their input list. */
  predicate InOrder(n: TreeNode, lists: Lists)
    decreases n
  {
    && Sub(NodeIds(n.children), Below(n.ty, lists))
    && forall k :: 0 <= k < |n.children| ==> InOrder(n.children[k], lists)
  }

  ghost predicate AllInOrder(trees: seq<TreeNode>, lists: Lists) {
    forall k :: 0 <= k < |trees| ==> InOrder(trees[k], lists)
  }

  // ---- mounting keeps order ----

  lemma {:induction false} ExtendedInOrder(nodes: seq<TreeNode>, n: TreeNode, added: bool, ids: seq<Id>)
    requires Sub(NodeIds(nodes), ids)
    ensures Sub(NodeIds(Extended(nodes, n, added)), ids + [n.id])
  {
    SubSkip(NodeIds(nodes), ids, n.id);
    SubTake(NodeIds(nodes), ids, n.id);
    NodeIdsSnoc(nodes, n);
  }

  lemma {:induction false} KidsInOrder(nodes: seq<TreeNode>, id: Id)
    ensures Sub(NodeIds(Kids(nodes, id)), NodeIds(nodes))
  {
    if nodes != [] {
      var before, n := nodes[..|nodes| - 1], nodes[|nodes| - 1];
      KidsInOrder(before, id);
      ExtendedInOrder(Kids(before, id), n, n.parentId == id, NodeIds(before));
      assert NodeIds(nodes) == NodeIds(before) + [n.id];
    }
  }

  lemma {:induction false} StraysInOrder(nodes: seq<TreeNode>, parents: set<Id>)
    ensures Sub(NodeIds(Strays(nodes, parents)), NodeIds(nodes))
  {
    if nodes != [] {
      var before, n := nodes[..|nodes| - 1], nodes[|nodes| - 1];
      StraysInOrder(before, parents);
      ExtendedInOrder(Strays(before, parents), n, n.parentId !in parents, NodeIds(before));
      assert NodeIds(nodes) == NodeIds(before) + [n.id];
    }
  }

  lemma {:induction false} ExtendedAll(nodes: seq<TreeNode>, n: TreeNode, added: bool, lists: Lists)
    requires AllInOrder(nodes, lists) && InOrder(n, lists)
    ensures AllInOrder(Extended(nodes, n, added), lists)
  {
  }

  lemma {:induction false} KidsAll(nodes: seq<TreeNode>, id: Id, lists: Lists)
    requires AllInOrder(nodes, lists)
    ensures AllInOrder(Kids(nodes, id), lists)
  {
    if nodes != [] {
      KidsAll(nodes[..|nodes| - 1], id, lists);
      ExtendedAll(Kids(nodes[..|nodes| - 1], id), nodes[|nodes| - 1], nodes[|nodes| - 1].parentId == id, lists);
    }
  }

  lemma {:induction false} StraysAll(nodes: seq<TreeNode>, parents: set<Id>, lists: Lists)
    requires AllInOrder(nodes, lists)
    ensures AllInOrder(Strays(nodes, parents), lists)
  {
    if nodes != [] {
      var before, n := nodes[..|nodes| - 1], nodes[|nodes| - 1];
      StraysAll(before, parents, lists);
      ExtendedAll(Strays(before, parents), n, n.parentId !in parents, lists);
    }
  }

  lemma {:induction false} MountedAll(bases: seq<TreeNode>, nodes: seq<TreeNode>, ty: NodeType, lists: Lists)
    requires AllInOrder(nodes, lists) && Sub(NodeIds(nodes), Below(ty, lists))
    requires forall k :: 0 <= k < |bases| ==> bases[k].ty == ty
    ensures AllInOrder(Mounted(bases, nodes), lists)
  {
    forall k | 0 <= k < |bases|
      ensures InOrder(Mounted(bases, nodes)[k], lists)
    {
      KidsInOrder(nodes, bases[k].id);
      SubTransitive(NodeIds(Kids(nodes, bases[k].id)), NodeIds(nodes), Below(ty, lists));
      KidsAll(nodes, bases[k].id, lists);
    }
  }

  // ---- folders ----

  lemma {:induction false} EntryIdsNext(folders: seq<FolderEntry>, t: nat)
    requires t < |folders|
    ensures EntryIds(folders)[..t + 1] == EntryIds(folders)[..t] + [folders[t].id]
  {
  }

  lemma {:induction false} PrefixSub(ids: seq<Id>, t: nat)
    requires t <= |ids|
    ensures Sub(ids[..t], ids)
    decreases |ids|
  {
    if t == |ids| {
      SubSelf(ids);
      assert ids[..t] == ids;
    } else {
      PrefixSub(ids[..|ids| - 1], t);
      assert ids[..|ids| - 1][..t] == ids[..t];
    }
  }

  lemma {:induction false} KidsAtInOrder(folders: seq<FolderEntry>, id: Id, t: nat, lists: Lists)
    requires t <= |folders| && lists.folders == EntryIds(folders)
    ensures Sub(NodeIds(KidsAt(folders, id, t)), EntryIds(folders)[..t])
    ensures AllInOrder(KidsAt(folders, id, t), lists)
    decreases t, 0
  {
    if t > 0 {
      var f := folders[t - 1];
      KidsAtInOrder(folders, id, t - 1, lists);
      NodeAtInOrder(folders, t - 1, t - 1, lists);
      KidsNext(folders, id, t - 1);
      EntryIdsNext(folders, t - 1);
      ExtendedInOrder(KidsAt(folders, id, t - 1), NodeAt(folders, t - 1, t - 1), f.level != 1 && f.parentId == id,
                      EntryIds(folders)[..t - 1]);
      ExtendedAll(KidsAt(folders, id, t - 1), NodeAt(folders, t - 1, t - 1), f.level != 1 && f.parentId == id, lists);
    }
  }

  lemma {:induction false} NodeAtInOrder(folders: seq<FolderEntry>, j: nat, t: nat, lists: Lists)
    requires j < |folders| && t <= |folders| && lists.folders == EntryIds(folders)
    ensures InOrder(NodeAt(folders, j, t), lists)
    decreases t, 1
  {
    KidsAtInOrder(folders, folders[j].id, t, lists);
    PrefixSub(EntryIds(folders), t);
    SubTransitive(NodeIds(KidsAt(folders, folders[j].id, t)), EntryIds(folders)[..t], EntryIds(folders));
  }

  lemma {:induction false} CopiedInOrder(folders: seq<FolderEntry>, envIds: set<Id>, t: nat, lists: Lists)
    requires t <= |folders| && lists.folders == EntryIds(folders)
    ensures Sub(NodeIds(Copied(folders, envIds, t)), EntryIds(folders)[..t])
    ensures AllInOrder(Copied(folders, envIds, t), lists)
  {
    if t > 0 {
      CopiedInOrder(folders, envIds, t - 1, lists);
      NodeAtInOrder(folders, t - 1, t - 1, lists);
      EntryIdsNext(folders, t - 1);
      var before, n := Copied(folders, envIds, t - 1), NodeAt(folders, t - 1, t - 1);
      var added := CopiedNext(folders, envIds, t - 1);
      ExtendedInOrder(before, n, added, EntryIds(folders)[..t - 1]);
      ExtendedAll(before, n, added, lists);
    }
  }

  lemma {:induction false} OrphanFoldersInOrder(folders: seq<FolderEntry>, envIds: set<Id>, t: nat, lists: Lists)
    requires t <= |folders| && lists.folders == EntryIds(folders)
    ensures Sub(NodeIds(OrphanFolders(folders, envIds, t)), EntryIds(folders)[..t])
    ensures AllInOrder(OrphanFolders(folders, envIds, t), lists)
  {
    if t > 0 {
      OrphanFoldersInOrder(folders, envIds, t - 1, lists);
      NodeAtInOrder(folders, t - 1, |folders|, lists);
      EntryIdsNext(folders, t - 1);
      var before, n := OrphanFolders(folders, envIds, t - 1), NodeAt(folders, t - 1, |folders|);
      ExtendedInOrder(before, n, IsOrphan(folders, envIds, t - 1), EntryIds(folders)[..t - 1]);
      ExtendedAll(before, n, IsOrphan(folders, envIds, t - 1), lists);
    }
  }

  // ---- the forest ----

  function ListsOf(projects: seq<Entity>, envs: seq<Entity>, folders: seq<FolderEntry>): Lists {
    Lists(EntityIds(projects), EntityIds(envs), EntryIds(folders))
  }

  lemma {:induction false} LevelsInOrder(projects: seq<Entity>, envs: seq<Entity>, folders: seq<FolderEntry>)
    ensures var lists := ListsOf(projects, envs, folders);
            && AllInOrder(EnvTrees(envs, folders), lists) && AllInOrder(ProjectTrees(projects, envs, folders), lists)
            && NodeIds(EnvTrees(envs, folders)) == lists.envs
            && NodeIds(ProjectTrees(projects, envs, folders)) == lists.projects
  {
    var lists := ListsOf(projects, envs, folders);
    CopiedInOrder(folders, Ids(envs), |folders|, lists);
    assert EntryIds(folders)[..|folders|] == EntryIds(folders);
    MountedAll(Bases(envs, EnvironmentNode), Copied(folders, Ids(envs), |folders|), EnvironmentNode, lists);
    assert NodeIds(EnvTrees(envs, folders)) == lists.envs;
    SubSelf(lists.envs);
    MountedAll(Bases(projects, ProjectNode), EnvTrees(envs, folders), ProjectNode, lists);
    assert NodeIds(ProjectTrees(projects, envs, folders)) == lists.projects;
  }

  /** The roots are the organizations in input order, and at every level below, children come in input order. */
  lemma {:induction false} RootsAndChildrenInOrder(orgs: seq<Entity>, projects: seq<Entity>, envs: seq<Entity>,
                                                   folders: seq<FolderEntry>)
    ensures NodeIds(OrgTrees(orgs, projects, envs, folders)) == EntityIds(orgs)
    ensures AllInOrder(OrgTrees(orgs, projects, envs, folders), ListsOf(projects, envs, folders))
  {
    var lists := ListsOf(projects, envs, folders);
    LevelsInOrder(projects, envs, folders);
    SubSelf(lists.projects);
    MountedAll(Bases(orgs, OrganizationNode), ProjectTrees(projects, envs, folders), OrganizationNode, lists);
  }

  lemma {:induction false} NodeIdsConcat(a: seq<TreeNode>, b: seq<TreeNode>)
    ensures NodeIds(a + b) == NodeIds(a) + NodeIds(b)
  {
  }

  lemma {:induction false} JoinInOrder(a: seq<TreeNode>, b: seq<TreeNode>, xs: seq<Id>, ys: seq<Id>, lists: Lists)
    requires Sub(NodeIds(a), xs) && Sub(NodeIds(b), ys) && AllInOrder(a, lists) && AllInOrder(b, lists)
    ensures Sub(NodeIds(a + b), xs + ys) && AllInOrder(a + b, lists)
  {
    SubConcat(NodeIds(a), xs, NodeIds(b), ys);
    NodeIdsConcat(a, b);
  }

  /** The orphan bucket holds folders, then environments, then projects, each in input order. */
  lemma {:induction false} OrphansInOrder(orgs: seq<Entity>, projects: seq<Entity>, envs: seq<Entity>,
                                          folders: seq<FolderEntry>)
    ensures Sub(NodeIds(Orphans(orgs, projects, envs, folders)),
                EntryIds(folders) + EntityIds(envs) + EntityIds(projects))
    ensures AllInOrder(Orphans(orgs, projects, envs, folders), ListsOf(projects, envs, folders))
  {
    var lists := ListsOf(projects, envs, folders);
    LevelsInOrder(projects, envs, folders);
    var fs := OrphanFolders(folders, Ids(envs), |folders|);
    var es := Strays(EnvTrees(envs, folders), Ids(projects));
    var ps := Strays(ProjectTrees(projects, envs, folders), Ids(orgs));
    OrphanFoldersInOrder(folders, Ids(envs), |folders|, lists);
    assert lists.folders[..|folders|] == lists.folders;
    StraysInOrder(EnvTrees(envs, folders), Ids(projects));
    StraysInOrder(ProjectTrees(projects, envs, folders), Ids(orgs));
    StraysAll(EnvTrees(envs, folders), Ids(projects), lists);
    StraysAll(ProjectTrees(projects, envs, folders), Ids(orgs), lists);
    JoinInOrder(fs, es, lists.folders, lists.envs, lists);
    JoinInOrder(fs + es, ps, lists.folders + lists.envs, lists.projects, lists);
  }
}
