/** The user listing of internal/store/postgres/rbac.go: caller_manage_scopes, visible_scopes, visible_users. */
module VisibleScopes {
  import opened Wrappers
  import opened Text
  import opened Tables
  import opened Rbac
  import opened Narrowing

  const MANAGE := "rbac:role:manage"

  /** caller_manage_scopes. Unlike the permission queries, it does not look at the caller's account. */
  predicate Manages(r: Rbac, now: Time, callerId: Id, b: Id) {
    && b in r.bindings && r.bindings[b].userId == callerId && !r.bindings[b].isDeleted
    && (r.bindings[b].expiresAt.Some? ==> now < r.bindings[b].expiresAt.value)
    && r.bindings[b].roleId in r.roles && !r.roles[r.bindings[b].roleId].isDeleted
    && MANAGE in r.permissions && MANAGE in r.roles[r.bindings[b].roleId].permissions
  }

  function ManageScopes(r: Rbac, now: Time, callerId: Id): set<ReadScope> {
    set b | b in r.bindings && Manages(r, now, callerId, b) :: ReadScope(r.bindings[b].kind, r.bindings[b].scopeId)
  }

  /** The scopes the caller manages from: those of the rows that give it "rbac:role:manage", whether or not its account
      is enabled. */
  lemma {:induction false} ManageScopesMean(r: Rbac, now: Time, callerId: Id, s: ReadScope)
    ensures s in ManageScopes(r, now, callerId) <==>
            exists b :: b in r.bindings && Gives(r, now, r.bindings[b], callerId, "rbac:role:manage")
                        && s == ReadScope(r.bindings[b].kind, r.bindings[b].scopeId)
  {
    forall b | b in r.bindings
      ensures Manages(r, now, callerId, b) <==> Gives(r, now, r.bindings[b], callerId, "rbac:role:manage")
    {
    }
  }

  /** The seven branches of visible_scopes. */
  function Flat(t: Tables, cms: set<ReadScope>): set<ReadScope> {
    cms
    + (set p | p in t.projects && ActiveProject(t, p) && ReadScope(Organization, Some(t.projects[p].orgId)) in cms
             :: ReadScope(Project, Some(p)))
    + (set e | e in t.environments && ActiveEnvironment(t, e) && InOrganization(t, cms, e) :: ReadScope(Environment, Some(e)))
    + (set e | e in t.environments && ActiveEnvironment(t, e) && InProject(t, cms, e) :: ReadScope(Environment, Some(e)))
    + (set f | f in t.folders && ActiveFolder(t, f) && ActiveEnvironment(t, t.folders[f].environmentId)
               && InOrganization(t, cms, t.folders[f].environmentId) :: ReadScope(Folder, Some(f)))
    + (set f | f in t.folders && ActiveFolder(t, f) && ActiveEnvironment(t, t.folders[f].environmentId)
               && InProject(t, cms, t.folders[f].environmentId) :: ReadScope(Folder, Some(f)))
    + (set f | f in t.folders && ActiveFolder(t, f) && ReadScope(Environment, Some(t.folders[f].environmentId)) in cms
             :: ReadScope(Folder, Some(f)))
  }

  predicate InOrganization(t: Tables, cms: set<ReadScope>, e: Id)
    requires e in t.environments
  {
    var p := t.environments[e].projectId;
    ActiveProject(t, p) && ReadScope(Organization, Some(t.projects[p].orgId)) in cms
  }

  predicate InProject(t: Tables, cms: set<ReadScope>, e: Id)
    requires e in t.environments
  {
    ReadScope(Project, Some(t.environments[e].projectId)) in cms
  }

  // ---- the flat union is the fixed point ----

  /** Closed under the edges organization to project, project to environment, environment to folder, each to an
      active child. */
  ghost predicate Closed(t: Tables, scopes: set<ReadScope>) {
    && (forall p :: ActiveProject(t, p) && ReadScope(Organization, Some(t.projects[p].orgId)) in scopes ==>
         ReadScope(Project, Some(p)) in scopes)
    && (forall e :: ActiveEnvironment(t, e) && ReadScope(Project, Some(t.environments[e].projectId)) in scopes ==>
         ReadScope(Environment, Some(e)) in scopes)
    && (forall f :: ActiveFolder(t, f) && ReadScope(Environment, Some(t.folders[f].environmentId)) in scopes ==>
         ReadScope(Folder, Some(f)) in scopes)
  }

  lemma {:induction false} FlatProject(t: Tables, cms: set<ReadScope>, p: Id)
    ensures ReadScope(Project, Some(p)) in Flat(t, cms) <==>
            || ReadScope(Project, Some(p)) in cms
            || (ActiveProject(t, p) && ReadScope(Organization, Some(t.projects[p].orgId)) in cms)
  {
  }

  lemma {:induction false} FlatEnvironment(t: Tables, cms: set<ReadScope>, e: Id)
    ensures ReadScope(Environment, Some(e)) in Flat(t, cms) <==>
            || ReadScope(Environment, Some(e)) in cms
            || (ActiveEnvironment(t, e) && ReadScope(Project, Some(t.environments[e].projectId)) in Flat(t, cms))
  {
    if e in t.environments { FlatProject(t, cms, t.environments[e].projectId); }
  }

  lemma {:induction false} FlatFolder(t: Tables, cms: set<ReadScope>, f: Id)
    ensures ReadScope(Folder, Some(f)) in Flat(t, cms) <==>
            || ReadScope(Folder, Some(f)) in cms
            || (ActiveFolder(t, f) && ReadScope(Environment, Some(t.folders[f].environmentId)) in Flat(t, cms))
  {
    if f in t.folders {
      FlatEnvironment(t, cms, t.folders[f].environmentId);
      if t.folders[f].environmentId in t.environments {
        FlatProject(t, cms, t.environments[t.folders[f].environmentId].projectId);
      }
    }
  }

  lemma {:induction false} FlatOther(t: Tables, cms: set<ReadScope>, s: ReadScope)
    requires s in Flat(t, cms) && s !in cms
    ensures s.scopeId.Some? && (s.kind == Project || s.kind == Environment || s.kind == Folder)
    ensures s.kind == Project ==> ActiveProject(t, s.scopeId.value)
    ensures s.kind == Environment ==> ActiveEnvironment(t, s.scopeId.value)
    ensures s.kind == Folder ==> ActiveFolder(t, s.scopeId.value)
  {
  }

  lemma {:induction false} FlatClosed(t: Tables, cms: set<ReadScope>)
    ensures cms <= Flat(t, cms) && Closed(t, Flat(t, cms))
  {
    forall p | ActiveProject(t, p) && ReadScope(Organization, Some(t.projects[p].orgId)) in Flat(t, cms)
      ensures ReadScope(Project, Some(p)) in Flat(t, cms)
    {
      FlatProject(t, cms, p);
    }
    forall e | ActiveEnvironment(t, e) && ReadScope(Project, Some(t.environments[e].projectId)) in Flat(t, cms)
      ensures ReadScope(Environment, Some(e)) in Flat(t, cms)
    {
      FlatEnvironment(t, cms, e);
    }
    forall f | ActiveFolder(t, f) && ReadScope(Environment, Some(t.folders[f].environmentId)) in Flat(t, cms)
      ensures ReadScope(Folder, Some(f)) in Flat(t, cms)
    {
      FlatFolder(t, cms, f);
    }
  }

  lemma {:induction false} FlatWithin(t: Tables, cms: set<ReadScope>, bigger: set<ReadScope>, s: ReadScope)
    requires cms <= bigger && Closed(t, bigger) && s in Flat(t, cms)
    ensures s in bigger
    decreases if s.kind == Folder then 2 else if s.kind == Environment then 1 else 0
  {
    if s !in cms {
      FlatOther(t, cms, s);
      var id := s.scopeId.value;
      match s.kind {
        case Project => FlatProject(t, cms, id);
        case Environment =>
          FlatEnvironment(t, cms, id);
          FlatWithin(t, cms, bigger, ReadScope(Project, Some(t.environments[id].projectId)));
        case Folder =>
          FlatFolder(t, cms, id);
          FlatWithin(t, cms, bigger, ReadScope(Environment, Some(t.folders[id].environmentId)));
      }
    }
  }

  /** The seven-branch union is the least set that holds the caller's manage scopes and is closed under the
      active edges. */
  lemma {:induction false} FlatIsLeastClosed(t: Tables, cms: set<ReadScope>)
    ensures cms <= Flat(t, cms) && Closed(t, Flat(t, cms))
    ensures forall bigger :: cms <= bigger && Closed(t, bigger) ==> Flat(t, cms) <= bigger
  {
    FlatClosed(t, cms);
    forall bigger | cms <= bigger && Closed(t, bigger)
      ensures Flat(t, cms) <= bigger
    {
      forall s | s in Flat(t, cms)
        ensures s in bigger
      {
        FlatWithin(t, cms, bigger, s);
      }
    }
  }

  // ---- against the point check ----

  /** Membership of the flat union, followed upward one parent at a time. */
  predicate Reached(t: Tables, cms: set<ReadScope>, kind: Kind, id: Id)
    decreases if kind == Folder then 2 else if kind == Environment then 1 else 0
  {
    || ReadScope(kind, Some(id)) in cms
    || match kind
       case Project => ActiveProject(t, id) && ReadScope(Organization, Some(t.projects[id].orgId)) in cms
       case Environment => ActiveEnvironment(t, id) && Reached(t, cms, Project, t.environments[id].projectId)
       case Folder => ActiveFolder(t, id) && Reached(t, cms, Environment, t.folders[id].environmentId)
       case _ => false
  }

  lemma {:induction false} FlatIsReached(t: Tables, cms: set<ReadScope>, kind: Kind, id: Id)
    ensures ReadScope(kind, Some(id)) in Flat(t, cms) <==> Reached(t, cms, kind, id)
    decreases if kind == Folder then 2 else if kind == Environment then 1 else 0
  {
    match kind {
      case Project => FlatProject(t, cms, id);
      case Environment =>
        FlatEnvironment(t, cms, id);
        if id in t.environments { FlatIsReached(t, cms, Project, t.environments[id].projectId); }
      case Folder =>
        FlatFolder(t, cms, id);
        if id in t.folders { FlatIsReached(t, cms, Environment, t.folders[id].environmentId); }
      case _ =>
        if ReadScope(kind, Some(id)) in Flat(t, cms) && ReadScope(kind, Some(id)) !in cms {
          FlatOther(t, cms, ReadScope(kind, Some(id)));
        }
    }
  }

  /** Whether the caller reaches the scope by the listing's reckoning. */
  predicate Sees(t: Tables, cms: set<ReadScope>, kind: Kind, id: Id) {
    ReadScope(Global, None) in cms || Reached(t, cms, kind, id)
  }

  predicate Enabled(r: Rbac, userId: Id) {
    userId in r.users && !r.users[userId].isDisabled
  }

  /** Some scope of the chain is among the manage scopes. */
  predicate AnyOn(cms: set<ReadScope>, chain: seq<Scope>) {
    exists s :: s in chain && OnScope(cms, s)
  }

  predicate OnScope(cms: set<ReadScope>, scope: Scope) {
    if scope.kind == Global then ReadScope(Global, None) in cms
    else ReadScope(scope.kind, Some(scope.id)) in cms
  }

  lemma {:induction false} OnScopeMeans(r: Rbac, now: Time, callerId: Id, scope: Scope)
    requires SchemaOk(r) && Enabled(r, callerId)
    ensures OnScope(ManageScopes(r, now, callerId), scope)
            <==> exists b :: Holds(r, now, callerId, b, MANAGE) && BoundAt(r.bindings[b], scope)
  {
    var cms := ManageScopes(r, now, callerId);
    forall b
      ensures Manages(r, now, callerId, b) <==> Holds(r, now, callerId, b, MANAGE)
    {
    }
    if OnScope(cms, scope) {
      var s := if scope.kind == Global then ReadScope(Global, None) else ReadScope(scope.kind, Some(scope.id));
      var b :| b in r.bindings && Manages(r, now, callerId, b) && ReadScope(r.bindings[b].kind, r.bindings[b].scopeId) == s;
      assert BoundAt(r.bindings[b], scope);
    }
    if b :| Holds(r, now, callerId, b, MANAGE) && BoundAt(r.bindings[b], scope) {
      assert ReadScope(r.bindings[b].kind, r.bindings[b].scopeId) in cms;
    }
  }

  /** The point check for the manage code, as membership of the chain's scopes among the manage scopes. */
  lemma {:induction false} PermitIsOnChain(t: Tables, r: Rbac, now: Time, callerId: Id, kind: Kind, id: Id)
    requires SchemaOk(r) && Enabled(r, callerId)
    ensures Permit(t, r, now, callerId, MANAGE, Some(kind), id).Ok? <==>
            ScopesOf(t, kind, id).Ok? && AnyOn(ManageScopes(r, now, callerId), ScopesOf(t, kind, id).value)
  {
    PermitHolds(t, r, now, callerId, MANAGE, kind, id);
    if ScopesOf(t, kind, id).Ok? {
      AnyOnMeans(r, now, callerId, ScopesOf(t, kind, id).value);
    }
  }

  lemma {:induction false} AnyOnMeans(r: Rbac, now: Time, callerId: Id, chain: seq<Scope>)
    requires SchemaOk(r) && Enabled(r, callerId)
    ensures AnyOn(ManageScopes(r, now, callerId), chain) <==>
            exists b, k :: 0 <= k < |chain| && Holds(r, now, callerId, b, MANAGE) && BoundAt(r.bindings[b], chain[k])
  {
    forall s | s in chain
      ensures OnScope(ManageScopes(r, now, callerId), s)
              <==> exists b :: Holds(r, now, callerId, b, MANAGE) && BoundAt(r.bindings[b], s)
    {
      OnScopeMeans(r, now, callerId, s);
    }
    if b, k :| 0 <= k < |chain| && Holds(r, now, callerId, b, MANAGE) && BoundAt(r.bindings[b], chain[k]) {
      assert chain[k] in chain;
      assert OnScope(ManageScopes(r, now, callerId), chain[k]);
    }
    if s :| s in chain && OnScope(ManageScopes(r, now, callerId), s) {
      var k :| 0 <= k < |chain| && chain[k] == s;
      assert exists b :: Holds(r, now, callerId, b, MANAGE) && BoundAt(r.bindings[b], chain[k]);
    }
  }

  lemma {:induction false} OrganizationChainOn(t: Tables, cms: set<ReadScope>, o: Id)
    requires o in t.orgs
    ensures AnyOn(cms, [Scope(Global, ""), Scope(Organization, o)]) <==> Sees(t, cms, Organization, o)
  {
    var chain := [Scope(Global, ""), Scope(Organization, o)];
    assert chain[0] in chain && chain[1] in chain;
  }

  lemma {:induction false} ProjectChainOn(t: Tables, cms: set<ReadScope>, p: Id)
    requires Chained(t) && ActiveProject(t, p)
    ensures AnyOn(cms, [Scope(Global, ""), Scope(Organization, t.projects[p].orgId), Scope(Project, p)])
            <==> Sees(t, cms, Project, p)
  {
    var chain := [Scope(Global, ""), Scope(Organization, t.projects[p].orgId), Scope(Project, p)];
    assert chain[0] in chain && chain[1] in chain && chain[2] in chain;
  }

  lemma {:induction false} EnvironmentChainOn(t: Tables, cms: set<ReadScope>, e: Id)
    requires Chained(t) && ActiveEnvironment(t, e)
    ensures var p := t.environments[e].projectId;
            AnyOn(cms, [Scope(Global, ""), Scope(Organization, t.projects[p].orgId), Scope(Project, p), Scope(Environment, e)])
            <==> Sees(t, cms, Environment, e)
  {
    var p := t.environments[e].projectId;
    var before := [Scope(Global, ""), Scope(Organization, t.projects[p].orgId), Scope(Project, p)];
    ProjectChainOn(t, cms, p);
    AnyOnSnoc(cms, before, Scope(Environment, e));
    assert before + [Scope(Environment, e)]
        == [Scope(Global, ""), Scope(Organization, t.projects[p].orgId), Scope(Project, p), Scope(Environment, e)];
  }

  lemma {:induction false} AnyOnSnoc(cms: set<ReadScope>, chain: seq<Scope>, last: Scope)
    ensures AnyOn(cms, chain + [last]) <==> AnyOn(cms, chain) || OnScope(cms, last)
  {
    if s :| s in chain && OnScope(cms, s) { assert s in chain + [last]; }
    assert last in chain + [last];
  }

  function EnvironmentChain(t: Tables, e: Id): seq<Scope>
    requires e in t.environments && t.environments[e].projectId in t.projects
  {
    var p := t.environments[e].projectId;
    [Scope(Global, ""), Scope(Organization, t.projects[p].orgId), Scope(Project, p), Scope(Environment, e)]
  }

  lemma {:induction false} FolderChainShape(t: Tables, f: Id)
    requires Chained(t) && ActiveFolder(t, f)
    ensures var row := t.folders[f]; var chain := EnvironmentChain(t, row.environmentId);
            FolderScopes(t, f) == Ok(if row.parentId.Some? then chain + [Scope(Folder, row.parentId.value)] + [Scope(Folder, f)]
                                     else chain + [Scope(Folder, f)])
  {
    var row := t.folders[f];
    var chain := EnvironmentChain(t, row.environmentId);
    var p := t.environments[row.environmentId].projectId;
    assert FolderScopes(t, f) == Ok(FolderChain(t, f, p));
    if row.parentId.Some? {
      assert FolderChain(t, f, p) == chain + [Scope(Folder, row.parentId.value)] + [Scope(Folder, f)];
    } else {
      assert FolderChain(t, f, p) == chain + [Scope(Folder, f)];
    }
  }

  lemma {:induction false} FolderChainOn(t: Tables, cms: set<ReadScope>, f: Id)
    requires FoldersNested(t.folders) && Chained(t) && ActiveFolder(t, f)
    ensures FolderScopes(t, f).Ok?
    ensures AnyOn(cms, FolderScopes(t, f).value) <==>
            || Sees(t, cms, Folder, f)
            || (t.folders[f].parentId.Some? && ReadScope(Folder, t.folders[f].parentId) in cms)
  {
    var e := t.folders[f].environmentId;
    var chain := EnvironmentChain(t, e);
    FolderChainShape(t, f);
    EnvironmentChainOn(t, cms, e);
    if t.folders[f].parentId.Some? {
      var parent := t.folders[f].parentId.value;
      assert Nested(t.folders, t.folders[f]);
      AnyOnSnoc(cms, chain, Scope(Folder, parent));
      AnyOnSnoc(cms, chain + [Scope(Folder, parent)], Scope(Folder, f));
    } else {
      AnyOnSnoc(cms, chain, Scope(Folder, f));
    }
  }

  /** For an enabled caller, an active organization, project or environment is in the listing's scopes exactly
      when the point check accepts the manage code on it. */
  lemma {:induction false} SeesIsPermit(t: Tables, r: Rbac, now: Time, callerId: Id, kind: Kind, id: Id)
    requires Chained(t) && SchemaOk(r) && Enabled(r, callerId)
    requires (kind == Organization && ActiveOrg(t, id)) || (kind == Project && ActiveProject(t, id))
             || (kind == Environment && ActiveEnvironment(t, id))
    ensures Sees(t, ManageScopes(r, now, callerId), kind, id) <==>
            Permit(t, r, now, callerId, MANAGE, Some(kind), id).Ok?
  {
    PermitIsOnChain(t, r, now, callerId, kind, id);
    var cms := ManageScopes(r, now, callerId);
    match kind {
      case Organization => OrganizationChainOn(t, cms, id);
      case Project => ProjectChainOn(t, cms, id);
      case Environment => EnvironmentChainOn(t, cms, id);
    }
  }

  /** For a folder the point check also honours a manage binding on the parent folder, which the listing does not
      follow down. */
  lemma {:induction false} SeesFolderIsPermit(t: Tables, r: Rbac, now: Time, callerId: Id, f: Id)
    requires Chained(t) && FoldersNested(t.folders) && SchemaOk(r) && Enabled(r, callerId)
    requires ActiveFolder(t, f)
    ensures Permit(t, r, now, callerId, MANAGE, Some(Folder), f).Ok? <==>
            || Sees(t, ManageScopes(r, now, callerId), Folder, f)
            || (t.folders[f].parentId.Some? && ReadScope(Folder, t.folders[f].parentId) in ManageScopes(r, now, callerId))
  {
    PermitIsOnChain(t, r, now, callerId, Folder, f);
    FolderChainOn(t, ManageScopes(r, now, callerId), f);
  }

  // ---- the users listed ----

  /** visible_users. Expired bindings of the listed user count; only deleted ones do not. */
  predicate VisibleUser(t: Tables, r: Rbac, now: Time, callerId: Id, u: Id) {
    var cms := ManageScopes(r, now, callerId);
    u in r.users &&
    (|| (exists s :: s in cms && s.kind == Global)
     || (exists b :: b in r.bindings && r.bindings[b].userId == u && !r.bindings[b].isDeleted
                     && (exists s :: s in Flat(t, cms) && Covers(s, r.bindings[b])))
     || u == callerId)
  }

  predicate Covers(s: ReadScope, b: Binding) {
    || (s.kind == Global && b.kind == Global && b.scopeId.None?)
    || (b.kind == s.kind && s.scopeId.Some? && b.scopeId == s.scopeId)
  }

  /** The binding sits on one of the listing's scopes. */
  predicate Listed(t: Tables, cms: set<ReadScope>, b: Binding) {
    if b.kind == Global then ReadScope(Global, None) in cms
    else b.scopeId.Some? && Reached(t, cms, b.kind, b.scopeId.value)
  }

  lemma {:induction false} CoveredIsListed(t: Tables, cms: set<ReadScope>, b: Binding)
    requires BindingScopeOk(b) && forall s :: s in cms && s.kind == Global ==> s == ReadScope(Global, None)
    ensures (exists s :: s in Flat(t, cms) && Covers(s, b)) <==> Listed(t, cms, b)
  {
    if b.kind == Global {
      if s :| s in Flat(t, cms) && Covers(s, b) && s !in cms { FlatOther(t, cms, s); }
      assert ReadScope(Global, None) in cms ==> ReadScope(Global, None) in Flat(t, cms);
    } else {
      FlatIsReached(t, cms, b.kind, b.scopeId.value);
      assert forall s :: Covers(s, b) ==> s == ReadScope(b.kind, b.scopeId);
      assert Covers(ReadScope(b.kind, b.scopeId), b);
    }
  }

  predicate BoundOn(r: Rbac, u: Id, b: Id) {
    b in r.bindings && r.bindings[b].userId == u && !r.bindings[b].isDeleted
  }

  /** A caller is listed, beside itself, exactly the users bound, not necessarily still in force, somewhere it
      manages; every user if it manages globally. */
  lemma {:induction false} VisibleUserMeans(t: Tables, r: Rbac, now: Time, callerId: Id, u: Id)
    requires SchemaOk(r)
    ensures var cms := ManageScopes(r, now, callerId);
            VisibleUser(t, r, now, callerId, u) <==>
            && u in r.users
            && (|| u == callerId
                || ReadScope(Global, None) in cms
                || (exists b :: BoundOn(r, u, b) && Listed(t, cms, r.bindings[b])))
  {
    var cms := ManageScopes(r, now, callerId);
    assert forall s :: s in cms && s.kind == Global ==> s == ReadScope(Global, None);
    forall b | b in r.bindings
      ensures (exists s :: s in Flat(t, cms) && Covers(s, r.bindings[b])) <==> Listed(t, cms, r.bindings[b])
    {
      CoveredIsListed(t, cms, r.bindings[b]);
    }
  }
}
