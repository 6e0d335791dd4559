/** "The caller must cover the role": checkCallerParentCoverage of internal/service/rbac_service.go over the scope
    chains of internal/store/postgres/rbac.go. */
module ParentCoverage {
  import opened Wrappers
  import opened Text
  import opened Tables
  import opened Rbac
  import opened Coverage

  // ---- coverage by the caller ----

  function Actions(codes: set<string>): set<string> {
    set c | c in codes && ActionOf(c) != "" :: ActionOf(c)
  }

  /** What holding the codes lets someone do. */
  function Doable(codes: set<string>): set<string> {
    Expanded(Actions(codes))
  }

  predicate CoveredBy(codes: set<string>, owned: set<string>) {
    forall c :: c in codes ==> ActionOf(c) != "" && ActionOf(c) in Doable(owned)
  }

  /** callerCoversAtScope, through EffectivePermissions at that scope. */
  function CoversAt(t: Tables, r: Rbac, now: Time, caller: Id, codes: set<string>, scope: Scope): Result<bool> {
    if codes == {} then Ok(true)
    else
      match ScopesOf(t, scope.kind, scope.id)
      case Err(e) => Err(e)
      case Ok(scopes) => Ok(CoveredBy(codes, UserPermissions(r, now, caller, scopes)))
  }

  /** The loop of checkCallerParentCoverage on the answers for each scope: the first that covers decides, an error
      ends it. */
  function Verdict(answers: seq<Result<bool>>): Result<()> {
    if answers == [] then Err(ErrPermissionDenied)
    else
      match answers[0]
      case Err(e) => Err(e)
      case Ok(covers) => if covers then Ok(()) else Verdict(answers[1..])
  }

  function Answers(t: Tables, r: Rbac, now: Time, caller: Id, codes: set<string>,
                   chain: seq<Scope>): (answers: seq<Result<bool>>)
    ensures |answers| == |chain|
    ensures forall k :: 0 <= k < |chain| ==> answers[k] == CoversAt(t, r, now, caller, codes, chain[k])
  {
    seq(|chain|, k requires 0 <= k < |chain| => CoversAt(t, r, now, caller, codes, chain[k]))
  }

  function Walk(t: Tables, r: Rbac, now: Time, caller: Id, codes: set<string>, chain: seq<Scope>): Result<()> {
    Verdict(Answers(t, r, now, caller, codes, chain))
  }

  function CheckCallerParentCoverage(t: Tables, r: Rbac, now: Time, caller: Id, codes: set<string>,
                                     scopeType: string, scopeId: string): Result<()>
  {
    if codes == {} then Ok(())
    else if TrimSpace(scopeType) == "" then Err(ErrOther)
    else
      match ResourceScopes(t, TrimSpace(scopeType), scopeId)
      case Err(e) => Err(e)
      case Ok(chain) => Walk(t, r, now, caller, codes, chain)
  }

  /** What covering a code takes, spelled out: every code has an action, and some owned code has that action, or updates
      where it reads, or manages what it reads. */
  lemma {:induction false} CoveredRule(codes: set<string>, owned: set<string>)
    ensures CoveredBy(codes, owned) <==>
            forall c :: c in codes ==>
              var a := ActionOf(c);
              a != "" && (|| (exists o :: o in owned && ActionOf(o) == a)
                          || (a == "read" && exists o :: o in owned && ActionOf(o) == "update")
                          || (|a| >= 5 && a[|a| - 5..] == ":read"
                              && exists o :: o in owned && ActionOf(o) == a[..|a| - 5] + ":manage"))
  {
    forall c | c in codes
      ensures ActionOf(c) in Doable(owned) && ActionOf(c) != "" <==>
              var a := ActionOf(c);
              a != "" && (|| (exists o :: o in owned && ActionOf(o) == a)
                          || (a == "read" && exists o :: o in owned && ActionOf(o) == "update")
                          || (|a| >= 5 && a[|a| - 5..] == ":read"
                              && exists o :: o in owned && ActionOf(o) == a[..|a| - 5] + ":manage"))
    {
      ExpandedRule(Actions(owned), ActionOf(c));
    }
  }

  /** When the check passes: nothing is asked for, or, walking the chain from the top without an error, some scope is
      met where the permissions the caller has there cover all of it. */
  lemma {:induction false} CoverageMeans(t: Tables, r: Rbac, now: Time, caller: Id, codes: set<string>,
                                         scopeType: string, scopeId: string)
    ensures CheckCallerParentCoverage(t, r, now, caller, codes, scopeType, scopeId).Ok? <==>
            codes == {}
            || (TrimSpace(scopeType) != "" && ResourceScopes(t, TrimSpace(scopeType), scopeId).Ok?
                && CoveredOn(t, r, now, caller, codes, ResourceScopes(t, TrimSpace(scopeType), scopeId).value))
  {
    if codes != {} && TrimSpace(scopeType) != "" && ResourceScopes(t, TrimSpace(scopeType), scopeId).Ok? {
      WalkMeans(t, r, now, caller, codes, ResourceScopes(t, TrimSpace(scopeType), scopeId).value);
    }
  }

  /** From the top of the chain on every scope is known, up to one where what the caller has there covers the codes. */
  ghost predicate CoveredOn(t: Tables, r: Rbac, now: Time, caller: Id, codes: set<string>, chain: seq<Scope>) {
    exists k :: && 0 <= k < |chain|
                && (forall j :: 0 <= j <= k ==> ScopesOf(t, chain[j].kind, chain[j].id).Ok?)
                && CoveredBy(codes, UserPermissions(r, now, caller, ScopesOf(t, chain[k].kind, chain[k].id).value))
  }

  lemma {:induction false} CoversAtMeans(t: Tables, r: Rbac, now: Time, caller: Id, codes: set<string>, s: Scope)
    requires codes != {}
    ensures CoversAt(t, r, now, caller, codes, s).Ok? <==> ScopesOf(t, s.kind, s.id).Ok?
    ensures CoversAt(t, r, now, caller, codes, s) == Ok(true) <==>
            ScopesOf(t, s.kind, s.id).Ok?
            && CoveredBy(codes, UserPermissions(r, now, caller, ScopesOf(t, s.kind, s.id).value))
  {
  }

  lemma {:induction false} WalkMeans(t: Tables, r: Rbac, now: Time, caller: Id, codes: set<string>, chain: seq<Scope>)
    requires codes != {}
    ensures Walk(t, r, now, caller, codes, chain).Ok? <==> CoveredOn(t, r, now, caller, codes, chain)
  {
    var answers := Answers(t, r, now, caller, codes, chain);
    VerdictMeans(answers);
    forall k | 0 <= k < |chain|
      ensures answers[k].Ok? <==> ScopesOf(t, chain[k].kind, chain[k].id).Ok?
      ensures answers[k] == Ok(true) <==>
              ScopesOf(t, chain[k].kind, chain[k].id).Ok?
              && CoveredBy(codes, UserPermissions(r, now, caller, ScopesOf(t, chain[k].kind, chain[k].id).value))
    {
      CoversAtMeans(t, r, now, caller, codes, chain[k]);
    }
  }

  lemma {:induction false} ActionsUnion(a: set<string>, b: set<string>)
    ensures Actions(a + b) == Actions(a) + Actions(b)
    ensures Doable(a + b) == Doable(a) + Doable(b)
  {
    assert Actions(a + b) == Actions(a) + Actions(b);
    ExpandedUnion(Actions(a), Actions(b));
  }

  lemma {:induction false} DoableMonotone(fewer: set<string>, more: set<string>)
    requires fewer <= more
    ensures Doable(fewer) <= Doable(more)
  {
    ExpandedMonotone(Actions(fewer), Actions(more));
  }

  /** Covering every code is covering everything the codes let someone do. */
  lemma {:induction false} CoveredMeans(codes: set<string>, owned: set<string>)
    requires CoveredBy(codes, owned)
    ensures Doable(codes) <= Doable(owned)
  {
    assert Actions(codes) <= Doable(owned);
    ExpandedMonotone(Actions(codes), Doable(owned));
    ExpandedIdempotent(Actions(owned));
  }

  lemma {:induction false} PermissionsMonotone(r: Rbac, now: Time, userId: Id, fewer: seq<Scope>, more: seq<Scope>)
    requires forall s :: s in fewer ==> s in more
    ensures UserPermissions(r, now, userId, fewer) <= UserPermissions(r, now, userId, more)
  {
    forall code | code in UserPermissions(r, now, userId, fewer)
      ensures code in UserPermissions(r, now, userId, more)
    {
      var b, k :| b in r.bindings && 0 <= k < |fewer| && Holds(r, now, userId, b, code) && BoundAt(r.bindings[b], fewer[k]);
      assert fewer[k] in more;
      var j :| 0 <= j < |more| && more[j] == fewer[k];
      assert BoundAt(r.bindings[b], more[j]);
    }
  }

  // ---- chains ----

  lemma {:induction false} FolderChainHolds(t: Tables, f: Id, p: Id, s: Scope)
    requires f in t.folders && p in t.projects
    ensures s in FolderChain(t, f, p) <==>
            || s == Scope(Global, "") || s == Scope(Organization, t.projects[p].orgId) || s == Scope(Project, p)
            || s == Scope(Environment, t.folders[f].environmentId)
            || (t.folders[f].parentId.Some? && s == Scope(Folder, t.folders[f].parentId.value))
            || s == Scope(Folder, f)
  {
  }

  /** The chain of a scope on a chain is part of it. */
  lemma {:induction false} ChainNests(t: Tables, kind: Kind, id: Id, s: Scope, inner: Scope)
    requires FoldersNested(t.folders) && ScopesOf(t, kind, id).Ok? && s in ScopesOf(t, kind, id).value
    requires ScopesOf(t, s.kind, s.id).Ok? && inner in ScopesOf(t, s.kind, s.id).value
    ensures inner in ScopesOf(t, kind, id).value
  {
    if kind == Secret {
      FolderChainNests(t, t.secrets[id].folderId, s, inner);
    } else if kind == Folder {
      FolderChainNests(t, id, s, inner);
    }
  }

  lemma {:induction false} FolderChainNests(t: Tables, f: Id, s: Scope, inner: Scope)
    requires FoldersNested(t.folders) && FolderScopes(t, f).Ok? && s in FolderScopes(t, f).value
    requires ScopesOf(t, s.kind, s.id).Ok? && inner in ScopesOf(t, s.kind, s.id).value
    ensures inner in FolderScopes(t, f).value
  {
    var p := t.environments[t.folders[f].environmentId].projectId;
    FolderChainHolds(t, f, p, s);
    FolderChainHolds(t, f, p, inner);
    if s.kind == Folder {
      assert Nested(t.folders, t.folders[f]);
      assert Nested(t.folders, t.folders[s.id]);
      FolderChainHolds(t, s.id, p, inner);
    }
  }

  lemma {:induction false} CoverRises(t: Tables, r: Rbac, now: Time, caller: Id, codes: set<string>, kind: Kind,
                                      id: Id, s: Scope)
    requires FoldersNested(t.folders) && ScopesOf(t, kind, id).Ok? && s in ScopesOf(t, kind, id).value
    requires CoversAt(t, r, now, caller, codes, s) == Ok(true)
    ensures CoversAt(t, r, now, caller, codes, Scope(kind, id)) == Ok(true)
    ensures Doable(codes) <= Doable(UserPermissions(r, now, caller, ScopesOf(t, kind, id).value))
  {
    if codes != {} {
      var outer, inner := ScopesOf(t, kind, id).value, ScopesOf(t, s.kind, s.id).value;
      forall x | x in inner
        ensures x in outer
      {
        ChainNests(t, kind, id, s, x);
      }
      var few, more := UserPermissions(r, now, caller, inner), UserPermissions(r, now, caller, outer);
      PermissionsMonotone(r, now, caller, inner, outer);
      DoableMonotone(few, more);
      assert CoveredBy(codes, more);
      CoveredMeans(codes, more);
    }
  }

  // ---- the walk up the chain ----

  /** The walk succeeds exactly when some answer is yes and none before it is an error. */
  lemma {:induction false} VerdictMeans(answers: seq<Result<bool>>)
    ensures Verdict(answers).Ok? <==>
            exists k :: 0 <= k < |answers| && answers[k] == Ok(true) && forall j :: 0 <= j < k ==> answers[j].Ok?
  {
    if answers != [] {
      VerdictMeans(answers[1..]);
      if k :| 0 <= k < |answers| && answers[k] == Ok(true) && (forall j :: 0 <= j < k ==> answers[j].Ok?) && k > 0 {
        assert answers[1..][k - 1] == answers[k];
        assert forall j :: 0 <= j < k - 1 ==> answers[1..][j] == answers[j + 1];
      }
      if k :| 0 <= k < |answers| - 1 && answers[1..][k] == Ok(true) && (forall j :: 0 <= j < k ==> answers[1..][j].Ok?)
              && answers[0].Ok? {
        assert answers[k + 1] == answers[1..][k];
        assert forall j :: 0 < j < k + 1 ==> answers[j] == answers[1..][j - 1];
      }
    }
  }

  /** With no error among them, the walk asks whether any answer is yes. */
  lemma {:induction false} VerdictIfKnown(answers: seq<Result<bool>>)
    requires forall k :: 0 <= k < |answers| ==> answers[k].Ok?
    ensures Verdict(answers).Ok? <==> Ok(true) in answers
  {
    VerdictMeans(answers);
  }

  /** An error ends it: only the answers before count. */
  lemma {:induction false} VerdictStops(answers: seq<Result<bool>>, n: nat)
    requires n < |answers| && answers[n].Err? && forall j :: 0 <= j < n ==> answers[j].Ok?
    ensures Verdict(answers).Ok? <==> Ok(true) in answers[..n]
  {
    VerdictMeans(answers);
    if k :| 0 <= k < |answers| && answers[k] == Ok(true) && forall j :: 0 <= j < k ==> answers[j].Ok? {
      assert k < n && answers[..n][k] == Ok(true);
    }
  }

  /** Walking the chain of the global scope, an organization, project or environment decides the same as one check at it. */
  lemma {:induction false} WalkIsOneCheck(t: Tables, r: Rbac, now: Time, caller: Id, codes: set<string>, kind: Kind,
                                          id: Id)
    requires FoldersNested(t.folders) && ScopesOf(t, kind, id).Ok?
    requires kind != Folder && kind != Secret
    ensures Walk(t, r, now, caller, codes, ScopesOf(t, kind, id).value).Ok?
            <==> CoversAt(t, r, now, caller, codes, Scope(kind, id)) == Ok(true)
  {
    var chain := ScopesOf(t, kind, id).value;
    var answers := Answers(t, r, now, caller, codes, chain);
    forall k | 0 <= k < |chain|
      ensures answers[k].Ok?
    {
      AncestorKnown(t, kind, id, k);
      CoversIfKnown(t, r, now, caller, codes, chain[k]);
    }
    VerdictIfKnown(answers);
    AnyAncestorCovers(t, r, now, caller, codes, kind, id);
  }

  lemma {:induction false} AncestorKnown(t: Tables, kind: Kind, id: Id, k: nat)
    requires ScopesOf(t, kind, id).Ok? && k < |ScopesOf(t, kind, id).value|
    requires kind != Folder && kind != Secret
    ensures var s := ScopesOf(t, kind, id).value[k]; ScopesOf(t, s.kind, s.id).Ok?
  {
  }

  lemma {:induction false} CoversIfKnown(t: Tables, r: Rbac, now: Time, caller: Id, codes: set<string>, s: Scope)
    ensures ScopesOf(t, s.kind, s.id).Ok? ==> CoversAt(t, r, now, caller, codes, s).Ok?
    ensures codes != {} && ScopesOf(t, s.kind, s.id).Err? ==> CoversAt(t, r, now, caller, codes, s).Err?
  {
  }

  /** Some scope of a chain covers exactly when its last one, the resource, does. */
  lemma {:induction false} AnyAncestorCovers(t: Tables, r: Rbac, now: Time, caller: Id, codes: set<string>, kind: Kind,
                                             id: Id)
    requires FoldersNested(t.folders) && ScopesOf(t, kind, id).Ok? && kind != Secret
    ensures Ok(true) in Answers(t, r, now, caller, codes, ScopesOf(t, kind, id).value)
            <==> CoversAt(t, r, now, caller, codes, Scope(kind, id)) == Ok(true)
  {
    var chain := ScopesOf(t, kind, id).value;
    var answers := Answers(t, r, now, caller, codes, chain);
    if k :| 0 <= k < |answers| && answers[k] == Ok(true) {
      CoverRises(t, r, now, caller, codes, kind, id, chain[k]);
    }
    if kind != Global { LastIsResource(t, kind, id); }
    assert answers[|chain| - 1] == CoversAt(t, r, now, caller, codes, Scope(kind, id));
  }

  lemma {:induction false} LastIsResource(t: Tables, kind: Kind, id: Id)
    requires ScopesOf(t, kind, id).Ok? && kind != Global && kind != Secret
    ensures var chain := ScopesOf(t, kind, id).value; |chain| > 0 && chain[|chain| - 1] == Scope(kind, id)
  {
  }

  predicate ParentUsable(t: Tables, f: Id)
    requires f in t.folders
  {
    t.folders[f].parentId.Some? ==> ActiveFolder(t, t.folders[f].parentId.value)
  }

  /** The scopes of a folder's chain before its parent folder. */
  lemma {:induction false} FolderChainStarts(t: Tables, f: Id)
    requires FolderScopes(t, f).Ok?
    ensures var chain := FolderScopes(t, f).value; var e := t.folders[f].environmentId;
            && |chain| >= 5 && EnvironmentScopes(t, e) == Ok(chain[..4]) && chain[|chain| - 1] == Scope(Folder, f)
            && (if t.folders[f].parentId.Some? then |chain| == 6 && chain[4] == Scope(Folder, t.folders[f].parentId.value)
                else |chain| == 5)
            && forall j :: 0 <= j <= 3 ==> ScopesOf(t, chain[j].kind, chain[j].id).Ok?
  {
    var e := t.folders[f].environmentId;
    var p := t.environments[e].projectId;
    var chain := FolderScopes(t, f).value;
    assert chain[..4] == [Scope(Global, ""), Scope(Organization, t.projects[p].orgId), Scope(Project, p), Scope(Environment, e)];
  }

  lemma {:induction false} UsableParentWalk(t: Tables, r: Rbac, now: Time, caller: Id, codes: set<string>, f: Id)
    requires FoldersNested(t.folders) && FolderScopes(t, f).Ok? && ParentUsable(t, f)
    ensures Walk(t, r, now, caller, codes, FolderScopes(t, f).value).Ok?
            <==> CoversAt(t, r, now, caller, codes, Scope(Folder, f)) == Ok(true)
  {
    var chain := FolderScopes(t, f).value;
    var answers := Answers(t, r, now, caller, codes, chain);
    FolderChainStarts(t, f);
    forall k | 0 <= k < |chain|
      ensures answers[k].Ok?
    {
      UsableKnown(t, f, k);
      CoversIfKnown(t, r, now, caller, codes, chain[k]);
    }
    VerdictIfKnown(answers);
    AnyAncestorCovers(t, r, now, caller, codes, Folder, f);
  }

  lemma {:induction false} UsableKnown(t: Tables, f: Id, k: nat)
    requires FoldersNested(t.folders) && FolderScopes(t, f).Ok? && ParentUsable(t, f) && k < |FolderScopes(t, f).value|
    ensures var s := FolderScopes(t, f).value[k]; ScopesOf(t, s.kind, s.id).Ok?
  {
    FolderChainStarts(t, f);
    assert Nested(t.folders, t.folders[f]);
  }

  lemma {:induction false} DeletedParentWalk(t: Tables, r: Rbac, now: Time, caller: Id, codes: set<string>, f: Id)
    requires FoldersNested(t.folders) && FolderScopes(t, f).Ok? && codes != {} && !ParentUsable(t, f)
    ensures Walk(t, r, now, caller, codes, FolderScopes(t, f).value).Ok?
            <==> CoversAt(t, r, now, caller, codes, Scope(Environment, t.folders[f].environmentId)) == Ok(true)
  {
    var e := t.folders[f].environmentId;
    var chain := FolderScopes(t, f).value;
    var answers := Answers(t, r, now, caller, codes, chain);
    FolderChainStarts(t, f);
    forall k | 0 <= k < 4
      ensures answers[k].Ok?
    {
      CoversIfKnown(t, r, now, caller, codes, chain[k]);
    }
    DeletedFolderUnscoped(t, chain[4]);
    CoversIfKnown(t, r, now, caller, codes, chain[4]);
    VerdictStops(answers, 4);
    AnyAncestorCovers(t, r, now, caller, codes, Environment, e);
    assert answers[..4] == Answers(t, r, now, caller, codes, chain[..4]);
  }

  lemma {:induction false} DeletedFolderUnscoped(t: Tables, s: Scope)
    requires s.kind == Folder && !ActiveFolder(t, s.id)
    ensures ScopesOf(t, s.kind, s.id).Err?
  {
  }

  /** For a folder it does too while the parent folder, if any, is active. Under a deleted parent the walk stops
      there with an error, so what decides is the check at the environment. */
  lemma {:induction false} FolderWalkIsOneCheck(t: Tables, r: Rbac, now: Time, caller: Id, codes: set<string>, f: Id)
    requires FoldersNested(t.folders) && FolderScopes(t, f).Ok? && codes != {}
    ensures Walk(t, r, now, caller, codes, FolderScopes(t, f).value).Ok? <==>
            CoversAt(t, r, now, caller, codes, if ParentUsable(t, f) then Scope(Folder, f)
                                               else Scope(Environment, t.folders[f].environmentId)) == Ok(true)
  {
    if ParentUsable(t, f) {
      UsableParentWalk(t, r, now, caller, codes, f);
    } else {
      DeletedParentWalk(t, r, now, caller, codes, f);
    }
  }
}
