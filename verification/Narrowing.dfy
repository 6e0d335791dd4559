/**
 * The list narrowing of internal/store/postgres/repository.go (userReadScopeCTE, narrowingPredicate,
 * scopeNarrowingWhere) in SQL's three-valued logic, and its agreement with the point check Allow.
 */
module Narrowing {
  import opened Wrappers
  import opened Text
  import opened Tables
  import opened Rbac

  // ---- SQL conditions ----

  datatype Truth = True | False | Unknown

  function Or(a: Truth, b: Truth): Truth {
    if a == True || b == True then True else if a == Unknown || b == Unknown then Unknown else False
  }

  function Exists(nonempty: bool): Truth {
    if nonempty then True else False
  }

  /** `x in (select ...)`: null compares as unknown with anything, and nothing is in the empty set. */
  function In(x: Option<Id>, xs: set<Option<Id>>): Truth {
    if xs == {} then False
    else if x.None? then Unknown
    else if x in xs then True
    else if None in xs then Unknown
    else False
  }

  // ---- the narrowing clause ----

  /** One row of user_read_scopes: the scope of a live binding of the caller whose role carries the code. */
  datatype ReadScope = ReadScope(kind: Kind, scopeId: Option<Id>)

  function UserReadScopes(r: Rbac, now: Time, userId: Id, code: string): set<ReadScope> {
    set b | b in r.bindings && Holds(r, now, userId, b, code) :: ReadScope(r.bindings[b].kind, r.bindings[b].scopeId)
  }

  /** A scope type and the value the row has in the column compared with it. */
  datatype Entry = Entry(kind: Kind, column: Option<Id>)

  function ScopeIds(scopes: set<ReadScope>, kind: Kind): set<Option<Id>> {
    set s | s in scopes && s.kind == kind :: s.scopeId
  }

  function NarrowingPredicate(scopes: set<ReadScope>, entries: seq<Entry>): Truth {
    if entries == [] then False
    else
      var last := entries[|entries| - 1];
      Or(NarrowingPredicate(scopes, entries[..|entries| - 1]), In(last.column, ScopeIds(scopes, last.kind)))
  }

  function ScopeNarrowingWhere(scopes: set<ReadScope>, entries: seq<Entry>): Truth {
    Or(Exists(exists s :: s in scopes && s.kind == Global), NarrowingPredicate(scopes, entries))
  }

  // ---- the listed rows ----

  function FolderEntries(t: Tables, f: Id): seq<Entry>
    requires f in t.folders && t.folders[f].environmentId in t.environments
    requires t.environments[t.folders[f].environmentId].projectId in t.projects
  {
    var e := t.folders[f].environmentId;
    var p := t.environments[e].projectId;
    [Entry(Folder, Some(f)), Entry(Folder, t.folders[f].parentId), Entry(Environment, Some(e)),
     Entry(Project, Some(p)), Entry(Organization, Some(t.projects[p].orgId))]
  }

  /** The join and where-clause the folder lists share. They do not look at the organization's row. */
  predicate FolderPasses(t: Tables, r: Rbac, now: Time, userId: Id, code: string, f: Id) {
    && ActiveFolder(t, f)
    && ActiveEnvironment(t, t.folders[f].environmentId)
    && ActiveProject(t, t.environments[t.folders[f].environmentId].projectId)
    && ScopeNarrowingWhere(UserReadScopes(r, now, userId, code), FolderEntries(t, f)) == True
  }

  /** The secret lists join up to the organization and offer the secret itself as one more entry. */
  predicate SecretPasses(t: Tables, r: Rbac, now: Time, userId: Id, code: string, s: Id) {
    && ActiveSecret(t, s)
    && ActiveFolder(t, t.secrets[s].folderId)
    && var f := t.secrets[s].folderId;
       && ActiveEnvironment(t, t.folders[f].environmentId)
       && var p := t.environments[t.folders[f].environmentId].projectId;
          && ActiveProject(t, p) && ActiveOrg(t, t.projects[p].orgId)
          && ScopeNarrowingWhere(UserReadScopes(r, now, userId, code),
                                 [Entry(Secret, Some(s))] + FolderEntries(t, f)) == True
  }

  // ---- the narrowing agrees with Allow ----

  lemma {:induction false} PredicateMeans(scopes: set<ReadScope>, entries: seq<Entry>)
    ensures NarrowingPredicate(scopes, entries) == True <==>
            exists k :: 0 <= k < |entries| && entries[k].column.Some? && ReadScope(entries[k].kind, entries[k].column) in scopes
  {
    if entries != [] {
      var before, last := entries[..|entries| - 1], entries[|entries| - 1];
      PredicateMeans(scopes, before);
      assert last.column in ScopeIds(scopes, last.kind) <==> ReadScope(last.kind, last.column) in scopes by {
        assert ReadScope(last.kind, last.column).kind == last.kind;
      }
      assert forall k :: 0 <= k < |before| ==> before[k] == entries[k];
    }
  }

  /** A row passes the clause exactly when some binding that holds the code is global or sits at the value of
      one of the row's columns. */
  lemma {:induction false} WhereMeans(r: Rbac, now: Time, userId: Id, code: string, entries: seq<Entry>)
    ensures ScopeNarrowingWhere(UserReadScopes(r, now, userId, code), entries) == True <==>
            exists b :: Holds(r, now, userId, b, code) && (r.bindings[b].kind == Global || Matches(r.bindings[b], entries))
  {
    var scopes := UserReadScopes(r, now, userId, code);
    PredicateMeans(scopes, entries);
    if b :| Holds(r, now, userId, b, code) && (r.bindings[b].kind == Global || Matches(r.bindings[b], entries)) {
      assert ReadScope(r.bindings[b].kind, r.bindings[b].scopeId) in scopes;
    }
    if k :| 0 <= k < |entries| && entries[k].column.Some? && ReadScope(entries[k].kind, entries[k].column) in scopes {
      var b :| b in r.bindings && Holds(r, now, userId, b, code)
               && ReadScope(r.bindings[b].kind, r.bindings[b].scopeId) == ReadScope(entries[k].kind, entries[k].column);
      assert Matches(r.bindings[b], entries);
    }
  }

  predicate Matches(b: Binding, entries: seq<Entry>) {
    exists k :: 0 <= k < |entries| && entries[k].column.Some? && b.kind == entries[k].kind && b.scopeId == entries[k].column
  }

  predicate OnChain(b: Binding, chain: seq<Scope>) {
    exists k :: 0 <= k < |chain| && BoundAt(b, chain[k])
  }

  lemma {:induction false} MatchesOnChain(t: Tables, b: Binding, f: Id)
    requires BindingScopeOk(b) && f in t.folders && t.folders[f].environmentId in t.environments
    requires t.environments[t.folders[f].environmentId].projectId in t.projects
    requires b.kind == Global || Matches(b, FolderEntries(t, f))
    ensures OnChain(b, FolderChain(t, f, t.environments[t.folders[f].environmentId].projectId))
  {
    var p := t.environments[t.folders[f].environmentId].projectId;
    var chain, entries := FolderChain(t, f, p), FolderEntries(t, f);
    if b.kind == Global {
      assert BoundAt(b, chain[0]);
    } else {
      var k :| 0 <= k < |entries| && entries[k].column.Some? && b.kind == entries[k].kind && b.scopeId == entries[k].column;
      var j := if k == 0 then |chain| - 1 else 5 - k;
      assert chain[j] == Scope(b.kind, b.scopeId.value);
      assert BoundAt(b, chain[j]);
    }
  }

  lemma {:induction false} ChainMatches(t: Tables, b: Binding, f: Id)
    requires f in t.folders && t.folders[f].environmentId in t.environments
    requires t.environments[t.folders[f].environmentId].projectId in t.projects
    requires OnChain(b, FolderChain(t, f, t.environments[t.folders[f].environmentId].projectId))
    ensures b.kind == Global || Matches(b, FolderEntries(t, f))
  {
    var p := t.environments[t.folders[f].environmentId].projectId;
    var chain, entries := FolderChain(t, f, p), FolderEntries(t, f);
    var k :| 0 <= k < |chain| && BoundAt(b, chain[k]);
    if k > 0 {
      var j := if k == |chain| - 1 then 0 else 5 - k;
      assert entries[j] == Entry(chain[k].kind, Some(chain[k].id));
    }
  }

  /** With or without the active chain, the point check accepts a code on a folder exactly when the folder's row passes
      the narrowing for it and its organization is active, which the folder lists do not look at. */
  lemma {:induction false} NarrowingNeedsTheChain(t: Tables, r: Rbac, now: Time, userId: Id, code: string, f: Id)
    requires SchemaOk(r) && code != ""
    ensures Permit(t, r, now, userId, code, Some(Folder), f).Ok? <==>
            && FolderPasses(t, r, now, userId, code, f)
            && ActiveOrg(t, t.projects[t.environments[t.folders[f].environmentId].projectId].orgId)
  {
    PermitHolds(t, r, now, userId, code, Folder, f);
    if FolderScopes(t, f).Ok? {
      WhereMeans(r, now, userId, code, FolderEntries(t, f));
      var chain := FolderScopes(t, f).value;
      if b :| Holds(r, now, userId, b, code) && (r.bindings[b].kind == Global || Matches(r.bindings[b], FolderEntries(t, f))) {
        MatchesOnChain(t, r.bindings[b], f);
      }
      if b, k :| 0 <= k < |chain| && Holds(r, now, userId, b, code) && BoundAt(r.bindings[b], chain[k]) {
        ChainMatches(t, r.bindings[b], f);
      }
    }
    if FolderPasses(t, r, now, userId, code, f) { UserNamed(r, now, userId, code, FolderEntries(t, f)); }
  }

  /** Somebody the clause lets pass is a user. */
  lemma {:induction false} UserNamed(r: Rbac, now: Time, userId: Id, code: string, entries: seq<Entry>)
    requires SchemaOk(r) && ScopeNarrowingWhere(UserReadScopes(r, now, userId, code), entries) == True
    ensures TrimSpace(userId) != ""
  {
    WhereMeans(r, now, userId, code, entries);
  }

  /** The folder, its environment and its project are there and not deleted. The organization is not asked about. */
  ghost predicate FolderShown(t: Tables, f: Id) {
    && f in t.folders && !t.folders[f].isDeleted
    && t.folders[f].environmentId in t.environments && !t.environments[t.folders[f].environmentId].isDeleted
    && t.environments[t.folders[f].environmentId].projectId in t.projects
    && !t.projects[t.environments[t.folders[f].environmentId].projectId].isDeleted
  }

  /** The row sits nowhere, or on the organization, project, environment, parent folder or folder. */
  ghost predicate SitsAbove(t: Tables, row: Binding, f: Id)
    requires FolderShown(t, f)
  {
    var e, parent := t.folders[f].environmentId, t.folders[f].parentId;
    var p := t.environments[e].projectId;
    || SitsNowhere(row)
    || SitsOn(row, Organization, t.projects[p].orgId) || SitsOn(row, Project, p) || SitsOn(row, Environment, e)
    || (parent.Some? && SitsOn(row, Folder, parent.value)) || SitsOn(row, Folder, f)
  }

  lemma {:induction false} MatchesMeans(t: Tables, row: Binding, f: Id)
    requires BindingScopeOk(row) && FolderShown(t, f)
    ensures row.kind == Global || Matches(row, FolderEntries(t, f)) <==> SitsAbove(t, row, f)
  {
    var entries := FolderEntries(t, f);
    var e := t.folders[f].environmentId;
    var p := t.environments[e].projectId;
    assert entries[0] == Entry(Folder, Some(f)) && entries[1] == Entry(Folder, t.folders[f].parentId);
    assert entries[2] == Entry(Environment, Some(e)) && entries[3] == Entry(Project, Some(p));
    assert entries[4] == Entry(Organization, Some(t.projects[p].orgId));
  }

  /** What puts a folder on the list, told by the rows: it is shown, the caller is enabled, and one of the caller's
      rows gives the code and sits above or on it. */
  lemma {:induction false} FolderPassesMeans(t: Tables, r: Rbac, now: Time, userId: Id, code: string, f: Id)
    requires SchemaOk(r)
    ensures FolderPasses(t, r, now, userId, code, f) <==>
            && FolderShown(t, f) && UserEnabled(r, userId)
            && exists b :: b in r.bindings && Gives(r, now, r.bindings[b], userId, code) && SitsAbove(t, r.bindings[b], f)
  {
    if FolderShown(t, f) {
      WhereMeans(r, now, userId, code, FolderEntries(t, f));
      forall b
        ensures Holds(r, now, userId, b, code)
                <==> b in r.bindings && Gives(r, now, r.bindings[b], userId, code) && UserEnabled(r, userId)
      {
      }
      forall b | b in r.bindings
        ensures r.bindings[b].kind == Global || Matches(r.bindings[b], FolderEntries(t, f)) <==> SitsAbove(t, r.bindings[b], f)
      {
        MatchesMeans(t, r.bindings[b], f);
      }
    }
  }

  /** On an active chain the two agree. */
  lemma {:induction false} FolderNarrowingIsPermit(t: Tables, r: Rbac, now: Time, userId: Id, code: string, f: Id)
    requires Chained(t) && SchemaOk(r) && code != ""
    ensures FolderPasses(t, r, now, userId, code, f) <==> Permit(t, r, now, userId, code, Some(Folder), f).Ok?
  {
    NarrowingNeedsTheChain(t, r, now, userId, code, f);
  }

  /** A folder row passes the narrowing for a code exactly when Allow accepts that code on the folder. */
  lemma {:induction false} FolderNarrowingIsAllow(t: Tables, r: Rbac, now: Time, userId: Id, code: string, f: Id)
    requires Chained(t) && SchemaOk(r) && IsCode(code)
    ensures FolderPasses(t, r, now, userId, code, f) <==> Allow(t, r, now, userId, code, "folder", f).Ok?
  {
    ResourceTypes();
    CodeStays(code, "folder");
    AllowIsPermit(t, r, now, userId, code, "folder", Folder, f);
    FolderNarrowingIsPermit(t, r, now, userId, code, f);
  }

  lemma {:induction false} NoSecretBindings(b: Binding, s: Id, entries: seq<Entry>)
    requires BindingScopeOk(b)
    ensures Matches(b, [Entry(Secret, Some(s))] + entries) <==> Matches(b, entries)
  {
    var all := [Entry(Secret, Some(s))] + entries;
    if k :| 0 <= k < |all| && all[k].column.Some? && b.kind == all[k].kind && b.scopeId == all[k].column {
      assert entries[k - 1] == all[k];
    }
    if k :| 0 <= k < |entries| && entries[k].column.Some? && b.kind == entries[k].kind && b.scopeId == entries[k].column {
      assert all[k + 1] == entries[k];
    }
  }

  lemma {:induction false} SecretPassesWithFolder(t: Tables, r: Rbac, now: Time, userId: Id, code: string, s: Id)
    requires Chained(t) && SchemaOk(r)
    ensures SecretPasses(t, r, now, userId, code, s)
            <==> ActiveSecret(t, s) && FolderPasses(t, r, now, userId, code, t.secrets[s].folderId)
  {
    if ActiveSecret(t, s) {
      var entries := FolderEntries(t, t.secrets[s].folderId);
      WhereMeans(r, now, userId, code, entries);
      WhereMeans(r, now, userId, code, [Entry(Secret, Some(s))] + entries);
      forall b | b in r.bindings
        ensures Matches(r.bindings[b], [Entry(Secret, Some(s))] + entries) <==> Matches(r.bindings[b], entries)
      {
        NoSecretBindings(r.bindings[b], s, entries);
      }
    }
  }

  /** The same for secret rows; the extra entry never matches, as no binding may sit on a secret. */
  lemma {:induction false} SecretNarrowingIsAllow(t: Tables, r: Rbac, now: Time, userId: Id, code: string, s: Id)
    requires Chained(t) && SchemaOk(r) && IsCode(code)
    ensures SecretPasses(t, r, now, userId, code, s) <==> Allow(t, r, now, userId, code, "secret", s).Ok?
  {
    ResourceTypes();
    CodeStays(code, "secret");
    AllowIsPermit(t, r, now, userId, code, "secret", Secret, s);
    SecretPassesWithFolder(t, r, now, userId, code, s);
    PermitSecretIsPermitFolder(t, r, now, userId, code, s);
    if ActiveSecret(t, s) { FolderNarrowingIsPermit(t, r, now, userId, code, t.secrets[s].folderId); }
  }

  lemma {:induction false} PermitSecretIsPermitFolder(t: Tables, r: Rbac, now: Time, userId: Id, code: string, s: Id)
    ensures Permit(t, r, now, userId, code, Some(Secret), s).Ok?
            <==> ActiveSecret(t, s) && Permit(t, r, now, userId, code, Some(Folder), t.secrets[s].folderId).Ok?
  {
  }

  // ---- the second filter ----

  const READ := "folder:read"

  lemma {:induction false} ReadIsCode()
    ensures IsCode(READ)
  {
    assert READ[6] == ':';
  }

  /** The service holds its authorizer behind an interface; here it is asked about one action and type. */
  type Authorizer = Id -> Result<()>

  function Accepted(allow: Authorizer, items: seq<Id>): set<Id> {
    set x | x in items && allow(x).Ok?
  }

  /** The items among `ok`, in order. */
  function Kept(items: seq<Id>, ok: set<Id>): seq<Id> {
    if items == [] then []
    else
      var before := Kept(items[..|items| - 1], ok);
      if items[|items| - 1] in ok then before + [items[|items| - 1]] else before
  }

  /** `kept` is the items at the positions `at`, which are, in order, those answered yes. */
  ghost predicate PickedAt(allow: Authorizer, items: seq<Id>, kept: seq<Id>, at: seq<nat>) {
    && |kept| == |at|
    && (forall i :: 0 <= i < |at| ==> at[i] < |items| && kept[i] == items[at[i]])
    && (forall i, j :: 0 <= i < j < |at| ==> at[i] < at[j])
    && (forall k :: 0 <= k < |items| ==> (k in at <==> allow(items[k]).Ok?))
  }

  /** The answers before position k were yes, no or missing. */
  ghost predicate CalmBefore(allow: Authorizer, items: seq<Id>, k: int)
    requires 0 <= k <= |items|
  {
    forall j :: 0 <= j < k ==>
      allow(items[j]).Ok? || allow(items[j]) == Err(ErrPermissionDenied) || allow(items[j]) == Err(ErrNotFound)
  }

  /** filterOrgsByAllow, filterProjectsByAllow, filterEnvsByAllow and filterFoldersByAllow, each with its action and
      type: refused and missing rows are dropped, any other error ends the call. */
  method FilterByAllow(allow: Authorizer, items: seq<Id>) returns (out: Result<seq<Id>>)
    ensures out.Ok? <==> CalmBefore(allow, items, |items|)
    ensures out.Ok? ==> exists at: seq<nat> :: PickedAt(allow, items, out.value, at)
    ensures out.Err? ==> out.error != ErrPermissionDenied && out.error != ErrNotFound
    ensures out.Err? ==> exists k :: 0 <= k < |items| && allow(items[k]) == Err(out.error) && CalmBefore(allow, items, k)
    ensures out.Ok? ==> out.value == Kept(items, Accepted(allow, items))
  {
    var kept: seq<Id> := [];
    ghost var ok := Accepted(allow, items);
    ghost var at: seq<nat> := [];
    for i := 0 to |items|
      invariant CalmBefore(allow, items, i)
      invariant kept == Kept(items[..i], ok)
      invariant PickedAt(allow, items[..i], kept, at)
    {
      assert items[..i + 1][..i] == items[..i];
      assert forall k :: 0 <= k < i ==> items[..i + 1][k] == items[..i][k];
      var answer := allow(items[i]);
      assert items[i] in ok <==> answer.Ok?;
      if answer.Err? {
        if answer.error == ErrPermissionDenied || answer.error == ErrNotFound {
          continue;
        }
        return Err(answer.error);
      }
      kept := kept + [items[i]];
      at := at + [i];
    }
    assert items[..|items|] == items;
    return Ok(kept);
  }

  lemma {:induction false} AllKept(items: seq<Id>, ok: set<Id>)
    requires forall k :: 0 <= k < |items| ==> items[k] in ok
    ensures Kept(items, ok) == items
  {
    if items != [] {
      AllKept(items[..|items| - 1], ok);
      assert items == items[..|items| - 1] + [items[|items| - 1]];
    }
  }

  /** On rows the narrowed list returned, the second filter, which asks Allow, removes nothing. */
  lemma {:induction false} FilterRemovesNothing(t: Tables, r: Rbac, now: Time, userId: Id, allow: Authorizer,
                                                items: seq<Id>)
    requires Chained(t) && SchemaOk(r)
    requires forall f :: allow(f) == Allow(t, r, now, userId, READ, "folder", f)
    requires forall k :: 0 <= k < |items| ==> FolderPasses(t, r, now, userId, READ, items[k])
    ensures Kept(items, Accepted(allow, items)) == items
  {
    ReadIsCode();
    forall k | 0 <= k < |items|
      ensures items[k] in Accepted(allow, items)
    {
      FolderNarrowingIsAllow(t, r, now, userId, READ, items[k]);
    }
    AllKept(items, Accepted(allow, items));
  }
}
