/** Two owners of an organization revoke each other at the same moment: a run of module Grants that leaves it with no
    owner. */
module OwnerRace {
  import opened Wrappers
  import opened Text
  import opened Tables
  import opened Rbac
  import opened Coverage
  import opened ParentCoverage
  import opened Grants

  const ORG: Id := "o"

  const TABLES := EMPTY.(orgs := map[ORG := OrganizationRow("acme", false)])

  const OWNER := Role(ORG_OWNER, "organization", {BIND}, false)

  function Owning(user: Id): Binding {
    Binding(user, "r", Organization, Some(ORG), None, false)
  }

  const BINDINGS := map["ba" := Owning("a"), "bb" := Owning("b")]

  /** Users a and b own the organization. */
  const RBAC := Rbac(map["a" := User("", "a@acme.org", false), "b" := User("", "b@acme.org", false)],
                     map[BIND := "rbac"], map["r" := OWNER], BINDINGS)

  function Removes(caller: Id, target: Id): Request {
    Revoke(caller, target, ORG_OWNER, "organization", ORG)
  }

  predicate Party(user: Id, b: Id) {
    (user == "a" && b == "ba") || (user == "b" && b == "bb")
  }

  lemma {:induction false} CallerMayBind(user: Id, b: Id)
    requires Party(user, b)
    ensures TrimSpace(user) == user && TrimSpace(ORG) == ORG
    ensures Holds(RBAC, 0, user, b, BIND) && BoundAt(BINDINGS[b], Scope(Organization, ORG))
    ensures OrganizationScopes(TABLES, ORG) == Ok([Scope(Global, ""), Scope(Organization, ORG)])
    ensures BIND in UserPermissions(RBAC, 0, user, [Scope(Global, ""), Scope(Organization, ORG)])
  {
    TrimmedStays(user);
    TrimmedStays(ORG);
    var scopes := [Scope(Global, ""), Scope(Organization, ORG)];
    assert Holds(RBAC, 0, user, b, BIND) && BoundAt(BINDINGS[b], scopes[1]);
  }

  lemma {:induction false} HolderIsAllowed(t: Tables, r: Rbac, user: Id, code: string, scopeType: string, org: Id,
                                           chain: seq<Scope>)
    requires TrimSpace(user) != "" && ScopesOf(t, Organization, org) == Ok(chain) && IsCode(code)
    requires NormalizeResourceType(scopeType) == Some(Organization) && code in UserPermissions(r, 0, user, chain)
    ensures Allow(t, r, 0, user, code, scopeType, org).Ok?
  {
    CodeStays(code, scopeType);
  }

  lemma {:induction false} SplitsAt(code: string, i: nat)
    requires Trimmed(code) && code != "" && code[0] != 'e' && 0 < i < |code| - 1
    requires code[i] == ':' && forall j :: 0 <= j < i ==> code[j] != ':'
    ensures ActionOf(code) == code[i + 1..] != ""
  {
    TrimmedStays(code);
    assert "env:template:"[0] == 'e';
    assert IndexOf(code, ':') == i;
  }

  lemma {:induction false} BindSplits()
    ensures ActionOf(BIND) != "" && RoleCodes(RBAC, "r") == {BIND}
  {
    SplitsAt(BIND, 4);
  }

  lemma {:induction false} OwningCovers(codes: set<string>, owned: set<string>)
    requires codes <= owned && forall c :: c in codes ==> ActionOf(c) != ""
    ensures CoveredBy(codes, owned)
  {
    assert forall c :: c in codes ==> ActionOf(c) in Actions(owned);
  }

  lemma {:induction false} HolderCoversAt(t: Tables, r: Rbac, user: Id, codes: set<string>, org: Id, chain: seq<Scope>)
    requires ScopesOf(t, Organization, org) == Ok(chain)
    requires codes <= UserPermissions(r, 0, user, chain) && forall c :: c in codes ==> ActionOf(c) != ""
    ensures CoversAt(t, r, 0, user, codes, Scope(Organization, org)) == Ok(true)
  {
    OwningCovers(codes, UserPermissions(r, 0, user, chain));
  }

  lemma {:induction false} HolderCovers(t: Tables, r: Rbac, user: Id, codes: set<string>, scopeType: string, org: Id,
                                        chain: seq<Scope>)
    requires FoldersNested(t.folders) && ScopesOf(t, Organization, org) == Ok(chain)
    requires codes <= UserPermissions(r, 0, user, chain) && forall c :: c in codes ==> ActionOf(c) != ""
    requires TrimSpace(scopeType) == scopeType != "" && NormalizeResourceType(scopeType) == Some(Organization)
    ensures CheckCallerParentCoverage(t, r, 0, user, codes, scopeType, org).Ok?
  {
    HolderCoversAt(t, r, user, codes, org, chain);
    WalkIsOneCheck(t, r, 0, user, codes, Organization, org);
  }

  lemma {:induction false} TypeNamed()
    ensures NormalizeResourceType("organization") == Some(Organization) && TrimSpace("organization") == "organization"
    ensures IsCode(BIND)
  {
    OrganizationType();
    TrimmedStays("organization");
    assert BIND[4] == ':';
  }

  lemma {:induction false} CallerIsAllowed(user: Id, b: Id)
    requires Party(user, b)
    ensures Allow(TABLES, RBAC, 0, user, BIND, "organization", ORG).Ok?
  {
    CallerMayBind(user, b);
    TypeNamed();
    HolderIsAllowed(TABLES, RBAC, user, BIND, "organization", ORG, [Scope(Global, ""), Scope(Organization, ORG)]);
  }

  lemma {:induction false} CallerCovers(user: Id, b: Id)
    requires Party(user, b)
    ensures CheckCallerParentCoverage(TABLES, RBAC, 0, user, {BIND}, "organization", ORG).Ok?
  {
    CallerMayBind(user, b);
    TypeNamed();
    BindSplits();
    HolderCovers(TABLES, RBAC, user, {BIND}, "organization", ORG, [Scope(Global, ""), Scope(Organization, ORG)]);
  }

  lemma {:induction false} GuardOpens(t: Tables, r: Rbac, q: Request, admin: bool, roleId: Id)
    requires q.Revoke? && q.scopeType != "global" && TrimSpace(q.caller) != "" && TrimSpace(q.caller) != TrimSpace(q.target)
    requires Allow(t, r, 0, q.caller, BIND, q.scopeType, q.scopeId).Ok?
    requires TrimSpace(q.roleCode) != "" && roleId in r.roles && RoleFitsScope(r.roles[roleId], q.scopeType)
    requires CheckCallerParentCoverage(t, r, 0, q.caller, RoleCodes(r, roleId), q.scopeType, q.scopeId).Ok?
    ensures Guard(t, r, 0, q, admin, Some(roleId)).Ok?
  {
  }

  /** Each of the two requests passes every guard. */
  lemma {:induction false} Guarded(user: Id, b: Id, target: Id, admin: bool)
    requires Party(user, b) && (target == "a" || target == "b") && target != user
    ensures Guard(TABLES, RBAC, 0, Removes(user, target), admin, Some("r")).Ok?
  {
    CallerMayBind(user, b);
    TrimmedStays(target);
    TrimmedStays(ORG_OWNER);
    BindSplits();
    CallerIsAllowed(user, b);
    CallerCovers(user, b);
    GuardOpens(TABLES, RBAC, Removes(user, target), admin, "r");
  }

  const BOTH: set<Id> := {"ba", "bb"}

  lemma {:induction false} BothOwn()
    ensures ScopeGrants(RBAC, Scope(Organization, ORG)) == BOTH && Owners(RBAC, ORG) == BOTH
    ensures UserGrants(RBAC, "a") == {"ba"} && UserGrants(RBAC, "b") == {"bb"}
    ensures |BOTH| == 2
  {
    CallerMayBind("a", "ba");
    assert BINDINGS.Keys == BOTH;
  }

  lemma {:induction false} OwnersLeft(q: Request)
    ensures LeavesOwner(RBAC, q, BOTH)
  {
    var seen := set b | b in BOTH && RBAC.bindings[b].roleId in RBAC.roles
                        && RBAC.roles[RBAC.bindings[b].roleId].code == ORG_OWNER;
    BothOwn();
    assert seen == BOTH;
  }

  const START := State(RBAC, 0, map[])

  const CHECKED := State(RBAC, 0, map[1 := Removes("a", "b"), 2 := Removes("b", "a")])

  lemma {:induction false} PassesCheck(pending: map<nat, Request>, id: nat, user: Id, b: Id, target: Id)
    requires Party(user, b) && (target == "a" || target == "b") && target != user && id !in pending
    ensures var s := State(RBAC, 0, pending); var step := Check(id, Removes(user, target), {b}, BOTH, "r");
            Enabled(TABLES, s, step) && Next(TABLES, s, step) == State(RBAC, 0, pending[id := Removes(user, target)])
  {
    BothOwn();
    Guarded(user, b, target, IsPlatformAdmin(RBAC, {b}));
    OwnersLeft(Removes(user, target));
  }

  /** Two waiting owner revokes, written one after the other, take the two owner bindings they aim at. */
  lemma {:induction false} BothWrite(t: Tables, s: State, org: Id, b1: Id, b2: Id)
    requires 1 in s.pending && 2 in s.pending && RevokesOwner(s.pending[1], org) && RevokesOwner(s.pending[2], org)
    requires b1 != b2 && Owners(s.rbac, org) == {b1, b2}
    requires s.pending[1].target == s.rbac.bindings[b1].userId && s.pending[2].target == s.rbac.bindings[b2].userId
    ensures Enabled(t, s, WriteRevoke(1, b1)) && Enabled(t, Next(t, s, WriteRevoke(1, b1)), WriteRevoke(2, b2))
    ensures Owners(Next(t, Next(t, s, WriteRevoke(1, b1)), WriteRevoke(2, b2)).rbac, org) == {}
  {
    assert b1 in Owners(s.rbac, org) && b2 in Owners(s.rbac, org);
    RevocableOwner(s.rbac, s.pending[1], b1, org);
    OwnersShrink(s.rbac, b1, org);
    var s1 := Next(t, s, WriteRevoke(1, b1));
    assert Owners(s1.rbac, org) == {b2};
    RevocableOwner(s1.rbac, s1.pending[2], b2, org);
    OwnersShrink(s1.rbac, b2, org);
  }

  lemma {:induction false} StartReady()
    ensures Ready(TABLES, START)
  {
    assert forall b :: b in BINDINGS ==> BINDINGS[b].userId in RBAC.users;
  }

  lemma {:induction false} FourSteps(t: Tables, s: State, a: Step, b: Step, c: Step, d: Step)
    requires Enabled(t, s, a) && Enabled(t, Next(t, s, a), b)
    requires Enabled(t, Next(t, Next(t, s, a), b), c) && Enabled(t, Next(t, Next(t, Next(t, s, a), b), c), d)
    ensures Runs(t, s, [a, b, c, d])
    ensures After(t, s, [a, b, c, d]) == Next(t, Next(t, Next(t, Next(t, s, a), b), c), d)
  {
    Extend(t, s, [], a);
    Extend(t, s, [] + [a], b);
    Extend(t, s, [] + [a] + [b], c);
    Extend(t, s, [] + [a] + [b] + [c], d);
    assert [] + [a] + [b] + [c] + [d] == [a, b, c, d];
  }

  lemma {:induction false} BothPass()
    ensures var a := Check(1, Removes("a", "b"), {"ba"}, BOTH, "r");
            var b := Check(2, Removes("b", "a"), {"bb"}, BOTH, "r");
            Enabled(TABLES, START, a) && Enabled(TABLES, Next(TABLES, START, a), b)
            && Next(TABLES, Next(TABLES, START, a), b) == CHECKED
  {
    PassesCheck(map[], 1, "a", "ba", "b");
    PassesCheck(map[1 := Removes("a", "b")], 2, "b", "bb", "a");
  }

  lemma {:induction false} BothLeave()
    ensures var a, b := WriteRevoke(1, "bb"), WriteRevoke(2, "ba");
            Enabled(TABLES, CHECKED, a) && Enabled(TABLES, Next(TABLES, CHECKED, a), b)
            && Owners(Next(TABLES, Next(TABLES, CHECKED, a), b).rbac, ORG) == {}
  {
    BothOwn();
    BothWrite(TABLES, CHECKED, ORG, "bb", "ba");
  }

  /** Two owners revoke each other. Both requests pass every guard and the last-owner check before either is written,
      and the run Check, Check, WriteRevoke, WriteRevoke leaves the organization without an owner. */
  lemma {:induction false} RacingRevokesLeaveNone()
    ensures Ready(TABLES, START) && Owners(RBAC, ORG) == BOTH
    ensures var steps := [Check(1, Removes("a", "b"), {"ba"}, BOTH, "r"), Check(2, Removes("b", "a"), {"bb"}, BOTH, "r"),
                          WriteRevoke(1, "bb"), WriteRevoke(2, "ba")];
            Runs(TABLES, START, steps) && Owners(After(TABLES, START, steps).rbac, ORG) == {}
  {
    StartReady();
    BothOwn();
    BothPass();
    BothLeave();
    FourSteps(TABLES, START, Check(1, Removes("a", "b"), {"ba"}, BOTH, "r"),
              Check(2, Removes("b", "a"), {"bb"}, BOTH, "r"), WriteRevoke(1, "bb"), WriteRevoke(2, "ba"));
  }
}
