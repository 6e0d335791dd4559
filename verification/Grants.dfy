/**
 * Granting and revoking roles: the guards of internal/service/rbac_service.go, the writes of
 * internal/store/postgres/rbac.go, and runs of both. Resources and role definitions stay as they are.
 */
module Grants {
  import opened Wrappers
  import opened Text
  import opened Tables
  import opened Rbac
  import opened Coverage
  import opened ParentCoverage

  const PLATFORM_ADMIN := "platform_admin"
  const ORG_OWNER := "org_owner"
  const BIND := "rbac:binding:manage"
  const PAGE := 100  // the asked page size of 200 is clamped to maxPageSize

  datatype Request =
    | Grant(caller: Id, target: Id, email: string, roleCode: string, scopeType: string, scopeId: string,
            expiresAt: Option<Time>)
    | Revoke(caller: Id, target: Id, roleCode: string, scopeType: string, scopeId: string)

  // ---- what the guards look up ----

  /** The role a code names: GetRole and roleIdByCodeTx. */
  predicate IsRole(r: Rbac, code: string, roleId: Id) {
    roleId in r.roles && !r.roles[roleId].isDeleted && r.roles[roleId].code == code
  }

  ghost predicate UniqueRoleCodes(r: Rbac) {
    forall a, b, code :: IsRole(r, code, a) && IsRole(r, code, b) ==> a == b
  }

  ghost function FoundRole(r: Rbac, code: string): (found: Option<Id>)
    ensures found.Some? ==> IsRole(r, code, found.value)
    ensures found.None? ==> forall x :: !IsRole(r, code, x)
  {
    if exists x :: IsRole(r, code, x) then var x :| IsRole(r, code, x); Some(x) else None
  }

  /** rolePermissionCodes */
  function RoleCodes(r: Rbac, roleId: Id): set<string>
    requires roleId in r.roles
  {
    set c | c in r.roles[roleId].permissions && c in r.permissions
  }

  /** The rows listRoleBindings selects: not deleted, whether or not expired. */
  predicate ListedBinding(r: Rbac, b: Id) {
    && b in r.bindings && !r.bindings[b].isDeleted
    && r.bindings[b].userId in r.users && r.bindings[b].roleId in r.roles
  }

  function UserGrants(r: Rbac, userId: Id): set<Id> {
    set b | b in r.bindings && ListedBinding(r, b) && r.bindings[b].userId == userId
  }

  function ScopeGrants(r: Rbac, scope: Scope): set<Id> {
    set b | b in r.bindings && ListedBinding(r, b) && BoundAt(r.bindings[b], scope)
  }

  /** The first page of a listing: everything, or PAGE of the rows. */
  predicate IsPage(page: set<Id>, rows: set<Id>) {
    page <= rows && (if |rows| <= PAGE then page == rows else |page| == PAGE)
  }

  predicate IsPlatformAdmin(r: Rbac, page: set<Id>) {
    exists b :: b in page && b in r.bindings && r.bindings[b].roleId in r.roles
                && r.roles[r.bindings[b].roleId].code == PLATFORM_ADMIN && r.bindings[b].kind == Global
  }

  // ---- the guards ----

  /** Who may ask at all; `admin` is the answer of isPlatformAdmin. */
  function Admission(t: Tables, r: Rbac, now: Time, q: Request, admin: bool): Result<()> {
    if TrimSpace(q.caller) == "" || TrimSpace(q.caller) == TrimSpace(q.target) then Err(ErrPermissionDenied)
    else if q.scopeType == "global" && !admin then Err(ErrPermissionDenied)
    else
      match Allow(t, r, now, q.caller, BIND, q.scopeType, q.scopeId)
      case Err(e) => Err(e)
      case Ok(_) => if q.Grant? && q.roleCode == PLATFORM_ADMIN && !admin then Err(ErrPermissionDenied) else Ok(())
  }

  /** Whether the role, the one the code names, may be handled there by the caller. */
  function RoleAdmission(t: Tables, r: Rbac, now: Time, q: Request, roleId: Option<Id>): Result<()>
    requires roleId.Some? ==> roleId.value in r.roles
  {
    if TrimSpace(q.roleCode) == "" || roleId.None? then Err(ErrNotFound)
    else if !RoleFitsScope(r.roles[roleId.value], q.scopeType) then Err(ErrConflict)
    else CheckCallerParentCoverage(t, r, now, q.caller, RoleCodes(r, roleId.value), q.scopeType, q.scopeId)
  }

  /** Everything the service checks before a grant or revoke reaches the store. */
  function Guard(t: Tables, r: Rbac, now: Time, q: Request, admin: bool, roleId: Option<Id>): Result<()>
    requires roleId.Some? ==> roleId.value in r.roles
  {
    match Admission(t, r, now, q, admin)
    case Err(e) => Err(e)
    case Ok(_) => RoleAdmission(t, r, now, q, roleId)
  }

  /** validateRoleBindingScope */
  predicate RoleFitsScope(role: Role, scopeType: string) {
    var roleScope, bindingScope := TrimSpace(role.scopeType), TrimSpace(scopeType);
    roleScope == "" || bindingScope == "" || roleScope == bindingScope
  }

  /** The last-owner check of RevokeRole, on the page of bindings it fetched. */
  predicate LeavesOwner(r: Rbac, q: Request, page: set<Id>)
    requires page <= r.bindings.Keys
  {
    q.roleCode == ORG_OWNER && q.scopeType == "organization" ==>
      |set b | b in page && r.bindings[b].roleId in r.roles && r.roles[r.bindings[b].roleId].code == ORG_OWNER| > 1
  }

  // ---- the writes ----

  /** The scope types user_role_bindings accepts, spelled exactly. */
  function BindingKind(scopeType: string): Option<Kind> {
    match scopeType
    case "global" => Some(Global)
    case "organization" => Some(Organization)
    case "project" => Some(Project)
    case "environment" => Some(Environment)
    case "folder" => Some(Folder)
    case _ => None
  }

  function ScopeIdOf(scopeId: string): Option<Id> {
    if scopeId == "" then None else Some(scopeId)
  }

  /** upsertUserByIdTx: an existing user keeps everything but the email; unique violations are conflicts. */
  function UpsertUser(r: Rbac, userId: string, email: string): Result<Rbac> {
    var id := TrimSpace(userId);
    if id == "" then Err(ErrNotFound)
    else if email != "" && exists u :: u in r.users && u != id && r.users[u].email == email then Err(ErrConflict)
    else if id in r.users then
      Ok(if email == "" then r else r.(users := r.users[id := r.users[id].(email := email)]))
    else if exists u :: u in r.users && r.users[u].externalUserId == id then Err(ErrConflict)
    else Ok(r.(users := r.users[id := User(id, email, false)]))
  }

  predicate BindsAlready(r: Rbac, b: Id, q: Request, roleId: Id) {
    && b in r.bindings && !r.bindings[b].isDeleted && r.bindings[b].userId == TrimSpace(q.target)
    && r.bindings[b].roleId == roleId && BindingKind(q.scopeType) == Some(r.bindings[b].kind)
    && r.bindings[b].scopeId == ScopeIdOf(TrimSpace(q.scopeId))
  }

  /** RBACStore.GrantRole; `newId` is the id drawn for the row. */
  function StoreGrant(r: Rbac, q: Request, roleId: Id, newId: Id): Result<Rbac>
    requires q.Grant?
  {
    match UpsertUser(r, q.target, q.email)
    case Err(e) => Err(e)
    case Ok(r1) =>
      if exists b :: b in r1.bindings && BindsAlready(r1, b, q, roleId) then Ok(r1)
      else if BindingKind(q.scopeType).None? then Err(ErrOther)
      else
        var row := Binding(TrimSpace(q.target), roleId, BindingKind(q.scopeType).value, ScopeIdOf(q.scopeId),
                           q.expiresAt, false);
        if !BindingScopeOk(row) || newId in r1.bindings then Err(ErrOther)
        else Ok(r1.(bindings := r1.bindings[newId := row]))
  }

  /** A row RBACStore.RevokeRole may pick. */
  predicate Revocable(r: Rbac, q: Request, b: Id) {
    && ListedBinding(r, b) && r.bindings[b].userId == q.target
    && r.roles[r.bindings[b].roleId].code == q.roleCode
    && BindingKind(q.scopeType) == Some(r.bindings[b].kind) && r.bindings[b].scopeId == ScopeIdOf(q.scopeId)
  }

  function StoreRevoke(r: Rbac, b: Id): Rbac
    requires b in r.bindings
  {
    r.(bindings := r.bindings[b := r.bindings[b].(isDeleted := true)])
  }

  // ---- what the guards demand, told by the rows ----

  /** The page shows a live global binding of the user to platform_admin. */
  ghost predicate ShowsAdmin(r: Rbac, page: set<Id>) {
    exists b :: b in page && b in r.bindings && r.bindings[b].kind == Global
                && r.bindings[b].roleId in r.roles && r.roles[r.bindings[b].roleId].code == "platform_admin"
  }

  ghost predicate Names(r: Rbac, roleId: Id, code: string) {
    roleId in r.roles && !r.roles[roleId].isDeleted && r.roles[roleId].code == code
  }

  /** A row the revoke names: the target's, not deleted, to a role of that code, at exactly that scope. */
  ghost predicate TargetsRow(r: Rbac, q: Request, b: Id) {
    && b in r.bindings && r.bindings[b].userId == q.target && !r.bindings[b].isDeleted
    && r.bindings[b].roleId in r.roles && r.roles[r.bindings[b].roleId].code == q.roleCode
    && (match r.bindings[b].kind
        case Global => q.scopeType == "global"
        case Organization => q.scopeType == "organization"
        case Project => q.scopeType == "project"
        case Environment => q.scopeType == "environment"
        case Folder => q.scopeType == "folder"
        case Secret => false)
    && (match r.bindings[b].scopeId case None => q.scopeId == "" case Some(id) => id == q.scopeId != "")
  }

  /** One row is marked deleted and nothing else has changed. */
  ghost predicate Unbound(r: Rbac, r': Rbac, b: Id) {
    b in r.bindings && r' == r.(bindings := r.bindings[b := r.bindings[b].(isDeleted := true)])
  }

  lemma {:induction false} RevocableIsTargeted(r: Rbac, q: Request, b: Id)
    ensures Revocable(r, q, b) <==> TargetsRow(r, q, b) && r.bindings[b].userId in r.users
  {
  }

  /** What upserting the target does: nobody but the target changes, an existing target keeps everything but a given
      email, a new one is enabled. When it is refused. */
  lemma {:induction false} UpsertMeans(r: Rbac, userId: string, email: string)
    ensures var id := TrimSpace(userId); var result := UpsertUser(r, userId, email);
            && (id == "" ==> result == Err(ErrNotFound))
            && (id != "" ==>
                 (result.Err? <==> || (email != "" && exists u :: u in r.users && u != id && r.users[u].email == email)
                                   || (id !in r.users && exists u :: u in r.users && r.users[u].externalUserId == id)))
            && (id != "" && result.Err? ==> result == Err(ErrConflict))
            && (result.Ok? ==>
                 var r' := result.value;
                 && r' == r.(users := r'.users) && r'.users.Keys == r.users.Keys + {id}
                 && (forall u :: u in r.users && u != id ==> r'.users[u] == r.users[u])
                 && (if id in r.users then r'.users[id] == (if email == "" then r.users[id] else r.users[id].(email := email))
                     else r'.users[id].isDisabled == false && r'.users[id].email == email && r'.users[id].externalUserId == id))
  {
  }

  /** A page of a user's grants holds a hundred rows at most, only rows of that user that are not deleted; when there are a
      hundred or fewer it holds all of them. */
  lemma {:induction false} PageShows(r: Rbac, page: set<Id>, userId: Id)
    requires IsPage(page, UserGrants(r, userId))
    ensures |page| <= 100
    ensures forall b :: b in page ==> b in r.bindings && r.bindings[b].userId == userId && !r.bindings[b].isDeleted
    ensures |UserGrants(r, userId)| <= 100 ==>
            forall b :: (b in r.bindings && r.bindings[b].userId == userId && !r.bindings[b].isDeleted
                         && userId in r.users && r.bindings[b].roleId in r.roles) ==> b in page
  {
  }

  /** The guards' answer, failure by failure in their order: the caller must be named and not the target; a global scope
      takes a platform admin; binding must be allowed at the scope; granting platform_admin takes one too; the role must
      exist and fit the scope; and the caller must cover what it does. */
  lemma {:induction false} GuardAnswers(t: Tables, r: Rbac, now: Time, q: Request, page: set<Id>)
    ensures var roleId := FoundRole(r, q.roleCode);
            var answer := Guard(t, r, now, q, IsPlatformAdmin(r, page), roleId);
            var allowed := Allow(t, r, now, q.caller, "rbac:binding:manage", q.scopeType, q.scopeId);
            if TrimSpace(q.caller) == "" || TrimSpace(q.caller) == TrimSpace(q.target) then answer == Err(ErrPermissionDenied)
            else if q.scopeType == "global" && !ShowsAdmin(r, page) then answer == Err(ErrPermissionDenied)
            else if allowed.Err? then answer == allowed
            else if q.Grant? && q.roleCode == "platform_admin" && !ShowsAdmin(r, page) then
              answer == Err(ErrPermissionDenied)
            else if TrimSpace(q.roleCode) == "" || !exists x :: Names(r, x, q.roleCode) then answer == Err(ErrNotFound)
            else
              roleId.Some? && Names(r, roleId.value, q.roleCode)
              && if RoleElsewhere(r.roles[roleId.value], q.scopeType) then answer == Err(ErrConflict)
                 else answer == CheckCallerParentCoverage(t, r, now, q.caller, CarriedBy(r, roleId.value), q.scopeType,
                                                          q.scopeId)
  {
    assert forall x :: Names(r, x, q.roleCode) <==> IsRole(r, q.roleCode, x);
  }

  /** The role is meant for another type of scope. */
  ghost predicate RoleElsewhere(role: Role, scopeType: string) {
    TrimSpace(role.scopeType) != "" && TrimSpace(scopeType) != "" && TrimSpace(role.scopeType) != TrimSpace(scopeType)
  }

  ghost function CarriedBy(r: Rbac, roleId: Id): set<string>
    requires roleId in r.roles
  {
    set c | c in r.roles[roleId].permissions && c in r.permissions
  }

  /** What a request that gets through has shown. */
  ghost predicate Demands(t: Tables, r: Rbac, now: Time, q: Request, page: set<Id>) {
    && TrimSpace(q.caller) != "" && TrimSpace(q.caller) != TrimSpace(q.target)
    && (q.scopeType == "global" || (q.Grant? && q.roleCode == "platform_admin") ==> ShowsAdmin(r, page))
    && Allow(t, r, now, q.caller, "rbac:binding:manage", q.scopeType, q.scopeId).Ok?
    && exists x :: Names(r, x, q.roleCode) && !RoleElsewhere(r.roles[x], q.scopeType)
                   && CheckCallerParentCoverage(t, r, now, q.caller, CarriedBy(r, x), q.scopeType, q.scopeId).Ok?
  }

  lemma {:induction false} GuardDemands(t: Tables, r: Rbac, now: Time, q: Request, page: set<Id>)
    requires Guard(t, r, now, q, IsPlatformAdmin(r, page), FoundRole(r, q.roleCode)).Ok?
    ensures Demands(t, r, now, q, page)
  {
    GuardAnswers(t, r, now, q, page);
    var x := FoundRole(r, q.roleCode).value;
    assert Names(r, x, q.roleCode);
  }

  /** The page of an organization's bindings shows at least two org_owner ones. */
  ghost predicate ShowsTwoOwners(r: Rbac, page: set<Id>)
    requires page <= r.bindings.Keys
  {
    |set b | b in page && r.bindings[b].roleId in r.roles && r.roles[r.bindings[b].roleId].code == "org_owner"| >= 2
  }

  // ---- the service, one call at a time ----

  class Service {
    var rbac: Rbac

    method FindRole(code: string) returns (roleId: Option<Id>)
      requires UniqueRoleCodes(rbac)
      ensures roleId == FoundRole(rbac, code)
    {
      if x :| x in rbac.roles && IsRole(rbac, code, x) { return Some(x); }
      return None;
    }

    method CheckParentCoverage(t: Tables, now: Time, caller: Id, codes: set<string>, scopeType: string, scopeId: string)
      returns (answer: Result<()>)
      ensures answer == CheckCallerParentCoverage(t, rbac, now, caller, codes, scopeType, scopeId)
    {
      if codes == {} { return Ok(()); }
      if TrimSpace(scopeType) == "" { return Err(ErrOther); }
      var scopes := ResourceScopes(t, TrimSpace(scopeType), scopeId);
      if scopes.Err? { return Err(scopes.error); }
      var chain := scopes.value;
      ghost var answers := Answers(t, rbac, now, caller, codes, chain);
      var k := 0;
      while k < |chain|
        invariant k <= |chain| && Verdict(answers) == Verdict(answers[k..])
      {
        assert answers[k..][0] == answers[k] && answers[k..][1..] == answers[k + 1..];
        var covers := CoversAt(t, rbac, now, caller, codes, chain[k]);
        if covers.Err? { return Err(covers.error); }
        if covers.value { return Ok(()); }
        k := k + 1;
      }
      return Err(ErrPermissionDenied);
    }

    method CheckAdmission(t: Tables, now: Time, q: Request, grants: set<Id>) returns (answer: Result<()>)
      ensures answer == Admission(t, rbac, now, q, IsPlatformAdmin(rbac, grants))
    {
      var caller := TrimSpace(q.caller);
      if caller == "" || caller == TrimSpace(q.target) { return Err(ErrPermissionDenied); }
      var admin := IsPlatformAdmin(rbac, grants);
      if q.scopeType == "global" && !admin { return Err(ErrPermissionDenied); }
      var allowed := Allow(t, rbac, now, q.caller, BIND, q.scopeType, q.scopeId);
      if allowed.Err? { return Err(allowed.error); }
      if q.Grant? && q.roleCode == PLATFORM_ADMIN && !admin { return Err(ErrPermissionDenied); }
      return Ok(());
    }

    method CheckRole(t: Tables, now: Time, q: Request) returns (answer: Result<Id>)
      requires UniqueRoleCodes(rbac)
      ensures answer == match RoleAdmission(t, rbac, now, q, FoundRole(rbac, q.roleCode))
                        case Err(e) => Err(e)
                        case Ok(_) => Ok(FoundRole(rbac, q.roleCode).value)
    {
      if TrimSpace(q.roleCode) == "" { return Err(ErrNotFound); }
      var found := FindRole(q.roleCode);
      if found.None? { return Err(ErrNotFound); }
      if !RoleFitsScope(rbac.roles[found.value], q.scopeType) { return Err(ErrConflict); }
      var covered := CheckParentCoverage(t, now, q.caller, RoleCodes(rbac, found.value), q.scopeType, q.scopeId);
      if covered.Err? { return Err(covered.error); }
      return Ok(found.value);
    }

    /** `grants` is the page of the caller's grants. */
    method GrantRole(t: Tables, now: Time, q: Request, grants: set<Id>, newId: Id) returns (answer: Result<()>)
      requires q.Grant? && UniqueRoleCodes(rbac) && IsPage(grants, UserGrants(rbac, q.caller))
      modifies this
      ensures var before := old(rbac); var found := FoundRole(before, q.roleCode);
              match Guard(t, before, now, q, IsPlatformAdmin(before, grants), found)
              case Err(e) => answer == Err(e) && rbac == before
              case Ok(_) =>
                match StoreGrant(before, q, found.value, newId)
                case Err(e) => answer == Err(e) && rbac == before
                case Ok(after) => answer == Ok(()) && rbac == after
      ensures answer.Ok? ==> Demands(t, old(rbac), now, q, grants)
    {
      ghost var before := rbac;
      if Guard(t, before, now, q, IsPlatformAdmin(before, grants), FoundRole(before, q.roleCode)).Ok? {
        GuardDemands(t, before, now, q, grants);
      }
      var admitted := CheckAdmission(t, now, q, grants);
      if admitted.Err? { return Err(admitted.error); }
      var role := CheckRole(t, now, q);
      if role.Err? { return Err(role.error); }
      var stored := StoreGrant(rbac, q, role.value, newId);
      if stored.Err? { return Err(stored.error); }
      rbac := stored.value;
      return Ok(());
    }

    /** `owners` is the page of bindings at the scope. */
    method RevokeRole(t: Tables, now: Time, q: Request, grants: set<Id>, owners: set<Id>) returns (answer: Result<()>)
      requires q.Revoke? && UniqueRoleCodes(rbac) && IsPage(grants, UserGrants(rbac, q.caller))
      requires IsPage(owners, ScopeGrants(rbac, Scope(Organization, q.scopeId)))
      modifies this
      ensures var before := old(rbac);
              match Guard(t, before, now, q, IsPlatformAdmin(before, grants), FoundRole(before, q.roleCode))
              case Err(e) => answer == Err(e) && rbac == before
              case Ok(_) =>
                if !LeavesOwner(before, q, owners) then answer == Err(ErrConflict) && rbac == before
                else if exists b :: Revocable(before, q, b) then
                  answer == Ok(()) && exists b :: Revocable(before, q, b) && rbac == StoreRevoke(before, b)
                else answer == Err(ErrNotFound) && rbac == before
      ensures answer.Ok? ==> Demands(t, old(rbac), now, q, grants)
      ensures answer.Ok? && q.roleCode == "org_owner" && q.scopeType == "organization" ==> ShowsTwoOwners(old(rbac), owners)
      ensures answer.Ok? ==> exists b :: TargetsRow(old(rbac), q, b) && Unbound(old(rbac), rbac, b)
    {
      ghost var before := rbac;
      if Guard(t, before, now, q, IsPlatformAdmin(before, grants), FoundRole(before, q.roleCode)).Ok? {
        GuardDemands(t, before, now, q, grants);
      }
      var admitted := CheckAdmission(t, now, q, grants);
      if admitted.Err? { return Err(admitted.error); }
      var role := CheckRole(t, now, q);
      if role.Err? { return Err(role.error); }
      if !LeavesOwner(rbac, q, owners) { return Err(ErrConflict); }
      if b :| b in rbac.bindings && Revocable(rbac, q, b) {
        RevocableIsTargeted(rbac, q, b);
        rbac := StoreRevoke(rbac, b);
        assert Unbound(before, rbac, b);
        return Ok(());
      }
      return Err(ErrNotFound);
    }
  }

  /** A grant that succeeds leaves its target bound to the role at the scope, as asked or trimmed; the row is new, with
      the asked expiry, exactly when there was none, and every other row is as before. */
  lemma {:induction false} GrantBinds(r: Rbac, q: Request, roleId: Id, newId: Id)
    requires q.Grant? && StoreGrant(r, q, roleId, newId).Ok?
    ensures var r' := StoreGrant(r, q, roleId, newId).value;
            && (exists b :: BoundAsAsked(r', b, q, roleId)) && TrimSpace(q.target) in r'.users
            && (forall b :: b in r.bindings ==> b in r'.bindings && r'.bindings[b] == r.bindings[b])
            && (if exists b :: BindsAlready(r, b, q, roleId) then r'.bindings == r.bindings
                else r'.bindings.Keys == r.bindings.Keys + {newId} && newId !in r.bindings
                     && r'.bindings[newId].expiresAt == q.expiresAt && BoundAsAsked(r', newId, q, roleId))
  {
    var r' := StoreGrant(r, q, roleId, newId).value;
    var r1 := UpsertUser(r, q.target, q.email).value;
    assert r1.bindings == r.bindings;
    assert forall b :: BindsAlready(r1, b, q, roleId) <==> BindsAlready(r, b, q, roleId);
    if b :| BindsAlready(r, b, q, roleId) {
      assert BoundAsAsked(r', b, q, roleId);
    } else {
      assert BoundAsAsked(r', newId, q, roleId);
    }
  }

  /** An active binding of the target to the role at the scope asked for; the lookup trims the scope id, the insert does
      not. */
  predicate BoundAsAsked(r: Rbac, b: Id, q: Request, roleId: Id) {
    && b in r.bindings && !r.bindings[b].isDeleted && r.bindings[b].userId == TrimSpace(q.target)
    && r.bindings[b].roleId == roleId && BindingKind(q.scopeType) == Some(r.bindings[b].kind)
    && (r.bindings[b].scopeId == ScopeIdOf(q.scopeId) || r.bindings[b].scopeId == ScopeIdOf(TrimSpace(q.scopeId)))
  }

  /** A revoke deletes its one binding and touches no other. */
  lemma {:induction false} RevokeUnbinds(r: Rbac, q: Request, b: Id)
    requires Revocable(r, q, b)
    ensures var r' := StoreRevoke(r, b);
            && !Revocable(r', q, b) && r'.users == r.users && r'.bindings.Keys == r.bindings.Keys
            && (forall x :: x in r.bindings && x != b ==> r'.bindings[x] == r.bindings[x])
            && (forall now, u, x :: Live(r', now, u, x) <==> Live(r, now, u, x) && x != b)
  {
  }

  // ---- requests in flight ----

  /** Checking and writing are separate steps; a request that passed the guards waits in `pending` under an id. */
  datatype State = State(rbac: Rbac, now: Time, pending: map<nat, Request>)

  /** `grants` is the page of the caller's grants and `owners` the page the last-owner check reads. */
  datatype Step =
    | Tick(now: Time)
    | Check(id: nat, q: Request, grants: set<Id>, owners: set<Id>, roleId: Id)
    | WriteGrant(id: nat, roleId: Id, newId: Id)
    | WriteRevoke(id: nat, binding: Id)
    | Abandon(id: nat)  // an error, or no binding to revoke: nothing is written

  predicate Enabled(t: Tables, s: State, step: Step) {
    match step
    case Tick(now) => s.now <= now
    case Check(id, q, grants, owners, roleId) =>
      && id !in s.pending
      && IsPage(grants, UserGrants(s.rbac, q.caller)) && IsRole(s.rbac, q.roleCode, roleId)
      && Guard(t, s.rbac, s.now, q, IsPlatformAdmin(s.rbac, grants), Some(roleId)).Ok?
      && (q.Revoke? ==> IsPage(owners, ScopeGrants(s.rbac, Scope(Organization, q.scopeId)))
                        && LeavesOwner(s.rbac, q, owners))
    case WriteGrant(id, roleId, _) =>
      id in s.pending && s.pending[id].Grant? && IsRole(s.rbac, s.pending[id].roleCode, roleId)
    case WriteRevoke(id, b) => id in s.pending && s.pending[id].Revoke? && Revocable(s.rbac, s.pending[id], b)
    case Abandon(id) => id in s.pending
  }

  function Next(t: Tables, s: State, step: Step): State
    requires Enabled(t, s, step)
  {
    match step
    case Tick(now) => s.(now := now)
    case Check(id, q, _, _, _) => s.(pending := s.pending[id := q])
    case WriteGrant(id, roleId, newId) =>
      var after := s.(pending := s.pending - {id});
      (match StoreGrant(s.rbac, s.pending[id], roleId, newId)
       case Err(_) => after
       case Ok(r) => after.(rbac := r))
    case WriteRevoke(id, b) => State(StoreRevoke(s.rbac, b), s.now, s.pending - {id})
    case Abandon(id) => s.(pending := s.pending - {id})
  }

  ghost predicate Runs(t: Tables, s: State, steps: seq<Step>)
    decreases |steps|, 0
  {
    steps == [] || (Runs(t, s, steps[..|steps| - 1])
                    && Enabled(t, After(t, s, steps[..|steps| - 1]), steps[|steps| - 1]))
  }

  ghost function After(t: Tables, s: State, steps: seq<Step>): State
    requires Runs(t, s, steps)
    decreases |steps|, 1
  {
    if steps == [] then s else Next(t, After(t, s, steps[..|steps| - 1]), steps[|steps| - 1])
  }

  // ---- nobody gains an action nobody had ----

  /** Some user can do the action where these scopes apply. */
  ghost predicate SomeoneCan(r: Rbac, now: Time, scopes: seq<Scope>, action: string) {
    exists u :: action in Doable(UserPermissions(r, now, u, scopes))
  }

  /** Some waiting grant would let its target do the action where these scopes apply. */
  ghost predicate SomeoneAboutTo(s: State, scopes: seq<Scope>, action: string) {
    exists id, roleId :: AboutTo(s, id, roleId, scopes, action)
  }

  predicate AboutTo(s: State, id: nat, roleId: Id, scopes: seq<Scope>, action: string) {
    && id in s.pending && s.pending[id].Grant? && IsRole(s.rbac, s.pending[id].roleCode, roleId)
    && LandsOn(s.pending[id], scopes) && action in Doable(RoleCodes(s.rbac, roleId))
  }

  predicate LandsOn(q: Request, scopes: seq<Scope>) {
    BindingKind(q.scopeType).Some? && Scope(BindingKind(q.scopeType).value, q.scopeId) in scopes
  }

  ghost predicate Possible(s: State, scopes: seq<Scope>, action: string) {
    SomeoneCan(s.rbac, s.now, scopes, action) || SomeoneAboutTo(s, scopes, action)
  }

  /** Bindings belong to existing users. */
  ghost predicate Owned(r: Rbac) {
    forall b :: b in r.bindings ==> r.bindings[b].userId in r.users
  }

  /** What a step leaves alone. */
  ghost predicate SameRoles(r: Rbac, r': Rbac) {
    r'.roles == r.roles && r'.permissions == r.permissions
  }

  /** Every live binding of r' was live in r, except possibly the new row. */
  ghost predicate NothingElseLive(r: Rbac, now: Time, r': Rbac, now': Time, newId: Id) {
    forall u, b :: Live(r', now', u, b) && b != newId ==> Live(r, now, u, b) && r'.bindings[b] == r.bindings[b]
  }

  lemma {:induction false} PermissionsSplit(r: Rbac, now: Time, r': Rbac, now': Time, newId: Id, u: Id,
                                            scopes: seq<Scope>, extra: set<string>)
    requires SameRoles(r, r') && NothingElseLive(r, now, r', now', newId)
    requires forall code, k :: 0 <= k < |scopes| && Holds(r', now', u, newId, code) && BoundAt(r'.bindings[newId], scopes[k])
                               ==> code in extra
    ensures UserPermissions(r', now', u, scopes) <= UserPermissions(r, now, u, scopes) + extra
  {
    forall code | code in UserPermissions(r', now', u, scopes) && code !in extra
      ensures code in UserPermissions(r, now, u, scopes)
    {
      var b, k :| b in r'.bindings && 0 <= k < |scopes| && Holds(r', now', u, b, code) && BoundAt(r'.bindings[b], scopes[k]);
      assert b != newId;
      assert Live(r, now, u, b) && Holds(r, now, u, b, code) && BoundAt(r.bindings[b], scopes[k]);
    }
  }

  /** With no new row, nobody can do more. */
  lemma {:induction false} FewerCan(r: Rbac, now: Time, r': Rbac, now': Time, scopes: seq<Scope>, action: string)
    requires SameRoles(r, r') && SomeoneCan(r', now', scopes, action)
    requires forall u, b :: Live(r', now', u, b) ==> Live(r, now, u, b) && r'.bindings[b] == r.bindings[b]
    ensures SomeoneCan(r, now, scopes, action)
  {
    var u :| action in Doable(UserPermissions(r', now', u, scopes));
    var fewer, more := UserPermissions(r', now', u, scopes), UserPermissions(r, now, u, scopes);
    forall code | code in fewer
      ensures code in more
    {
      var b, k :| b in r'.bindings && 0 <= k < |scopes| && Holds(r', now', u, b, code) && BoundAt(r'.bindings[b], scopes[k]);
      assert Live(r, now, u, b) && Holds(r, now, u, b, code) && BoundAt(r.bindings[b], scopes[k]);
    }
    DoableMonotone(fewer, more);
  }

  lemma {:induction false} UpsertKeepsLive(r: Rbac, userId: string, email: string, now: Time)
    requires Owned(r) && UpsertUser(r, userId, email).Ok?
    ensures var r1 := UpsertUser(r, userId, email).value;
            && SameRoles(r, r1) && r1.bindings == r.bindings && Owned(r1) && TrimSpace(userId) in r1.users
            && (forall u, b :: Live(r1, now, u, b) ==> Live(r, now, u, b))
  {
  }

  /** A new row lets its user do only what the role does, and only where it lands. */
  lemma {:induction false} RowSplit(r: Rbac, now: Time, row: Binding, newId: Id, scopes: seq<Scope>, action: string)
    requires newId !in r.bindings && BindingScopeOk(row) && row.roleId in r.roles
    requires SomeoneCan(r.(bindings := r.bindings[newId := row]), now, scopes, action)
    ensures SomeoneCan(r, now, scopes, action)
            || (action in Doable(RoleCodes(r, row.roleId)) && exists s :: s in scopes && BoundAt(row, s))
  {
    var r' := r.(bindings := r.bindings[newId := row]);
    var u :| action in Doable(UserPermissions(r', now, u, scopes));
    var extra := if exists s :: s in scopes && BoundAt(row, s) then RoleCodes(r, row.roleId) else {};
    forall code, k | 0 <= k < |scopes| && Holds(r', now, u, newId, code) && BoundAt(r'.bindings[newId], scopes[k])
      ensures code in extra
    {
      assert scopes[k] in scopes && BoundAt(row, scopes[k]);
    }
    PermissionsSplit(r, now, r', now, newId, u, scopes, extra);
    var more := UserPermissions(r, now, u, scopes);
    DoableMonotone(UserPermissions(r', now, u, scopes), more + extra);
    ActionsUnion(more, extra);
    if action !in Doable(more) {
      assert action in Doable(extra);
      NothingDoable();
    }
  }

  lemma {:induction false} UpsertAddsNothing(r: Rbac, now: Time, q: Request, scopes: seq<Scope>, action: string)
    requires Owned(r) && q.Grant? && UpsertUser(r, q.target, q.email).Ok?
    requires SomeoneCan(UpsertUser(r, q.target, q.email).value, now, scopes, action)
    ensures SomeoneCan(r, now, scopes, action)
  {
    UpsertKeepsLive(r, q.target, q.email, now);
    FewerCan(r, now, UpsertUser(r, q.target, q.email).value, now, scopes, action);
  }

  lemma {:induction false} GrantSplit(r: Rbac, now: Time, q: Request, roleId: Id, newId: Id, scopes: seq<Scope>,
                                      action: string)
    requires Owned(r) && q.Grant? && IsRole(r, q.roleCode, roleId) && StoreGrant(r, q, roleId, newId).Ok?
    requires SomeoneCan(StoreGrant(r, q, roleId, newId).value, now, scopes, action)
    requires forall s :: s in scopes && s.kind == Global ==> s.id == ""
    ensures SomeoneCan(r, now, scopes, action)
            || (LandsOn(q, scopes) && action in Doable(RoleCodes(r, roleId)))
  {
    var r1 := UpsertUser(r, q.target, q.email).value;
    UpsertKeepsLive(r, q.target, q.email, now);
    if !SomeoneCan(r1, now, scopes, action) {
      var row := Binding(TrimSpace(q.target), roleId, BindingKind(q.scopeType).value, ScopeIdOf(q.scopeId), q.expiresAt, false);
      RowSplit(r1, now, row, newId, scopes, action);
      RowLands(q, row, scopes);
    } else {
      UpsertAddsNothing(r, now, q, scopes, action);
    }
  }

  lemma {:induction false} RowLands(q: Request, row: Binding, scopes: seq<Scope>)
    requires BindingKind(q.scopeType) == Some(row.kind) && row.scopeId == ScopeIdOf(q.scopeId) && BindingScopeOk(row)
    requires forall s :: s in scopes && s.kind == Global ==> s.id == ""
    requires exists s :: s in scopes && BoundAt(row, s)
    ensures LandsOn(q, scopes)
  {
    var s :| s in scopes && BoundAt(row, s);
    assert s == Scope(row.kind, q.scopeId);
  }

  /** Passing the guards means the caller can already do all the role does wherever the grant lands. */
  lemma {:induction false} GuardCovers(t: Tables, r: Rbac, now: Time, q: Request, admin: bool, roleId: Id, kind: Kind,
                                       id: Id, action: string)
    requires FoldersNested(t.folders) && ScopesOf(t, kind, id).Ok?
    requires IsRole(r, q.roleCode, roleId) && Guard(t, r, now, q, admin, Some(roleId)).Ok?
    requires LandsOn(q, ScopesOf(t, kind, id).value) && action in Doable(RoleCodes(r, roleId))
    ensures SomeoneCan(r, now, ScopesOf(t, kind, id).value, action)
  {
    var codes := RoleCodes(r, roleId);
    var scope := Scope(BindingKind(q.scopeType).value, q.scopeId);
    KindsNamed(q.scopeType);
    if codes == {} {
      assert Actions(codes) == {};
      assert Doable(codes) == {} by { NothingDoable(); }
      assert false;
    }
    var chain := ResourceScopes(t, TrimSpace(q.scopeType), q.scopeId).value;
    assert ScopesOf(t, scope.kind, scope.id) == Ok(chain);
    VerdictMeans(Answers(t, r, now, q.caller, codes, chain));
    var k :| 0 <= k < |chain| && CoversAt(t, r, now, q.caller, codes, chain[k]) == Ok(true);
    CoverRises(t, r, now, q.caller, codes, scope.kind, scope.id, chain[k]);
    CoverRises(t, r, now, q.caller, codes, kind, id, scope);
    assert action in Doable(UserPermissions(r, now, q.caller, ScopesOf(t, kind, id).value));
  }

  lemma {:induction false} NothingDoable()
    ensures Doable({}) == {}
  {
    assert Actions({}) == {};
  }

  lemma {:induction false} KindsNamed(scopeType: string)
    requires BindingKind(scopeType).Some?
    ensures TrimSpace(scopeType) == scopeType && NormalizeResourceType(scopeType) == BindingKind(scopeType)
  {
    TrimmedStays(scopeType);
    match scopeType {
      case "global" => GlobalType();
      case "organization" => OrganizationType();
      case "project" => ProjectType();
      case "environment" => EnvironmentType();
      case "folder" => FolderType();
    }
  }

  ghost predicate Ready(t: Tables, s: State) {
    FoldersNested(t.folders) && UniqueRoleCodes(s.rbac) && Owned(s.rbac)
  }

  lemma {:induction false} ReadyStep(t: Tables, s: State, step: Step)
    requires Ready(t, s) && Enabled(t, s, step)
    ensures Ready(t, Next(t, s, step)) && SameRoles(s.rbac, Next(t, s, step).rbac)
  {
    var s' := Next(t, s, step);
    if step.WriteGrant? && StoreGrant(s.rbac, s.pending[step.id], step.roleId, step.newId).Ok? {
      UpsertKeepsLive(s.rbac, s.pending[step.id].target, s.pending[step.id].email, s.now);
    }
    assert SameRoles(s.rbac, s'.rbac);
    assert forall x, code :: IsRole(s'.rbac, code, x) ==> IsRole(s.rbac, code, x);
  }

  lemma {:induction false} GlobalUnnamed(t: Tables, kind: Kind, id: Id)
    requires ScopesOf(t, kind, id).Ok?
    ensures forall s :: s in ScopesOf(t, kind, id).value && s.kind == Global ==> s.id == ""
  {
    if kind == Folder || kind == Secret {
      FolderUnnamed(t, if kind == Folder then id else t.secrets[id].folderId);
    }
  }

  lemma {:induction false} FolderUnnamed(t: Tables, f: Id)
    requires FolderScopes(t, f).Ok?
    ensures forall s :: s in FolderScopes(t, f).value && s.kind == Global ==> s.id == ""
  {
    forall s | s in FolderScopes(t, f).value && s.kind == Global
      ensures s.id == ""
    {
      FolderChainHolds(t, f, t.environments[t.folders[f].environmentId].projectId, s);
    }
  }

  lemma {:induction false} AboutToStays(s: State, s': State, scopes: seq<Scope>, action: string)
    requires SameRoles(s.rbac, s'.rbac) && SomeoneAboutTo(s', scopes, action)
    requires forall id :: id in s'.pending ==> id in s.pending && s.pending[id] == s'.pending[id]
    ensures SomeoneAboutTo(s, scopes, action)
  {
    var id, roleId :| AboutTo(s', id, roleId, scopes, action);
    assert RoleCodes(s.rbac, roleId) == RoleCodes(s'.rbac, roleId);
    assert AboutTo(s, id, roleId, scopes, action);
  }

  lemma {:induction false} CheckAddsNothing(t: Tables, s: State, step: Step, kind: Kind, id: Id, action: string)
    requires Ready(t, s) && Enabled(t, s, step) && step.Check? && ScopesOf(t, kind, id).Ok?
    requires Possible(Next(t, s, step), ScopesOf(t, kind, id).value, action)
    ensures Possible(s, ScopesOf(t, kind, id).value, action)
  {
    var scopes := ScopesOf(t, kind, id).value;
    var s' := Next(t, s, step);
    if !SomeoneCan(s.rbac, s.now, scopes, action) {
      var x, roleId :| AboutTo(s', x, roleId, scopes, action);
      if x != step.id {
        assert AboutTo(s, x, roleId, scopes, action);
      } else {
        assert roleId == step.roleId;
        GuardCovers(t, s.rbac, s.now, step.q, IsPlatformAdmin(s.rbac, step.grants), roleId, kind, id, action);
      }
    }
  }

  lemma {:induction false} WriteAddsNothing(t: Tables, s: State, step: Step, kind: Kind, id: Id, action: string)
    requires Ready(t, s) && Enabled(t, s, step) && step.WriteGrant? && ScopesOf(t, kind, id).Ok?
    requires Possible(Next(t, s, step), ScopesOf(t, kind, id).value, action)
    ensures Possible(s, ScopesOf(t, kind, id).value, action)
  {
    var scopes := ScopesOf(t, kind, id).value;
    var s' := Next(t, s, step);
    ReadyStep(t, s, step);
    if SomeoneAboutTo(s', scopes, action) {
      AboutToStays(s, s', scopes, action);
    } else if StoreGrant(s.rbac, s.pending[step.id], step.roleId, step.newId).Ok? {
      GlobalUnnamed(t, kind, id);
      GrantSplit(s.rbac, s.now, s.pending[step.id], step.roleId, step.newId, scopes, action);
      if !SomeoneCan(s.rbac, s.now, scopes, action) {
        assert AboutTo(s, step.id, step.roleId, scopes, action);
      }
    }
  }

  lemma {:induction false} OtherAddsNothing(t: Tables, s: State, step: Step, scopes: seq<Scope>, action: string)
    requires Ready(t, s) && Enabled(t, s, step) && (step.Tick? || step.WriteRevoke? || step.Abandon?)
    requires Possible(Next(t, s, step), scopes, action)
    ensures Possible(s, scopes, action)
  {
    var s' := Next(t, s, step);
    if SomeoneAboutTo(s', scopes, action) {
      AboutToStays(s, s', scopes, action);
    } else {
      FewerCan(s.rbac, s.now, s'.rbac, s'.now, scopes, action);
    }
  }

  /** With roles fixed and role codes unique, over any interleaving of grants and revokes, checks and writes apart:
      whatever somebody can do at a resource at the end, somebody could do there at the start, or a grant already
      past its checks was about to allow it. */
  lemma {:induction false} NobodyGains(t: Tables, s: State, steps: seq<Step>, kind: Kind, id: Id, action: string)
    requires Ready(t, s) && Runs(t, s, steps) && ScopesOf(t, kind, id).Ok?
    requires Possible(After(t, s, steps), ScopesOf(t, kind, id).value, action)
    ensures Possible(s, ScopesOf(t, kind, id).value, action)
    decreases |steps|
  {
    if steps != [] {
      var before, step := steps[..|steps| - 1], steps[|steps| - 1];
      var mid := After(t, s, before);
      ReadyRun(t, s, before);
      match step {
        case Check(_, _, _, _, _) => CheckAddsNothing(t, mid, step, kind, id, action);
        case WriteGrant(_, _, _) => WriteAddsNothing(t, mid, step, kind, id, action);
        case _ => OtherAddsNothing(t, mid, step, ScopesOf(t, kind, id).value, action);
      }
      NobodyGains(t, s, before, kind, id, action);
    }
  }

  lemma {:induction false} ReadyRun(t: Tables, s: State, steps: seq<Step>)
    requires Ready(t, s) && Runs(t, s, steps)
    ensures Ready(t, After(t, s, steps))
    decreases |steps|
  {
    if steps != [] {
      ReadyRun(t, s, steps[..|steps| - 1]);
      ReadyStep(t, After(t, s, steps[..|steps| - 1]), steps[|steps| - 1]);
    }
  }

  /** From a state with nothing in flight, the set of actions somebody can exercise at a resource never grows. */
  lemma {:induction false} ExercisableNeverGrows(t: Tables, s: State, steps: seq<Step>, kind: Kind, id: Id)
    requires Ready(t, s) && s.pending == map[] && Runs(t, s, steps) && ScopesOf(t, kind, id).Ok?
    ensures var scopes := ScopesOf(t, kind, id).value; var s' := After(t, s, steps);
            forall action :: SomeoneCan(s'.rbac, s'.now, scopes, action) ==> SomeoneCan(s.rbac, s.now, scopes, action)
  {
    var scopes := ScopesOf(t, kind, id).value;
    var s' := After(t, s, steps);
    forall action | SomeoneCan(s'.rbac, s'.now, scopes, action)
      ensures SomeoneCan(s.rbac, s.now, scopes, action)
    {
      NobodyGains(t, s, steps, kind, id, action);
    }
  }

  // ---- the last owner ----

  /** The not-deleted org_owner bindings of an organization, expired ones included. */
  function Owners(r: Rbac, org: Id): set<Id> {
    set b | b in ScopeGrants(r, Scope(Organization, org)) && r.roles[r.bindings[b].roleId].code == ORG_OWNER
  }

  /** The last-owner check sees at least two owner bindings, whatever page it was shown. */
  lemma {:induction false} CheckSeesTwo(r: Rbac, q: Request, owners: set<Id>)
    requires q.Revoke? && q.roleCode == ORG_OWNER && q.scopeType == "organization"
    requires IsPage(owners, ScopeGrants(r, Scope(Organization, q.scopeId))) && LeavesOwner(r, q, owners)
    ensures |Owners(r, q.scopeId)| >= 2
  {
    var seen := set b | b in owners && r.bindings[b].roleId in r.roles && r.roles[r.bindings[b].roleId].code == ORG_OWNER;
    SubsetSize(seen, Owners(r, q.scopeId));
  }

  lemma {:induction false} SubsetSize<T>(a: set<T>, b: set<T>)
    requires a <= b
    ensures |a| <= |b|
  {
    assert b == a + (b - a);
  }

  /** A waiting revoke of an owner role at the organization. */
  predicate RevokesOwner(q: Request, org: Id) {
    q.Revoke? && q.roleCode == ORG_OWNER && q.scopeType == "organization" && q.scopeId == org
  }

  function PendingRevokes(s: State, org: Id): set<nat> {
    set id | id in s.pending && RevokesOwner(s.pending[id], org)
  }

  /** The owner bindings of one user, and the waiting revokes aimed at it. */
  function OwnersOf(r: Rbac, org: Id, u: Id): set<Id> {
    set b | b in Owners(r, org) && r.bindings[b].userId == u
  }

  function RevokesOf(s: State, org: Id, u: Id): set<nat> {
    set id | id in PendingRevokes(s, org) && s.pending[id].target == u
  }

  /** A revoke removes an owner binding of the organization exactly when it is an owner revoke of it, aimed at the
      binding's user. */
  lemma {:induction false} RevocableOwner(r: Rbac, q: Request, b: Id, org: Id)
    requires q.Revoke? && b in r.bindings
    ensures b in Owners(r, org) ==> (Revocable(r, q, b) <==> RevokesOwner(q, org) && q.target == r.bindings[b].userId)
    ensures TrimSpace(org) != "" && RevokesOwner(q, org) && Revocable(r, q, b) ==> b in Owners(r, org)
  {
  }

  lemma {:induction false} OwnersShrink(r: Rbac, b: Id, org: Id)
    requires b in r.bindings
    ensures Owners(StoreRevoke(r, b), org) == Owners(r, org) - {b}
    ensures forall u :: OwnersOf(StoreRevoke(r, b), org, u) == OwnersOf(r, org, u) - {b}
  {
    var r' := StoreRevoke(r, b);
    assert Owners(r', org) == Owners(r, org) - {b};
    forall u
      ensures OwnersOf(r', org, u) == OwnersOf(r, org, u) - {b}
    {
    }
  }

  lemma {:induction false} GrantKeepsOwners(r: Rbac, q: Request, roleId: Id, newId: Id, org: Id)
    requires q.Grant? && Owned(r) && StoreGrant(r, q, roleId, newId).Ok?
    ensures Owners(r, org) <= Owners(StoreGrant(r, q, roleId, newId).value, org)
    ensures forall u :: OwnersOf(r, org, u) <= OwnersOf(StoreGrant(r, q, roleId, newId).value, org, u)
  {
    var r' := StoreGrant(r, q, roleId, newId).value;
    UpsertKeepsLive(r, q.target, q.email, 0);
    assert forall b :: b in r.bindings ==> b in r'.bindings && r'.bindings[b] == r.bindings[b];
    assert Owners(r, org) <= Owners(r', org);
  }

  // ---- one at a time ----

  ghost predicate OneAtATime(t: Tables, s: State, steps: seq<Step>, org: Id)
    requires Runs(t, s, steps)
  {
    && |PendingRevokes(After(t, s, steps), org)| <= 1
    && (steps != [] ==> OneAtATime(t, s, steps[..|steps| - 1], org))
  }

  lemma {:induction false} RemoveSize<T>(xs: set<T>, x: T)
    ensures |xs - {x}| == |xs| - (if x in xs then 1 else 0)
  {
    if x in xs {
      assert xs == (xs - {x}) + {x};
    } else {
      assert xs - {x} == xs;
    }
  }

  lemma {:induction false} CheckOutnumbers(t: Tables, s: State, step: Step, org: Id)
    requires Enabled(t, s, step) && step.Check? && |PendingRevokes(Next(t, s, step), org)| <= 1
    requires |PendingRevokes(s, org)| < |Owners(s.rbac, org)|
    ensures |PendingRevokes(Next(t, s, step), org)| < |Owners(Next(t, s, step).rbac, org)|
  {
    if RevokesOwner(step.q, org) {
      CheckSeesTwo(s.rbac, step.q, step.owners);
    } else {
      assert PendingRevokes(Next(t, s, step), org) == PendingRevokes(s, org);
    }
  }

  lemma {:induction false} GrantOutnumbers(t: Tables, s: State, step: Step, org: Id)
    requires Ready(t, s) && Enabled(t, s, step) && step.WriteGrant?
    requires |PendingRevokes(s, org)| < |Owners(s.rbac, org)|
    ensures |PendingRevokes(Next(t, s, step), org)| < |Owners(Next(t, s, step).rbac, org)|
  {
    var s' := Next(t, s, step);
    SubsetSize(PendingRevokes(s', org), PendingRevokes(s, org));
    if StoreGrant(s.rbac, s.pending[step.id], step.roleId, step.newId).Ok? {
      GrantKeepsOwners(s.rbac, s.pending[step.id], step.roleId, step.newId, org);
      SubsetSize(Owners(s.rbac, org), Owners(s'.rbac, org));
    }
  }

  lemma {:induction false} RevokeOutnumbers(t: Tables, s: State, id: nat, b: Id, org: Id)
    requires Enabled(t, s, WriteRevoke(id, b)) && |PendingRevokes(s, org)| < |Owners(s.rbac, org)|
    ensures var s' := Next(t, s, WriteRevoke(id, b)); |PendingRevokes(s', org)| < |Owners(s'.rbac, org)|
  {
    var s' := Next(t, s, WriteRevoke(id, b));
    OwnersShrink(s.rbac, b, org);
    RevocableOwner(s.rbac, s.pending[id], b, org);
    assert PendingRevokes(s', org) == PendingRevokes(s, org) - {id};
    RemoveSize(PendingRevokes(s, org), id);
    RemoveSize(Owners(s.rbac, org), b);
  }

  lemma {:induction false} OwnersOutnumberStep(t: Tables, s: State, step: Step, org: Id)
    requires Ready(t, s) && Enabled(t, s, step) && |PendingRevokes(Next(t, s, step), org)| <= 1
    requires |PendingRevokes(s, org)| < |Owners(s.rbac, org)|
    ensures |PendingRevokes(Next(t, s, step), org)| < |Owners(Next(t, s, step).rbac, org)|
  {
    match step {
      case Tick(_) =>
      case Check(_, _, _, _, _) => CheckOutnumbers(t, s, step, org);
      case WriteGrant(_, _, _) => GrantOutnumbers(t, s, step, org);
      case WriteRevoke(id, b) => RevokeOutnumbers(t, s, id, b, org);
      case Abandon(_) => SubsetSize(PendingRevokes(Next(t, s, step), org), PendingRevokes(s, org));
    }
  }

  lemma {:induction false} OwnersOutnumber(t: Tables, s: State, steps: seq<Step>, org: Id)
    requires Ready(t, s) && Runs(t, s, steps) && OneAtATime(t, s, steps, org)
    requires |PendingRevokes(s, org)| < |Owners(s.rbac, org)|
    ensures |PendingRevokes(After(t, s, steps), org)| < |Owners(After(t, s, steps).rbac, org)|
  {
    if steps != [] {
      var before := steps[..|steps| - 1];
      ReadyRun(t, s, before);
      OwnersOutnumber(t, s, before, org);
      OwnersOutnumberStep(t, After(t, s, before), steps[|steps| - 1], org);
    }
  }

  /** Over every run, whatever else is granted and revoked meanwhile: as long as at most one revoke of an owner role at
      the organization waits at a time, an organization that has an owner binding keeps one. */
  lemma {:induction false} RevokeLeavesAnOwner(t: Tables, s: State, steps: seq<Step>, org: Id)
    requires Ready(t, s) && Runs(t, s, steps) && OneAtATime(t, s, steps, org)
    requires Owners(s.rbac, org) != {} && PendingRevokes(s, org) == {}
    ensures Owners(After(t, s, steps).rbac, org) != {}
  {
    OwnersOutnumber(t, s, steps, org);
  }

  // ---- several at once ----

  /** Each user has at least as many owner revokes waiting as owner bindings at the organization. */
  ghost predicate PendingCover(s: State, org: Id) {
    forall u :: |OwnersOf(s.rbac, org, u)| <= |RevokesOf(s, org, u)|
  }

  predicate NoNewOwnerRevoke(steps: seq<Step>, org: Id) {
    forall k :: 0 <= k < |steps| ==> !(steps[k].Check? && RevokesOwner(steps[k].q, org))
  }

  ghost predicate Empties(t: Tables, s: State, steps: seq<Step>, org: Id) {
    Runs(t, s, steps) && NoNewOwnerRevoke(steps, org) && Owners(After(t, s, steps).rbac, org) == {}
  }

  /** The revokes already past their checks can leave the organization without an owner binding. */
  ghost predicate PendingCanEmpty(t: Tables, s: State, org: Id) {
    exists steps :: Empties(t, s, steps, org)
  }

  lemma {:induction false} UncoveredStep(t: Tables, s: State, step: Step, org: Id, u: Id)
    requires Ready(t, s) && Enabled(t, s, step) && !(step.Check? && RevokesOwner(step.q, org))
    requires |RevokesOf(s, org, u)| < |OwnersOf(s.rbac, org, u)|
    ensures |RevokesOf(Next(t, s, step), org, u)| < |OwnersOf(Next(t, s, step).rbac, org, u)|
  {
    var s' := Next(t, s, step);
    SubsetSize(RevokesOf(s', org, u), RevokesOf(s, org, u));
    match step {
      case WriteGrant(id, roleId, newId) =>
        if StoreGrant(s.rbac, s.pending[id], roleId, newId).Ok? {
          GrantKeepsOwners(s.rbac, s.pending[id], roleId, newId, org);
          SubsetSize(OwnersOf(s.rbac, org, u), OwnersOf(s'.rbac, org, u));
        }
      case WriteRevoke(id, b) =>
        OwnersShrink(s.rbac, b, org);
        RevocableOwner(s.rbac, s.pending[id], b, org);
        assert RevokesOf(s', org, u) == RevokesOf(s, org, u) - {id};
        RemoveSize(RevokesOf(s, org, u), id);
        RemoveSize(OwnersOf(s.rbac, org, u), b);
      case _ =>
    }
  }

  lemma {:induction false} UncoveredRun(t: Tables, s: State, steps: seq<Step>, org: Id, u: Id)
    requires Ready(t, s) && Runs(t, s, steps) && NoNewOwnerRevoke(steps, org)
    requires |RevokesOf(s, org, u)| < |OwnersOf(s.rbac, org, u)|
    ensures |RevokesOf(After(t, s, steps), org, u)| < |OwnersOf(After(t, s, steps).rbac, org, u)|
  {
    if steps != [] {
      var before := steps[..|steps| - 1];
      ReadyRun(t, s, before);
      assert forall k :: 0 <= k < |before| ==> before[k] == steps[k];
      UncoveredRun(t, s, before, org, u);
      UncoveredStep(t, After(t, s, before), steps[|steps| - 1], org, u);
    }
  }

  lemma {:induction false} Extend(t: Tables, s: State, steps: seq<Step>, step: Step)
    requires Runs(t, s, steps) && Enabled(t, After(t, s, steps), step)
    ensures Runs(t, s, steps + [step]) && After(t, s, steps + [step]) == Next(t, After(t, s, steps), step)
  {
    assert (steps + [step])[..|steps|] == steps;
  }

  lemma {:induction false} Prepend(t: Tables, s: State, step: Step, steps: seq<Step>)
    requires Enabled(t, s, step) && Runs(t, Next(t, s, step), steps)
    ensures Runs(t, s, [step] + steps) && After(t, s, [step] + steps) == After(t, Next(t, s, step), steps)
  {
    if steps == [] {
      assert [step] + steps == [] + [step];
      Extend(t, s, [], step);
    } else {
      Prepend(t, s, step, steps[..|steps| - 1]);
      assert ([step] + steps)[..|steps|] == [step] + steps[..|steps| - 1];
    }
  }

  lemma {:induction false} PendingShrink(s: State, s': State, id: nat, org: Id, u: Id)
    requires s'.pending == s.pending - {id}
    ensures RevokesOf(s', org, u) == RevokesOf(s, org, u) - {id}
  {
  }

  /** Writing a revoke takes one binding and one waiting revoke from the same user. */
  lemma {:induction false} BothShrink(t: Tables, s: State, id: nat, b: Id, org: Id, u: Id)
    requires Enabled(t, s, WriteRevoke(id, b))
    requires b in Owners(s.rbac, org) && id in RevokesOf(s, org, s.rbac.bindings[b].userId)
    ensures var s' := Next(t, s, WriteRevoke(id, b)); var d := if u == s.rbac.bindings[b].userId then 1 else 0;
            && |OwnersOf(s'.rbac, org, u)| == |OwnersOf(s.rbac, org, u)| - d
            && |RevokesOf(s', org, u)| == |RevokesOf(s, org, u)| - d
  {
    OwnersShrink(s.rbac, b, org);
    PendingShrink(s, Next(t, s, WriteRevoke(id, b)), id, org, u);
    RemoveSize(RevokesOf(s, org, u), id);
    RemoveSize(OwnersOf(s.rbac, org, u), b);
  }

  lemma {:induction false} CoverNext(t: Tables, s: State, id: nat, b: Id, org: Id)
    requires PendingCover(s, org) && b in Owners(s.rbac, org) && id in RevokesOf(s, org, s.rbac.bindings[b].userId)
    ensures Enabled(t, s, WriteRevoke(id, b)) && PendingCover(Next(t, s, WriteRevoke(id, b)), org)
  {
    RevocableOwner(s.rbac, s.pending[id], b, org);
    var s' := Next(t, s, WriteRevoke(id, b));
    forall u
      ensures |OwnersOf(s'.rbac, org, u)| <= |RevokesOf(s', org, u)|
    {
      assert |OwnersOf(s.rbac, org, u)| <= |RevokesOf(s, org, u)|;
      BothShrink(t, s, id, b, org, u);
    }
  }

  lemma {:induction false} CoverEmpties(t: Tables, s: State, org: Id)
    requires PendingCover(s, org)
    ensures PendingCanEmpty(t, s, org)
    decreases |Owners(s.rbac, org)|
  {
    if b :| b in Owners(s.rbac, org) {
      var u := s.rbac.bindings[b].userId;
      assert b in OwnersOf(s.rbac, org, u);
      assert |RevokesOf(s, org, u)| > 0;
      var id :| id in RevokesOf(s, org, u);
      var step := WriteRevoke(id, b);
      CoverNext(t, s, id, b, org);
      OwnersShrink(s.rbac, b, org);
      RemoveSize(Owners(s.rbac, org), b);
      CoverEmpties(t, Next(t, s, step), org);
      var steps :| Empties(t, Next(t, s, step), steps, org);
      Prepend(t, s, step, steps);
      assert Empties(t, s, [step] + steps, org);
    } else {
      assert Empties(t, s, [], org);
    }
  }

  /** The revokes waiting past their checks can take the last owner binding of the organization if and only if they
      cover them all: user by user, as many revokes wait as there are bindings. */
  lemma {:induction false} PendingCanEmptyIffCover(t: Tables, s: State, org: Id)
    requires Ready(t, s)
    ensures PendingCanEmpty(t, s, org) <==> PendingCover(s, org)
  {
    if PendingCover(s, org) {
      CoverEmpties(t, s, org);
    } else {
      var u :| |OwnersOf(s.rbac, org, u)| > |RevokesOf(s, org, u)|;
      forall steps | Runs(t, s, steps) && NoNewOwnerRevoke(steps, org)
        ensures Owners(After(t, s, steps).rbac, org) != {}
      {
        UncoveredRun(t, s, steps, org, u);
        var b :| b in OwnersOf(After(t, s, steps).rbac, org, u);
        assert b in Owners(After(t, s, steps).rbac, org);
      }
    }
  }
}
