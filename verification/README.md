# EnvVault: a verified model of its protocols and queries

EnvVault stores secrets in a tree of organizations, projects, environments and two-level folders, guards them with
role bindings, and keeps Redis and in-process caches beside its Postgres tables. This project models the parts whose
correctness spans several functions or several processes, and proves what they promise.

A table is a map from id to row, a transaction is a function from tables to tables or an error, and a SQL query is a
set comprehension or a predicate on a row. Code that changes fields or builds maps in loops is a class or a method,
proved equal to such a function; interleavings are state machines whose runs are sequences of steps.

| files | component |
|---|---|
| `TokensCache`, `TokenRevocation` | the per-instance revocation cache, and N instances with bumps, lookups and reads in flight |
| `RateLimiter`, `LoginThrottle`, `LockoutGaps`, `AuthService` | the login limiter, concurrent logins, what slips past a lockout, and the calls that drive limiter and revocation |
| `Tables`, `Resources`, `Repository`, `Hierarchy` | resource tables, create and delete transactions, handler steps with the metadata cache |
| `Interleaving`, `Races` | many requests at once, their guards, looks and writes apart, and runs in which a delete comes between |
| `Rbac`, `Narrowing`, `Navigation`, `VisibleScopes` | the point check and the SQL lists meant to agree with it |
| `Coverage`, `ParentCoverage`, `Grants`, `OwnerRace` | which actions a code covers, and granting and revoking under that rule |
| `Outliving` | runs that leave a folder under a deleted parent, and what the lists and checks do there |
| `TreeAssembly`, `TreePlacement`, `TreeOrder`, `TreeData`, `FolderGroups`, `FolderGroupLaws`, `AcrossEnvs` | in-memory trees and groupings |
| `SecretIndex`, `SecretCache`, `SecretBatch` | the Redis secret index and the batch transactions |
| `Text`, `Wrappers` | string operations, options and results |

Where the code and its documentation part ways, the model follows the code and the difference is a theorem:

- A cache load that started before a bump and lands after a refresh puts the old time back
  (`TokenRevocation.LateLoadUndoesRefresh`), so the promise "rejected forever" holds exactly when nothing older is
  cached, under way or still to be written (`TokenRevocation.RejectsForeverIffSealed`).
- A bump is stamped when its transaction begins, before it waits for the row, so overlapping bumps can put a row back
  (`TokenRevocation.OverlapPutsRowBack`); rows only grow exactly when bumps commit in the order they began
  (`TokenRevocation.RowsOnlyGrow`).
- A lockout does not refuse every login. One that looked for the key before it was set counts failures later, and
  passes if a concurrent failure has pruned the set by then (`LoginThrottle.LockoutHolds`,
  `LockoutGaps.PassesDuringLockoutIff`, and the run `LockoutGaps.PassesDuringLockout`).
- The limiter is described as releasing an address when the lockout expires. `Check` never prunes the failure set and
  the set has no expiry, so an address at the limit stays refused unless a login already under way helps it
  (`LockoutGaps.PassesAgainIff`, and the run `LockoutGaps.IdleAddressStaysRefused`).
- Level-2 folders are said to hang under their parent. One that follows a parent already copied into its environment
  appears nowhere (`TreePlacement.LevelTwoPlacement`, `TreePlacement.LateChildIsLost`).
- A level-2 folder may outlive its parent (`Outliving.ChildOutlivesParent`). Then its readers can be shown it without
  its environment (`Navigation.FolderPathIffParentActive`), and coverage checks stop at the deleted parent
  (`ParentCoverage.FolderWalkIsOneCheck`).
- The last-owner check is not repeated in the transaction, so two owners can revoke each other
  (`OwnerRace.RacingRevokesLeaveNone`). One waiting revoke at a time is safe (`Grants.RevokeLeavesAnOwner`); several can
  empty the organization exactly when they cover its owner bindings (`Grants.PendingCanEmptyIffCover`).
- What a request looks at before its transaction can be gone when it writes: the organization a project's guard saw,
  the folder a secret's guard saw, and the environments and parent folders that folder creation reads outside its
  transaction. A delete in between leaves the new row under a deleted one (`Interleaving.InterleavedConsistentIff`, and
  the runs `Races.RacingCreateBreaksChain` and `Races.RacingFolderBreaksChain`).
- An unforced organization delete counts projects before its transaction, so its lists need not be empty
  (`Hierarchy.UnforcedDeleteIsBare`, and the run `Races.UnforcedDeleteTakesProject`).
- A batch is read back after its commit, so an error need not mean that nothing was written
  (`SecretBatch.CreateAllOrNothing`, `SecretBatch.DeletedBeforeReadBack`).
- Warming the secret cache leaves old hashes, which later cost another record its path key
  (`SecretIndex.CompleteIffNeverStale`, and the runs `SecretIndex.WarmBreaksCompleteness` and
  `SecretIndex.WarmBreaksItself`).
- The unique key index is checked row by row, so an update batch commits exactly when each key is free at its turn
  (`SecretBatch.UpdateCommitsIff`), and cannot swap two keys (`SecretBatch.SwapRefused`).

## Model

| member | source | states |
|---|---|---|
| TokensCache.TokensCache.Get | internal/auth/tokens_cache.go:62-84 | A hit answers the cached time; a miss loads, caches and answers the loaded time, or answers the zero time if there is no loader or it fails, caching nothing |
| TokensCache.TokensCache.Set | internal/auth/tokens_cache.go:87-94 | Writes one user's time and no other |
| TokensCache.TokensCache.Invalidate | internal/auth/tokens_cache.go:99-106 | Forgets one user |
| TokensCache.TokensCache.SetBatch | internal/auth/tokens_cache.go:109-119 | Afterwards the cache is the snapshot, whatever order it was copied in |
| TokenRevocation.CarriedWasHeld | internal/auth/tokens_cache.go:62-143 | In every interleaving, each time cached, in flight or about to be written on an instance is one the user's row held at some moment of the run |
| TokenRevocation.RowsOnlyGrow | internal/store/postgres/auth.go:174-199 | A row's time never decreases over a run exactly when the bumps of its user that commit do so in the order they began |
| TokenRevocation.OverlapPutsRowBack | internal/store/postgres/auth.go:138-199 | A reachable state with two overlapping bumps from which the later stamp is committed first and the row then goes back |
| TokenRevocation.CarriedBounded | internal/auth/tokens_cache.go:62-143 | In every reachable state the row, the bumps under way and everything carried lie between the epoch and the clock |
| TokenRevocation.InOrderCarriedBounded | internal/auth/tokens_cache.go:62-143 | While a user's bumps commit in the order they began, no carried time exceeds the row's current one |
| TokenRevocation.FreshTokenNeverRejected | internal/auth/jwt.go:64-75 | In every interleaving a token issued when every bump of its user had begun is never rejected, on any instance, in whatever order the bumps, loads and refreshes land |
| TokenRevocation.SealedRun | internal/auth/tokens_cache.go:62-143 | Once the row, the bumps under way and all that an instance caches, loads and is about to write are at or after T, and no lookup that missed waits there, that stays so along every run |
| TokenRevocation.RejectsForeverIffSealed | internal/auth/jwt.go:64-75 | An instance rejects every token issued before T in every continuation if and only if the row and every bump under way are at or after T, nothing it caches or has in flight is older, and no lookup that missed waits to read |
| TokenRevocation.LogoutSealsItself | internal/service/auth_service.go:194-207 | With nothing else of the user under way, a logout's server rejects every older token forever once its bump has committed and its own cache write is in |
| TokenRevocation.ChangeSealsItself | internal/service/auth_service.go:209-248 | The same for a password change once the row read back is in the cache |
| TokenRevocation.LookupLoads | internal/auth/tokens_cache.go:62-84 | A missed lookup that nothing interrupts caches the row's time and changes nothing else |
| TokenRevocation.LookupFailed | internal/auth/tokens_cache.go:75-84 | A missed lookup whose loader fails leaves the system as it was |
| TokenRevocation.SnapshotDropped | internal/auth/tokens_cache.go:123-143 | A refresh that reads and then fails leaves the system as it was |
| TokenRevocation.RefreshAfterBump | internal/auth/tokens_cache.go:123-143 | With the row at T and no older bump under way, installing a refresh read afterwards makes the instance reject older tokens forever exactly when no older write and no missed lookup still waits there |
| TokenRevocation.LateLoadUndoesRefresh | internal/auth/tokens_cache.go:75-84 | A reachable state in which a load from before the bump lands after the refresh and an old token is admitted again |
| RateLimiter.KeysDistinct | internal/auth/ratelimit/ratelimit.go:110-116 | Failure and lockout keys never meet, and differ for different addresses |
| RateLimiter.Limiter.Check | internal/auth/ratelimit/ratelimit.go:118-143 | Passes a login without an address, and otherwise exactly when the lockout key is absent or expired and fewer than MaxAttempts failures are recorded; a count at the limit without a live lockout sets the key for LockoutPeriod, nothing else changes the store |
| RateLimiter.Limiter.Record | internal/auth/ratelimit/ratelimit.go:145-167 | A success deletes both keys of the address; a failure adds one member at the present time and drops those a window old or older |
| RateLimiter.Limiter.constructor | internal/auth/ratelimit/ratelimit.go:59-110 | The defaults of the options: one minute, five attempts, a quarter of an hour, ratelimit:login |
| LoginThrottle.SaneRun | internal/auth/ratelimit/ratelimit.go:118-167 | Along every run of interleaved logins the keys keep their types and no score runs ahead of the clock |
| LoginThrottle.UninterruptedCheck | internal/auth/ratelimit/ratelimit.go:118-143 | The steps of one login's Check with nothing in between are the limiter's Check |
| LoginThrottle.UninterruptedFailure | internal/auth/ratelimit/ratelimit.go:145-167 | The steps of recording a failure with nothing in between are the limiter's Record |
| LoginThrottle.FailuresBounded | internal/auth/ratelimit/ratelimit.go:118-167 | In any run shorter than Window with no recorded success and at most m logins in flight, at most MaxAttempts + m - 1 failures of the address have both their Check and their Record in it |
| LoginThrottle.OtherAddressUntouched | internal/auth/ratelimit/ratelimit.go:110-167 | A login step leaves every other address's keys alone |
| LoginThrottle.LockoutHolds | internal/auth/ratelimit/ratelimit.go:118-142 | From the step that sets the lockout, for LockoutPeriod and in every interleaving without a recorded success, every Check of the address that looks for the key is refused; one that counts failures had looked before the key was set, and passes exactly when the count is below the limit at that moment |
| LockoutGaps.PassesDuringLockoutIff | internal/auth/ratelimit/ratelimit.go:118-167 | While the lockout lives, a login of the address can still pass in some continuation if and only if one has already looked for the key and the failure set is below the limit or one concurrent failure's pruning can bring it there |
| LockoutGaps.PassesDuringLockout | internal/auth/ratelimit/ratelimit.go:118-167 | A run from an empty store in which a login passes during a lockout that was just set |
| LoginThrottle.PassesAgainIffBelowLimit | internal/auth/ratelimit/ratelimit.go:118-167 | An address with no login past its count can be admitted again in some continuation if and only if its failure set is below the limit |
| LockoutGaps.PassesAgainIff | internal/auth/ratelimit/ratelimit.go:118-167 | In any state, a login of the address can be past Check again in some continuation if and only if the failure set is below the limit or a login under way can bring it there, by succeeding or by the pruning of its failure |
| LockoutGaps.IdleAddressStaysRefused | internal/auth/ratelimit/ratelimit.go:118-167 | A run from an empty store after which, however long the wait, the idle, unlocked address never passes again |
| AuthService.AuthService.Login | internal/service/auth_service.go:135-192 | A login succeeds if and only if email and password are given, the address is neither locked nor over its limit, the lookup answers, the email is registered to an enabled password account and the password verifies against its hash; then it answers that account. The error of every refusal. An attempt is recorded exactly when the lookup answered; the failure set grows exactly on an unknown email, a non-password account or a failed verification, a success clears the address, and anything else leaves the limiter alone |
| AuthService.AuthService.Logout | internal/service/auth_service.go:194-207 | The row and this server's cache move to the bumped time, or neither changes; the error kinds in order; the store trims the id and the cache does not |
| AuthService.AuthService.ChangePassword | internal/service/auth_service.go:209-248 | A change succeeds if and only if the arguments are complete, the new password is long enough, the account is there, the old password verifies, and hashing, writing and reading back succeed; every error in order; hash and time change in one update, and the cache follows only if the row can be read back after the commit |
| Resources.SiblingUnique | internal/store/postgres/repository.go:705-728 | The unique index leaves at most one level-1 folder a parent code can resolve to |
| Repository.Repository.CreateOrganization | internal/store/postgres/repository.go:78-107 | Conflicts exactly on a taken id or active code; an error changes nothing, a success adds that one row and one audit record; consistent tables stay consistent |
| Repository.Repository.CreateProject | internal/store/postgres/repository.go:211-237 | The project and all its environments, or none of them |
| Hierarchy.CreateProjectCommitsIff | internal/store/postgres/repository.go:211-237 | A project create commits if and only if the id is new, no active project of the organization has the code, and every environment's id is new and its code unlike those before it |
| Repository.Repository.CreateEnvironment | internal/store/postgres/repository.go:323-356 | NotFound without an active project, else conflict exactly on a taken id or active code under it; an error changes nothing, a success adds that one row and one audit record; consistent tables stay consistent |
| Repository.Repository.VerifyEnvironments | internal/store/postgres/repository.go:671-697 | Accepts exactly the lists whose environments are all active |
| Repository.Repository.ResolveParents | internal/store/postgres/repository.go:699-729 | Finds each environment's parent folder, or NotFound exactly when one has none |
| Repository.Repository.CreateFoldersAcross | internal/store/postgres/repository.go:658-759 | One level-2 folder per environment under its own parent, or none |
| Repository.Repository.CreateTopLevelFolders | internal/store/postgres/repository.go:768-839 | One level-1 folder per environment, or none |
| Hierarchy.FoldersCommitIff | internal/store/postgres/repository.go:730-839 | Inserting folders commits if and only if every id is new and no active folder, nor one before it in the list, has its environment, parent and code |
| Hierarchy.TopLevelAnswers | internal/store/postgres/repository.go:768-839 | What a level-1 create answers to every list: an error for an empty one, not-found for an inactive environment, a conflict for a taken place or id |
| Hierarchy.AcrossAnswers | internal/store/postgres/repository.go:658-759 | The same for level-2 folders, not-found also when an environment has no active level-1 folder of the parent code |
| Repository.Repository.CreateSecret | internal/store/postgres/repository.go:1096-1131 | Conflicts exactly on a taken id or an active key of the folder; an error changes nothing, a success adds that one row at version 1 and one audit record; consistent tables stay so exactly when the folder was active |
| Repository.Repository.DeleteOrganization | internal/store/postgres/repository.go:163-209 | One call with nothing in between: refused for an inactive organization or, unforced, one with active projects; an error changes nothing, a success turns exactly the active rows of the subtree, reports exactly those and adds one audit record |
| Repository.Repository.HasActiveProjects | internal/store/postgres/repository.go:165-175 | Whether an active project of the organization exists when the count is made |
| Repository.Repository.CascadeOrganization | internal/store/postgres/repository.go:177-208 | The transaction turns and reports exactly the active rows of the subtree as it finds it; on active chains its lists are empty exactly when no active project is there |
| Repository.Repository.DeleteProject | internal/store/postgres/repository.go:293-321 | NotFound exactly for an inactive project; otherwise turns and reports exactly the active rows of its subtree, with one audit record of the project, and changes nothing else |
| Repository.Repository.DeleteEnvironment | internal/store/postgres/repository.go:416-439 | The same for an environment |
| Repository.Repository.DeleteFolder | internal/store/postgres/repository.go:1076-1094 | The same for a folder, whose subtree is the folder and its own secrets |
| Repository.Repository.DeleteSecret | internal/store/postgres/repository.go:2253-2270 | The same for a secret |
| Hierarchy.AllowedOn | internal/store/postgres/rbac.go:913-1002 | A resource the point check accepts is active |
| Hierarchy.CreateKeeps | internal/http/controller/resource_project.go:12-60 | A create whose parent the guard found active keeps chain, nesting and uniqueness, keeps every row, and caches only active ids |
| Hierarchy.CreateProjectExact | internal/store/postgres/repository.go:211-237 | A successful create adds one new project row and exactly the listed environments under it, each with its asked name, keeps every other row and adds one audit record |
| Hierarchy.FoldersAdded | internal/store/postgres/repository.go:658-839 | Folder creation adds exactly the asked ids, all new, keeps every other row, and writes one audit record per folder in order |
| Hierarchy.CreateTopLevelFoldersExact | internal/store/postgres/repository.go:768-839 | Each new folder is an active level-1 folder without a parent in its asked environment |
| Hierarchy.CreateFoldersAcrossExact | internal/store/postgres/repository.go:658-759 | Each new folder is an active level-2 folder in its asked environment under that environment's own active level-1 folder of the parent code |
| Hierarchy.OrganizationCascade | internal/store/postgres/repository.go:2337-2445 | The ids collected between the updates are those read off the tables before them |
| Hierarchy.DeleteExact | internal/store/postgres/repository.go:2313-2498 | A successful delete reports exactly the rows it turned from active to deleted, which are exactly the active rows of the subtree, and changes nothing else but one audit record |
| Hierarchy.UnforcedDeleteIsBare | internal/store/postgres/repository.go:163-180 | On active chains an organization's delete reports four empty lists exactly when no project of it is active as its transaction runs, which in one call without force the count makes sure of |
| Hierarchy.Metadata.InvalidateCascade | internal/http/controller/controller.go:96-112 | Drops exactly the reported ids from the four metadata structures, whatever the order of the lists |
| Hierarchy.InvalidationSuffices | internal/http/controller/controller.go:96-112 | After invalidation a cache that held only active ids holds only active ids |
| Hierarchy.RefusedChangesNothing | internal/http/controller/resource_project.go:12-60 | A request that is refused, or whose transaction fails, changes neither tables nor cache |
| Hierarchy.PerformCaches | internal/http/controller/controller.go:70-112 | What a create or update that went through leaves in the metadata cache: the ids it is about and whatever was there |
| Hierarchy.UpdateCachesActive | internal/http/controller/resource_folder.go:304-350 | An update reaches the cache exactly when the row it names is there and not deleted |
| Hierarchy.CreateOrganizationGuard | internal/http/controller/resource_organization.go:20 | An organization create is let through exactly when the caller holds org:create globally |
| Hierarchy.CreateProjectGuard | internal/http/controller/resource_project.go:20 | A project create exactly when the caller holds project:create on the organization, in the sense of `Rbac.PermitMeans` |
| Hierarchy.CreateEnvironmentGuard | internal/http/controller/resource_environment.go:19 | An environment create exactly when the caller holds env:create on the project |
| Hierarchy.CreateSecretGuard | internal/service/secret_service.go:202 | A secret create exactly when the caller holds secret:create on the folder |
| Hierarchy.DeleteOrganizationGuard | internal/http/controller/resource_organization.go:133-137 | An organization delete exactly when the caller holds org:delete on it and, forced, org:force_delete too |
| Hierarchy.RunsStayConsistent | internal/store/postgres/repository.go:163-209 | After any requests by anyone, batches of secrets included, every active row's parent is active up to the organization, level-2 folders hang under level-1 folders of their environment, active codes and keys are unique, and the metadata cache names no deleted row |
| Hierarchy.CreateConsistentIff | internal/store/postgres/repository.go:211-237 | A create as one transaction that commits keeps the tables consistent exactly when the parents the guard looks at are active as it is written |
| Interleaving.EveryRunRegular | internal/store/postgres/repository.go:658-839 | In every interleaving of guards, looks and writes, whatever its races: every row's parent row exists, level-2 folders hang under level-1 folders of their environment, active codes and keys are unique, and no row vanishes or moves |
| Interleaving.AloneIsCall | internal/store/postgres/repository.go:658-839 | A request whose looks all pass on tables that stay writes what the single call does |
| Interleaving.LooksAreActive | internal/store/postgres/repository.go:671-697 | The looks of a folder create pass exactly when all its environments are active |
| Interleaving.EndsOnce | internal/store/postgres/repository.go:658-839 | A request ends with its write, committed or not, or when given up; only a commit changes the tables, to what the transaction leaves |
| Interleaving.LooksChangeNothing | internal/store/postgres/repository.go:671-729 | Guards and looks leave the tables and the other requests alone, and a parent found is an active level-1 folder of the code in that environment |
| Interleaving.InterleavedConsistentIff | internal/store/postgres/repository.go:658-839 | From consistent tables, in any interleaving of guards, single looks and writes, the tables stay consistent throughout if and only if every create that commits finds the parents of its rows active as it writes: organization, project, environments, folders |
| Races.RacingCreateBreaksChain | internal/store/postgres/repository.go:211-237 | A run from empty tables in which an organization is deleted between a project create's guard and its write, which leaves an active project under a deleted organization |
| Races.RacingFolderBreaksChain | internal/store/postgres/repository.go:768-839 | A run from empty tables in which an environment is deleted between a folder create's look at it and its insert, which leaves an active folder under a deleted environment |
| Races.UnforcedDeleteTakesProject | internal/store/postgres/repository.go:163-209 | A run from empty tables in which a project is created between an unforced delete's count and its transaction, which reports and deletes it |
| Races.StrandedFolderIsReached | internal/store/postgres/repository.go:768-839 | A run from empty tables to an active project, environment and folder under a deleted organization, the state of `Outliving.StrandedFolderIsListed` |
| Rbac.ResourceTypes | internal/store/postgres/rbac.go:1225-1252 | What the resource type names, with the aliases org and env, normalise to |
| Rbac.AllowIsPermit | internal/auth/rbac.go:45-98 | A full permission code is checked as it is, whatever spelling names the resource type |
| Rbac.PermitMeans | internal/store/postgres/rbac.go:913-1223 | The point check accepts a code on a resource if and only if the user is there and not disabled, the resource and every row above it is there and not deleted, and some binding of the user that is not deleted, has no expiry or one after now, and whose role is not deleted and carries the code, sits globally, on the resource or on a row above it, parent folders included; otherwise not-found exactly when the chain does not stand, else denied |
| Rbac.PermitRefuses | internal/auth/rbac.go:45-75 | A nameless caller and an empty permission are denied before anything else is looked at; then an unknown resource type is an error |
| Rbac.DisabledHoldNothing | internal/store/postgres/rbac.go:1181-1223 | A disabled user, or one that does not exist, holds no permission on any list of scopes |
| Rbac.BareAction | internal/auth/rbac.go:81-98 | A bare action becomes type:action, with org and env for organization and environment, and reading an env_template is env:template:read |
| Narrowing.PredicateMeans | internal/store/postgres/repository.go:2927-2939 | In three-valued logic the disjunction is true exactly when some non-null column is among its type's scopes |
| Narrowing.FolderPassesMeans | internal/store/postgres/repository.go:850-905 | Told by the rows: the folder, its environment and its project are not deleted, the caller is enabled, and one of its bindings in force whose role carries the code sits globally or on the organization, project, environment, parent folder or folder |
| Narrowing.FolderNarrowingIsAllow | internal/store/postgres/repository.go:2716-2731 | A folder row passes the narrowing for a code exactly when Allow accepts the code on it |
| Narrowing.SecretNarrowingIsAllow | internal/store/postgres/repository.go:1717-1757 | A secret row passes exactly when Allow accepts, the secret-scope entry never deciding |
| Narrowing.NarrowingNeedsTheChain | internal/store/postgres/repository.go:850-905 | With or without the chain, the point check accepts a code on a folder exactly when the row passes the narrowing and its organization, at which the folder lists do not look, is active |
| Narrowing.FilterByAllow | internal/service/tree_service.go:175-229 | Keeps exactly the items answered yes, each position once and in order; fails, with the first such answer, exactly when some answer is neither yes, denial nor not-found |
| Narrowing.FilterRemovesNothing | internal/service/tree_service.go:217-229 | On rows the narrowed query returned the second filter removes nothing |
| Navigation.EnvironmentListsProject | internal/store/postgres/repository.go:2812-2916 | A listed environment's project is listed |
| Navigation.ProjectListsOrganization | internal/store/postgres/repository.go:2752-2864 | A listed project's organization is listed |
| Navigation.FolderListsEnvironment | internal/store/postgres/repository.go:2866-2916 | A folder listed for folder:read whose parent, if any, is active has its environment listed |
| Navigation.FolderPathIffParentActive | internal/store/postgres/repository.go:2866-2916 | That holds for every caller exactly for the folders whose parent, if any, is active |
| Navigation.ListedOrganizationMeans | internal/store/postgres/repository.go:2752-2810 | An organization is listed exactly when it is active and an enabled user has a binding in force that carries a permission no coarser than the scope the binding sits on, and that scope is global, the organization, or something below it reached through rows that are not deleted |
| Navigation.ListedProjectMeans | internal/store/postgres/repository.go:2812-2864 | The same for a project and permissions of type project or finer, the scope being at, above or below it |
| Navigation.ListedEnvironmentMeans | internal/store/postgres/repository.go:2866-2916 | The same for an environment of an active project and permissions of type env or finer |
| Outliving.ChildOutlivesParent | internal/store/postgres/repository.go:1076-1094 | Five requests from empty tables that end with an active level-2 folder under a deleted parent |
| Outliving.ReaderLosesPath | internal/store/postgres/repository.go:2866-2916 | At that state a reader of the deleted parent is listed the child but not its environment |
| Outliving.HolderIsRefused | internal/service/rbac_service.go:250-268 | At that state a caller who covers the codes at the child is refused, because the walk stops at the deleted parent |
| Outliving.StrandedFolderIsListed | internal/store/postgres/repository.go:850-905 | A folder under a deleted organization that the narrowed list shows and the point check does not find |
| VisibleScopes.FlatIsLeastClosed | internal/store/postgres/rbac.go:739-813 | The seven-branch union is the least set holding the caller's manage scopes and closed under active organization, project, environment and folder edges |
| VisibleScopes.FlatIsReached | internal/store/postgres/rbac.go:753-813 | A scope is in the union exactly when following active parents upward meets a manage scope |
| VisibleScopes.ManageScopesMean | internal/store/postgres/rbac.go:739-752 | The caller manages from the scopes of its bindings in force whose role carries rbac:role:manage, whether or not its account is enabled |
| VisibleScopes.SeesIsPermit | internal/store/postgres/rbac.go:739-813 | For an enabled caller and an active organization, project or environment the listing's reach is the point check for rbac:role:manage |
| VisibleScopes.SeesFolderIsPermit | internal/store/postgres/rbac.go:794-813 | For folders the point check also honours a binding on the parent folder, and that is the only difference |
| VisibleScopes.VisibleUserMeans | internal/store/postgres/rbac.go:814-845 | A caller is listed, beside itself, exactly the users bound somewhere it reaches, or everyone if it manages globally |
| Coverage.ExpandCoveredCodes | internal/service/rbac_service.go:169-192 | For every list of codes, a string is in the result if and only if it is the non-empty action of some code, or it is "read" and some code's action is "update", or it is p + ":read" for some p with p + ":manage" among the actions; the same for every order in which the map is ranged and whether or not entries added meanwhile are visited |
| Coverage.CoversRule | internal/service/rbac_service.go:132-156 | One action covers another exactly when, trimmed, both are non-empty and they are equal, or the pair is update and read, or p:manage and p:read for one p |
| Coverage.StandardCode | internal/service/rbac_service.go:106-130 | Of "resource:action" the action is what follows the first colon |
| Coverage.TemplateCode | internal/service/rbac_service.go:106-130 | Of a code that begins "env:template:" the action is what follows that |
| Coverage.UnsplitCode | internal/service/rbac_service.go:106-130 | A code without a colon has no action |
| Coverage.ExpandedIsPairwise | internal/service/rbac_service.go:132-156 | For trimmed actions the expansion holds exactly what actionCovers allows pairwise |
| Coverage.AgreeIffTrimmedFormsOwned | internal/service/rbac_service.go:106-192 | For any owned actions, trimmed or not, expansion and actionCovers decide alike on every trimmed action if and only if the trimmed form of each owned action is in the expansion |
| Coverage.UntrimmedDiffers | internal/service/rbac_service.go:106-156 | A code whose action starts with a blank, on which the two differ |
| Coverage.ExpandedMonotone | internal/service/rbac_service.go:169-192 | More actions expand to more |
| Coverage.ExpandedIdempotent | internal/service/rbac_service.go:169-192 | Expanding twice adds nothing |
| Coverage.ExpandedUnion | internal/service/rbac_service.go:169-192 | Expansion distributes over union |
| ParentCoverage.ChainNests | internal/store/postgres/rbac.go:913-1031 | The chain of a scope on a resource's chain is part of that chain |
| ParentCoverage.CoverRises | internal/service/rbac_service.go:217-240 | Covering at a scope of the chain is covering at the resource, and bounds what the codes let anyone do |
| ParentCoverage.CoverageMeans | internal/service/rbac_service.go:217-240 | The check passes if and only if no code is asked, or some scope of the chain above and including the binding's covers all codes, each having an action that some permission held there has, or updates where it reads, or manages what it reads, and no scope before it fails |
| ParentCoverage.WalkMeans | internal/service/rbac_service.go:250-268 | The walk over a chain passes exactly when one of its scopes covers all codes and none before it fails |
| ParentCoverage.VerdictMeans | internal/service/rbac_service.go:250-268 | The walk succeeds exactly when some answer along it is yes and no answer before that one is an error |
| ParentCoverage.WalkIsOneCheck | internal/service/rbac_service.go:250-268 | Walking the chain of the global scope, an organization, project or environment decides the same as one check at it |
| ParentCoverage.FolderWalkIsOneCheck | internal/service/rbac_service.go:250-268 | For a folder the walk is the check at the folder while its parent, if any, is active, and at the environment otherwise |
| Grants.Service.CheckParentCoverage | internal/service/rbac_service.go:250-268 | The loop over the chain answers as the walk does |
| Grants.Service.GrantRole | internal/service/rbac_service.go:444-475 | The guards in order, then the upsert and insert of the store, or an error and no change. A grant that succeeds had a named caller other than the target, the point check for rbac:binding:manage at the scope, a platform admin for a global scope or for granting platform_admin, an undeleted role of that code that fits the scope, and coverage of what it carries |
| Grants.Service.RevokeRole | internal/service/rbac_service.go:477-524 | The same guards, then with org_owner of an organization two owner bindings on the page; one row of the target, not deleted, to a role of that code at exactly that scope is marked deleted and nothing else changes, or an error and no change |
| Grants.GuardAnswers | internal/service/rbac_service.go:444-524 | Every way the guards fail, in their order and with their errors |
| Grants.PageShows | internal/store/postgres/rbac.go:1064-1179 | A page of a user's grants holds at most a hundred undeleted rows of that user, and all of them when there are no more |
| Grants.UpsertMeans | internal/store/postgres/rbac.go:1357-1374 | Upserting the target changes nobody else; an existing target keeps everything but a given email, a new one is enabled; when it is refused |
| Grants.GrantBinds | internal/store/postgres/rbac.go:541-587 | A successful grant leaves its target bound to the role at the scope, adds a row exactly when there was none, and keeps every other row |
| Grants.RevokeUnbinds | internal/store/postgres/rbac.go:589-626 | A revoke takes one binding out of force and leaves every other binding and user as they were |
| Grants.UpsertKeepsLive | internal/store/postgres/rbac.go:1357-1374 | Upserting the target makes no binding live that was not |
| Grants.GuardCovers | internal/service/rbac_service.go:444-475 | Passing the guards means the caller can already do all the role does wherever the binding lands |
| Grants.NobodyGains | internal/store/postgres/rbac.go:541-626 | Over any interleaving of checks and writes, what somebody can do at a resource, somebody could do before or a checked grant was about to allow |
| Grants.ExercisableNeverGrows | internal/service/rbac_service.go:444-524 | From a state with nothing in flight the set of actions some user can exercise at a resource never grows |
| Grants.RevokeLeavesAnOwner | internal/service/rbac_service.go:505-523 | Over every run of checks and writes, whatever else is granted and revoked: with at most one owner revoke of the organization waiting at a time, an organization with an owner binding keeps one, even when the count saw one page |
| Grants.PendingCanEmptyIffCover | internal/service/rbac_service.go:505-523 | The owner revokes past their checks can leave the organization without an owner binding if and only if for each user as many of them wait as the user has owner bindings |
| OwnerRace.RacingRevokesLeaveNone | internal/service/rbac_service.go:477-524 | A run of Check, Check, WriteRevoke, WriteRevoke in which two owners pass every guard against each other and none is left |
| TreeAssembly.BuildTree | internal/service/tree_service.go:238-360 | The forest, order included, equals its description by mounting copies; dropped is 0 and the orphan count is the number of orphans |
| TreeAssembly.MountFolder | internal/service/tree_service.go:286-307 | One folder's turn: copied into its environment or parent as it stands, or set aside |
| TreeAssembly.Mount | internal/service/tree_service.go:309-331 | Each child is appended to its visible parent in input order, the others are set aside in order |
| TreePlacement.MountConserves | internal/service/tree_service.go:309-331 | What goes under visible parents and what strays is everything, each once |
| TreePlacement.EntitiesOnce | internal/service/tree_service.go:238-360 | Every visible organization, project and environment occurs exactly once |
| TreePlacement.LevelOneOnce | internal/service/tree_service.go:286-360 | Every visible level-1 folder occurs exactly once |
| TreePlacement.LevelTwoPlacement | internal/service/tree_service.go:286-360 | A level-2 folder occurs exactly once if its parent is not visible, or its parent's environment is not, or it precedes its parent; otherwise nowhere |
| TreePlacement.EveryoneUnderTheirParent | internal/service/tree_service.go:286-360 | Every child names the node it is under, and the orphan bucket holds only nodes whose parent is not visible |
| TreeData.EveryNodeGenuine | internal/service/tree_service.go:238-360 | The roots are organizations, and every node, orphans included, shows its own row's id, code, level and parent and holds only nodes of the kind that belongs under it |
| TreeData.OrphanRootLast | internal/service/tree_service.go:333-360 | One more root follows the organizations exactly when orphans are asked for and there are any; it holds all of them |
| TreeOrder.RootsAndChildrenInOrder | internal/service/tree_service.go:238-360 | The roots are the organizations in input order, and at every level below, children are in the order of their input list |
| TreeOrder.OrphansInOrder | internal/service/tree_service.go:286-360 | The orphan bucket holds folders, then environments, then projects, each in input order |
| TreePlacement.LateChildIsLost | internal/service/tree_service.go:286-307 | A level-2 folder listed after its parent that the forest does not hold |
| FolderGroups.AggregateByKey | internal/service/tree_service.go:524-553 | Each key's group has the first row's id, name and comment and one reference per environment in order of appearance |
| FolderGroups.GroupShows | internal/service/tree_service.go:483-553 | A group shows its first row's id, code, name and comment, refers to every environment of its rows, and each reference is that of the environment's first row |
| FolderGroups.Children | internal/service/tree_service.go:606-622 | A parent's groups, from a map ranged in any order, in strict code order |
| FolderGroups.GroupFolders | internal/service/tree_service.go:511-630 | The response has the top groups and their children, both in strict code order |
| FolderGroupLaws.Deterministic | internal/service/tree_service.go:606-630 | The response is the same for every map order |
| FolderGroupLaws.Lossless | internal/service/tree_service.go:511-630 | Flattening it yields exactly the visible level-1 rows and the level-2 rows with a visible parent, each once |
| AcrossEnvs.CleanKeys | internal/service/secret_service.go:500-517 | Accepts exactly lists of well-formed keys, and cleans them |
| AcrossEnvs.CleanedMeans | internal/service/secret_service.go:525-538 | Cleaning keeps exactly the trimmed, non-blank values, each once |
| AcrossEnvs.Validate | internal/service/secret_service.go:487-544 | Accepted exactly with a caller, a project, at most 32 keys, all of the form of a capital followed by capitals, digits and underscores, a folder if there is any key, and between one and 32 environments; the error otherwise |
| AcrossEnvs.Group | internal/service/secret_service.go:592-640 | Groups by folder code and key in order of first row, and fails at the first payload that does not open |
| AcrossEnvs.ListAcrossEnvs | internal/service/secret_service.go:487-706 | Refusals, failures and the response of the whole call |
| AcrossEnvs.FilledMeans | internal/service/secret_service.go:606-640 | A group has a place for exactly the asked environments, filled by the last row of each |
| AcrossEnvs.AnswerShows | internal/service/secret_service.go:672-706 | Hits in row order, then a placeholder per missing key in request order, values exactly where rows exist |
| AcrossEnvs.OnlyAskedRows | internal/store/postgres/repository.go:1717-1870 | Every value of the response is that of a visible row of an asked environment, and of the asked folder and keys when there are any |
| AcrossEnvs.EveryAskedRow | internal/store/postgres/repository.go:1717-1870 | For every visible row that is asked for, the element of its folder and key shows in the row's environment such a row; with neither keys nor folder every visible row of the asked environments is asked for |
| AcrossEnvs.ElementsHeaded | internal/service/secret_service.go:592-640 | Every element of a group has the key, project code and comment of the first row of its key and folder |
| AcrossEnvs.CleanedInOrder | internal/service/secret_service.go:525-538 | Cleaning keeps the order of first appearance |
| AcrossEnvs.EveryKeyOnce | internal/service/secret_service.go:686-706 | For a non-empty key list every cleaned key comes exactly once and nothing else comes |
| AcrossEnvs.AuditCountsValues | internal/service/secret_service.go:642-670 | The audited hit count is the number of values in the response; no audit exactly when no row was found |
| SecretIndex.RunSound | internal/store/redis/cache.go:70-160 | After any run of upserts, deletes and warmings, and in the middle of a warming, a path points only to an id whose hash has it, and ids and hashes are the current records |
| SecretIndex.WarmingCurrent | internal/store/redis/cache.go:70-89 | A warming, step by step, leaves exactly the last record of each id, whatever was there before |
| SecretIndex.CompleteIffNeverStale | internal/store/redis/cache.go:70-160 | In every run, warmings included and step by step, the path index is complete throughout exactly when no two current records ever share a path and no step drops a path that belongs to another current record |
| SecretIndex.CompleteIffDistinct | internal/store/redis/cache.go:91-160 | Without warming the path index is complete throughout exactly when no two current records ever share a path |
| SecretIndex.WarmBreaksCompleteness | internal/store/redis/cache.go:70-89 | A run with warming and distinct current paths after which a current record's path key is gone |
| SecretIndex.WarmBreaksItself | internal/store/redis/cache.go:70-89 | A run with distinct current paths that loses a path key inside a single warming |
| SecretCache.KeysDisjoint | internal/store/redis/cache.go:209-219 | For UUID ids the id-set key, the hash keys and the path keys never meet |
| SecretCache.Cache.UpsertSecret | internal/store/redis/cache.go:91-139 | The flat store, which carried the index of the history so far, carries that of the history and this upsert |
| SecretCache.Cache.DeleteSecret | internal/store/redis/cache.go:141-160 | The same for a delete |
| SecretCache.Cache.DeletePathKeys | internal/store/redis/cache.go:221-238 | Removes exactly the path keys, whatever batches the scan hands out |
| SecretCache.Cache.WarmSecrets | internal/store/redis/cache.go:70-89 | The same for a warming: id set and paths dropped, hashes kept, then every record upserted |
| SecretCache.Cache.SearchSecrets | internal/store/redis/cache.go:162-207 | Over any history from an empty store, exactly the current records whose environment and folder are the ones asked for and whose key or path contains the keyword, case of A to Z aside, each once and in any order, with an id shown where a label is missing |
| SecretCache.SearchReturnsCurrent | internal/store/redis/cache.go:162-252 | What search reads off the index of any run is exactly the current records that match the filter |
| SecretBatch.Repository.BatchCreateSecrets | internal/store/postgres/repository.go:1139-1227 | Commits all rows and one audit record, or changes nothing |
| SecretBatch.Repository.BatchUpdateSecrets | internal/store/postgres/repository.go:1927-2003 | Commits all changes and their audit records, or changes nothing |
| SecretBatch.CreateExact | internal/store/postgres/repository.go:1139-1227 | Exactly the given rows are added at version 1, read back in input order, keys stay unique, audit grows by 1 |
| SecretBatch.UpdateExact | internal/store/postgres/repository.go:1927-2003 | Exactly the named rows change, each to its last change and by its number of occurrences in version, read back in input order, keys stay unique, audit grows by N + 1 |
| SecretBatch.UpdateCommitsIff | internal/store/postgres/repository.go:1927-2003 | A batch update commits if and only if every named row is active and at its turn no other active row of its folder holds the key, counting changed rows with their new keys and the others with their old ones |
| SecretBatch.CreateReadsBack | internal/store/postgres/repository.go:1217-1226 | Whatever is committed in between, reading a committed batch create back succeeds if and only if none of its rows was deleted by then |
| SecretBatch.UpdateReadsBack | internal/store/postgres/repository.go:1993-2002 | The same for a batch update |
| SecretBatch.DeletedBeforeReadBack | internal/store/postgres/repository.go:1213-1226 | A delete between a batch create's commit and its read-back makes the answer an error for rows that were written |
| SecretBatch.CreateAllOrNothing | internal/service/secret_service.go:723-805 | All rows are written or none; the answer is an error exactly when none was or one was deleted before it was read back |
| SecretBatch.UpdateAllOrNothing | internal/service/secret_service.go:815-883 | Every change and no other is made, or none; the answer is an error exactly when none was or a named row was deleted before it was read back |
| SecretBatch.SwapRefused | internal/store/postgres/repository.go:1957-1972 | Two secrets of a folder cannot swap keys in one batch |
| SecretBatch.Service.BatchCreate | internal/service/secret_service.go:723-805 | Refuses a bad caller, list, value or permission in that order before anything is written. On success every asked value has its own row at version 1 with the folder, key and comment asked and a ciphertext c with encrypt(value) == Ok(c), and one audit record names the first folder; otherwise no row is written |
| SecretBatch.Service.BatchUpdate | internal/service/secret_service.go:815-883 | The same for updates: every named row has the key, comment and encrypted value of the last change of its id, and no other row changes |
| SecretBatch.StoredOpens | internal/service/secret_service.go:756-767 | With an opener that undoes the encryptor, opening a stored row gives back the value asked for |
| SecretBatch.CreateCommitsIff | internal/store/postgres/repository.go:1139-1227 | A batch create commits if and only if every id is new, every key is free in its folder among active rows and the rows before it in the batch, and every folder and its environment exist |
| SecretBatch.UpdateAudits | internal/store/postgres/repository.go:1927-2003 | A committed update writes one record per change in order, and then one for the batch |

## Left out

- Hierarchy.RunsStayConsistent: each request is one atomic step with its cache update; cache updates that land out of
  order are not modelled.
- Interleaving.InterleavedConsistentIff: the writes of one transaction are one step, so statements of two open
  transactions do not interleave; a guard's own reads are one step.
- Grants.ExercisableNeverGrows: the reads of one grant's or revoke's guards are one step.
- AuthService.AuthService.Login: token issuing and last-seen are not modelled; emails arrive trimmed and in lower case.
- TokenRevocation.RejectsForeverIffSealed: times are exact; the JWT library's truncation of `iat` to seconds is not
  modelled.
- LoginThrottle.FailuresBounded: the Redis commands succeed; the code's error returns for a failing Redis are not
  modelled.
- SecretCache.Cache.SearchSecrets: case folding is ASCII only, version and time fields pass through unparsed, and the
  key prefix is taken to hold no glob characters, which the path-key scan would interpret.
- AcrossEnvs.ListAcrossEnvs: the rows the caller may read arrive as an argument in query order; `UpdatedAt` and the
  other audit payload fields are not modelled.
- FolderGroups.GroupFolders: starts from the rows left by the permission filter, which is
  `Narrowing.FilterByAllow`.
- Grants.RevokeLeavesAnOwner: counts bindings as the code does, so an expired binding or a disabled user's counts as
  an owner.
- The `env_template` resource type, environment templates, and snapshots in `deleted_records`.
- `CreateFolder` of internal/store/postgres/repository.go for a single folder, which no handler calls.
- Code and key patterns the schema checks, UUID syntax errors and UUID generation.
- `applyMaxDepth` and `truncateChildren`, which cut children below a depth.
- `Invalidate` as a protocol step, because nothing calls it.
- `ListRoleBindingsCascading`, whose recursive query depends on database rules these files do not settle.
- `CreateRole`, `UpdateRole`, `DeleteRole` and the system roles: the grant theorem is about fixed roles.
- Paging of lists, ordering by name, and the grouping of project-scope secret search.
- Asynchronous warming and completeness of the metadata cache, global search and its ranking, user labels, personal
  access tokens.
- HTTP binding, response shapes, configuration, logging, and the cryptography, of which only an encryptor and a
  verifier that may fail remain.
- `BatchUpdateByIDs`, `BatchUpdateCommentByIds`, `BatchRevealByPath`, `BatchRevealByCode` and the path parsers, which
  repeat the shapes proved here.
