# Kyrox Core: a verified model of its state machines

Kyrox Core is a multi-tenant platform backend. This project models the parts of it whose
correctness is not visible in one function, and proves what they promise over every input,
every run or every interleaving.

| files | what they model |
|---|---|
| SuperAdminProtection, TriggerResults, UnlockedTrigger | the trigger that protects the last active super admin, as steps of concurrent READ COMMITTED transactions with row locks and one advisory lock, and its downgraded form without that lock |
| Authentication, AuthenticationSafety, RotationTheorems, SessionResults, SuspensionResults, RequestRollback, AuthenticationStore | sessions and refresh-token rotation (section 10.4 of RFC 6749, section 4.14.2 of RFC 9700): login, refresh, logout, revoke-all, organization suspension, the access check |
| JobQueue, JobResults, JobProgress, JobCheck, JobStore | the job queue: idempotent enqueue, oldest-first claiming, retries, and its CHECK on attempts |
| LikePattern, AuditQuery, AuditListing | LIKE escaping (section 8.5 of ISO/IEC 9075-2) and keyset pagination of the audit log |
| RoleGovernance, RoleResults, RoleTheorems, RoleTriggers, RoleStore | role templates, derived roles, exclusions, permission locks, and what the database triggers make of them |
| PermissionMerge, PermissionGuard, PermissionFold, PermissionMigrations, MigrationResults | the migrations 0048, 0049 and 0051, which merge permission codes, under the triggers of 0046 |
| Notifications, NotificationResults, NotificationReplay, NotificationService | the notification lifecycle |
| ActionTokens, ActionTokenResults, ActionTokenStore | single-use identity action tokens |
| RetentionCalendar, PurgeResults | calendar months (section 5.7 and Appendix C of RFC 3339) and the audit retention gate |
| FixedDigits, SnapshotText, RestoreGuard, RestoreSnapshot, RestoreCapture, RestoreResults | lifecycle reconciliation after a database restore, the snapshot it reads with its texts, and its capture |
| Wrappers, Sets | options, results, finite sets |

Each component is written twice: as functions from one table state to the next, about which
the theorems are proved, and, where the program updates rows in place, as a class whose
methods are proved to reach exactly the state those functions give. The `Results` modules say
of each operation, in terms of the rows alone, when it is refused, what it leaves of the rows it
names and that it leaves all others; readers of a theorem about runs should read the component's
`Inv` and `Next` first.

## How the program is read

- Ids and raw tokens are fresh and hashing is injective: ids come from a counter, and a raw
  refresh token is named by the row it was issued for.
- One operation reads the clock once. Passwords, rehashing, JWT encoding, mail transport and
  the organization's mail setting are parameters of the operations that use them.
- `get_db` (`backend/app/db/session.py:17-26`) rolls a request back on any exception, while
  refresh writes revocations before it raises. The session use cases are modelled with those
  writes kept, as their own code has it; RequestRollback models the requests. The role routes
  are modelled with the rollback.
- A migration runs in one transaction; a refused insert takes all of it back.
- The trigger's refusal raises; the raising transaction ends without publishing anything.
- Two edges outside the notification transition table are taken by the sender itself: an
  in-app notification goes from pending to sent, a failed enqueue from pending to failed.
  Both are admitted, and only those.
- A dispatch saves its steps in one transaction, which the job handler commits at the end. An
  interruption that is no `Exception`, or a commit that fails, takes those saves back, so that
  the row is queued again and the next dispatch calls the adapter again. At-most-once holds of
  the dispatches that commit.

## Findings

- Suspending an organization does not reach the sessions of a member who is soft-deleted at
  that moment: the organization queries filter on the user's `deleted_at`
  (`sqlalchemy_session_repository.py:62-74`, `sqlalchemy_refresh_token_repository.py:103-122`),
  deleting a user revokes no session, and a deleted user can be restored
  (`backend/app/modules/identity/api/user_management/deleted_users.py:165-232`). After
  reactivation and restoration the old refresh token works. `SuspensionIsFinalExactlyWhen`
  gives the exact condition, `DeletedMemberOutlivesSuspension` a concrete state.
- Because the request is rolled back, a replayed refresh token closes no session and is never
  recorded: the family goes on refreshing (`ReplayClosesNothing`, `ReuseIsNeverRecorded`).
  `ReplayEndsFamily`, `RefusedRefresh` and `ReplayIsRecorded` describe the use case with its
  writes kept.
- The CHECK `attempt_count <= max_attempts` contradicts the unbounded retry of the persistent
  job type: once such a job is out of attempts and among the oldest of a batch, every batch
  fails and the queue stands still (`ExhaustedJobStopsTheQueue`, `OneFailureStopsTheQueue`).
  Without the CHECK an ordinary job can be passed over for ever by persistent-retry jobs
  (`PersistentJobsCanStarve`). `NoStarvation` and `NoStarvationChecked` give the conditions
  under which waiting is bounded.
- The routes keep the grants of a locked permission so that unlocking restores access, but the
  triggers of 0055 delete them on locking; unlocking restores it to the roles that include new
  permissions and to no other (`UnlockRestoresOnlyIncluding`).
- 0048, 0049 and 0051 abort when a grant would be moved to a permission that is not active
  (`MergeAllSucceedsExactlyWhen`, `LockedTargetAborts`).
- The round trip of 0051 does not restore the tables exactly when a target code existed
  beforehand.
- An adapter can be called once for every dispatch whose commit is lost, and once more
  (`DeliveredAgainAndAgain`).
- The downgraded super-admin trigger can lose every admin of any database; it protects in the
  schedules without contested removals (`AnyDatabaseCanLose`, `UncontestedScheduleProtects`).
- A sync preview overstates removals exactly when a role holds a locked permission that the
  template does not.

## Model

| member | source | states |
|---|---|---|
| SuperAdminProtection.LastAdminSurvives | backend/alembic/versions/20260814_0045_serialize_last_super_admin_protection.py:35-71 | For every schedule of interleaved inserts, updates, deletes, commits and rollbacks: if an active super admin is committed at the start, one is committed in every reachable state |
| SuperAdminProtection.RunKeepsInv | backend/alembic/versions/20260814_0045_serialize_last_super_admin_protection.py:50-65 | The inductive invariant over all schedules: row locks are exclusive, only the advisory-lock holder has a pending removal, and the holder itself still sees an active super admin |
| SuperAdminProtection.NextKeepsInv | backend/alembic/versions/20260814_0045_serialize_last_super_admin_protection.py:34-71 | Each single step (begin, insert, write, lock, count, decide, commit, rollback) keeps that invariant |
| SuperAdminProtection.CommitKeepsInv | backend/alembic/versions/20260814_0045_serialize_last_super_admin_protection.py:53-65 | Publishing a transaction keeps an admin committed and every other open transaction guarded, although its view changes |
| SuperAdminProtection.ApplyKeepsInv | backend/alembic/versions/20260814_0045_serialize_last_super_admin_protection.py:55-70 | A write that removes nothing, or whose count saw another admin under the lock, keeps the invariant |
| SuperAdminProtection.RefusedExactlyWhenLast | backend/alembic/versions/20260814_0045_serialize_last_super_admin_protection.py:55-64 | Counting then deciding ends the transaction exactly when it sees no other active super admin; otherwise the write is applied |
| TriggerResults.HarmlessWritePasses | backend/alembic/versions/20260814_0045_serialize_last_super_admin_protection.py:67-70 | An update or delete that takes no active super admin away leaves its transaction open, the row it names as requested and every other row it sees unchanged, and takes no lock |
| TriggerResults.RemovalResult | backend/alembic/versions/20260814_0045_serialize_last_super_admin_protection.py:50-70 | A removal with the lock to be had ends its transaction exactly when that sees no other active super admin, and is otherwise written as requested with the lock held |
| TriggerResults.RemovalWaits | backend/alembic/versions/20260814_0045_serialize_last_super_admin_protection.py:53-53 | While another transaction holds the lock nothing changes |
| TriggerResults.WriteResult | backend/alembic/versions/20260814_0045_serialize_last_super_admin_protection.py:74-78 | A write fires the trigger for a row its transaction sees and no other has locked, and shows nothing of itself until the trigger returns |
| TriggerResults.InsertResult | backend/alembic/versions/20260814_0045_serialize_last_super_admin_protection.py:74-78 | An insert of an unseen, unlocked row is written without the trigger |
| TriggerResults.CommitResult | backend/alembic/versions/20260814_0045_serialize_last_super_admin_protection.py:35-71 | After a commit the table holds, row for row, what the transaction saw; the lock it held is free |
| TriggerResults.RollbackResult | backend/alembic/versions/20260814_0045_serialize_last_super_admin_protection.py:35-71 | A rollback leaves the table as it was |
| TriggerResults.UpdateIsCommitted | backend/alembic/versions/20260814_0045_serialize_last_super_admin_protection.py:67-70 | From begin to commit, an update that removes no admin is in the table and no other row changed |
| TriggerResults.SomeAdminStays | backend/alembic/versions/20260814_0045_serialize_last_super_admin_protection.py:35-71 | The main result with the admin spelled out field by field |
| UnlockedTrigger.UncontestedScheduleProtects | backend/alembic/versions/20260814_0045_serialize_last_super_admin_protection.py:99-130 | The downgraded trigger, without the lock: in every schedule in which no removal fires while another transaction counts, has counted or would remove an admin by committing, an active super admin stays committed |
| UnlockedTrigger.StepSimulates | backend/alembic/versions/20260814_0045_serialize_last_super_admin_protection.py:99-130 | Each such step of the unlocked trigger is a step of the locked one for some holder of the lock |
| UnlockedTrigger.TwoAdminsCanBeLost | backend/alembic/versions/20260814_0045_serialize_last_super_admin_protection.py:114-125 | Every database with two active super admins or more has a schedule of the unlocked trigger that commits the removal of all of them |
| UnlockedTrigger.AnyDatabaseCanLose | backend/alembic/versions/20260814_0045_serialize_last_super_admin_protection.py:114-125 | So has every database with one; every such schedule is contested |
| UnlockedTrigger.RemovalPasses | backend/alembic/versions/20260814_0045_serialize_last_super_admin_protection.py:114-125 | A removal passes the unlocked trigger whenever its own transaction sees another admin |
| UnlockedTrigger.WithoutLockLastAdminIsLost | backend/alembic/versions/20260814_0045_serialize_last_super_admin_protection.py:99-130 | One concrete schedule of two crossed deletions keeps an admin under the lock and loses both without it |
| SuperAdminProtection.UserDatabase.CountOthers | backend/alembic/versions/20260814_0045_serialize_last_super_admin_protection.py:55-60 | The count over the rows a transaction sees is the size of the set of other active super admins |
| SuperAdminProtection.UserDatabase.Execute | backend/alembic/versions/20260814_0045_serialize_last_super_admin_protection.py:34-71 | The in-place step reaches exactly the state of the step function |
| SuperAdminProtection.UserDatabase.RunSchedule | backend/alembic/versions/20260814_0045_serialize_last_super_admin_protection.py:34-71 | Running any schedule in place equals the run function and leaves an active super admin committed |
| RotationTheorems.FamilyIsOneChain | backend/app/modules/identity/application/authentication/refresh_session.py:91-105 | In every state satisfying the invariant the tokens of a family, all in one session, are exactly one line of rotations without repetition, and only its last token is unused |
| RotationTheorems.UsedExactlyWhenRotated | backend/app/modules/identity/application/authentication/refresh_session.py:91-105 | A token is used exactly when a successor rotated from it exists, and every used token is revoked |
| RotationTheorems.OneRefreshableToken | backend/app/modules/identity/application/authentication/login.py:70-92 | A user has at most one token that could be refreshed |
| RotationTheorems.RevokedSessionStaysDead | backend/app/modules/identity/application/authentication/refresh_session.py:68-75 | Once a session is revoked, after any run none of its tokens refreshes and none of its access tokens is accepted |
| RotationTheorems.ReplayEndsFamily | backend/app/modules/identity/application/authentication/refresh_session.py:59-64 | With the writes of a refused refresh kept: a rotated token presented again at any point of any run is refused, and from then on no token of its family refreshes in any continuation |
| RequestRollback.ReplayClosesNothing | backend/app/db/session.py:17-26 | With them rolled back, as the request does: the replay is refused, changes nothing, and the family's current token refreshes right after it, where keeping the writes refuses it |
| RequestRollback.ReuseIsNeverRecorded | backend/app/db/session.py:17-26 | Over every run of requests no token is ever marked as reused |
| RequestRollback.RequestRunKeepsInv | backend/app/db/session.py:17-26 | Over every run of requests the chain, single-session and finality invariant holds all the same |
| RotationTheorems.InactiveOrganizationBlocks | backend/app/modules/identity/application/authentication/organization_lifecycle.py:6-14 | While the organization of a user who is no super admin is not active, no login and no refresh of that user succeeds |
| RotationTheorems.ExhaustedStaysExhausted | backend/app/modules/identity/application/authentication/refresh_session.py:59-105 | A session without a usable token never gets one |
| RotationTheorems.SuspensionIsFinalExactlyWhen | backend/app/modules/identity/application/organization/suspend_organization.py:23-33 | After a suspension an existing session of a member refreshes in no later run if and only if the member was not soft-deleted then, or the session was already revoked, or had no usable token |
| RotationTheorems.DeletedMemberOutlivesSuspension | backend/app/modules/identity/infrastructure/authentication/repositories/sqlalchemy_session_repository.py:62-74 | Concrete state in which a session survives the suspension because its user was soft-deleted at that moment |
| AuthenticationSafety.RunKeepsInv | backend/app/modules/identity/application/authentication/login.py:70-92 | Over every run of login, refresh, logout, revoke-all, suspension and arbitrary user or organization edits: families are sessions, chains stay linked, a user has at most one active session, and nothing used, revoked or closed is undone |
| AuthenticationSafety.NextKeepsInv | backend/app/modules/identity/application/authentication/refresh_session.py:48-112 | Every single step keeps that invariant and that persistence |
| AuthenticationSafety.RefreshKeepsInv | backend/app/modules/identity/application/authentication/refresh_session.py:59-105 | So does a refresh on each of its branches |
| AuthenticationSafety.LoginKeepsInv | backend/app/modules/identity/application/authentication/login.py:70-92 | So does a login, which revokes everything before it opens a session |
| AuthenticationSafety.RefreshShape | backend/app/modules/identity/application/authentication/refresh_session.py:59-105 | A refresh rotates, or revokes one token keeping its links and closes its session, or changes nothing |
| AuthenticationSafety.EveryReachableState | backend/app/modules/identity/application/authentication/login.py:70-92 | Every state reached from tables without sessions satisfies the invariant, so no user ever has two active sessions |
| SessionResults.LoginResult | backend/app/modules/identity/application/authentication/login.py:51-92 | Login succeeds exactly for a matching password of an active, undeleted user whose organization allows it; the pair then works until its expiries and its session is the only active one of the user; a refused login changes nothing |
| SessionResults.LoginRefusal | backend/app/modules/identity/application/authentication/login.py:51-63 | Which error a refused login gives, case by case |
| SessionResults.RefreshRefusal | backend/app/modules/identity/application/authentication/refresh_session.py:49-89 | Which error a refused refresh gives, case by case |
| SessionResults.OrganizationRefusal | backend/app/modules/identity/application/authentication/refresh_session.py:82-89 | A refresh refused for the organization revokes the token presented for that reason, and its session, now |
| SessionResults.RevokedRow | backend/app/modules/identity/application/authentication/revoke_all_user_sessions.py:31-47 | Row by row which sessions and tokens a bulk revocation revokes, when and why, and that every other stays as it was |
| SessionResults.RevokeAllResult | backend/app/modules/identity/application/authentication/revoke_all_user_sessions.py:31-47 | Revoking everything of a user closes each of its sessions and records session revocation for its usable tokens |
| SessionResults.AccessIsOwners | backend/app/modules/identity/api/authentication/access_guard.py:33-39 | An accepted access token is unexpired, its session open, and its subject that session's user |
| SuspensionResults.SuspensionResult | backend/app/modules/identity/application/organization/suspend_organization.py:23-33 | Suspension goes through exactly for a stored, undeleted, active organization, sets that one suspended and changes no other nor any user; a refusal changes nothing |
| SuspensionResults.SuspensionRevokes | backend/app/modules/identity/application/organization/suspend_organization.py:30-33 | Row by row it revokes the open sessions and usable tokens of ordinary, undeleted members, for the suspension, and no others |
| SuspensionResults.SuspendedMembersAreLockedOut | backend/app/modules/identity/application/organization/suspend_organization.py:23-33 | After a suspension, and any run without an edit of that organization, no login or refresh of a member who is no super admin succeeds |
| SuspensionResults.StepsAreUseCases | backend/app/modules/identity/application/authentication/login.py:45-92 | A run is the use cases one after the other |
| SessionResults.RefreshResult | backend/app/modules/identity/application/authentication/refresh_session.py:59-105 | Refresh succeeds exactly on a refreshable token whose owner may authenticate; the new pair works in the same session and family and the old token never again |
| SessionResults.RefusedRefresh | backend/app/modules/identity/application/authentication/refresh_session.py:59-89 | With its writes kept, a refused refresh adds no row and closes the session exactly on replay or when the organization does not allow authentication |
| SessionResults.ReplayIsRecorded | backend/app/modules/identity/domain/authentication/entities/refresh_token.py:62-64 | With its writes kept, the first replay is recorded with time and reason; a second leaves the record as it is and is refused too |
| SessionResults.RefreshLeavesOthers | backend/app/modules/identity/application/authentication/refresh_session.py:91-96 | A refresh changes no token but the presented one and no session but its own |
| SessionResults.LoginLeavesOthers | backend/app/modules/identity/application/authentication/login.py:70-92 | A login changes only the tokens and sessions of that user |
| SessionResults.LogoutResult | backend/app/modules/identity/application/authentication/logout.py:26-40 | After logout no token of the family refreshes and no access token of the session passes, at any time; nothing else changed |
| SessionResults.RevokeOwnersResult | backend/app/modules/identity/application/authentication/revoke_all_user_sessions.py:31-47 | Bulk revocation closes every session and makes unusable every token of the users concerned, and touches no other row |
| AuthenticationStore.Store.Login | backend/app/modules/identity/application/authentication/login.py:45-92 | In place: reaches exactly the tables and result of the login function, on every branch |
| AuthenticationStore.Store.Refresh | backend/app/modules/identity/application/authentication/refresh_session.py:48-105 | In place: reaches exactly the tables and result of the refresh function, on every branch |
| AuthenticationStore.Store.Logout | backend/app/modules/identity/application/authentication/logout.py:26-40 | In place: reaches exactly the tables of the logout function |
| AuthenticationStore.Store.Issue | backend/app/modules/identity/application/authentication/token_pair_issuer.py:42-87 | Adds one token row for the session and family, expiring after the policy, linked to the token it was rotated from |
| AuthenticationStore.Store.RevokeSessionIfActive | backend/app/modules/identity/application/authentication/refresh_session.py:107-112 | Revokes the session if it is there and active, and changes nothing else |
| AuthenticationStore.Store.RevokeAllUserSessions | backend/app/modules/identity/application/authentication/revoke_all_user_sessions.py:31-47 | The two loops revoke exactly the usable tokens and the active sessions of the user and return how many those were |
| AuthenticationStore.Store.RevokeOrganizationSessions | backend/app/modules/identity/application/authentication/revoke_organization_sessions.py:31-49 | The same for the members the organization queries reach |
| AuthenticationStore.Store.SuspendOrganization | backend/app/modules/identity/application/organization/suspend_organization.py:23-33 | In place: suspends an active organization and revokes its sessions, refuses any other |
| AuthenticationStore.RefreshToken.AssertUsable | backend/app/modules/identity/domain/authentication/entities/refresh_token.py:66-72 | Raises exactly when the token is not usable, revocation and use reported before expiry |
| AuthenticationStore.RefreshToken.MarkReuseDetected | backend/app/modules/identity/domain/authentication/entities/refresh_token.py:62-64 | Sets the detection time and revokes for reuse |
| JobProgress.NoStarvation | backend/app/modules/jobs/infrastructure/repositories.py:81-103 | In the queue without its CHECK constraint: an ordinary pending job with fewer persistent-retry jobs pending ahead than the limit is claimed within 1 + (attempts remaining to ordinary jobs ahead) batches, whatever handlers return and is enqueued later |
| JobCheck.NoStarvationChecked | backend/app/modules/jobs/infrastructure/persistence/models.py:23-26 | With the CHECK: the same bound, provided every persistent-retry job has attempts left for as many batches |
| JobCheck.ExhaustedJobStopsTheQueue | backend/app/modules/jobs/infrastructure/persistence/models.py:23-26 | With the CHECK: an exhausted persistent-retry job among the oldest pending ones of the batch limit makes every later batch fail, so that nothing is ever claimed again |
| JobCheck.OneFailureStopsTheQueue | backend/app/modules/jobs/application/worker/job_runner.py:8-13 | From an empty queue it takes one such job allowing one attempt, and one failure |
| JobCheck.CheckedRunKeepsInv | backend/app/modules/jobs/infrastructure/persistence/models.py:23-26 | With the CHECK the bound on attempts holds of every job in every run |
| JobProgress.PersistentJobsCanStarve | backend/app/modules/jobs/application/worker/job_runner.py:67-81 | Without the CHECK: the condition is needed, for with `limit` persistent-retry jobs ahead there is for any number of batches a run that never claims the job |
| JobProgress.QueueDrains | backend/app/modules/jobs/application/worker/job_runner.py:20-91 | With nothing enqueued and no unfinished persistent job, every job is terminal after as many batches as attempts remain |
| JobProgress.BatchAdvances | backend/app/modules/jobs/infrastructure/repositories.py:81-103 | A batch that passes the job over strictly lowers its waiting bound and keeps the persistent jobs ahead below the limit |
| JobProgress.ClaimWithout | backend/app/modules/jobs/infrastructure/repositories.py:83-88 | Given enough jobs ahead, a claim that the query may return and that omits the job exists |
| JobQueue.RunKeepsInv | backend/app/modules/jobs/application/worker/job_runner.py:20-91 | Over every run attempts of ordinary jobs stay within the maximum, strictly while pending, finish time is set exactly in terminal states, idempotency keys stay unique, and no row is removed or re-targeted |
| JobQueue.EveryReachableTable | backend/app/modules/jobs/application/worker/job_runner.py:20-91 | Every table reached from an empty one satisfies the invariant |
| JobQueue.RunClaimed | backend/app/modules/jobs/application/worker/job_runner.py:20-91 | A claimed job takes two edges of the transition table, ends completed exactly when the handler returned a result, pending exactly when it raised with attempts left or of the persistent type, and uses one attempt |
| JobQueue.BatchKeepsInv | backend/app/modules/jobs/application/process_pending_jobs.py:19-27 | A batch keeps the invariant and what was requested of every job |
| JobResults.BatchResult | backend/app/modules/jobs/application/process_pending_jobs.py:19-27 | Each claimed job ends by its own handler: completed exactly when that returned, pending exactly when it raised with a retry left, failed otherwise, with the times and one attempt; every other job is as it was |
| JobResults.BatchRecords | backend/app/modules/jobs/application/worker/job_runner.py:20-53 | What is recorded of each: the handler's result, or the message and code of its failure |
| JobResults.RunTimes | backend/app/modules/jobs/application/worker/job_runner.py:56-91 | A finished job keeps its start and records its end; a retried one has no start |
| JobResults.EnqueueResult | backend/app/modules/jobs/application/enqueue_job.py:23-59 | Refused exactly for a maximum outside 1 to 10 or a known key with another payload; otherwise one pending job as requested is stored, or nothing if the key is known |
| JobResults.StepsAreOperations | backend/app/modules/jobs/application/process_pending_jobs.py:19-27 | A run is batches and enqueues one after the other |
| JobQueue.EnqueueOnce | backend/app/modules/jobs/application/enqueue_job.py:29-40 | A request repeated under its key after any run creates nothing: it names the first job, or is refused for another payload |
| JobStore.Store.ListPending | backend/app/modules/jobs/infrastructure/repositories.py:55-63 | Returns pending jobs without repetition, oldest first, leaving out none while the limit allows |
| JobStore.Store.ClaimNextPending | backend/app/modules/jobs/infrastructure/repositories.py:70-112 | Claims exactly an oldest-first selection: those rows running with one more attempt, all others unchanged |
| JobStore.Store.ClaimPending | backend/app/modules/jobs/infrastructure/repositories.py:114-155 | Claims one row if it is pending and changes nothing otherwise |
| JobStore.Store.ProcessPending | backend/app/modules/jobs/application/process_pending_jobs.py:19-27 | Claims, runs and saves an oldest-first selection and nothing else, and counts it |
| JobStore.Store.Enqueue | backend/app/modules/jobs/application/enqueue_job.py:23-59 | In place: same table and answer as the enqueue function, replay and conflict included |
| JobStore.ClaimedJob.Run | backend/app/modules/jobs/application/worker/job_runner.py:20-53 | In place: each handler outcome leaves the job as the runner function says |
| JobStore.ClaimedJob.ApplyFailure | backend/app/modules/jobs/application/worker/job_runner.py:67-81 | In place: fails for good exactly when an ordinary job is out of attempts, else goes back to pending |
| JobQueue.FindByIdempotency | backend/app/modules/jobs/infrastructure/repositories.py:28-42 | Finds a row with the key, organization and type exactly when there is one |
| LikePattern.PrefixSearchIsExact | backend/app/modules/audit/infrastructure/query_repository.py:34-36 | For all strings p and s, LIKE with the escaped p and a percent sign matches s exactly when p is a prefix of s |
| LikePattern.ChainedEscapeIsOnePass | backend/app/modules/audit/infrastructure/query_repository.py:69-70 | The three chained replacements are one backslash before each backslash, percent sign and underscore |
| LikePattern.ParseEscaped | backend/app/modules/audit/infrastructure/query_repository.py:69-70 | The escaped prefix parses to the literal characters followed by the any-string wildcard, whatever it holds |
| LikePattern.LiteralsMatchPrefix | backend/app/modules/audit/infrastructure/query_repository.py:34-36 | Literals and a final wildcard match exactly the extensions of the literals |
| AuditQuery.WalkShowsEverything | backend/app/modules/audit/infrastructure/query_repository.py:52-66 | Following the cursors from the start shows each row that matched at the start exactly once, newest first, and nothing appended meanwhile |
| AuditQuery.WalkStops | backend/app/modules/audit/infrastructure/query_repository.py:60-66 | The walk has exactly max(1, ceil(n / limit)) pages |
| AuditQuery.PageIsSlice | backend/app/modules/audit/infrastructure/query_repository.py:57-66 | Page k shows the k-th slice of the plain sorted list and names a next cursor exactly while rows remain |
| AuditQuery.QueryContinues | backend/app/modules/audit/infrastructure/query_repository.py:52-58 | The query behind a cursor, on a table to which newer rows were appended, is the rest of the first list |
| AuditQuery.QueryIsSorted | backend/app/modules/audit/infrastructure/query_repository.py:25-60 | A query returns exactly the selected rows in strictly descending (created_at, id) order |
| AuditQuery.DescendingIsUnique | backend/app/modules/audit/infrastructure/query_repository.py:57-57 | That order determines the list |
| AuditQuery.PrefixFilterIsPrefix | backend/app/modules/audit/infrastructure/query_repository.py:34-36 | Filtering by action prefix selects exactly the rows whose action begins with it |
| AuditQuery.ListAuditLogs | backend/app/modules/audit/application/list_organization_audit_logs.py:17-38 | A page is given exactly for a limit from 1 to 100, a valid filter and a cursor that decodes; it holds at most 100 rows and has a next cursor only if it shows rows |
| AuditListing.ListingResult | backend/app/modules/audit/application/list_organization_audit_logs.py:17-38 | One answer, filter by filter: rows of the organization that meet every filter given and come after the cursor, newest first; a row left out is older than all of them, and the next cursor names the last row shown exactly if one was left out |
| AuditListing.AcceptedExactlyWhen | backend/app/modules/audit/application/query_policy.py:20-67 | Which requests are refused, with the bounds spelled out and in order |
| AuditListing.ClientSeesEverything | backend/app/modules/audit/application/list_organization_audit_logs.py:17-38 | A client handing each cursor back to the listing is shown every row wanted at the start exactly once, newest first, in max(1, ceil(n / page size)) answers, and nothing appended meanwhile |
| AuditListing.SamePages | backend/app/modules/audit/infrastructure/query_repository.py:17-66 | Answer by answer that is the walk over the repository's query |
| RoleTheorems.UnlockRestoresAccess | backend/app/modules/identity/api/role_management/routes.py:133-152 | As the routes keep it, no trigger interfering: while a permission is locked no sequence of operations not touching its lifecycle takes it from a role that held it; it gives no access meanwhile, and unlocking gives it back to each such role not deleted |
| RoleTriggers.UnlockRestoresOnlyIncluding | backend/alembic/versions/20260816_0055_permission_scope.py:42-91 | As the database keeps it: locking takes the permission from every role, and after any requests unlocking gives it to exactly the roles that include new permissions, whoever held it before |
| RoleTriggers.TriggeredRunKeepsActive | backend/alembic/versions/20260816_0055_permission_scope.py:42-91 | Under the triggers no reachable role holds a permission that is not active |
| RoleTheorems.LockedGrantSurvives | backend/app/modules/identity/api/role_management/routes.py:133-152 | No single operation removes a locked grant |
| RoleTheorems.RunKeepsInv | backend/app/modules/identity/api/role_management/routes.py:113-152 | No reachable role holds an inactive or system-scoped permission, and no exclusion names a permission its role holds |
| RoleTheorems.EveryReachableState | backend/app/modules/identity/api/role_management/routes.py:113-152 | Every state reached from roles that hold nothing yet satisfies the invariant |
| RoleTheorems.NextKeepsInv | backend/app/modules/identity/api/role_management/routes.py:164-464 | Every operation keeps that invariant |
| RoleTheorems.TemplateGrantsPropagate | backend/app/modules/identity/api/role_management/routes.py:113-130 | What a template holds always propagates whole, so neither sync nor derivation is refused for it |
| RoleTheorems.SyncResult | backend/app/modules/identity/api/role_management/routes.py:240-259 | Sync leaves each target with the template grants and its own locked ones and no exclusions, and any other role as it was |
| RoleTheorems.PreviewIsHonest | backend/app/modules/identity/api/role_management/routes.py:221-237 | The previewed additions are exact; the previewed removals bound the real ones, with equality exactly when no locked grant lies outside the template |
| RoleTheorems.SyncIsIdempotent | backend/app/modules/identity/api/role_management/routes.py:240-259 | Syncing again changes nothing |
| RoleGovernance.ReplacedGrants | backend/app/modules/identity/api/role_management/routes.py:133-152 | Who holds what after a replacement |
| RoleResults.UpdateRoleResult | backend/app/modules/identity/api/role_management/routes.py:359-391 | Exactly under the stated guards the role ends with the permissions asked for and the locked ones it held, a derived one excludes exactly what its template holds and it does not, and no other role changes |
| RoleResults.UpdateTemplateResult | backend/app/modules/identity/api/role_management/routes.py:164-180 | The same for a template, whose version grows by one |
| RoleResults.CreateResult | backend/app/modules/identity/api/role_management/routes.py:262-284 | A new role of the organization holds exactly the permissions asked for |
| RoleResults.DeriveResult | backend/app/modules/identity/api/role_management/routes.py:183-209 | A derived role holds exactly what its template holds and records template and version |
| RoleResults.SyncedRoleResult | backend/app/modules/identity/api/role_management/routes.py:212-259 | Which roles a sync reaches, and grants, exclusions, version and flag of each role after it |
| RoleResults.DeleteResult | backend/app/modules/identity/api/role_management/routes.py:394-409 | Deletion marks the role and nothing else, unless it is assigned |
| RoleResults.LifecycleResult | backend/app/modules/identity/api/role_management/routes.py:443-464 | A change of state touches that permission, and its grants exactly when it becomes inactive |
| RoleResults.ValidatedExactlyWhen | backend/app/modules/identity/api/role_management/routes.py:99-110 | Permissions are accepted exactly if all exist, are active, of organization scope and, unless allowed otherwise, assignable |
| RoleResults.StepsAreOperations | backend/app/modules/identity/api/role_management/routes.py:164-464 | A run is the operations one after the other, refused ones changing nothing |
| RoleStore.Store.ReplacePermissions | backend/app/modules/identity/api/role_management/routes.py:133-152 | In place: leaves the role exactly the listed permissions and the locked ones it held, and no other role changed |
| RoleStore.Store.UpdateTemplate | backend/app/modules/identity/api/role_management/routes.py:164-180 | In place: same tables and answer as the template update function |
| RoleStore.Store.Derive | backend/app/modules/identity/api/role_management/routes.py:183-209 | In place: same tables and answer as the derivation function |
| RoleStore.Store.Sync | backend/app/modules/identity/api/role_management/routes.py:240-259 | In place: same tables and answer as the sync function, the roles taken one after the other |
| RoleStore.Store.CreateRole | backend/app/modules/identity/api/role_management/routes.py:262-284 | In place: same tables and answer as the creation function |
| RoleStore.Store.UpdateRolePermissions | backend/app/modules/identity/api/role_management/routes.py:359-391 | In place: same grants and recomputed exclusions as the update function |
| RoleStore.Store.DeleteRole | backend/app/modules/identity/api/role_management/routes.py:394-409 | In place: marks the role deleted unless it is assigned |
| RoleStore.Store.ChangeLifecycle | backend/app/modules/identity/api/role_management/routes.py:443-464 | In place: sets the state, and removes the grants exactly when it becomes inactive |
| PermissionGuard.MergeAllImage | backend/alembic/versions/20260815_0048_consolidate_archive_deactivate_permissions.py:37-110 | For any list of renames that goes through, the loop leaves each role exactly the image of its earlier codes under the sequential substitution, likewise its exclusions, with codes unique and no grant to a missing permission |
| PermissionGuard.MergeAllSucceedsExactlyWhen | backend/alembic/versions/20260814_0046_role_template_governance.py:157-171 | The loop goes through if and only if no step finds both codes, a grant of the source and a target that is not active; otherwise the insert trigger refuses |
| PermissionGuard.SeparateSucceedsExactlyWhen | backend/alembic/versions/20260814_0046_role_template_governance.py:157-171 | For renames that do not touch each other that can be read off the tables before the upgrade |
| PermissionGuard.MergeAllKeepsTriggers | backend/alembic/versions/20260814_0047_role_assignment_invariants.py:24-29 | A successful migration keeps what the triggers keep: only active permissions are granted, and including roles hold all of those |
| PermissionGuard.RoundTripExactlyWhen | backend/alembic/versions/20260815_0051_consolidate_apply_enqueue_preview_permissions.py:60-141 | For any separate renames, upgrade and downgrade go through and restore all tables, ids included, if and only if no target code existed before |
| PermissionMerge.MergedAllImage | backend/alembic/versions/20260815_0048_consolidate_archive_deactivate_permissions.py:59-104 | What the statements alone do, for any list of renames |
| PermissionMerge.MergedHasCode | backend/alembic/versions/20260815_0048_consolidate_archive_deactivate_permissions.py:37-104 | The codes existing after the statements of a merge are exactly the images of those before |
| PermissionFold.FoldSucceedsExactlyWhen | backend/alembic/versions/20260815_0049_consolidate_execute_permissions.py:124-127 | The upgrade of 0049 goes through if and only if none of its merges, read off the tables before it, meets the guard |
| PermissionFold.DowngradeSucceedsExactlyWhen | backend/alembic/versions/20260815_0049_consolidate_execute_permissions.py:151-205 | Its downgrade goes through if and only if the merged permission is active or nobody holds it |
| PermissionFold.FoldRoundTrip | backend/alembic/versions/20260815_0049_consolidate_execute_permissions.py:124-257 | After both, a role holds the first folded code exactly when it held any of the three before, the second exactly then or when the clone's trigger gave it to an including role; likewise exclusions, and never the merged code |
| PermissionFold.FoldRoundTripUnderTriggers | backend/alembic/versions/20260814_0046_role_template_governance.py:190-203 | Where the triggers have kept the tables the downgrade always goes through, and no role ends with one of the two codes alone |
| PermissionFold.FoldTakenApart | backend/alembic/versions/20260815_0049_consolidate_execute_permissions.py:130-220 | Renaming back and cloning with grants takes the merged code apart for every role that held it; including roles get the clone of an active one in any case |
| PermissionFold.ClonedCodes | backend/alembic/versions/20260814_0046_role_template_governance.py:190-203 | A clone gives the new code to the holders of the old one and to the roles the insert trigger adds |
| PermissionFold.RenameAllBackIsMergedAll | backend/alembic/versions/20260815_0049_consolidate_execute_permissions.py:130-148 | With the old codes gone, renaming back is merging in the other direction |
| PermissionMigrations.Upgrade0048 | backend/alembic/versions/20260815_0048_consolidate_archive_deactivate_permissions.py:18-27 | 0048 goes through exactly when none of its four merges would grant an inactive permission; then a role may delete exactly if it could delete or archive (deactivate) before, and no old code is held |
| PermissionMigrations.LockedTargetAborts | backend/alembic/versions/20260814_0046_role_template_governance.py:157-171 | Concrete tables, with todos.archive held and todos.delete locked, on which 0048 is refused |
| PermissionMigrations.RoundTrip0051 | backend/alembic/versions/20260815_0051_consolidate_apply_enqueue_preview_permissions.py:16-50 | 0051 goes through both ways and undoes itself if and only if none of its three target codes existed beforehand |
| PermissionMigrations.Upgrade0049 | backend/alembic/versions/20260815_0049_consolidate_execute_permissions.py:18-44 | Starting without scraper.execute, 0049 is refused exactly for a grant that would meet an inactive permission |
| PermissionMigrations.RoundTrip0049 | backend/alembic/versions/20260815_0049_consolidate_execute_permissions.py:223-257 | Starting without scraper.execute: when the downgrade goes through, which role holds run and download after 0049 up and down, and that the triggers make it both or neither |
| MigrationResults.Upgrade0048Codes | backend/alembic/versions/20260815_0048_consolidate_archive_deactivate_permissions.py:18-27 | Code by code: whoever held archive or delete of customers, fairs and todos, or deactivate or delete of todo outcomes, holds delete, and nobody an old code |
| MigrationResults.Upgrade0049Codes | backend/alembic/versions/20260815_0049_consolidate_execute_permissions.py:18-44 | Code by code what a role holds after 0049 |
| MigrationResults.Downgrade0049Codes | backend/alembic/versions/20260815_0049_consolidate_execute_permissions.py:223-257 | Code by code what it holds after 0049 and its downgrade |
| MigrationResults.Upgrade0051Codes | backend/alembic/versions/20260815_0051_consolidate_apply_enqueue_preview_permissions.py:16-32 | Code by code what it holds after 0051 |
| MigrationResults.RestRoundTrip | backend/alembic/versions/20260815_0049_consolidate_execute_permissions.py:240-257 | For any fold, whoever held one of a rename's two codes has the earlier one after the downgrade; likewise exclusions |
| MigrationResults.OtherCodes | backend/alembic/versions/20260815_0048_consolidate_archive_deactivate_permissions.py:107-110 | A code no rename names is held and excluded as before |
| MigrationResults.MergedRows | backend/alembic/versions/20260815_0048_consolidate_archive_deactivate_permissions.py:37-104 | A merge keeps the target's row, id and state and drops the source's; without a target the source keeps its row under the new code; no other row changes |
| MigrationResults.RefusedExactlyWhen | backend/alembic/versions/20260814_0046_role_template_governance.py:157-171 | A merge is refused exactly if some role holds the source and the target exists and is not active |
| MigrationResults.CloneRefusedExactlyWhen | backend/alembic/versions/20260814_0046_role_template_governance.py:157-171 | A clone is refused exactly if it is needed, its source is not active and some role holds that |
| MigrationResults.ClonedRow | backend/alembic/versions/20260815_0049_consolidate_execute_permissions.py:161-193 | A clone has the state of its source, and no other permission or grant changes |
| MigrationResults.RenamedBackResult | backend/alembic/versions/20260815_0049_consolidate_execute_permissions.py:130-148 | Renaming back finds the old code or gives it to the row of the new one, which keeps its id |
| PermissionMigrations.Database.InsertGrants | backend/alembic/versions/20260814_0046_role_template_governance.py:157-171 | In place: the row trigger lets all rows in or none |
| PermissionMigrations.Database.MergePermission | backend/alembic/versions/20260815_0048_consolidate_archive_deactivate_permissions.py:37-104 | In place: inserts, deletes and updates reach exactly the merge function, refusal included, and keep the tables valid |
| PermissionMigrations.Database.MergeEach | backend/alembic/versions/20260815_0048_consolidate_archive_deactivate_permissions.py:107-110 | In place: the loop over renames, all or nothing, reaches exactly the fold of merges |
| PermissionMigrations.Database.RenamePermissionBack | backend/alembic/versions/20260815_0049_consolidate_execute_permissions.py:130-148 | In place: finds the old code or renames the new one, keeping ids |
| PermissionMigrations.Database.ClonePermissionWithGrants | backend/alembic/versions/20260815_0049_consolidate_execute_permissions.py:151-220 | In place: a new permission with the trigger's grants and a copy of the grants and exclusions, unless the code exists or the copy is refused |
| PermissionMigrations.Database.DowngradeExecute | backend/alembic/versions/20260815_0049_consolidate_execute_permissions.py:223-257 | In place: the downgrade of 0049, all or nothing, reaches exactly the downgrade function |
| Notifications.RunKeepsInv | backend/app/modules/notifications/application/dispatch_notification.py:44-144 | Over every run each notification was saved along allowed edges only, the dispatches that were committed called its adapter at most once, exactly the timestamp of its terminal status is set, and it carries a reason exactly when failed |
| Notifications.CallsAreBounded | backend/app/modules/notifications/infrastructure/jobs/notification_dispatch_job_handler.py:52-91 | From sending on, over every run, the adapter is called at most once more often than dispatches of the notification were interrupted or failed to commit; so at most once if none was |
| Notifications.DeliveredAgainAndAgain | backend/app/modules/notifications/infrastructure/jobs/notification_dispatch_job_handler.py:85-91 | The bound is reached: for any number of lost commits there is a run that delivers once for each and once more |
| Notifications.EveryReachableState | backend/app/modules/notifications/application/dispatch_notification.py:44-144 | In every state reached from an empty table the committed dispatches called an adapter at most once per notification, and an email is sent exactly when that call returned |
| Notifications.EmailSentExactlyWhenReturned | backend/app/modules/notifications/application/dispatch_notification.py:91-144 | An email is sent exactly when the one adapter call of its committed dispatches returned normally |
| Notifications.RunExtends | backend/app/modules/notifications/application/dispatch_notification.py:49-54 | Over every run a terminal notification stays as it is and is never delivered again; no committed save and no call is taken back |
| Notifications.DispatchKeepsInv | backend/app/modules/notifications/application/dispatch_notification.py:56-144 | One dispatch that is not interrupted keeps the invariant on each branch |
| NotificationResults.SendStoresOne | backend/app/modules/notifications/application/send_notification.py:33-67 | When a send is refused or a replay, and that it otherwise stores one notification as requested |
| NotificationResults.SentStatus | backend/app/modules/notifications/application/send_notification.py:69-146 | In-app is sent at once; email of an organization with email off is suppressed; other email is queued with its job, or failed with the enqueue error |
| NotificationResults.QueuedResult | backend/app/modules/notifications/application/dispatch_notification.py:56-144 | What a dispatch makes of a queued email: suppressed without a call if email is off, failed without one if there is no adapter or rendering raises, else as the one call ends, with message and code |
| NotificationResults.SettledStays | backend/app/modules/notifications/application/dispatch_notification.py:45-54 | A missing or settled notification is left as it is |
| NotificationResults.DispatchLeavesOthers | backend/app/modules/notifications/application/dispatch_notification.py:44-144 | No other notification notices a dispatch |
| NotificationResults.HandleResult | backend/app/modules/notifications/infrastructure/jobs/notification_dispatch_job_handler.py:52-91 | A dispatch stands only if its transaction commits; otherwise no row differs and only the call remains |
| NotificationReplay.SentOnce | backend/app/modules/notifications/application/send_notification.py:44-67 | Sending again under the same key after any run stores, enqueues and calls nothing: it names the first notification or is refused for other content |
| NotificationReplay.RunKeepsRequests | backend/app/modules/notifications/application/dispatch_notification.py:177-199 | No run changes recipient, content, channel, organization or key of a notification |
| NotificationService.Service.Handle | backend/app/modules/notifications/infrastructure/jobs/notification_dispatch_job_handler.py:52-91 | In place: one dispatch, kept when it commits and rolled back otherwise but for the adapter call, reaches exactly the handler function |
| ActionTokens.RunKeepsInv | backend/app/modules/identity/application/authentication/identity_action_tokens.py:51-90 | Over every run at most one outstanding token exists per user and purpose, and consumption and invalidation are final |
| ActionTokens.ConsumedAtMostOnce | backend/app/modules/identity/application/authentication/identity_action_tokens.py:158-184 | No run consumes the same raw token twice |
| ActionTokens.SpentStaysSpent | backend/app/modules/identity/application/authentication/identity_action_tokens.py:158-184 | A consumed token is never consumed again |
| ActionTokens.AtomicConsumeAgrees | backend/app/modules/identity/application/authentication/identity_action_tokens.py:167-184 | For a stored token the guarded update consumes nothing exactly when the entity would raise, the caller then sees that error, and otherwise the owner |
| ActionTokens.UndisturbedStays | backend/app/modules/identity/application/authentication/identity_action_tokens.py:72-76 | A token not presented and not superseded stays as issued through any run |
| ActionTokens.IssueMaterializeConsume | backend/app/modules/identity/application/authentication/identity_action_tokens.py:51-184 | A reconstructable token, issued, materialized and consumed before expiry with no newer issue between, gives back its owner |
| ActionTokens.IssueResult | backend/app/modules/identity/application/authentication/identity_action_tokens.py:59-90 | A positive lifetime and nothing else is needed; the new token is then the only outstanding one of the user and purpose, those it supersedes are invalidated now, and every other token is untouched |
| ActionTokenResults.MaterializeResult | backend/app/modules/identity/application/authentication/identity_action_tokens.py:104-144 | Materializing succeeds exactly for a usable row of the expected purpose issued with the derived token, and which error it gives otherwise |
| ActionTokenResults.ConsumeResult | backend/app/modules/identity/application/authentication/identity_action_tokens.py:158-184 | Consuming succeeds exactly for a usable row of the expected purpose, names its owner and marks that row only; which error it gives otherwise |
| ActionTokenResults.UnknownRefused | backend/app/modules/identity/application/authentication/identity_action_tokens.py:175-177 | A raw token no row was issued with is not found |
| ActionTokenResults.IssuedRow | backend/app/modules/identity/application/authentication/identity_action_tokens.py:59-90 | The row an issue stores, and that only a reconstructable token can be materialized |
| ActionTokenResults.EveryReachableState | backend/app/modules/identity/application/authentication/identity_action_tokens.py:72-85 | In every state reached from an empty table two open tokens of one user and purpose are the same |
| ActionTokenStore.Store.InvalidateOutstanding | backend/app/modules/identity/infrastructure/authentication/repositories/sqlalchemy_identity_action_token_repository.py:103-121 | Invalidates exactly the outstanding tokens of user and purpose and counts them |
| ActionTokenStore.Store.Issue | backend/app/modules/identity/application/authentication/identity_action_tokens.py:51-90 | In place: same table and answer as the issue function |
| ActionTokenStore.Store.Materialize | backend/app/modules/identity/application/authentication/identity_action_tokens.py:104-144 | Same answer as the materialize function; a raw token it gives hashes to the stored hash of an available token |
| ActionTokenStore.Store.Consume | backend/app/modules/identity/application/authentication/identity_action_tokens.py:158-184 | In place: same table and answer as the consume function |
| ActionTokenStore.IdentityActionToken.Consume | backend/app/modules/identity/domain/authentication/entities/identity_action_token.py:42-55 | Consumes exactly when nothing is to be raised, in the order purpose, invalidation, consumption, expiry |
| RetentionCalendar.AddedMonths | backend/app/modules/audit/application/purge_retained_organization_audit.py:41-52 | A valid date exactly that many calendar months on, the same day or the last of a shorter month, same time of day |
| RetentionCalendar.AddCalendarMonths | backend/app/modules/audit/application/purge_retained_organization_audit.py:41-52 | Refused exactly for a negative offset or a result past year 9999 |
| RetentionCalendar.AddingIsMonotone | backend/app/modules/audit/application/purge_retained_organization_audit.py:41-52 | Adding months keeps the order of calendar dates |
| RetentionCalendar.AddingInTwoSteps | backend/app/modules/audit/application/purge_retained_organization_audit.py:48-52 | Two steps never land later than one; they land on the same day if and only if the month between is long enough, so always for days up to 28 |
| RetentionCalendar.TwelveMonthsAreAYear | backend/app/modules/audit/application/purge_retained_organization_audit.py:89-93 | Twelve months are exactly 365 days, or 366 when the year ahead holds a leap day, at the same time of day |
| RetentionCalendar.DayNumberCounts | backend/app/modules/audit/application/purge_retained_organization_audit.py:51-51 | The day number behind that count grows by one from each calendar day to the next |
| RetentionCalendar.PurgeOnlyAfterAYear | backend/app/modules/audit/application/purge_retained_organization_audit.py:74-116 | Audit rows go only for an organization deleted at least 365 days ago; then all of its rows and no other; otherwise nothing changes |
| PurgeResults.PurgeResult | backend/app/modules/audit/application/purge_retained_organization_audit.py:67-116 | A purge goes through exactly for the right version and an organization deleted a year ago or longer (the 28th of February standing for a leap day), and, if only verifying, with no row left; it removes all of its rows, counts them, and no other |
| PurgeResults.PurgeRefusal | backend/app/modules/audit/application/purge_retained_organization_audit.py:74-103 | Why a purge is refused, in order |
| RetentionCalendar.GregorianDays | backend/app/modules/audit/application/purge_retained_organization_audit.py:51-51 | The days before a year are 365 for each year gone, and one for every fourth, of the centuries only for every fourth |
| RestoreGuard.FailsExactlyWhenMissing | backend/app/modules/identity/maintenance/restore_lifecycle_guard.py:220-232 | Reconciliation fails exactly when a snapshot organization is missing from the backup, and then changes nothing |
| RestoreGuard.AuthorityIsReapplied | backend/app/modules/identity/maintenance/restore_lifecycle_guard.py:236-257 | Otherwise every snapshot row equals the snapshot and every other row is archived and deleted at capture time |
| RestoreGuard.CountsAreExact | backend/app/modules/identity/maintenance/restore_lifecycle_guard.py:234-257 | The tombstone count is the number of rows only the backup has; the reapplied count is the number of those and of the rows that changed |
| RestoreGuard.NoRowIsLost | backend/app/modules/identity/maintenance/restore_lifecycle_guard.py:236-257 | No row appears or goes |
| RestoreGuard.ReconcileIsIdempotent | backend/app/modules/identity/maintenance/restore_lifecycle_guard.py:236-257 | A second run changes nothing and counts again only the rows the snapshot does not have |
| RestoreGuard.SameAuthority | backend/app/modules/identity/maintenance/restore_lifecycle_guard.py:212-212 | Snapshots with the same entries, in any order, are one authority |
| RestoreGuard.RestoredDatabase.Reapply | backend/app/modules/identity/maintenance/restore_lifecycle_guard.py:195-257 | In place: the loop reaches exactly the reconciled table with both counts |
| SnapshotText.IdReadsBack | backend/app/modules/identity/maintenance/restore_lifecycle_guard.py:54-54 | The hyphenated hexadecimal text of an identifier reads back as that identifier |
| SnapshotText.IdOrderIsTextOrder | backend/app/modules/identity/maintenance/restore_lifecycle_guard.py:101-101 | Sorting identifiers by their texts is sorting them as numbers |
| SnapshotText.InstantReadsBack | backend/app/modules/identity/maintenance/restore_lifecycle_guard.py:127-148 | The ISO text of an instant, fraction and Z included, reads back as that instant |
| RestoreSnapshot.SnapshotRoundTrip | backend/app/modules/identity/maintenance/restore_lifecycle_guard.py:48-102 | A snapshot reads back from its own JSON text values if and only if it has version 1, known statuses and no organization twice, and then only sorted |
| RestoreSnapshot.SameUpToOrder | backend/app/modules/identity/maintenance/restore_lifecycle_guard.py:99-102 | What comes back holds the same entries in order of id, and is the snapshot itself if that was in order |
| RestoreSnapshot.RestoredSnapshotActsAlike | backend/app/modules/identity/maintenance/restore_lifecycle_guard.py:48-102 | Reconciling with the snapshot read back does what reconciling with the written one does |
| RestoreSnapshot.AcceptedIsReadable | backend/app/modules/identity/maintenance/restore_lifecycle_guard.py:63-102 | Whatever is read, an accepted snapshot is sorted, repeats no organization, has known statuses, one entry per item, and writes back to itself |
| RestoreSnapshot.ReadStates | backend/app/modules/identity/maintenance/restore_lifecycle_guard.py:76-98 | The loop with its set of seen ids reads exactly the states of the reading function, or stops at the same first error |
| RestoreCapture.RestoreKeepsLifecycle | backend/app/modules/identity/maintenance/restore_lifecycle_guard.py:1-11 | Capture, JSON and reconciliation together: certified exactly when the backup knows every organization of the capture; then each of those is exactly as captured and every other one archived and deleted |
| RestoreResults.AcceptedExactlyWhen | backend/app/modules/identity/maintenance/restore_lifecycle_guard.py:63-102 | A payload is read exactly if it is an object of version 1 with a capture instant and a list of good entries that name no organization twice; the snapshot has just those entries |
| RestoreResults.ExtraIsArchived | backend/app/modules/identity/maintenance/restore_lifecycle_guard.py:236-245 | An organization only the backup has is archived and deleted at capture time, by name |
| RestoreResults.WrittenEntry | backend/app/modules/identity/maintenance/restore_lifecycle_guard.py:53-57 | The fields each entry is written with |
| RestoreCapture.SameDatabaseUnchanged | backend/app/modules/identity/maintenance/restore_lifecycle_guard.py:195-257 | Reconciling the database that was captured changes and counts nothing |
| RestoreCapture.CaptureSurvivesJson | backend/app/modules/identity/maintenance/restore_lifecycle_guard.py:48-102 | A captured snapshot comes back from its JSON unchanged, entry order included |
| RestoreCapture.Capture | backend/app/modules/identity/maintenance/restore_lifecycle_guard.py:151-184 | Lists exactly the rows in order of id; refused exactly when a row has an unknown status |

## Left out

- Concurrent requests of one user in the session component: use cases run one after the other.
- The user and organization routes, entities and repositories beyond the queries cited; the theorems over runs let users and organizations be edited in any way between steps.
- JobQueue: one worker runs the batches; `FOR UPDATE SKIP LOCKED` between several workers, and a worker that dies between claim and save, are not modelled.
- JobProgress.NoStarvation: jobs enqueued later have a strictly later creation time, as a monotone clock of sufficient resolution gives; the CHECK on attempts is added in JobCheck.
- JobCheck.NoStarvationChecked: its condition on attempts is sufficient; the other direction is shown for an exhausted job among the oldest of a batch, not for every run in which one appears.
- JobStore.Store.ClaimNextPending: several rows are written in the order of the selection; `updated_at` is not a modelled column.
- Job type, payload and key normalization, notification recipient and template policies, and the length check of failure messages: handlers and adapters are taken to raise messages a reason accepts.
- Job status is not tied to delivery: the dispatch handler always reports a non-retryable outcome.
- AuditQuery.ListAuditLogs: a cursor text decodes to a cursor or not; its JSON and base64 form, the normalization of naive datetimes and of whitespace in filters are not modelled.
- LikePattern: matching is case-sensitive, as on PostgreSQL; SQLite's case folding is not modelled.
- RoleGovernance: names, slugs and audit entries; a slug conflict and an assignment to active users are parameters.
- RoleTriggers: the roles that include new permissions are a fixed set.
- The downgrade of 0048, which restores permissions by heuristics, and permission descriptions and timestamps.
- SuperAdminProtection: savepoints, TRUNCATE, statements that touch several rows in one snapshot and isolation levels above READ COMMITTED; an exception ends its transaction.
- SuperAdminProtection: deadlocks; a statement that has to wait simply does not happen yet.
- RetentionCalendar: naive datetimes and zone conversion, timestamps are in UTC; the policy version is compared by the caller.
- RestoreSnapshot: the JSON is a tree of text values; texts of other layouts that may denote an instant or identifier go through a parameter of the reader, and numbers equal to 1 other than the integer are not modelled.
- RestoreGuard: database errors, which roll back, and the command line.
- NotificationService: an enclosing session shared by a caller, in which a dispatch would be one part of a larger transaction.
- Iteration order of sets in the bulk loops is arbitrary; rows are loaded one at a time.
- HTTP routing, schemas, dependency wiring, seed data, permission-seeding migrations and settings pages.
