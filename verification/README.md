# School Management System Lite: verified model

A Dafny model of four parts of the backend, with proofs about whole runs of each.

* **Contact cap.** The four transactions that write a student's phone number or e-mail address,
  interleaved at READ COMMITTED under PostgreSQL advisory locks. `LockKeys` is the key arithmetic,
  `ContactLimit` the count and the check, `ContactProtocol` the state machine with its invariant, and
  `ContactTheorems` the results.
* **Accounts and sessions.** Twenty-one kinds of event over the user, session, activation and lockout rows,
  the outbox, the tokens and the Redis cache. `Accounts` is the data, `Operations` says what each
  request does to the state, `Services` performs the same requests statement by statement on objects
  that are updated in place, and `Endpoints` shows that the two agree and that the invariant is kept.
  `Requests` defines serial runs; `Invariants`, `SessionTheorems`, `CacheTheorems`, `DetailTheorems` and
  `LockoutTheorems` reason about them. `AccessTheorems`, `AdminTheorems` and `RoomTheorems` say for each
  request exactly when it succeeds, what it then changes, and what it answers otherwise. `Guards` puts the
  role guards of the routes in front. `AccountContacts` and `ServedContacts` join this part to the contact
  cap.
* **Overlapping requests.** `OverlappingRefresh`, `OverlappingLogins` and `RevocationRaces` let the loads
  and commits of refreshes, logins and revoking requests interleave, none of which takes a row lock, and
  say what is left of the serial results.
* **Cache staleness.** `CacheStaleness` refines one user's version row and cache entry to single
  database and Redis calls, interleaved, delayed and failing; `CacheRefinement` ties these calls to the
  requests of the account machine.
* **Outbox.** `Outbox` is the repository and the worker's batch loop; `OutboxTheorems` proves progress,
  and follows one row with the worker and any number of administrators interleaved.

Conventions. Hash functions are injective in the account model and arbitrary in the lock model, where
lower-casing is arbitrary too. Random draws are numbers that are never repeated, apart from the six-digit
e-mail code, which is arbitrary. A token has a valid signature when it is in the set of issued tokens, and
it is expired from its `exp` second on (section 4.1.4 of RFC 7519). Settings are parameters. `Env` carries what is decided outside the
account rows during a request: which Redis calls get through, whether a unique index other than the
username's is violated, and whether the contact limit is reached. The theorems about runs hold for every
verdict on the last two; `Services`, `Endpoints` and `ServedContacts` take them from the tables. Row
objects are loaded from the tables, changed, and published by a commit. An ORM commit writes the columns
whose values differ from those loaded.

## What the code does that its documentation does not say

* Every rotation draws a new refresh family (`src/auth/service.py:396`); the project's README speaks of
  a shared one. Refresh tokens are stored as SHA-256 digests, not bcrypt hashes.
* No request assigns the statuses GRADUATED, EXPELLED or WITHDRAWN.
* `access_token_version += 1` commits a loaded value plus one without a row lock, so a bump that overlaps
  two others takes the version back (`OverlappingBumpsLoseAVersion`). The cached version stays at or below
  the stored one, wherever authentications fall, exactly in the runs without such a bump
  (`NeverAheadIff`).
* "A superseded version is accepted from the cache for less than 300 seconds plus the lag" holds in the
  runs without such a bump (`SupersededIsRejectedInTime`). A bump that takes the version back makes a
  superseded version the stored one again, and it is then accepted however long after it was superseded
  (`SupersededVersionComesBack`, and `LosingBumpRestoresAVersion` for every such bump). In all runs the
  bound counts from the last time the version stopped being the stored one (`StalenessIsBounded`).
* A slow authentication that read the row before a bump can put the old version back into the cache after
  the delete (`StalenessIsReached`). Revocation is immediate all along a run exactly when no authentication
  writes a superseded version with no delete outstanding, and no last outstanding delete fails on an entry
  that is still let in (`RevokesAtOnceIff`).
* A refresh that loads the account before a logout and commits after it puts an acceptable pair back
  (`RefreshOvertakesLogout`), and a login that commits between the load and the commit of a revoking request
  can outlive it (`LoginOutlivesRevocation`). A revocation lasts until the next login exactly when,
  as it commits, no accepted refresh is open and no acceptable pair stands that it has not seen
  (`RevocationLastsIff`).
* Wrong passwords that overlap are counted as one (`OverlappingGuessesCountOnce`).
* A user activated by invite is shown to administrators with the old status while the cached view lasts, and
  to directors after either kind of activation; no other request leaves these views stale
  (`DetailGoesStaleIff`).
* "Three failures exactly when FAILED" holds all along a run exactly when every manual retry is safe as it
  commits (`SoundExactlyIfRetriesAreSafe`); one that nothing comes between is. A retry that encloses the
  worker's failures can leave a row FAILED with no failures (`FailedWithoutFailures`), and two of them can
  leave one PENDING with three (`PendingWithThreeFailures`); the worker picks up neither.
* Two overlapping refreshes of one pair both succeed (`OverlappingRefreshesBothSucceed`).

## Model

| member | source | states |
|---|---|---|
| ContactTheorems.CapHoldsInEveryRun | src/users/services/system_admin.py:86-102 | in every interleaving of any number of contact transactions, rollbacks included, no phone number and no e-mail is held by more than three students in the committed table |
| ContactTheorems.CountIsStable | src/users/utils/check_contact_limit.py:30-66 | from the moment a student transaction passes its count until it ends, the number of other students with that contact never exceeds the count it read |
| ContactTheorems.NoDeadlock | src/core/advisory_locks.py:25-75 | in every reachable state the wait-for graph is acyclic and no chain of waits joins more than three transactions, even when contacts collide on a key |
| ContactTheorems.WaitsForSomeoneFurther | src/core/advisory_locks.py:31-68 | phone before e-mail: the holder of a lock is further on in its program than whoever waits for it |
| ContactTheorems.TwoWaitsAtMost | src/core/advisory_locks.py:31-68 | a transaction that a waiting transaction waits for does not wait for one that waits |
| ContactTheorems.SomeoneCanStep | src/core/advisory_locks.py:25-75 | while a transaction is unfinished some transaction can take its next step, without aborting any |
| ContactTheorems.RunsEnd | src/users/services/system_admin.py:86-157 | once no more transactions start, every run is bounded by the steps left, whatever the schedule |
| ContactTheorems.EveryoneCanFinish | src/users/services/system_admin.py:86-157 | from every reachable state all unfinished transactions can be run to their end without an abort |
| ContactTheorems.DoneHoldsNoLocks | src/core/advisory_locks.py:15 | transaction-level locks: when all transactions are done the lock table is empty |
| ContactTheorems.AloneMeetsRequest | src/users/services/system_admin.py:213-238 | a transaction that runs alone changes the table exactly as its request means (limit check, changed column only) and releases its locks |
| ContactTheorems.CountEndsIff | src/users/utils/check_contact_limit.py:30-66 | whatever overlaps, a count refuses if and only if the contact has three other student holders, or one other holder for a new user who is not a student |
| ContactTheorems.AloneChangesIff | src/users/services/system_admin.py:213-238 | a contact change that runs alone takes effect unless it gives a student a new contact that three other students hold |
| ContactTheorems.LocksAreForStudents | src/users/services/system_admin.py:86-91 | every lock belongs to an unfinished student transaction and is that of the contact it wants |
| RoomTheorems.LimitIsReachedIff | src/users/utils/constants.py:3-4 | the check raises if and only if a given contact has three other students, or one other user who is not a student |
| RoomTheorems.StudentIsRegisteredIff | src/users/services/system_admin.py:86-102 | a student is registered exactly when the username is free and fewer than three students have the phone number and the address |
| RoomTheorems.TeacherIsRegisteredIff | src/users/models/user.py:53-66 | a teacher is registered exactly when the username is free and nobody who is not a student has the phone number or the address |
| RoomTheorems.StudentIsUpdatedIff | src/users/services/system_admin.py:213-238 | a student's columns change exactly when something is to change, nothing required is nulled, and a new phone number has fewer than three other students |
| RoomTheorems.StaffIsUpdatedIff | src/users/models/user.py:53-66 | for others, exactly when nobody else who is not a student has what the contacts then are |
| RoomTheorems.StudentIsOverriddenIff | src/users/services/system_admin.py:301-316 | a student's credentials change exactly when the username is free and a new address has fewer than three other students |
| RoomTheorems.AddressIsConfirmedIff | src/users/services/shared.py:221-239 | a pending address is confirmed by its code exactly when it has room |
| ServedContacts.StepServesContacts | src/users/services/shared.py:224-254 | a request of the account machine that succeeds, with the check and the indexes answering from the tables, leaves the contacts of all accounts as its contact transaction does; any other request leaves them alone |
| ServedContacts.ServedKeepsCap | src/users/utils/check_contact_limit.py:30-66 | what a transaction does when it runs alone keeps the cap |
| ServedContacts.CapHoldsInSerialRuns | src/users/utils/constants.py:3 | in serial runs of all requests, logins to admin overrides, no contact is held by more than three students |
| ContactProtocol.DoKeepsInv | src/users/services/shared.py:224-254 | every step of every transaction keeps the lock ownership, admitted-count and cap invariant |
| ContactProtocol.LocksExclude | src/core/advisory_locks.py:41-44 | two transactions past the lock of a field want different contacts there |
| ContactProtocol.CommitHolders | src/utils/helpers.py:14-25 | a commit adds the target to the holders of a contact only if that contact was a changed, locked and checked column |
| ContactProtocol.CommitKeepsCap | src/users/services/system_admin.py:301-322 | the commit of an admitted transaction keeps every contact within the cap |
| ContactProtocol.CommitKeepsCount | src/users/repositories/user.py:159-187 | a commit never raises the count another admitted transaction relies on |
| ContactLimit.OneMoreHolder | src/users/repositories/user.py:178-187 | with the own row excluded, one more holder raises the count by at most one |
| LockKeys.KeyRoundTrip | src/core/advisory_locks.py:18-22 | every key lies in the signed 32-bit range and determines the four-byte digest prefix |
| LockKeys.PrefixRoundTrip | src/core/advisory_locks.py:18-22 | every signed 32-bit value is the key of the digests with its prefix, so the fold is a bijection |
| LockKeys.SharedKeyIffSharedPrefix | src/core/advisory_locks.py:18-33 | two contacts share a key exactly when the digests of their normal forms agree on four bytes |
| LockKeys.PhonePunctuationKeepsKey | src/core/advisory_locks.py:32-33 | white space, hyphens, parentheses and dots inserted anywhere in a phone number do not change its lock |
| LockKeys.EmailPaddingKeepsKey | src/core/advisory_locks.py:55-56 | white space around an e-mail address does not change its lock |
| LockKeys.KeyIsBigEndian | src/core/advisory_locks.py:18-22 | the key is the first four digest bytes as one big-endian number, less 2^32 from 2^31 on |
| LockKeys.PlainPhoneKey | src/core/advisory_locks.py:32-33 | the lock of a phone number is that of its digits and letters in lower case, whatever punctuation stands between them |
| LockKeys.PlainEmailKey | src/core/advisory_locks.py:55-56 | the lock of an address is that of its trimmed form in lower case |
| CacheTheorems.CachedAuthenticationIsExact | src/core/dependencies.py:46-92 | in serial runs whose deletes succeed, the cached path answers as the database path, accepts exactly the tokens of the stored version, and lets in only active users in their stored role |
| CacheTheorems.RevokedForGood | src/core/dependencies.py:62-79 | once the version has moved, every access token issued before is rejected for the rest of the run |
| CacheTheorems.EarlierTokensAreRejected | src/users/services/shared.py:321-335 | a successful logout, reset, password change, e-mail change, credential override or deactivation rejects every earlier access token of the user at once and for good |
| CacheTheorems.IssuedTokensWork | src/auth/service.py:213-250 | what login and refresh hand out is accepted: the access token in the stored role, the pair by refresh |
| AccessTheorems.IssuedTokensLast | src/auth/service.py:216-235 | the access token of a login or refresh is accepted for exactly its minutes and the refresh pair for exactly its days |
| CacheTheorems.ProfileIsCurrent | src/users/services/shared.py:55-75 | in serial runs whose deletes succeed, a profile served from the cache or not equals the stored row |
| DetailTheorems.DetailIsCurrentOrActivated | src/users/services/director.py:50-70 | in serial runs whose deletes succeed, a user shown to an administrator or a director, from the cache or not, is the stored one, or an account now active shown with its status before |
| DetailTheorems.DetailGoesStaleIff | src/auth/service.py:306-313 | an exact cached view that stays in the cache goes stale by a request if and only if that request makes the account active and is activate_account, or, for directors, activate_user |
| DetailTheorems.DetailReadIff | src/users/services/director.py:50-70 | without a cached view a user of the kind asked for is shown, to directors without username, address and flag, and the view is served for exactly fifteen minutes |
| DetailTheorems.ProfileReadIff | src/users/services/shared.py:55-75 | without a cached profile one's own is served by the endpoint for one's kind, and then from the cache for exactly fifteen minutes |
| CacheTheorems.StepKeepsCoherence | src/users/services/system_admin.py:391-396 | every request drops the cache entries it makes stale, or fills them from the tables |
| CacheTheorems.FollowingIsCoherent | src/core/caching.py:52-62 | changing one account and dropping its stale keys keeps the cache coherent |
| CacheTheorems.ReadsKeepCoherence | src/core/caching.py:36-49 | entries written by authentication and by the profile endpoints agree with the tables |
| CacheTheorems.CacheRoundTrip | src/core/caching.py:20-62 | what is set is read back until its time is over, what is deleted is not, and a failed call reads and changes nothing |
| SessionTheorems.RefreshServesAcceptablePairs | src/auth/service.py:349-413 | refresh issues tokens exactly for an acceptable pair, and only to an ACTIVE account although it never reads the status |
| SessionTheorems.OneAcceptablePair | src/auth/service.py:376-383 | a user has at most one acceptable pair of token and family |
| SessionTheorems.RefreshPairWorksOnce | src/auth/service.py:396-415 | a pair that has been exchanged is never accepted again in any continuation |
| SessionTheorems.ReuseEndsTheSession | src/auth/service.py:383-394 | an unexpired superseded pair presented in a live session fails, moves the version, and leaves no acceptable pair, not even the newest |
| AccessTheorems.RefusedRefreshRevokesIff | src/auth/service.py:330-394 | a refused refresh changes something exactly when a genuine unexpired token meets a live session whose pair it is not, and then revokes it; otherwise it is told what is wrong |
| AccessTheorems.RefreshOnlyRotates | src/auth/service.py:396-413 | a refresh that is served replaces the pair and nothing else |
| AccessTheorems.LogoutRevokes | src/auth/service.py:253-259 | a logout always succeeds and revokes the session of an existing user |
| SessionTheorems.RevocationLastsUntilLogin | src/auth/service.py:473-487 | in serial runs, after a version bump other than a username change no refresh token works until the next login |
| RevocationRaces.RevocationLastsIff | src/auth/service.py:99-115 | with refreshes, logins and revoking requests interleaved: no pair is accepted until the next login if and only if, when the revocation commits, no accepted refresh is open, and there is no acceptable pair or the revoking request had loaded refresh state |
| RevocationRaces.RefreshOutlivesRevocation | src/auth/service.py:353-415 | a run in which an open refresh puts an acceptable pair back after the revocation, though nobody logs in |
| RevocationRaces.LoginOutlivesRevocation | src/auth/service.py:216-235 | a run in which the revocation moves the version and the pair of a login that overlapped it goes on working |
| RevocationRaces.LiveMeansAcceptable | src/auth/service.py:353-383 | in a reachable state of the account machine the session is live exactly when some pair of its user is acceptable |
| RevocationRaces.UndisturbedRevoke | src/auth/service.py:102-113 | undisturbed, the load and commit of a revocation are the serial one |
| OverlappingRefresh.RefreshOvertakesLogout | src/auth/service.py:253-259 | from every reachable state with an acceptable pair: a refresh that loads before a logout and commits after it hands out an acceptable pair, and the next refresh issues an access token at the version the logout moved to |
| OverlappingRefresh.OverlappingRefreshesBothSucceed | src/auth/service.py:353-415 | two refreshes that load one acceptable pair both succeed; only the later pair is acceptable then, and presenting the earlier one ends the session |
| OverlappingRefresh.UndisturbedIsRefresh | src/auth/service.py:353-415 | a refresh that nothing comes between its load and its commit is the serial one |
| SessionTheorems.BumpClearsRefresh | src/users/services/system_admin.py:446-449 | every request that moves the version, except the self-service username change, clears the refresh state |
| SessionTheorems.SensitiveRequestRevokes | src/auth/service.py:99-115 | the six kinds of sensitive request each move the version by one and clear the refresh state |
| SessionTheorems.ResetTokenWorksOnce | src/auth/service.py:450-479 | a reset token that has been used is refused in every continuation |
| SessionTheorems.QueuedResetWorks | src/users/services/system_admin.py:532-555 | the token an admin reset request queues for the user sets a new password until it expires |
| AccessTheorems.ResetSucceedsIff | src/auth/service.py:433-487 | in every reachable state a reset succeeds exactly when the account with the name has this reset token, unexpired; any other attempt changes nothing |
| AccessTheorems.ResetInState | src/auth/service.py:450-484 | a reset that succeeds sets the password, ends the sessions, uses up the token and forgives failures; one that fails is told whether the token expired or is wrong |
| AccessTheorems.RequestedResetWorksIff | src/auth/service.py:492-509 | after a request by the user or by an administrator exactly the token drawn for it resets the password, for exactly its minutes |
| AccessTheorems.ForgottenPasswordStores | src/auth/service.py:492-526 | a forgotten password is answered alike for every name, and an account with the name gets a fresh reset token and nothing else |
| AdminTheorems.AdminResetIff | src/users/services/system_admin.py:519-555 | an administrator's request succeeds exactly for users who are no system administrators, stores the token and queues it to the user's address |
| SessionTheorems.EmailChangeRoundTrip | src/users/services/shared.py:127-137 | a requested address is confirmed, while the code lasts, by that code and no other, and becomes exactly the stored address |
| AdminTheorems.SelfUpdateIff | src/users/services/shared.py:78-137 | one's own update succeeds exactly when it asks for something new, repeats no open request and the username is free; a rename moves the version, an address only becomes pending |
| AdminTheorems.ConfirmationIff | src/users/services/shared.py:190-252 | a confirmation succeeds exactly with the pending address's unexpired code and room for it; it stores the address and ends the session |
| AdminTheorems.RequestedAddressIsConfirmedIff | src/users/services/shared.py:127-137 | a requested address is confirmed by exactly the code drawn for it, for exactly its minutes |
| SessionTheorems.NewPasswordLogsIn | src/users/services/shared.py:317-326 | after a password is set, an active user who is not locked logs in with exactly that password |
| AccessTheorems.LoginSucceedsIff | src/auth/service.py:124-250 | in every reachable state a login succeeds exactly with the name and password of an active account that is not locked |
| AccessTheorems.RefusedLoginsAreAnswered | src/auth/service.py:137-205 | an unknown name, a pending account and a wrong password get one answer; only the right password learns of an inactive account |
| AccessTheorems.FailedLoginOnlyCounts | src/auth/service.py:178-201 | a failed login changes nothing but the lockout of the account |
| AccessTheorems.PasswordChangeIff | src/users/services/shared.py:305-326 | a password change succeeds exactly with the current password and ends the sessions; any other attempt is answered with IncorrectPassword and changes nothing |
| AccessTheorems.SetPasswordChangesIt | src/users/services/shared.py:305-326 | after a request has set a password exactly that password changes it, and then exactly the new one logs in |
| SessionTheorems.ActivatesOnce | src/auth/service.py:274-310 | activate_account succeeds at most once for each user |
| AccessTheorems.ActivationSucceedsIff | src/auth/service.py:267-313 | in every reachable state an activation succeeds exactly when the account with the name has this invite, unexpired; any other attempt changes nothing |
| AccessTheorems.ActivationInState | src/auth/service.py:274-310 | an activation that succeeds makes the account active with the password and uses up the invite; one that fails is told whether the invite expired or is wrong |
| AccessTheorems.OneInviteActivates | src/auth/service.py:295-310 | at most one token activates a given user in a run |
| AdminTheorems.InviteWorksIff | src/users/services/system_admin.py:104-108 | an invited account is activated by exactly the token that was queued for it, for exactly its hours |
| AdminTheorems.RegisteredUserLogsIn | src/users/services/system_admin.py:104-157 | from registration to login: the queued token activates the account, and then exactly the chosen password logs in |
| AdminTheorems.RegistrationIff | src/users/services/system_admin.py:65-157 | a registration succeeds exactly when check and constraints let it; it adds one pending account without a password, in the role and with the columns asked for, and one invite |
| AdminTheorems.AccountsAreRegistered | src/users/services/system_admin.py:68-121 | every account a run finds beside the initial ones was added by one registration in it, as that asked, and is in that role still |
| AdminTheorems.NobodyIsPromoted | src/users/services/system_admin.py:68-79 | no run makes a director or a system administrator, or changes a role |
| AdminTheorems.ResendIff | src/users/services/system_admin.py:566-614 | an invite is resent exactly to a pending user; a fresh token is stored and queued for its hours |
| SessionTheorems.PendingLeadsToActive | src/users/services/system_admin.py:433-444 | PENDING_ACTIVATION leads only to ACTIVE and is never entered again |
| SessionTheorems.ActiveFlagMirrorsStatus | src/users/services/system_admin.py:495-496 | is_active holds exactly when the status is ACTIVE, in every reachable state |
| AdminTheorems.DeactivationIff | src/users/services/system_admin.py:422-449 | in every reachable state a deactivation succeeds exactly for an active user who is no system administrator; any other is refused and changes nothing |
| AdminTheorems.ReactivationIff | src/users/services/system_admin.py:474-501 | an administrator's activation succeeds exactly for a user who is not active and no system administrator |
| AdminTheorems.DeactivatedUntilReactivated | src/auth/service.py:203-211 | a deactivated user's right password is answered with AccountInactive; after an administrator's activation exactly that password logs in |
| AdminTheorems.UserUpdateIff | src/users/services/system_admin.py:186-238 | an update succeeds exactly when kind, limit and constraints let it and something is to change; it changes the requested columns and no others, and the first obstacle is the answer |
| AdminTheorems.CredentialUpdateIff | src/users/services/system_admin.py:277-389 | likewise for credentials; the session ends, and one mail is queued: an invite to the new address of a pending user, else a notice to the old address |
| AdminTheorems.OtherColumnsAreUnprocessable | src/users/schemas/system_admin.py:121-204 | payloads with any other column are turned away, and only those |
| SessionTheorems.QueuedInviteActivates | src/users/services/system_admin.py:129-157 | a pending user has an invite in the outbox, to the current address, whose token activates the account until it expires |
| SessionTheorems.NoNullIsMet | src/auth/service.py:450-464 | token columns are null together, so no request compares or hashes a null |
| SessionTheorems.RunEvolves | src/auth/service.py:108-111 | over every run versions never fall, issued tokens stay issued, and superseded tokens, spent resets and past invitations stay so |
| SessionTheorems.StepKeepsRefreshAway | src/auth/service.py:353-365 | without refresh state, only a login of that user brings one back |
| Invariants.StepKeepsInv | src/users/services/system_admin.py:324-339 | every request keeps the invariant of accounts, tokens and outbox |
| Invariants.StepMoves | src/users/services/system_admin.py:185-620 | every request changes at most one account, within the stated rules, or adds one pending account |
| Invariants.ChangesOneKeepsInv | src/users/services/system_admin.py:443-451 | a change of one account within the rules keeps the invariant of all |
| Invariants.AuthenticationOnlyCaches | src/core/dependencies.py:52-92 | authentication changes nothing but the cache, and never lets in a pending user |
| Guards.GuardedRunIsRun | src/core/dependencies.py:98-110 | a run of guarded calls reaches the state of a run of requests with authentications in between, so every result about runs covers it |
| Guards.AdminRequestsNeedAnAdmin | src/users/routers/system_admin.py:32-130 | an admin request is served exactly to a genuine token, at the stored version, of a system administrator, who is then active; otherwise it fails and changes nothing but the cache |
| Guards.RoutesAskForRoles | src/users/routers/director.py:48-105 | a call is served exactly to a genuine token, at the stored version, of a system administrator, a director or a student, as its route says |
| Guards.OtherRoutesServeAll | src/users/routers/shared.py:27-79 | the other routes ask for no role |
| LockoutTheorems.GuessingIsBounded | src/auth/service.py:52-53 | in any stretch of T minutes without a counter reset, wrong passwords are compared at login at most 5 + T/15 times |
| AccessTheorems.LockLastsFifteenMinutes | src/auth/service.py:178-185 | a wrong password locks from the fifth failure on and for exactly fifteen minutes, after which the right one logs in |
| OverlappingLogins.OverlappingGuessesCountOnce | src/auth/service.py:178-201 | wrong attempts that loaded the same counter leave it as the last of them alone would |
| OverlappingLogins.RoundsAreBounded | src/auth/service.py:178-201 | wrong attempts that come in rounds of at most n overlapping ones get at most n * (5 + T/15) guesses in T minutes |
| OverlappingLogins.StaleAttemptForgetsOthers | src/auth/service.py:178-201 | an attempt that loaded its counter before others were counted sets it to its own count, and theirs are forgotten |
| LockoutTheorems.StepLockout | src/auth/service.py:178-214 | a step counts a wrong guess, resets the counter, or leaves the lockout alone |
| LockoutTheorems.GuessesFitAllowance | src/auth/service.py:146-159 | the wrong guesses of a run fit what the counter and the lock time allow up to its end |
| LockoutTheorems.LockedExactlyAfterFive | src/auth/service.py:146-185 | the counter is at five or more exactly when a lock time is set, and a lock refuses every attempt |
| CacheStaleness.StalenessIsBounded | src/core/dependencies.py:74-88 | under any interleaving and any failed cache call, a version accepted from the cache was stored at a read whose cache write is under 300 seconds old; it is the stored one or last stopped being so less than 300 seconds plus the lag ago |
| CacheStaleness.SupersededIsRejectedInTime | src/core/dependencies.py:74-88 | while no bump takes the version back, a version is rejected for good from 300 seconds plus the lag after it was first superseded |
| CacheStaleness.LosingBumpRestoresAVersion | src/users/services/system_admin.py:324 | conversely every bump that takes the version back can make a version accepted as long after it was first superseded as one likes |
| CacheStaleness.SupersededVersionComesBack | src/auth/service.py:102-113 | a run from the start in which a superseded version is accepted any given time after it was first superseded |
| CacheStaleness.StalenessIsReached | src/core/dependencies.py:74-88 | the bound is attained even when every delete succeeds |
| CacheStaleness.CacheNotAhead | src/users/services/system_admin.py:324 | the cached version never exceeds the stored one while no bump takes the version back |
| CacheStaleness.NeverAheadIff | src/users/services/system_admin.py:324 | no authentication, inserted anywhere in a run, lets the cached version exceed the stored one if and only if no bump of the run takes the version back |
| CacheStaleness.RevokesAtOnceIff | src/core/dependencies.py:62-88 | all along a run, and whatever overlaps in it, no superseded version is let in once no delete is outstanding, if and only if no write then carries a superseded version and no last outstanding delete fails on an entry that is still let in |
| CacheStaleness.OverlappingBumpsLoseAVersion | src/auth/service.py:102-113 | a run in which overlapping bumps leave the cache ahead of the database |
| CacheStaleness.DoKeepsInv | src/core/caching.py:20-62 | every database and cache call keeps the record of when each version was current |
| CacheRefinement.BumpIsLoadCommitDelete | src/auth/service.py:99-115 | undisturbed, a load, a commit and a delete do to the version and its entry what a bumping request does |
| CacheRefinement.EveryBumpDrops | src/users/services/system_admin.py:324-396 | every step that moves an access version, whatever the request and its outcome, moves it by one and drops its entry with its own delete |
| CacheRefinement.MismatchBumpsAndDrops | src/auth/service.py:383-394 | so does a refresh whose pair does not match, although it fails |
| CacheRefinement.SensitiveRequestBumpsAndDrops | src/users/services/system_admin.py:324-396 | a successful reset, credential override or deactivation is such a bump |
| CacheRefinement.SensitiveUserRequestBumpsAndDrops | src/users/services/shared.py:249-271 | so is a successful logout, e-mail confirmation or password change |
| CacheRefinement.RenamingBumpsAndDrops | src/users/services/shared.py:122-159 | so is a change of one's own username, with a delete of its own |
| CacheRefinement.AuthenticationIsReadWrite | src/core/dependencies.py:62-88 | the cached path admits a genuine token exactly when its version is accepted from the cache, and the database path is a read and a write |
| OutboxTheorems.NoStarvation | src/emails/repository.py:93-108 | without manual retries an e-mail with k eligible ones ahead is settled within 3 * (k / 10 + 1) polls, whatever the sends do and however many arrive |
| OutboxTheorems.BatchAttemptsIff | src/emails/repository.py:93-131 | a poll attempts a row exactly when it is PENDING with fewer than three failures and fewer than ten older rows are; the third failure sets FAILED |
| OutboxTheorems.FrontRowIsSettled | src/workers/email_worker.py:28-51 | a row among the ten oldest eligible ones uses up an attempt at every poll |
| OutboxTheorems.FrontLeaves | src/emails/repository.py:97-104 | when the ten oldest are settled everyone moves up by ten |
| OutboxTheorems.AttemptsAreBounded | src/emails/repository.py:121-137 | in every run of the worker and any number of manual retries: between two retries at most three send attempts and at most one delivery |
| OutboxTheorems.SoundExactlyIfRetriesAreSafe | src/emails/repository.py:126-137 | three failures and FAILED go together all along a run if and only if every manual retry is safe when it commits |
| OutboxTheorems.DoKeepsAttemptsInv | src/workers/email_worker.py:28-51 | every load, send and commit of the worker and of administrators keeps the bounds on attempts and deliveries |
| OutboxTheorems.DoKeepsSoundInv | src/emails/service.py:66-75 | a step keeps rows and loaded records sound if and only if it is no unsafe retry |
| OutboxTheorems.RetryIsSoundIff | src/emails/service.py:66-75 | a manual retry keeps a sound row sound if and only if the row has not failed or its status and count are both written or both left |
| OutboxTheorems.FailedWithoutFailures | src/emails/service.py:66-75 | a run from a new row to one that is FAILED with no failures |
| OutboxTheorems.PendingWithThreeFailures | src/emails/service.py:66-75 | a run with two administrators from a new row to one that is PENDING with three failures |
| OutboxTheorems.AttemptIsLoadSendCommit | src/workers/email_worker.py:28-51 | undisturbed, the interleaved worker does one attempt of a batch |
| OutboxTheorems.RetryIsLoadCommit | src/emails/service.py:66-75 | undisturbed, the interleaved retry is the reset of the repository, is safe on a sound row, and puts any row in line again |
| Outbox.EmailWorker.GetPendingEmails | src/emails/repository.py:93-108 | returns exactly the oldest eligible rows up to the limit, in order of creation |
| Outbox.EmailWorker.ProcessBatch | src/workers/email_worker.py:14-68 | attempts every row of the batch once and changes no other row |
| Outbox.EmailWorker.RetryFailedEmail | src/emails/service.py:66-75 | resets an existing row of any status, and nothing else |
| Outbox.PendingEmail.MarkSent | src/emails/repository.py:121-123 | the record becomes SENT at this time |
| Outbox.PendingEmail.MarkFailedAttempt | src/emails/repository.py:126-131 | one more failure, FAILED from the third on |
| Outbox.PendingEmail.ResetForRetry | src/emails/repository.py:134-137 | PENDING with no failures |
| Services.UpdateObject | src/utils/helpers.py:14-25 | the requested columns are assigned, and a change is reported exactly when some column differs |
| Services.Backend.Login | src/auth/service.py:124-250 | unknown names, locked, passwordless and pending accounts change nothing; a wrong password is counted and locks from the fifth on; an inactive account is refused; success resets the counter and issues a pair |
| Services.Backend.Logout | src/auth/service.py:253-259 | the version moves on and the refresh state is gone, for an existing user |
| Services.Backend.InvalidateAllTokens | src/auth/service.py:99-115 | moves the version, clears the refresh state, drops the cached version |
| Services.Backend.IssueTokens | src/auth/service.py:216-235 | a new family and pair at the same version |
| Services.Backend.ActivateAccount | src/auth/service.py:267-313 | only the stored, unexpired invite sets the password, activates, and is then gone |
| Services.Backend.Refresh | src/auth/service.py:322-430 | undecodable, expired and missing tokens change nothing; a mismatch revokes everything; a match rotates the pair |
| Services.Backend.ResetPassword | src/auth/service.py:433-487 | only the stored, unexpired token sets the password, and it revokes the session and resets the lockout |
| Services.Backend.CreateForgotPasswordRequest | src/auth/service.py:492-526 | stores a fresh reset digest for an existing user |
| Services.Backend.CheckContactLimit | src/users/utils/check_contact_limit.py:16-82 | raises exactly when the phone or the e-mail address, if given, is held by as many users of the kind as allowed |
| Services.Backend.CountUsersWithContact | src/users/repositories/user.py:159-187 | the number of users of the kind that hold the contact, leaving out the excluded one |
| Services.Backend.RegisterUser | src/users/services/system_admin.py:65-183 | adds the account and its invite in one commit, or is refused by the limit check or the constraints and adds nothing |
| Services.Backend.UpdateUser | src/users/services/system_admin.py:186-274 | the requested columns and nothing else, or one of five refusals that change nothing; the three cached views are dropped |
| Services.Backend.UpdateUserCredentials | src/users/services/system_admin.py:277-419 | columns, revocation, reissued invite or notice to the old address, all in one commit, or a refusal |
| Services.Backend.DeactivateUser | src/users/services/system_admin.py:422-465 | an active account becomes inactive with its session revoked and its version and three views dropped from the cache; an inactive one is refused |
| Services.Backend.ActivateUser | src/users/services/system_admin.py:474-510 | an inactive account becomes active with its lockout reset and its admin view dropped; an active one is refused |
| Services.Backend.GetUserDetail | src/users/services/director.py:50-70 | serves the cached view, of either kind of user, or the stored one of the kind asked for, and caches it |
| Services.Backend.CreateResetPasswordRequest | src/users/services/system_admin.py:519-555 | stores a fresh reset digest and queues its mail |
| Services.Backend.ResendActivationInvite | src/users/services/system_admin.py:566-614 | a pending account gets a fresh invite, stored and queued together; others are refused |
| Services.Backend.UpdateMeCredentials | src/users/services/shared.py:78-187 | a new username takes effect and moves the version; a new address only becomes pending, unless that request is already open; two deletes that may fail separately |
| Services.Backend.ConfirmEmailChange | src/users/services/shared.py:190-291 | only the stored, unexpired code moves the pending address in, and it revokes the session |
| Services.Backend.UpdateMePassword | src/users/services/shared.py:294-335 | only the current password allows a new one, which revokes the session |
| Services.Backend.GetMyProfile | src/users/services/shared.py:343-365 | serves the cached profile, or the stored one and caches it |
| Services.Backend.GetCurrentUser | src/core/dependencies.py:46-92 | a cached version decides alone; otherwise the row decides and its version is cached |
| Services.Backend.GetUserByUsername | src/users/repositories/user.py:48-67 | loads the one row with this username, or nothing |
| Services.Backend.GetCache | src/core/caching.py:20-33 | a live entry; failures read as a miss |
| Services.Backend.SetCache | src/core/caching.py:36-49 | writes an entry with its time to live; failures change nothing |
| Services.Backend.DeleteCache | src/core/caching.py:52-62 | removes exactly these keys; failures change nothing |
| Endpoints.Handle | src/users/routers/shared.py:27-88 | every call, guarded by its route's role and run by the services on the tables, is one guarded step of the system and keeps the invariant |

## Left out

- HTTP, cookies, Pydantic parsing beyond which fields a payload may carry, logging, rate limiting, settings validation, migrations.
- Sending itself, mail bodies, and the fire-and-forget notification mails; a send succeeds or fails arbitrarily.
- The contact transactions are modelled on values, as a state machine over their database round trips, because any number of them interleave; row locks, unique-index waits and savepoints are not part of it, and an abort may happen at any point.
- ContactProtocol.DoKeepsInv: a commit and the release of its locks are one step, and requests are those the schemas let through (contacts are not empty).
- Services.Backend.UpdateUserCredentials: a multi-key cache delete either happens or not as a whole.
- Services.Backend.GetUserDetail: the group of a student and the columns that record creation and update are not part of a view.
- Services.Backend.GetMyProfile: likewise.
- ServedContacts.CapHoldsInSerialRuns: this one is for serial runs; ContactTheorems.CapHoldsInEveryRun is the interleaved one, over the contact columns only.
- SessionTheorems.RefreshPairWorksOnce: for serial runs, because the auth paths take no row lock; see OverlappingRefresh.OverlappingRefreshesBothSucceed.
- Endpoints.Handle: the routes of groups, subjects and lists are not part of the system.
- LockoutTheorems.GuessingIsBounded: for serial runs; OverlappingLogins.RoundsAreBounded covers attempts that overlap in rounds, not ones left open across rounds. A change of one's own password also compares one, and counts nothing.
- CacheTheorems.ProfileIsCurrent: the group nested in a student's profile and the e-mail detail entries are not modelled; the code does not keep them fresh.
- OutboxTheorems.AttemptsAreBounded: one worker, whose commits succeed; a send whose commit is lost when the process stops is not modelled.
- OutboxTheorems.NoStarvation: one worker, commits that succeed, creation times strictly ordered; the table order stands for the order by created_at. A commit that fails after a successful send is not modelled.
- Outbox.EmailWorker.ProcessBatch: the endless polling loop around it and its sleep are left out.
- bcrypt's truncation of long passwords; a missing password hash verifies no password.
- Group and subject services, list queries, filters, sorting and pagination, which would only add easy members.
