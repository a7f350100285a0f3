# Sessions, identity and two small algorithms, verified

A Dafny model of the state machines in this NestJS starter, and proofs about them.

**Sessions and tokens over Redis** (`Redis`, `Renaming`, `Keys`, `Locks`, `Sessions`, `Rotation`, `RotationHistory`,
`Epochs`, `Revocation`, `Logout`, `Conduct`, `Lockout`, `Durations`, `Scenarios`, `Requests`, `Accounts`, `Tokens`, `AuthCode`). Redis is a map from keys to values
with an optional deadline, and a clock in milliseconds; one command is one atomic step. `Sessions` is the interleaving
machine: a login, refresh, logout, revocation or guard is a program counter that steps through the commands its code
awaits, and between any two steps any other request may step, time may pass and keys may expire, a request may crash, and
a command may not be sent or may take effect while its answer is lost. A scan returns its keys in batches: every key
present throughout, perhaps others that were present at some time, perhaps some twice. The history of commands is part
of the state, so the results are statements about every run from the empty store on: refresh token rotation with reuse
detection (section 4.14.2 of RFC 9700), revocation by epochs, logout until a token's `exp` (section 4.1.4 of RFC 7519), the
login failure counter. `Requests` looks at one request alone: run to its end while
nobody interferes (`Solo`), and as a conversation with Redis (`Speaks`), in which every reply is free and every command is
fixed by the replies before it; both use the machine's own commands and continuations. `AuthCode` holds the classes as they
are written, one command after another, over a client whose callers know nothing of what others do between a call and its
continuation (`Redis.RedisClient.Await`) nor whether a reply gets through (`Receive`). Each request method is proved to hold
just the conversation of its request, whatever it is answered, so the order and the atomicity of the commands in the code
are those of the machine; for a client that is alone with the server (`quiet`) the outcome is that of `Solo` as well.
`Conduct` says what requests do when commands throw. `Tokens` is what is signed and what the guard makes of it.
`Scenarios` builds concrete runs that show where the guarantees end.

**Users, teams and roles** (`Text`, `AccessControl`, `Identity`, `Listing`, `IdentityIntegrity`, `Confinement`, `IdentityCode`, `Roster`,
`SoftDelete`). The three tables with soft delete and partial unique indexes, every service operation as a function on
them, and requests that pass the policy guard and the service with access tokens that keep the claims of their signing.
Runs mix logins, refreshes and requests with tokens of any age, and begin with any tables that have referential integrity
and any tokens that fit them; `Confinement.RunsFromSeed` is such a beginning. `IdentityCode` has the entities, repositories and services
as classes that load, change and save, each method proved equal to its function. `Roster` is the aggregate query as a
relational pipeline that reads the tables in an arbitrary order.

**Two algorithms** (`Sanitizer`, `EvalPool`, `EvalScore`): the depth-bounded log sanitizer, and the worker pool and scores of the
review evaluation.

## Where the code and its comments disagree

- `AuthService.revokeAllSessions` is said to make the invalidation of a user complete. It does for sessions that were
  there before it, not for requests that overlap with it. A login whose password was accepted before, and whose family is
  stored once the scan has begun, keeps a whole live session, family and access token
  (`Scenarios.OverlappingLoginSurvivesRevocation`); every family that is alive afterwards was
  stored after the scan had begun (`Revocation.SurvivorsWereStoredAfterTheScanBegan`). A refresh that won its rotation before the scan and reads the epoch
  after the increment still returns one live access token (`Scenarios.OverlappingRefreshOutlivesRevocation`), but its
  refresh token is dead. For access tokens `Revocation.GuardAcceptsExactlyWithoutRevocation` is the exact condition.
- `LogSanitizer` lowers the field name but not its list, so the four entries with capitals never match. `accessToken` and
  `refreshToken` are still masked because they contain `token`; `creditCard` and `cardNumber` are not
  (`Sanitizer.SensitiveNames` is the exact condition).
- `parseDurationToSeconds` reads every string it does not know as a week. A longer token lifetime in another notation
  then outlives its blocklist entry (`Durations.TwoWeeksOutliveTheirEntry`; `Durations.OtherDurationsCoverAWeek` is the
  exact condition).
- Renaming a team or role to a name in use is not reported as a duplicate name but as the database's index violation
  (`IdentityIntegrity.RenameTeamSucceedsExactly`, `IdentityIntegrity.RenameRoleSucceedsExactly`).
- A cascade marks related rows of a collection only if their mark is defined, so new, unsaved children are skipped, while
  a single related entity is marked in that case as well (`SoftDelete.DeleteParentOfNewChild`; `SoftDelete.MissedExactly`
  is the exact condition).
- User lists are ordered by creation time alone. When two users have the same time, pages fetched one after the other can
  repeat one and leave out the other (`Listing.TiedUserIsNeverShown`; `Listing.PagesFitExactlyWithoutTies` is the exact
  condition).
- A lock duration of 0 is accepted by the configuration and switches the lockout off: the EXPIRE of the first failure
  deletes the counter (`Requests.FailuresLockExactly`).
- The failure counter is said to be per account. It is per email in lower case, while emails are registered and looked up
  as typed, so two spellings are two accounts with one counter, and a login to the one clears the failures against the
  other (`Accounts.TwoSpellingsTwoAccounts`; `Accounts.GuessesAreBoundedExactly` is the exact condition).

## Model

| member | source | states |
|---|---|---|
| `RotationHistory.EachJtiAcceptedAtMostOnce` | src/modules/auth/store/refresh-token.store.ts:44-64 | in every interleaving, with expiry, crashes and lost replies, two accepted rotations never presented the same jti, whatever their families |
| `RotationHistory.AcceptedRotationsFormAChain` | src/modules/auth/store/refresh-token.store.ts:36-64 | each accepted rotation of a family presents what the previous accepted one installed; the first presents the jti that the login stored |
| `RotationHistory.RefusedFamilyStaysRevoked` | src/modules/auth/store/refresh-token.store.ts:50-63 | once a refresh was answered as reused or as invalid, its family is absent in every later state and no later rotation of it is accepted |
| `RotationHistory.DeadForever` | src/modules/auth/store/refresh-token.store.ts:44-80 | a family that was stored and is gone, for whatever reason (expiry, logout, reuse, revocation), never comes back |
| `RotationHistory.DoublePresentationRevokesTheFamily` | src/modules/auth/store/refresh-token.store.ts:50-63 | one refresh token presented twice in any overlap: not both are given tokens, and when both are answered the winner's new token is dead as well |
| `Rotation.RunInv` | src/modules/auth/store/refresh-token.store.ts:27-80 | the invariant of every reachable state: a stored family holds the newest jti of its chain, jtis are never reused, every token in circulation is in its family's chain, every refusal has left its family dead |
| `Revocation.GuardAcceptsExactlyWithoutRevocation` | src/core/auth/auth.guard.ts:91-101 | epoch exactness: when both epoch reads are answered, the guard accepts a token if and only if no increment for that user fell between the read at the token's issue and the guard's read |
| `Revocation.EpochsOnlyGrow` | src/modules/auth/store/session-epoch.store.ts:28-42 | a token's epoch is at most the number of increments so far, that number is the stored epoch, and it never decreases |
| `Revocation.RevokedFamiliesStayRevoked` | src/modules/auth/service/auth.service.ts:70-74 | when a revocation finishes undisturbed, every family written before its scan began is gone for good and is never rotated again, even if it was rotated during the scan |
| `Revocation.RevokedAccessTokensAreRejected` | src/modules/auth/service/auth.service.ts:70-74 | when a revocation finishes undisturbed, every access token whose epoch was read before it began, even by a read that failed open, is rejected by every guard whose own epoch read is answered afterwards |
| `Scenarios.OverlappingRefreshOutlivesRevocation` | src/modules/auth/service/auth.service.ts:65-74 | whatever the positive settings, a refresh that overlaps a revocation can be given an access token that is accepted after the revocation has finished, while its refresh token is dead |
| `Scenarios.OverlappingLoginSurvivesRevocation` | src/modules/auth/service/auth.service.ts:49-62 | a login whose password was accepted before the revocation began and whose family is stored as the first command after the scan began keeps a live family and an accepted access token, although the revocation finished undisturbed |
| `Revocation.SurvivorsWereStoredAfterTheScanBegan` | src/modules/auth/service/auth.service.ts:70-74 | a family of the user that is alive after an undisturbed revocation was stored, once, by a login command after the scan had begun; the scenario above reaches this bound |
| `Revocation.OnlyItsOwnRequestsEndAFamily` | src/modules/auth/store/refresh-token.store.ts:44-80 | over any run, a live family disappears only at its deadline, or by a refresh or logout that came with a token of that very family, or by a revocation of its own user |
| `Logout.LoggedOutTokenIsRejectedUntilItExpires` | src/modules/auth/service/auth.service.ts:133-143 | in every interleaving, a guard that reads the blocklist after a logout wrote it accepts the token only once it has expired, provided entries last as long as tokens |
| `Logout.OnlyTheLoggedOutTokenIsBlocked` | src/core/auth/auth.guard.ts:91-94 | a guard that finds an entry rejects a token for which a logout wrote one, and that write concerns no other token ever signed |
| `Logout.EntriesCoverTokensExactly` | src/modules/auth/service/auth.service.ts:137-138 | every blocklist entry outlives its token if and only if the entry time is 0 (no expiry) or at least the token lifetime |
| `Conduct.FailsExactly` | src/modules/auth/store/refresh-token.store.ts:36-69 | over any run, a request fails if and only if it crashed or one of its commands on a refresh family threw (SET, GET, compare-and-set, or a refresh's DEL); whatever happens to its other commands, counters, epochs, blocklist and a logout's DEL, it goes on and answers |
| `Conduct.RefreshDeletesWithReason` | src/modules/auth/store/refresh-token.store.ts:50-63 | over any run, what a refresh deletes is its own family alone, and only after it was answered that the family is there under another jti, or that its own rotation was accepted; a GET that throws or finds nothing is followed by no deletion |
| `Conduct.LogoutDropsItsFamily` | src/modules/auth/service/auth.service.ts:133-152 | over any run, a logout with a refresh token that does not crash answers as logged out and has sent the DEL of its family whatever happened to the blocklist entry; if that DEL reached Redis the family is gone for good |
| `Durations.ParseReadsBack` | src/common/utils/time.util.ts:33-54 | for all digits, with any leading zeros, and all units, the parser returns the number times the length of the unit in seconds |
| `Durations.ParseDecimal` | src/common/utils/time.util.ts:33-54 | every number of units in decimal notation is read as that many seconds |
| `Durations.PlainDurationsCoverTokens` | src/common/utils/time.util.ts:33-54 | for every duration of digits and a unit, blocklist entries outlive the tokens |
| `Durations.OtherDurationsCoverAWeek` | src/common/utils/time.util.ts:33-37 | any other string is read as 604800 seconds, so for those they do if and only if the signer gives tokens at most that |
| `Durations.TwoWeeksOutliveTheirEntry` | src/common/utils/time.util.ts:33-37 | for "2w", read by the signer as two weeks, a token is still valid when its blocklist entry is gone |
| `Lockout.FailuresStayBounded` | src/modules/auth/service/auth.service.ts:45-103 | lockout bound: with at most C logins of an email between check and count, the stored failures never exceed max - 1 + C, in every interleaving with expiry and resets |
| `Scenarios.LockoutBoundIsReached` | src/modules/auth/service/auth.service.ts:80-99 | the bound is exact: for every positive maximum and every positive C there is an undisturbed run with at most C such logins that stores max - 1 + C failures |
| `Lockout.CounterIsNeverImmortal` | src/modules/auth/service/auth.service.ts:90-99 | in every reachable state, a failure counter without a time limit was created by a login that is about to set it, or crashed just then, or whose EXPIRE was not sent, or that never got the answer to its increment |
| `Scenarios.DisturbedCounterIsImmortal` | src/modules/auth/service/auth.service.ts:91-99 | each of these three disturbances does leave a counter that no amount of time removes |
| `Lockout.LimitlessExactly` | src/modules/auth/service/auth.service.ts:90-99 | in every reachable state, a present failure counter has no time limit if and only if no EXPIRE took effect on it since the increment that created it |
| `Accounts.GuessesAreBoundedExactly` | src/modules/auth/service/auth.service.ts:45-63 | within one lock window, whatever the logins, at most the maximum of wrong passwords is tried on an account since it last logged in, if and only if the lock duration is positive and either the maximum is 1 or no other account's email differs from its own only in capitals and surrounding blanks |
| `Accounts.TwoSpellingsTwoAccounts` | src/modules/identity/entity/user.entity.ts:17-21 | a second spelling of an email can be registered, and shares its failure counter |
| `Accounts.SharedCounters` | src/modules/auth/service/auth.service.ts:45-47 | two emails share a failure counter if and only if, once trimmed, they have the same letters in small or capital |
| `Accounts.TrimmedAtBothEnds` | src/modules/auth/service/auth.service.ts:45-47 | trimming takes all blanks off both ends and nothing else |
| `Keys.RenderInjective` | src/modules/auth/store/refresh-token.store.ts:27-29 | refresh, epoch, blocklist and login-fail keys never coincide, and each is injective in its parts, for all integers and strings |
| `Keys.PatternSelectsExactlyTheFamilies` | src/modules/auth/store/refresh-token.store.ts:75-80 | the pattern `rt:{userId}:*` matches exactly the families of that user among all keys |
| `Keys.CommandsCommuteWithRendering` | src/lib/redis/redis.client.ts:143-205 | running a command on typed keys and then spelling the keys is running it on the spelled keys, with the same answer |
| `Keys.DecimalRoundTrip` | src/modules/auth/store/refresh-token.store.ts:27-29 | decimal rendering of integers reads back, so it is injective |
| `Keys.Spellings` | src/modules/auth/store/refresh-token.store.ts:27-29 | each kind of key, and the pattern, spelled out for an example |
| `Locks.AcquireSucceedsExactlyWhenFree` | src/lib/redis/redis.client.ts:388-392 | over all runs with a clock, acquiring succeeds if and only if no earlier acquisition is still unreleased and within its time |
| `Locks.AtMostOneHolder` | src/lib/redis/redis.client.ts:388-417 | no two acquisitions of a key hold it at the same time |
| `Locks.ReleaseIsTheHoldersOnly` | src/lib/redis/redis.client.ts:413-417 | a release with any other token than the holder's removes nothing; the holder's frees the lock |
| `Redis.RedisServer.Set` | src/lib/redis/redis.client.ts:143-154 | stores the value; a time of 0 sets no expiry |
| `Redis.RedisServer.CompareAndSet` | src/lib/redis/redis.client.ts:406-411 | the script replaces the value and restarts its time if and only if it is the expected one and the time is positive |
| `Redis.RedisServer.SetIfAbsent` | src/lib/redis/redis.client.ts:388-392 | stores the token with a time if and only if the key is absent and the time is positive |
| `Redis.RedisServer.CompareAndDelete` | src/lib/redis/redis.client.ts:413-417 | the script deletes the key if and only if it carries the token |
| `Redis.RedisServer.Incr` | src/lib/redis/redis.client.ts:203-205 | adds one, keeping the time limit, starts missing counters at one without a limit, and rejects what is no number |
| `Redis.RedisServer.Expire` | src/lib/redis/redis.client.ts:195-197 | sets the deadline of a present key and nothing else; a time of 0 removes it |
| `Redis.RedisClient.CompareAndSet` | src/lib/redis/redis.client.ts:406-411 | says exactly one thing to Redis, the script, whatever else goes on; undisturbed, it has the script's effect on the present store |
| `Redis.RedisClient.AcquireLock` | src/lib/redis/redis.client.ts:388-392 | says exactly one thing, the conditional SET |
| `Redis.RedisClient.ReleaseLock` | src/lib/redis/redis.client.ts:413-417 | says exactly one thing, the script |
| `Redis.RedisClient.SafeDel` | src/lib/redis/redis.client.ts:304-315 | says exactly one DEL of the keys, or nothing when there are none |
| `Redis.RedisClient.Keys` | src/lib/redis/redis.client.ts:177-188 | one scan, with others at work between its batches: the batches one after the other, with every repeated key, and nothing else |
| `Redis.RedisClient.SafeGet` | src/lib/redis/redis.client.ts:277-289 | says exactly one GET, and answers nothing when it is not sent or throws |
| `Redis.RedisClient.SafeIncr` | src/lib/redis/redis.client.ts:317-329 | says exactly one INCR, and answers -1 when it is not sent or throws |
| `Redis.RedisClient.SafeKeys` | src/lib/redis/redis.client.ts:345-357 | one scan: all batches, or no keys when it is not sent or breaks off |
| `AuthCode.RefreshTokenStore.Issue` | src/modules/auth/store/refresh-token.store.ts:36-41 | says exactly one SET of the jti under the family with the configured time |
| `AuthCode.RefreshTokenStore.Rotate` | src/modules/auth/store/refresh-token.store.ts:44-64 | whatever others do: an accepted rotation is one compare-and-set that was answered 1, and a refused or failed one is the rest of the protocol's refresh, command by command |
| `AuthCode.RefreshTokenStore.Revoke` | src/modules/auth/store/refresh-token.store.ts:67-69 | says exactly one DEL of the family |
| `AuthCode.RefreshTokenStore.RevokeAllFamilies` | src/modules/auth/store/refresh-token.store.ts:75-80 | whatever others do: one scan, then one DEL of just what it returned, or none; undisturbed, exactly the families of the user go |
| `AuthCode.SessionEpochStore.Current` | src/modules/auth/store/session-epoch.store.ts:28-32 | one GET, read as 0 when unset, unreadable or no number |
| `AuthCode.SessionEpochStore.RevokeAll` | src/modules/auth/store/session-epoch.store.ts:38-42 | one INCR; returns its number, or -1 when there is none |
| `AuthCode.AuthService.AssertNotLocked` | src/modules/auth/service/auth.service.ts:81-88 | one GET; locked if and only if the count read has reached the maximum |
| `AuthCode.AuthService.RecordFailedAttempt` | src/modules/auth/service/auth.service.ts:91-99 | one INCR, then the EXPIRE if and only if it was answered 1, as in the protocol |
| `AuthCode.AuthService.Login` | src/modules/auth/service/auth.service.ts:45-63 | a login holds exactly the protocol's conversation, command by command in its order, for all replies and so under any interference, and gives the answer that the protocol derives from the replies; undisturbed, store and answer are those of the request run alone |
| `AuthCode.AuthService.Refresh` | src/modules/auth/service/auth.service.ts:106-130 | a refresh holds exactly the protocol's conversation, command by command in its order, for all replies and so under any interference, and gives the answer that the protocol derives from the replies; undisturbed, store and answer are those of the request run alone; an unverified token says nothing |
| `AuthCode.AuthService.Logout` | src/modules/auth/service/auth.service.ts:133-152 | a logout holds exactly the protocol's conversation, command by command in its order, for all replies and so under any interference, and gives the answer that the protocol derives from the replies; undisturbed, store and answer are those of the request run alone; then the token is blocked and the family gone |
| `AuthCode.AuthService.RevokeAllSessions` | src/modules/auth/service/auth.service.ts:70-74 | a revocation holds exactly the protocol's conversation, first the increment, then the scan, then the DEL of what it returned, for all replies; undisturbed, the store is that of the request run alone |
| `AuthCode.AuthGuard.CanActivate` | src/core/auth/auth.guard.ts:49-113 | passes a protected request if and only if it has a verified payload of type access with a jti that the protocol's guard accepts in the conversation held, for all replies; only then sets the user, field by field from the payload: its sub and jti, its role name, and its global roles and teams, none when missing; public and non-HTTP requests say nothing |
| `Tokens.SignedTokenReadsBack` | src/modules/auth/service/token.service.ts:44-57 | a payload signed for an identity and a token is read back as that very identity and that very token |
| `Tokens.AuthenticatedIsTheRow` | src/core/auth/auth.guard.ts:103-110 | from the tables to the request: the token signed for an active user authenticates that user with the global roles, team and position of its row and the name of the role above its team |
| `Tokens.OnlyAccessTokensAreWellTyped` | src/core/auth/auth.guard.ts:70-81 | a refresh token never passes for an access token, nor does a payload without type or jti |
| `Requests.LockedLogin` | src/modules/auth/service/auth.service.ts:80-88 | alone, an account with the maximum of failures is refused whatever the password, and nothing changes |
| `Requests.FailedLogin` | src/modules/auth/service/auth.service.ts:49-54 | alone, a wrong password adds one failure, and the lock window runs from the first failure on; with a lock duration of 0 the first failure leaves no trace |
| `Requests.FailuresLockExactly` | src/modules/auth/service/auth.service.ts:80-99 | m undisturbed failures in a row are stored as m up to the maximum, and then lock the account, if and only if the lock duration is positive |
| `Requests.GrantedLogin` | src/modules/auth/service/auth.service.ts:56-62 | alone, the right password clears the failures, opens exactly one family, and yields tokens that carry the stored epoch and the stored jti |
| `Requests.AcceptedRefresh` | src/modules/auth/service/auth.service.ts:118-129 | alone, the stored jti is replaced and its time restarted, the new tokens carry the new jti and the present epoch; a subject that is gone loses its family |
| `Requests.GuardDecides` | src/core/auth/auth.guard.ts:83-101 | alone, a token is accepted if and only if it is not blocked and its epoch is not behind; without Redis, if and only if the guard fails open |
| `Requests.SoloRefusal` | src/modules/auth/store/refresh-token.store.ts:50-63 | alone, a refresh with a jti that is not the stored one deletes the family and reports reuse, or reports an unknown family |
| `Requests.SoloRevocation` | src/modules/auth/service/auth.service.ts:70-74 | alone, a revocation raises the epoch and deletes exactly the families of the user |
| `Requests.UndisturbedTalkIsSolo` | src/modules/auth/service/auth.service.ts:45-152 | for every request, a conversation that was answered by a store on which nothing else happens ends as the request run alone |
| `IdentityIntegrity.ReachableStatesHaveIntegrity` | src/modules/identity/service/team.service.ts:28-75 | from any tables that have it, in every reachable state each active user's team and each active team's role is active, and emails, team names and role names are unique among active rows |
| `IdentityIntegrity.CreateUserSucceedsExactly` | src/modules/identity/service/user.service.ts:35-55 | creation succeeds if and only if the actor leads the team or is SUPER, the team is active and no active user has the email; the new row is exactly the given email, hash, name, team and position with no global role and the time of creation, nothing else changes, and a refusal changes nothing and names the first condition that failed |
| `IdentityIntegrity.NewUserLogsIn` | src/modules/identity/service/user.service.ts:41-52 | end to end: after a creation, a login with the new email identifies the new user if and only if the given hash verifies the password, and the outcome for every other email is unchanged |
| `IdentityIntegrity.DeletedUserIsUnknown` | src/modules/identity/service/user-credential.adapter.ts:28-34 | after a deletion no password identifies the user any more |
| `IdentityIntegrity.UpdateUserSucceedsExactly` | src/modules/identity/service/user.service.ts:84-95 | an update succeeds if and only if the actor may edit the user and, when a position is given, may change positions; it sets exactly the name and position given, and a refusal changes nothing, not even the name, and says whether the user, the edit or the position was the reason |
| `IdentityIntegrity.DeleteUserSucceedsExactly` | src/modules/identity/service/user.service.ts:97-102 | deletion succeeds if and only if the actor is SUPER or a leader of the user's team other than the user; it hides that user alone, and a refusal says whether the user was missing or the actor forbidden |
| `IdentityIntegrity.CreateTeamSucceedsExactly` | src/modules/identity/service/team.service.ts:28-40 | a team is created if and only if the role is active and no active team has the name; only that row is added, and a refusal says which of the two it was |
| `IdentityIntegrity.CreateRoleSucceedsExactly` | src/modules/identity/service/role.service.ts:22-30 | a role is created if and only if no active role has the name; only that row is added |
| `IdentityIntegrity.DeleteTeamSucceedsExactly` | src/modules/identity/service/team.service.ts:68-75 | a team can be deleted if and only if no active user is in it; a refusal says whether it was missing or has members |
| `IdentityIntegrity.DeleteRoleSucceedsExactly` | src/modules/identity/service/role.service.ts:50-57 | a role can be deleted if and only if no active team is under it; a refusal says whether it was missing or has teams |
| `IdentityIntegrity.RenameTeamSucceedsExactly` | src/modules/identity/service/team.service.ts:60-66 | renaming succeeds if and only if no other active team has the name, and otherwise reports the index violation, unlike creation |
| `IdentityIntegrity.RenameRoleSucceedsExactly` | src/modules/identity/service/role.service.ts:42-48 | renaming succeeds if and only if no other active role has the name, and otherwise reports the index violation, unlike creation |
| `IdentityIntegrity.UnnamedUpdates` | src/modules/identity/service/team.service.ts:60-66 | an update without a name changes nothing and answers the row; one of something not active is refused |
| `IdentityIntegrity.DeletedEmailIsFree` | src/modules/identity/entity/user.entity.ts:17-21 | after a user was deleted its email can be registered again |
| `IdentityIntegrity.DeletedTeamNameIsFree` | src/modules/identity/entity/team.entity.ts:13-16 | after a team was deleted its name can be given again, under any active role |
| `IdentityIntegrity.DeletedRoleNameIsFree` | src/modules/identity/entity/role.entity.ts:13-16 | after a role was deleted its name can be given again |
| `IdentityIntegrity.RunEvolves` | src/modules/identity/entity/user.entity.ts:43-67 | over any run no row disappears, and a user's team, email, global roles and creation time never change |
| `IdentityIntegrity.NobodyBecomesSuper` | src/modules/identity/entity/user.entity.ts:43-67 | in any run, whoever acts, no user ever gains SUPER |
| `IdentityIntegrity.ActiveUsersHaveIdentities` | src/modules/identity/service/user-credential.adapter.ts:36-50 | in every reachable state exactly the active users have an identity: their own id and global roles, their one team and position, and the name of the role above that team |
| `Confinement.RunTokensFit` | src/modules/identity/service/user-credential.adapter.ts:41-50 | in every reachable state, every token signed on the way still names its user's team and global roles, however old it is |
| `Confinement.RunsFromSeed` | src/modules/identity/service/user.service.ts:35-102 | tables with one role, one team and its SUPER leader are such tables: in every state reached from them with no tokens signed, integrity holds, tokens fit, and nobody else is SUPER |
| `Confinement.RoleGrants` | src/modules/identity/access/identity-access.matrix.ts:22-36 | whatever the spelling of the role name, letter by letter in small letters or capitals, the matrix grants RED everything and BLUE reading on users, and nothing on any other resource |
| `Confinement.SpellingsOfRed` | src/modules/identity/access/identity-access.matrix.ts:32-36 | Red, red and RED are one role; Rod is another |
| `Confinement.FreshTokenPassesByRole` | src/modules/identity/service/user-credential.adapter.ts:36-50 | over any run, a freshly signed token passes the guard if and only if its user is SUPER, or the role above the user's team is RED, or is BLUE and the request reads users; the team's name plays no part |
| `Confinement.EffectivePermissions` | src/modules/identity/access/user.resource-policy.ts:26-53 | both tiers together: the exact condition on role, team, position and identity for creating, reading, updating, promoting and deleting |
| `Confinement.StructureIsForSuper` | src/modules/identity/access/identity-access.matrix.ts:22-25 | requests on teams and roles pass the guard if and only if the actor is SUPER |
| `Confinement.TeamRequestsApply` | src/modules/identity/service/team.service.ts:28-75 | what SUPER asks of teams takes effect under the conditions of the services |
| `Confinement.RoleRequestsApply` | src/modules/identity/service/role.service.ts:22-57 | the same for roles |
| `AccessControl.FirstMembershipCounts` | src/lib/access-control/resource-policy.base.ts:63-73 | of several memberships in one team the first counts |
| `AccessControl.OwnersLead` | src/lib/access-control/resource-policy.base.ts:63-73 | a team is owned by those whose first membership in it says LEADER |
| `AccessControl.Wildcards` | src/lib/access-control/access-policy.provider.ts:45-55 | in any matrix, a listed resource type hides the wildcard type, and manage or the wildcard action allows every action |
| `AccessControl.RoutesAreClosedByDefault` | src/lib/access-control/policy.guard.ts:33-66 | public routes are open; a route that declares nothing is closed even to SUPER; nobody passes without a user |
| `Confinement.CoalitionsAreConfined` | src/modules/identity/access/user.resource-policy.ts:26-53 | over any run in which only users of one team without SUPER act, with tokens as old as they like, no row of another team, no team and no role changes, and every new user joins that team |
| `Confinement.MembersChangeOnlyTheirNames` | src/modules/identity/access/user.resource-policy.ts:26-48 | over any run in which only plain members act whose tokens, also those signed on the way, say MEMBER too, the users and their positions, teams and emails stay, and only acting users' own names change |
| `Confinement.DemotedLeaderStillDeletes` | src/modules/identity/access/user.resource-policy.ts:26-53 | the condition on tokens is needed: a leader demoted to MEMBER still deletes a team-mate with the token signed before |
| `Confinement.TokenIsHarmlessExactly` | src/modules/identity/access/user.resource-policy.ts:26-53 | whatever the present position, no request with a token changes more than its user's own name if and only if the token does not say LEADER, or not RED, or its team is deleted |
| `Confinement.ReadsShowOnlyOwnTeams` | src/modules/identity/service/user.service.ts:62-82 | read noninterference: two stores that agree on the actor's teams give equal answers for a single user and for every list with its count |
| `Confinement.OtherTeamsLeaveReadsAlone` | src/modules/identity/service/user.service.ts:62-82 | over any run, what a coalition of another team does never changes what an actor is shown |
| `Confinement.GetUserShowsExactlyColleagues` | src/lib/access-control/resource-policy.base.ts:91-109 | a single read succeeds if and only if the user is active and in the actor's teams or the actor is SUPER; every other case is the same missing-user error |
| `Listing.UserListShowsExactlyColleagues` | src/modules/identity/service/user.service.ts:70-82 | a list shows and counts exactly the active users with a matching name whom the same actor could read one by one |
| `Listing.PagesFitExactlyWithoutTies` | src/modules/identity/repository/user.repository.ts:53-62 | pages fetched by separate queries, each ordered by the database as it likes, fit together for all offsets and sizes if and only if no two listed users were created at the same time |
| `Listing.TiedUserIsNeverShown` | src/modules/identity/repository/user.repository.ts:53-62 | with two users of equal creation time, two pages of size one can both show the one and never the other |
| `IdentityCode.User.Create` | src/modules/identity/entity/user.entity.ts:43-59 | a new user with the given fields and password hash, and the given global roles or none |
| `IdentityCode.User.UpdateProfile` | src/modules/identity/entity/user.entity.ts:61-63 | changes the name and nothing else |
| `IdentityCode.User.ChangePosition` | src/modules/identity/entity/user.entity.ts:65-67 | changes the position and nothing else |
| `IdentityCode.User.ChangePassword` | src/modules/identity/entity/user.entity.ts:69-71 | changes the password hash and nothing else |
| `IdentityCode.Team.Rename` | src/modules/identity/entity/team.entity.ts:32-34 | changes the name and nothing else |
| `IdentityCode.Role.Rename` | src/modules/identity/entity/role.entity.ts:28-30 | changes the name and nothing else |
| `IdentityCode.UserRepository.Save` | src/common/base/base.repository.ts:29-33 | fails, and writes nothing, if and only if the row is not deleted and another active user has its email; otherwise writes just that row, with a new id if it is new |
| `IdentityCode.TeamRepository.Save` | src/common/base/base.repository.ts:29-33 | the same for teams and their names |
| `IdentityCode.RoleRepository.Save` | src/common/base/base.repository.ts:29-33 | the same for roles and their names |
| `IdentityCode.UserRepository.FindByEmail` | src/modules/identity/repository/user.repository.ts:39-41 | finds a user if and only if an active one has the email, and loads its row |
| `IdentityCode.UserRepository.SearchPage` | src/modules/identity/repository/user.repository.ts:53-62 | the page counts exactly the active users with a matching name in the scope, and lists as many as it has room for, each once with its own data, the newest first, and all of them when they fit |
| `IdentityCode.UserRepository.CountByTeam` | src/modules/identity/repository/user.repository.ts:44-46 | the number of active users in the team; 0 if and only if no active user is in it |
| `IdentityCode.TeamRepository.CountByRole` | src/modules/identity/repository/team.repository.ts:24-26 | the number of active teams under the role; 0 if and only if no active team has it, which is what the deletion guard asks |
| `IdentityCode.UserService.CreateUser` | src/modules/identity/service/user.service.ts:35-55 | equals the specified creation on every store, actor and request: `IdentityIntegrity.CreateUserSucceedsExactly` says which row is written |
| `IdentityCode.UserService.GetUser` | src/modules/identity/service/user.service.ts:62-67 | equals the specified masked read |
| `IdentityCode.UserService.GetUserList` | src/modules/identity/service/user.service.ts:70-82 | equals the specified scoped list |
| `IdentityCode.UserService.UpdateUser` | src/modules/identity/service/user.service.ts:84-95 | equals the specified update: a denied position change leaves the tables alone although the loaded entity was already renamed |
| `IdentityCode.UserService.DeleteUser` | src/modules/identity/service/user.service.ts:97-102 | equals the specified deletion |
| `IdentityCode.TeamService.CreateTeam` | src/modules/identity/service/team.service.ts:28-40 | equals the specified creation, with both refusals in order |
| `IdentityCode.TeamService.UpdateTeam` | src/modules/identity/service/team.service.ts:60-66 | equals the specified renaming |
| `IdentityCode.TeamService.DeleteTeam` | src/modules/identity/service/team.service.ts:68-75 | equals the specified guarded deletion |
| `IdentityCode.RoleService.CreateRole` | src/modules/identity/service/role.service.ts:22-30 | equals the specified creation |
| `IdentityCode.RoleService.UpdateRole` | src/modules/identity/service/role.service.ts:42-48 | equals the specified renaming |
| `IdentityCode.RoleService.DeleteRole` | src/modules/identity/service/role.service.ts:50-57 | equals the specified guarded deletion |
| `IdentityCode.UserCredentialAdapter.GetIdentity` | src/modules/identity/service/user-credential.adapter.ts:36-50 | the claims are the user's own row, its team and the name of that team's role; nobody when the user is not active; throws if and only if a row is missing |
| `IdentityCode.UserCredentialAdapter.ValidateCredentials` | src/modules/identity/service/user-credential.adapter.ts:28-34 | on tables with integrity, someone is identified if and only if an active user has the email and that user's own hash verifies the password, whatever the dummy hash verifies, and it is that user with its identity |
| `Roster.RosterIsTheDirectCounts` | src/modules/identity/read-model/team-roster.read-model.ts:40-71 | join, group, count and filtered count, for every scan order, give ascending rows: one per active team with an active role that is asked for, with its names, the count that guards team deletion, and its leaders |
| `Roster.ScanOrderDoesNotMatter` | src/modules/identity/read-model/team-roster.read-model.ts:40-71 | the roster is the same whatever order the tables are read in |
| `Roster.AskingIsFiltering` | src/modules/identity/read-model/team-roster.read-model.ts:59-61 | a non-empty list of team ids is the same as filtering the full roster |
| `Roster.AskingForNothingIsAskingForAll` | src/modules/identity/read-model/team-roster.read-model.ts:59-61 | an empty list of team ids gives the full roster, as no list does |
| `Roster.RosterCountsEveryUserOnce` | src/modules/identity/read-model/team-roster.read-model.ts:40-71 | with integrity, the rows are exactly the active teams, no team has more leaders than members, and the member counts sum to the number of active users |
| `SoftDelete.CascadeSoftDelete` | src/common/base/base.repository.ts:65-94 | after the nested loops, exactly the entities and their marked relatives carry the deletion time, whatever is shared between them, and every collection on the way is loaded |
| `SoftDelete.StoredRelativesAreMarked` | src/common/base/base.repository.ts:80-91 | relatives that were loaded from the tables are all marked; only new ones in a collection are missed |
| `SoftDelete.MissedExactly` | src/common/base/base.repository.ts:80-91 | a relative is missed if and only if it is not deleted itself and has no property for the mark, or has it undefined and is reached through collections only |
| `SoftDelete.DeleteParentOfNewChild` | src/common/base/base.repository.ts:65-94 | a parent with one new child in a collection is deleted and the child is not |
| `Sanitizer.SanitizeRecursive` | src/common/utils/log-sanitizer.ts:18-37 | the recursive method with its loops computes the specified transformation and terminates for every tree and depth |
| `Sanitizer.OutputIsShallowAndMasked` | src/common/utils/log-sanitizer.ts:18-37 | the output nests at most the allowed depth and contains no unmasked sensitive field |
| `Sanitizer.SanitizeIsIdempotent` | src/common/utils/log-sanitizer.ts:18-37 | sanitizing twice is sanitizing once |
| `Sanitizer.SecretsDoNotShow` | src/common/utils/log-sanitizer.ts:26-34 | data that differ only under sensitive names have equal outputs |
| `Sanitizer.MaskedDataAreKept` | src/common/utils/log-sanitizer.ts:18-37 | data that are already masked and shallow enough come out unchanged |
| `Sanitizer.KeptExactly` | src/common/utils/log-sanitizer.ts:18-37 | data come out unchanged if and only if sensitive fields hold the mask and there is room for each level: plain fields of an object at the last level need none, items of an array one more |
| `Sanitizer.SanitizedBecomes` | src/common/utils/log-sanitizer.ts:18-37 | what each datum becomes, level by level: the mask, the cut or itself, in the same order and under the same names |
| `Sanitizer.SanitizedLogs` | src/common/utils/log-sanitizer.ts:14-16 | all of these for the public entry and every depth it may be given, also none or a negative one |
| `Sanitizer.SensitiveNames` | src/common/utils/log-sanitizer.ts:39-42 | a name is sensitive if and only if one of password, token, secret, pin and ssn is spelled somewhere in it, letter by letter, in small letters or capitals |
| `Sanitizer.TokenFieldsAreMasked` | src/common/utils/log-sanitizer.ts:10-11 | accessToken and refreshToken are masked, and so is every name built around Password or TOKEN |
| `Sanitizer.CardFieldsAreNotMasked` | src/common/utils/log-sanitizer.ts:10-11 | the listed names creditCard and cardNumber are themselves not masked |
| `EvalPool.EveryScheduleFillsTheSameSlots` | scripts/mcp/eval.mjs:36-56 | for any positive number of workers and any schedule, each case is taken once, in order; when all workers have stopped, every fixture was readable and every slot holds its own case's answer; a worker is rejected exactly when it took an unreadable case |
| `EvalPool.Evaluation.Shift` | scripts/mcp/eval.mjs:42-45 | takes the next case and reads its fixture, stops the worker when there is none, or throws when it cannot be read, as the pool's step does |
| `EvalPool.Evaluation.Store` | scripts/mcp/eval.mjs:46-53 | writes the answer into the case's own slot, as the pool's step does |
| `EvalScore.Score` | scripts/mcp/eval.mjs:60-93 | the loop counts pairs of a reviewed case and a rule: found and expected, expected and not found, found and neither expected nor accepted; or it throws exactly when a slot holds an error without a message |
| `EvalScore.CountsArePairs` | scripts/mcp/eval.mjs:60-78 | the totals are the cardinalities of these three sets of pairs |
| `EvalScore.AcceptedRulesAreNeutral` | scripts/mcp/eval.mjs:71-75 | finding an accepted rule that is not expected never changes a count |
| `EvalScore.PerfectExactly` | scripts/mcp/eval.mjs:89-90 | precision is 1 if and only if every counted finding is expected or accepted, and recall is 1 if and only if every expected rule was found |
| `EvalScore.FoundPlusMissedIsExpected` | scripts/mcp/eval.mjs:71-78 | found and missed rules add up to the expected rules of the reviewed cases |
| `EvalScore.LowNeverLowersRecall` | scripts/mcp/eval.mjs:95-96 | recall with low-confidence findings is at least strict recall |
| `EvalScore.F1InClosedForm` | scripts/mcp/eval.mjs:89-92 | F1 is 2tp / (2tp + fp + fn) whenever the denominator is positive, and 1 otherwise |

## Left out

- Signing and verifying JWTs, argon2, cookies: a token is a record that only the service produces, and a credential check is the id it yields, if any. A refresh token is accepted by the model whatever its own expiry, which only adds runs.
- UUIDs are new strings chosen at the step that uses them; that they never repeat is assumed.
- Reconnecting, subscriptions, pipelines, `TTL`, `EXISTS` and the remaining `safe` variants of the Redis client; a script that Redis rejects is an error answer.
- Times in fractions of a millisecond, and clocks of several machines: the signer's and Redis's time are the same.
- Redis values are jtis, lock tokens or numbers; the spelling of numbers as strings is not modelled for `INCR`. Glob patterns have `*` and `?`, no character classes or escapes.
- The machine's emails are already trimmed and in lower case (`Accounts.Normalize` does it); the bearer header is parsed before the model's guard. Upper and lower case are those of ASCII.
- Confinement.ReadsShowOnlyOwnTeams: among rows of equal creation time each query may have any order, but an order that depends on rows the query does not select is not modelled; the SQL pattern match is an arbitrary predicate on the name.
- IdentityCode.UserCredentialAdapter.GetIdentity: ignores the deletion marks of the team and role rows; `IdentityIntegrity.ActiveUsersHaveIdentities` shows that no reachable state has an active user with a deleted or missing one.
- Identity requests are atomic. Their checks and writes are not locked in the code, so overlapping requests can meet the unique index or delete a team that is just gaining a member; that is not modelled.
- An insert that the index rejects uses up an id in the database and not in the model; no other behaviour depends on it.
- Sanitizer.SanitizeRecursive: works on trees; a cyclic object is cut at the same depth, but is not a tree.
- EvalScore.Score: returns the counts; the report's text rows, token totals and percentages are left out. Precision, recall and F1 are exact reals, without rounding.
- The `USER_CREATED` event, logging, and reading single teams and roles or listing them, which only SUPER may do.
- Controllers, DTO validation, pagination arithmetic, response envelopes, configuration, database wiring, mail, storage, lint and drift scripts, and the model call of the evaluation: wiring, or settled by reading one branch.
