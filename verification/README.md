# X-Auth: a verified model of the identity services

X-Auth is an identity provider in two Go services. The authenticator service dispatches and verifies second-factor
challenges behind rate limits and an account lockout. The authentication service is the OpenID provider: it runs
/authorize with step-up protection, the token endpoint, revocation and /userinfo, risk advice, and Cross-App Access by
identity assertions (ID-JAG). This project models the parts of both that carry state from one request to the next and
proves what they promise over every run.

The files follow the components:

- `SlidingWindow.dfy`, `FixedWindow.dfy`: the two rate limiters, in memory and on a Redis counter.
- `Lockout.dfy`, `Challenges.dfy`, `ChallengeHandlers.dfy`: the lockout built on the limiter, the challenge lifecycle,
  and the endpoints that put the one in front of the other.
- `TokenVault.dfy`, `Grants.dfy`, `VaultRuns.dfy`: tokens, sessions and codes, the code and refresh grants, and the
  safety of families, codes and the sweeper over whole runs.
- `ProtectionLedger.dfy`, `Protection.dfy`: the per-session assurance ledger and the protection ladder.
- `Desk.dfy`, `Gates.dfy`, `Engine.dfy`, `Flows.dfy`, `DeskRuns.dfy`, `StepUpAssurance.dfy`, `AuthorizeServer.dfy`: the
  state behind /authorize, what one request may do and exactly when, the flow engine, stored flows and the owner
  console, whole runs of advice and step-ups, what the level of every code rests on, and the handlers as written.
- `ClaimSets.dfy`, `Jwt.dfy`, `Scopes.dfy`, `IdJag.dfy`: claims as JSON, RS256 tokens and key sets, scope arithmetic,
  and issuing and redeeming identity assertions.
- `Paging.dfy`: the keyset-paginated user list. `Common.dfy` and `Words.dfy` hold shared vocabulary.

Each object that the services update in place is a class with the same fields, and its methods follow the Go branch by
branch. Their contracts equate the new state with a function of the old one; the theorems are lemmas about those
functions, by induction over runs. Histories are ghost fields or values. Instants are integers in nanoseconds, a
handler is one atomic step that is given its clock readings, and the clock never goes back between steps. A grant
reads the clock twice; the readings may differ by at most one session lifetime where that matters.

Foreign answers are inputs: the challenge adapters, the risk service, published key sets, the policy evaluator, the S256
transformation, and the library under the tokens (base64url, JSON text, floats, RSA) through the laws that each decoder
undoes its encoder, integers up to 2^53 survive a float, and a key's signature checks under that key. That nobody forges
a signature is a hypothesis of the lemmas that need it (`Jwt.Forged`), about the token presented. How the JSON decoder
assigns members to claims, by case-folded name, last one first, is written out. A stored token is identified with the
hash of its plaintext, so hashing is taken to be injective, and identifiers minted by a step are new.

Where the code does less than its comments or tests promise, the model follows the code, shows an input and states
exactly when the promise holds:

- An assertion is single use until its expiry, not until it stops verifying: verification allows 30 seconds more than
  the record of its jti is kept, and in that time it can be redeemed any number of times
  (`IdentityAssertions.SecondRedemption`, `ReplayWithinLeeway`).
- Following `next_cursor` skips users exactly when a page ends between two users created at the same instant
  (`UserPages.WalkIsCompleteIff`, `UserPages.TiedUserIsSkipped`).
- A challenge's terminal states are absorbing when verifications are atomic; overlapping ones break it exactly when a
  late mutation finds the row closed, and can add as many attempts as overlap the third failure
  (`Challenges.AbsorbingUnlessLate`, `Challenges.AttemptsBound`, `Challenges.AttemptsBoundIsReached`).
- Extra claims are tested for collisions by exact name but read by case-folded name, and with extras the times pass
  through floats. So an extra can fill an omitted claim, replace one, or make the token unreadable, and a time beyond
  2^53 can change; the claims come back exactly when they are undisturbed in the sense of
  `ClaimSets.ExtrasLeaveClaims` (inputs: `ClaimSets.CapitalFillsOmittedClaim`, `ClaimSets.LongSReplacesSubject`,
  `ClaimSets.MistypedExtraIsUnreadable`, `ClaimSets.LargeTimeIsRounded`).
- A policy on the last stage leaves a request without response exactly when it does not pass there
  (`Engine.SilentIff`). A valid flow always answers exactly when one of its terminal stages has no policy
  (`Flows.AlwaysAnswersIff`).
- The low-risk skip of the risk-adaptive flow completes an advised transaction without the advised level, so the
  binding of advice is a property of the legacy branch and the default flow; on the risk-adaptive flow exactly those
  requests break it (`DeskRuns.LowRiskSkipIgnoresAdvice`, `DeskRuns.RiskAdaptiveHonoursIff`).
- A lower step-up refreshes the age of a higher rank (`AssuranceLedger.LowerRankRefreshes`).
- Once swept, a replayed refresh token no longer revokes its family (`VaultRuns.SweptReplayRevokesNothing`).
- The Redis counter admits at most one request less than twice the limit in a window, and that is reached
  (`FixedWindow.TwoWindowBound`, `FixedWindow.BoundIsTight`).

## Model

| member | source | states |
|---|---|---|
| `SlidingWindow.Limiter.constructor` | pkg/ratex/ratex.go:51-58 | a new limiter has an empty history |
| `SlidingWindow.Limiter.Allow` | pkg/ratex/ratex.go:63-95 | with the hit logs compacted in place and swept every 4096 calls, a request is admitted iff fewer than the limit of the key's admitted requests of the whole history lie in (now - window, now]; a denial names the wait; a limit of zero or less admits everything |
| `SlidingWindow.Limiter.SweepLocked` | pkg/ratex/ratex.go:97-110 | drops exactly the keys with no hit after the cutoff, and no later decision can tell |
| `SlidingWindow.Compact` | pkg/ratex/ratex.go:79-87 | the in-place compaction leaves the hits after the cutoff, in order, at the front |
| `SlidingWindow.WindowBound` | pkg/ratex/ratex.go:60-95 | in every history no interval (x, x + window] holds more than the limit of admitted requests of a key |
| `SlidingWindow.CountedBound` | pkg/ratex/ratex.go:60-95 | at no instant do more than the limit of admitted requests still count |
| `SlidingWindow.KeepsInterchangeable` | pkg/ratex/ratex.go:79-94 | after each call the pruned logs answer like the full history for every key and every later cutoff |
| `SlidingWindow.DeniedUntilRetry` | pkg/ratex/ratex.go:60-95 | after a denial every request of the key before the announced instant is denied, whatever else arrives in between |
| `SlidingWindow.RetryIsExact` | pkg/ratex/ratex.go:60-95 | Retry-After is exact: up to the announced instant, a request of the key is admitted iff it comes at that instant |
| `FixedWindow.RedisLimiter.RunScript` | pkg/ratex/redis.go:15-29 | INCR, PEXPIRE on the first hit, PTTL and the repair branch, in order, do to the counter what the script function says |
| `FixedWindow.RedisLimiter.Allow` | pkg/ratex/redis.go:64-83 | the answer is the script's on the key's whole history of runs; a limit of zero or less, or an unreachable server, admits and leaves no trace |
| `FixedWindow.CounterShape` | pkg/ratex/redis.go:15-29 | in every reachable state the counter carries a TTL of at most one window, and a run was allowed iff the counter does not exceed the limit |
| `FixedWindow.RepairUnreachable` | pkg/ratex/redis.go:22-25 | in no reachable state is a counter over the limit found without TTL |
| `FixedWindow.RepairRestoresTTL` | pkg/ratex/redis.go:22-25 | were it found so, the repair would deny for a whole window and stamp the TTL again |
| `FixedWindow.NoWindowNoCounter` | pkg/ratex/redis.go:17-19 | a window of no whole millisecond keeps no counter, so every run is allowed |
| `FixedWindow.LifetimeBound` | pkg/ratex/redis.go:15-29 | each counter lifetime admits at most the limit |
| `FixedWindow.LateBound` | pkg/ratex/redis.go:15-29 | a lifetime opened before an instant admits at most limit - 1 after it |
| `FixedWindow.TwoWindowBound` | pkg/ratex/redis.go:31-36 | any interval (x, x + window] admits at most 2 * limit - 1 requests, one fewer than the comment allows |
| `FixedWindow.BoundIsTight` | pkg/ratex/redis.go:31-36 | a run reaches 2 * limit - 1 |
| `FixedWindow.RetryIsExact` | pkg/ratex/redis.go:20-27 | after a denial the key's next run is allowed iff the named deadline has passed |
| `AccountLockout.NewLockout` | services/authenticator-service/internal/abuse.go:111-124 | no lockout iff threshold or window is not positive; otherwise one that has locked nothing |
| `AccountLockout.Lockout.Locked` | services/authenticator-service/internal/abuse.go:186-202 | locked iff the stored deadline is ahead, with the exact remaining wait; a deadline that has passed is dropped; other keys are untouched |
| `AccountLockout.Lockout.RecordFailure` | services/authenticator-service/internal/abuse.go:163-175 | a failure is counted, or locks the key when threshold - 1 failures still count, until the oldest of them leaves the window |
| `AccountLockout.CountedBound` | services/authenticator-service/internal/abuse.go:163-202 | in every run any interval (x, x + window] holds at most threshold - 1 counted failures |
| `AccountLockout.LockEndsWithOldest` | services/authenticator-service/internal/abuse.go:163-181 | a lock ends exactly one window after the oldest counted failure (after the failure itself when threshold is 1) |
| `AccountLockout.AfterTheLock` | services/authenticator-service/internal/abuse.go:186-202 | every attempt before a lock's deadline is rejected; from the deadline on fewer than threshold - 1 failures count |
| `AccountLockout.FirstFailureAfterLockCounts` | services/authenticator-service/internal/abuse.go:163-202 | the first failure after a lock is counted and never locks again at once |
| `AccountLockout.TripsBound` | services/authenticator-service/internal/abuse.go:163-202 | every failure either counts or locks, and in any interval locks exceed counted failures by at most one |
| `AccountLockout.SingleFailureBound` | services/authenticator-service/internal/abuse.go:148-175 | with threshold 1 any window holds at most one failure |
| `AccountLockout.LockoutBound` | services/authenticator-service/internal/abuse.go:163-202 | in every run any interval (x, x + window] holds at most 2 * threshold - 1 failed verifications of a key |
| `AccountLockout.BoundIsTight` | services/authenticator-service/internal/abuse.go:163-202 | a run reaches 2 * threshold - 1 |
| `Challenges.Store.PutChallenge` | services/authenticator-service/internal/storage.go:148-153 | stores the row under its id |
| `Challenges.Store.GetChallenge` | services/authenticator-service/internal/storage.go:157-165 | another tenant's row reads as missing |
| `Challenges.Store.UpdateChallenge` | services/authenticator-service/internal/storage.go:171-185 | one read-modify-write of the row if it is the tenant's and keeps its identity, otherwise nothing changes |
| `Challenges.Store.PurgeExpired` | services/authenticator-service/internal/storage.go:199-211 | deletes exactly the expired rows and the pending rows past their deadline, and counts them |
| `Challenges.AttemptsAreFailures` | services/authenticator-service/internal/challenges.go:206-326 | in every life of atomic verifications attempts is the number of failed adapter runs, at most three; failed iff three; completed iff stamped |
| `Challenges.ReplyMeaning` | services/authenticator-service/internal/challenges.go:247-351 | verified iff the adapter was asked and answered yes, and exactly then the row is completed now; a wrong answer counts one attempt and closes the row at the third; each other reply has its exact cause and, but for expiry, changes nothing |
| `Challenges.BackoffIsExact` | services/authenticator-service/internal/abuse.go:219-232 | a backoff reply names the first instant at which the adapter is asked again before the deadline |
| `Challenges.CompletedIffRight` | services/authenticator-service/internal/challenges.go:206-326 | over every life a challenge is completed iff some unlocked attempt ran the adapter and was right |
| `Challenges.SweepEndsExactly` | services/authenticator-service/internal/storage.go:199-211 | a sweep ends exactly the expired rows and the pending ones past their deadline |
| `Challenges.FailuresAreSpaced` | services/authenticator-service/internal/abuse.go:219-232 | N failed runs span at least 2^N - 2 seconds |
| `Challenges.TerminalIsAbsorbing` | services/authenticator-service/internal/challenges.go:247-326 | under atomic verification a terminal row never changes again; only an expired one can be purged |
| `Challenges.NoLostIncrement` | services/authenticator-service/internal/challenges.go:293-308 | however reads and commits interleave, attempts counts every failed commit, the third closes the row, and the sweeper spares completed and failed rows |
| `Challenges.AttemptsBound` | services/authenticator-service/internal/challenges.go:206-308 | however the reads and commits of verifications interleave, attempts exceed three by at most the verifications running when the third failure is committed |
| `Challenges.AttemptsBoundIsReached` | services/authenticator-service/internal/challenges.go:206-308 | for every number of verifications that all read the new row the bound is reached |
| `Challenges.SplitIsNotAbsorbing` | services/authenticator-service/internal/challenges.go:293-308 | with four verifications that all read the new row a fourth attempt lands on the failed row, or a late success reopens it |
| `Challenges.AbsorbingUnlessLate` | services/authenticator-service/internal/challenges.go:293-308 | while every mutation finds the row pending, failed means three attempts and never more; one that finds it terminal overwrites it iff it does not repeat what is there |
| `Challenges.SelectAuthenticator` | services/authenticator-service/internal/challenges.go:357-380 | the first preferred method with an active authenticator, and the oldest such authenticator; none iff no preferred method is served |
| `Challenges.Oldest` | services/authenticator-service/internal/challenges.go:357-380 | the minimum by creation time, ties by id |
| `Challenges.SelectionIgnoresOrder` | services/authenticator-service/internal/challenges.go:357-380 | the selection does not depend on the order of the store's list |
| `ChallengeEndpoints.ChallengeHandlers.Create` | services/authenticator-service/internal/challenges.go:46-166 | refused exactly while locked out (consuming no creation slot), then exactly when the creation limit is reached; stores a new pending challenge only if it was dispatched |
| `ChallengeEndpoints.AbuseKeysDiffer` | services/authenticator-service/internal/challenges.go:46-166 | different users have different lockout keys as long as tenant ids hold no bar |
| `ChallengeEndpoints.ChallengeHandlers.Verify` | services/authenticator-service/internal/challenges.go:206-352 | one atomic verification moves the row as its life says, answers in the handler's order of checks, and reports to the lockout exactly the failed adapter runs |
| `ChallengeEndpoints.ChallengeHandlers.Settle` | services/authenticator-service/internal/challenges.go:247-326 | closed, expired, backoff, adapter missing or failing, success, failure: each branch's write and answer |
| `ChallengeEndpoints.ChallengeHandlers.Sweep` | services/authenticator-service/internal/storage.go:199-211 | the sweeper removes from the store exactly what it ends in the lives |
| `ChallengeEndpoints.MatchesStep` | services/authenticator-service/internal/challenges.go:206-352 | an update keeps every stored row equal to the outcome of its own history |
| `AssuranceLedger.ProtectionLedger.Record` | services/authentication-service/internal/protection.go:128-143 | raises the session's rank to the maximum and refreshes its age; an empty session records nothing |
| `AssuranceLedger.ProtectionLedger.Achieved` | services/authentication-service/internal/protection.go:146-154 | the highest rank of the longest suffix of the session's records with no gap over the TTL, if the last is at most one TTL old; else 0 |
| `AssuranceLedger.ProtectionLedger.AchievedWithin` | services/authentication-service/internal/protection.go:160-172 | the same, if the last record is also within the given freshness |
| `AssuranceLedger.ProtectionLedger.GcLocked` | services/authentication-service/internal/protection.go:174-180 | removes exactly the entries older than the TTL |
| `AssuranceLedger.ChainIsLongest` | services/authentication-service/internal/protection.go:128-143 | the chain is an unbroken suffix of the history and no unbroken suffix is longer |
| `AssuranceLedger.CollectingIsInvisible` | services/authentication-service/internal/protection.go:174-180 | running the collector at any time, any number of times, keeps the entries faithful to the history |
| `AssuranceLedger.AnswersAreExact` | services/authentication-service/internal/protection.go:146-172 | the stored entries answer as the full history does |
| `AssuranceLedger.RecordingExtends` | services/authentication-service/internal/protection.go:128-143 | a record extends the history it reflects |
| `AssuranceLedger.LowerRankRefreshes` | services/authentication-service/internal/protection.go:135-142 | a later, lower step-up keeps the higher rank alive past its own TTL |
| `TokenVault.MemStorage.CreateSession` | services/authentication-service/internal/storage.go:402-407 | stores the session |
| `TokenVault.MemStorage.GetSession` | services/authentication-service/internal/storage.go:410-418 | another tenant's session reads as missing |
| `TokenVault.MemStorage.UpdateSession` | services/authentication-service/internal/storage.go:451-462 | replaces the tenant's row, keeping its creation stamp |
| `TokenVault.MemStorage.RevokeTokenByHash` | services/authentication-service/internal/storage.go:488-499 | stamps that token only |
| `TokenVault.MemStorage.RevokeTokenFamily` | services/authentication-service/internal/storage.go:504-521 | stamps exactly the unrevoked tokens of the family and returns their number; the empty family is no family |
| `TokenVault.MemStorage.RevokeTokenFamiliesBySession` | services/authentication-service/internal/storage.go:527-556 | the two-pass loop stamps exactly the unrevoked tokens of the families the session touched and returns their number |
| `TokenVault.SessionWideRevocation` | services/authentication-service/internal/storage.go:523-556 | stated on its own: a token is stamped iff it is unrevoked and its family has a stored token of that session and tenant; earlier stamps stay |
| `TokenVault.SessionWideRevocationIsIdempotent` | services/authentication-service/internal/storage.go:523-556 | a second call finds the same families and changes nothing |
| `TokenVault.MemStorage.ConsumeAuthCode` | services/authentication-service/internal/storage.go:570-579 | reads and removes the code in one step |
| `TokenVault.MemStorage.PurgeExpired` | services/authentication-service/internal/storage.go:985-1011 | removes exactly the expired tokens, the codes past their TTL and the sessions expired for more than RefreshTTL, and counts them |
| `TokenVault.SweepKeepsExactly` | services/authentication-service/internal/storage.go:985-1011 | tokens stay up to their expiry, codes for five minutes, sessions for thirty days after theirs, all unchanged |
| `TokenVault.StampFamilies` | services/authentication-service/internal/storage.go:540-555 | the stamping pass keeps earlier stamps and counts each token it stamps once |
| `Grants.OIDCHandlers.HandleCodeGrant` | services/authentication-service/internal/oidc.go:530-627 | the checks in order around the one-shot code, PKCE, a new session and a token pair |
| `Grants.OIDCHandlers.HandleRefreshGrant` | services/authentication-service/internal/oidc.go:641-727 | rotation: session extended, old token stamped, new pair in the same family; a revoked token revokes its family |
| `Grants.ExchangedIff` | services/authentication-service/internal/oidc.go:530-627 | a code is exchanged iff it is stored, fresh, and client, redirect URI and PKCE verifier fit; the reply hands out the access token as access token and the refresh token as refresh token, of the code's scope, client and a new session of its user, with an ID token carrying the code's nonce, acr, amr and transaction iff the scope asks for one; a refusal adds nothing |
| `Grants.RotatedIff` | services/authentication-service/internal/oidc.go:641-727 | a refresh token is rotated iff it is live, its client fits and its session stands; it is revoked, the session extended, and the pair, handed out under its own names, joins the family; a revoked one, and only that, revokes its family |
| `Grants.ExchangedPairWorks` | services/authentication-service/internal/oidc.go:530-727 | the access token an exchange returns is answered at /userinfo until its expiry, its refresh token is granted by the next refresh for the same user, tenant and scope, and neither works as the other |
| `Grants.RotatedPairWorks` | services/authentication-service/internal/oidc.go:641-727 | so does the pair a rotation returns |
| `Grants.GrantRefusals` | services/authentication-service/internal/oidc.go:530-727 | which refusal each grant gives: a missing parameter, a client that fails or is not the code's, or an invalid grant |
| `Grants.UserInfoIff` | services/authentication-service/internal/oidc.go:882-923 | answered iff the bearer verifies and its record is an unexpired, unrevoked access token of an existing user |
| `Grants.ChangedSession` | services/authentication-service/internal/sessions.go:101-202 | extending gives an hour from now, invalidating ends it, upgrading sets risk level and step-up; nothing else changes but the stamp |
| `Grants.OIDCHandlers.IssueTokenPair` | services/authentication-service/internal/oidc.go:743-793 | one access and one refresh token for the session, family and client |
| `Grants.OIDCHandlers.Revoke` | services/authentication-service/internal/oidc.go:849-865 | an unknown token is acknowledged like a known one |
| `Grants.OIDCHandlers.UserInfo` | services/authentication-service/internal/oidc.go:882-923 | answers iff the bearer verifies and its record is a live, unrevoked access token of an existing user |
| `Grants.OIDCHandlers.ChangeSession` | services/authentication-service/internal/sessions.go:101-202 | refresh, invalidate and upgrade write nothing to a missing or invalidated session |
| `VaultRuns.StepKeepsInv` | services/authentication-service/internal/oidc.go:530-727 | every request and sweep keeps: unique identifiers, one unrevoked refresh token per family, and the expiry horizon between refresh tokens and sessions |
| `VaultRuns.Reachable` | services/authentication-service/internal/oidc.go:530-727 | the invariant holds in every reachable state |
| `VaultRuns.FamilyHasOneTip` | services/authentication-service/internal/oidc.go:641-727 | in every reachable state a family has at most one unrevoked refresh token |
| `VaultRuns.SpentForever` | services/authentication-service/internal/oidc.go:641-727 | a spent token or code stays spent and a dead family stays dead in every continuation |
| `VaultRuns.RotatedOnce` | services/authentication-service/internal/oidc.go:641-727 | each refresh token is redeemed at most once in any run |
| `VaultRuns.CodeRedeemedOnce` | services/authentication-service/internal/oidc.go:530-627 | each authorization code is redeemed at most once in any run |
| `VaultRuns.PresentedCodeIsBurnt` | services/authentication-service/internal/oidc.go:548-556 | a stored code presented with valid client authentication never exists again, even if the exchange is refused |
| `VaultRuns.ReplayKillsFamily` | services/authentication-service/internal/oidc.go:659-673 | after a replay no unrevoked token of the family ever exists again |
| `VaultRuns.RevokedForever` | services/authentication-service/internal/oidc.go:849-865 | a revoked token of either kind is never again rotated or answered at /userinfo, and the revocation touches no other |
| `VaultRuns.InvalidatedForever` | services/authentication-service/internal/sessions.go:131-160 | once a session is invalidated, no continuation grants a refresh on its tokens |
| `VaultRuns.DeadFamilyIsRefused` | services/authentication-service/internal/oidc.go:641-727 | no token of a dead family is rotated or answered at /userinfo |
| `VaultRuns.SweepSparesNamedSessions` | services/authentication-service/internal/storage.go:985-1011 | in every reachable state the sweep keeps each session an unexpired refresh token names |
| `VaultRuns.SweepIsInvisibleToRefresh` | services/authentication-service/internal/storage.go:985-1011 | any single later refresh is granted the same token contents with or without the sweep |
| `VaultRuns.SweepIsInvisibleToExchange` | services/authentication-service/internal/storage.go:985-1011 | so is any single later code exchange |
| `VaultRuns.SweepIsInvisibleToUserInfo` | services/authentication-service/internal/storage.go:985-1011 | so is any single later /userinfo request |
| `VaultRuns.RefusalsAfterSweep` | services/authentication-service/internal/storage.go:985-1011 | refusals of both grants read the same, except that a swept code or token is unknown |
| `VaultRuns.SweptReplayRevokesNothing` | services/authentication-service/internal/storage.go:985-1011 | replaying a revoked and expired refresh token revokes its family before the sweep and nothing after it |
| `VaultRuns.LineageIsKept` | services/authentication-service/internal/oidc.go:641-793 | in every reachable state each token of a family started at login still carries that login's session, user, tenant, client and scope |
| `Protection.MatchedLevel` | services/authentication-service/internal/protection.go:77-86 | a matched level is on the ladder under its own acr, rank 1 to 8, with a method that has a step-up |
| `Protection.LadderIsMonotone` | services/authentication-service/internal/protection.go:52-61 | ranks grow strictly along the ladder and no acr occurs twice |
| `Protection.PlainMethodsHaveNoRank` | services/authentication-service/internal/protection.go:65-72 | the method-specific acr values and the empty one stand for no level |
| `Gates.VerifyGate` | services/authentication-service/internal/otp.go:317-428 | /authorize/verify redirects with a code iff the flow is parked and at most ten minutes old, its method known, the form complete and the challenge verified; otherwise codes, ledger, advice and emissions stay |
| `Gates.VerifyLeaves` | services/authentication-service/internal/otp.go:362-387 | a throttled, failing or retryable rejection, and a form without its answer, change nothing; a closed challenge only drops the flow and its attempt |
| `Gates.VerifiedFlow` | services/authentication-service/internal/otp.go:389-428 | a verified flow yields a code for its own request at its target level, or at its method's acr, and records the target rank for its session |
| `Gates.MintIssues` | services/authentication-service/internal/otp.go:520-553 | the code carries every fact of the request with the given acr and amr, and the client is sent back to its own redirect URI |
| `Gates.StartGate` | services/authentication-service/internal/otp.go:201-288 | which page a step-up starts with and exactly when; a missing phone and an invalid one are told apart from an outage |
| `Gates.StartParks` | services/authentication-service/internal/otp.go:201-288 | the flow is parked for the same request, target and session under the dispatched challenge, or nothing changes; starting never mints, records or completes |
| `Gates.StartedKeepsOthers` | services/authentication-service/internal/otp.go:162-173 | parking drops exactly the expired flows and attempts |
| `Gates.RegisterGate` | services/authentication-service/internal/webauthn_stepup.go:99-140 | registering goes on to the assertion iff the flow is a live passkey flow, the registration succeeded and the assertion was dispatched |
| `Gates.FirstLevelWins` | services/authentication-service/internal/protection.go:77-86 | a request is at the first value it names that is on the ladder |
| `Gates.FirstMethodWins` | services/authentication-service/internal/otp.go:96-106 | or at the first that is a method |
| `Gates.LevelIsChallengedBy` | services/authentication-service/internal/protection.go:231-253 | ranks 1 and 2 are challenged by SMS, higher ones by a passkey unless the tenant has turned FIDO off |
| `Gates.AdviceCheckIff` | services/authentication-service/internal/oidc.go:320-353 | a transaction id passes iff it is on record for the tenant, unused, for this user and advised no more than asked; each refusal has its exact cause |
| `StepUpAssurance.LedgerIsVerifiedHistory` | services/authentication-service/internal/protection.go:104-180 | in every reachable state the ledger answers exactly as the history of verified step-ups of each session |
| `StepUpAssurance.SatisfiedIff` | services/authentication-service/internal/protection.go:186-192 | a level is satisfied iff the session's history of verified step-ups achieves its rank within the freshness window |
| `StepUpAssurance.PolicyFacts` | services/authentication-service/internal/flowexec.go:69-85 | policies see the rank asked for and the rank the session's history achieves |
| `StepUpAssurance.LegacyCodes` | services/authentication-service/internal/oidc.go:360-418 | without the engine a code is minted at once iff the level is satisfied or no step-up is asked for |
| `StepUpAssurance.StepAccountsForCodes` | services/authentication-service/internal/otp.go:317-428 | a code present after a request was there before, or the request minted it by a verification or without needing one |
| `StepUpAssurance.CodesAreEarned` | services/authentication-service/internal/otp.go:317-428 | in every reachable state every code was minted for its own request, on a verified challenge, or for a history that reached the level, or with no step-up asked for |
| `StepUpAssurance.RankedCodesAreBacked` | services/authentication-service/internal/protection.go:186-226 | in every reachable state a code that claims rank r was minted by a verified challenge targeting r, or for a session with a fresh, unbroken chain of verified challenges one of which reached r |
| `StepUpAssurance.AnyFlowMintsWhatIsReached` | services/authentication-service/internal/flowstages.go:46-103 | whatever the stages and policies of a stored flow, a code it mints claims no rank or one the session's verified challenges reached |
| `StepUpAssurance.MintCompletes` | services/authentication-service/internal/otp.go:558-584 | a code for a pending transaction completes its row for the code's user at the code's level and is reported once |
| `AuthorizeServer.StepUpTracker.Start` | services/authentication-service/internal/stepup_tracker.go:44-52 | drops the expired attempts, then records this one |
| `AuthorizeServer.StepUpTracker.ListByTenant` | services/authentication-service/internal/stepup_tracker.go:65-80 | the live attempts of the tenant, each once, newest first |
| `AuthorizeServer.StepUpTracker.GcLocked` | services/authentication-service/internal/stepup_tracker.go:83-90 | removes exactly the expired attempts |
| `AuthorizeServer.AdviceLog.GetAdviceCall` | services/authentication-service/internal/storage.go:1391-1400 | the tenant's row with that id |
| `AuthorizeServer.AdviceLog.MarkAdviceCallCompleted` | services/authentication-service/internal/storage.go:1402-1418 | stamps the row only if it is pending, and says which of done, already done or unknown it was |
| `AuthorizeServer.AuthorizeHandlers.StoreFlow` | services/authentication-service/internal/otp.go:162-173 | sweeps the expired flows, then parks this one |
| `AuthorizeServer.AuthorizeHandlers.PeekFlow` | services/authentication-service/internal/otp.go:177-187 | a live flow is returned and kept, an expired one removed |
| `AuthorizeServer.AuthorizeHandlers.DropFlow` | services/authentication-service/internal/otp.go:189-195 | removes the flow and its mirrored attempt |
| `AuthorizeServer.AuthorizeHandlers.StartStepUpFlow` | services/authentication-service/internal/otp.go:201-288 | enrolment, dispatch, parking and tracking, with nothing parked on any failure |
| `AuthorizeServer.AuthorizeHandlers.StartWebAuthnStepUp` | services/authentication-service/internal/webauthn_stepup.go:25-68 | parks and tracks the flow for an assertion, or for registering a passkey first |
| `AuthorizeServer.AuthorizeHandlers.AuthorizeWebAuthnRegisterFinish` | services/authentication-service/internal/webauthn_stepup.go:99-140 | re-parks the same flow with the assertion challenge once the passkey is registered |
| `AuthorizeServer.AuthorizeHandlers.MintCodeAndRedirect` | services/authentication-service/internal/otp.go:520-553 | stores the one-shot code and redirects |
| `AuthorizeServer.AuthorizeHandlers.CompleteAdviceTransaction` | services/authentication-service/internal/otp.go:558-584 | completes the transaction and emits only if this call completed it |
| `AuthorizeServer.AuthorizeHandlers.ProtectionSatisfied` | services/authentication-service/internal/protection.go:186-192 | satisfied iff the rank achieved within the freshness window reaches the level, on the session's whole history of records |
| `AuthorizeServer.AuthorizeHandlers.HandleProtection` | services/authentication-service/internal/protection.go:198-226 | issues at the level when satisfied, otherwise steps up with the level as target |
| `AuthorizeServer.AuthorizeHandlers.ShouldRun` | services/authentication-service/internal/flowstages.go:230-256 | a gated stage runs iff every policy passes, an evaluation error counting as false |
| `AuthorizeServer.AuthorizeHandlers.Execute` | services/authentication-service/internal/flowstages.go:46-228 | each stage's effects, answer and writes into the execution |
| `AuthorizeServer.AuthorizeHandlers.RunFlow` | services/authentication-service/internal/flowexec.go:69-85 | the cursor loop runs the stages up to the first that answers |
| `AuthorizeServer.AuthorizeHandlers.Authorize` | services/authentication-service/internal/oidc.go:314-418 | the advice check, then the engine or the legacy branch |
| `AuthorizeServer.AuthorizeHandlers.AuthorizeVerify` | services/authentication-service/internal/otp.go:317-428 | each outcome of a submitted verification: kept, dropped or finished flow, ledger record and code |
| `Engine.CursorKept` | services/authentication-service/internal/flowstages.go:46-228 | a stage never moves the cursor and answers exactly when it does not continue |
| `Engine.AtMostOneResponse` | services/authentication-service/internal/flowexec.go:69-85 | every flow ends and sends at most one response |
| `Engine.TerminalStageAnswers` | services/authentication-service/internal/flowexec.go:69-85 | a flow with an ungated terminal stage ahead sends exactly one response |
| `Engine.ExactlyOneResponse` | services/authentication-service/internal/flowexec.go:69-85 | so does one whose last stage is such a stage |
| `Engine.GatedLastStageCanBeSilent` | services/authentication-service/internal/flow_build.go:86 | a gated last stage that is skipped leaves the request without response |
| `Engine.SilentIff` | services/authentication-service/internal/flow_build.go:86 | a flow with a gated terminal last stage sends nothing iff no earlier stage answers and a policy of the last stage does not pass |
| `Engine.ValidateThenIssue` | services/authentication-service/internal/flowstages.go:46-103 | validate followed by issue, in one step |
| `Engine.DefaultFlowOnLevel` | services/authentication-service/internal/oidc.go:360-404 | on a protection level the default flow answers as the legacy branch |
| `Engine.DefaultFlowOnMethod` | services/authentication-service/internal/oidc.go:360-411 | likewise on a method-specific acr |
| `Engine.DefaultFlowOnPlain` | services/authentication-service/internal/oidc.go:360-418 | likewise without a step-up |
| `Engine.DefaultFlowIsLegacy` | services/authentication-service/internal/oidc.go:360-418 | for every acr_values, ledger, tenant setting and advice state the engine on the default flow sends the legacy response and leaves the legacy state; the extra ledger read collects only what no later answer can see |
| `Flows.ValidateFlowDefinition` | services/authentication-service/internal/flow_build.go:72-91 | accepts exactly the flows with stages, known types, compiling policies and a terminal last stage |
| `Flows.BuildStage` | services/authentication-service/internal/flow_build.go:25-56 | builds iff the type is known and its policies compile; gated iff there are policies |
| `Flows.BuildFlow` | services/authentication-service/internal/flow_build.go:94-107 | builds iff every stage builds, in order |
| `Flows.ValidFlowAnswers` | services/authentication-service/internal/flow_build.go:72-91 | a valid flow whose last stage has no policy sends exactly one response on every request |
| `Flows.AlwaysAnswersIff` | services/authentication-service/internal/flow_build.go:72-91 | a valid flow answers every request under every policy evaluator iff one of its terminal stages has no policy |
| `Flows.StageMeaning` | services/authentication-service/internal/flow_build.go:25-40 | a compiled stage does what its type says: issue and user-login mint at the level achieved so far, deny sends access_denied, risk evaluation and validation never mint |
| `Flows.GatedStageMeaning` | services/authentication-service/internal/flowstages.go:230-256 | with policies it runs iff each policy holds, or fails to hold when negated |
| `Flows.TemplateIsCodeBuilt` | services/authentication-service/internal/flow_build.go:128-154 | every run of the compiled template equals that of the flow built in code |
| `Flows.RiskAdaptiveMeaning` | services/authentication-service/internal/flow_examples.go:47-75 | denied when the deny policy holds; otherwise issued without step-up when the skip policy holds; otherwise the default flow |
| `Flows.RiskOutageIsDefault` | services/authentication-service/internal/flowstages.go:115-149 | when risk is absent or errs, or both policies fail to evaluate, the run is the default flow's |
| `Flows.UpsertKeepsInv` | services/authentication-service/internal/storage.go:1280-1304 | storing a valid flow keeps all flows valid and at most one enabled per tenant and designation |
| `Flows.ConsoleKeepsInv` | services/authentication-service/internal/flows_console.go:141-307 | so does every console operation |
| `Flows.ConsoleSafety` | services/authentication-service/internal/flows_console.go:141-307 | over every run of the console |
| `Flows.TenantsAreIsolated` | services/authentication-service/internal/flows_console.go:166-307 | no operation of one tenant changes another tenant's flow |
| `Flows.FlowStore.UpsertFlow` | services/authentication-service/internal/storage.go:1280-1304 | keeps the first creation stamp and disables the other enabled flows of the tenant and designation |
| `Flows.FlowStore.GetEnabledFlow` | services/authentication-service/internal/storage.go:1329-1347 | an enabled flow of the designation updated last, none iff there is none |
| `Flows.FlowStore.SelectAuthorizeFlow` | services/authentication-service/internal/flow_build.go:112-123 | in a store the console built, the tenant's enabled flow always compiles and is the one that runs; the default flow otherwise |
| `Flows.OwnerConsole.ApplyFlowTemplate` | services/authentication-service/internal/flows_console.go:141-160 | stores the template under a new id |
| `Flows.OwnerConsole.SaveFlow` | services/authentication-service/internal/flows_console.go:166-224 | stores only what validates, and never over another tenant's flow |
| `Flows.OwnerConsole.SetFlowEnabled` | services/authentication-service/internal/flows_console.go:227-258 | enables only what validates |
| `Flows.OwnerConsole.DeleteFlow` | services/authentication-service/internal/flows_console.go:289-307 | removes the tenant's flow |
| `Flows.AppliedTemplate` | services/authentication-service/internal/flows_console.go:141-160 | applying the template enables a risk-adaptive flow of the tenant under a new id in place of the one enabled, iff its policies compile |
| `Flows.SavedFlow` | services/authentication-service/internal/flows_console.go:166-224 | what is stored, under which id, and exactly when |
| `Flows.ToggledFlow` | services/authentication-service/internal/flows_console.go:227-258 | toggling sets the flag, enabling demotes the rivals, and nothing else is touched |
| `Flows.DeletedFlow` | services/authentication-service/internal/flows_console.go:289-307 | exactly the tenant's own flow goes |
| `DeskRuns.StepKeepsMirror` | services/authentication-service/internal/otp.go:162-195 | start, retry, registration, drop and expiry keep the tracker equal to the parked flows |
| `DeskRuns.MirrorHolds` | services/authentication-service/internal/otp.go:162-195 | in every reachable state |
| `DeskRuns.ListedAttemptsAreParkedFlows` | services/authentication-service/internal/stepup_tracker.go:65-80 | at every time the listed attempts are exactly the unexpired parked flows, with equal tenant, user, method and start |
| `DeskRuns.SplitRegistrationWouldBreakMirror` | services/authentication-service/internal/webauthn_stepup.go:99-140 | were the flow dropped between the registration endpoint's read and its write, the mirror would break |
| `DeskRuns.CheckedIsEntitled` | services/authentication-service/internal/oidc.go:320-353 | a request that passes the advice check may complete its transaction at the level it asks for |
| `DeskRuns.StepKeepsInv` | services/authentication-service/internal/oidc.go:320-353 | every request keeps completed rows honoured, parked flows entitled and emissions unique |
| `DeskRuns.AdviceBinding` | services/authentication-service/internal/oidc.go:320-353 | in every reachable state each completed row was completed for its named user at a rank no lower than advised, and each transaction was emitted at most once |
| `DeskRuns.CompletedForever` | services/authentication-service/internal/storage.go:1402-1418 | once completed, a transaction's row is the same in every continuation |
| `DeskRuns.LowRiskSkipIgnoresAdvice` | services/authentication-service/internal/flow_examples.go:18-22 | the low-risk skip completes an advised transaction without the advised level |
| `DeskRuns.NoSkipKeepsInv` | services/authentication-service/internal/flow_examples.go:47-75 | without the low-risk skip a request on the risk-adaptive flow keeps the whole advice invariant |
| `DeskRuns.RiskAdaptiveHonoursIff` | services/authentication-service/internal/flow_examples.go:47-75 | a request on the risk-adaptive flow keeps all completed rows honoured iff it does not issue a code under the skip while carrying a transaction |
| `ClaimSets.MergeClaims` | pkg/jwtx/jwtx.go:345-364 | claims alone in declaration order; with extras the re-decoded claims and the extras by name, or an error iff an extra has exactly the name of an encoded claim |
| `ClaimSets.PayloadSpells` | pkg/jwtx/jwtx.go:345-364 | the payload lists the encoded claims and the extras, each once, and members naming one claim in name order |
| `ClaimSets.ExtrasLeaveClaims` | pkg/jwtx/jwtx.go:316-364 | the payload reads back as the claims iff every extra that names a claim in any letter case fits its type, those the claim is read from repeat it, and with extras both times survive a float |
| `ClaimSets.ForeignExtrasLeaveClaims` | pkg/jwtx/jwtx.go:316-364 | extras that name no claim in any letter case never collide and never change a text claim; all claims come back iff the times survive |
| `ClaimSets.ExtrasComeBack` | pkg/jwtx/jwtx.go:320-327 | the raw map holds every extra under its exact name |
| `ClaimSets.OverridingExtraIsRead` | pkg/jwtx/jwtx.go:320-322 | a claim is read from the extra that sorts last among its spellings |
| `ClaimSets.CapitalFillsOmittedClaim` | pkg/jwtx/jwtx.go:357-362 | an extra named Nonce fills an omitted nonce |
| `ClaimSets.LongSReplacesSubject` | pkg/jwtx/jwtx.go:357-362 | an extra whose name is sub with a long s replaces the subject |
| `ClaimSets.MistypedExtraIsUnreadable` | pkg/jwtx/jwtx.go:320-322 | an extra named AMR that is a number makes the payload unreadable |
| `ClaimSets.LargeTimeIsRounded` | pkg/jwtx/jwtx.go:352-355 | with any extra an expiry of 2^53 + 1 comes back as 2^53 |
| `Jwt.BigEndianExponent` | pkg/jwtx/jwtx.go:370-378 | a minimal big-endian form of the 64-bit exponent |
| `Jwt.DecodeExponent` | pkg/jwtx/jwtx.go:272-275 | the shifts compute the signed 64-bit value of the bytes |
| `Jwt.NewJWK` | pkg/jwtx/jwtx.go:212-221 | the published form of a key: an RS256 signing key under its kid, with a minimal exponent |
| `Jwt.DecodeKey` | pkg/jwtx/jwtx.go:263-280 | a key iff both parts decode and the exponent exceeds 1 |
| `Jwt.NewVerifierFromJWKS` | pkg/jwtx/jwtx.go:245-261 | a verifier iff some key is RSA and every RSA key decodes; each kid maps to a key of the set |
| `Jwt.KeyRoundTrip` | pkg/jwtx/jwtx.go:212-280 | a published key reads back as itself for every exponent above 1 in a non-negative 64-bit int, and is refused otherwise |
| `Jwt.VerifierOfSigner` | pkg/jwtx/jwtx.go:193-261 | a verifier built from a signer's key set holds exactly the signer's key under its kid |
| `Jwt.ExtraFillsOmittedClaim` | pkg/jwtx/jwtx.go:345-364 | an extra naming an omitted claim, exactly or in another spelling, is signed and accepted, and comes back as that claim |
| `Jwt.SignedTokenReads` | pkg/jwtx/jwtx.go:170-339 | under a key set with the signer's key only the payload, the window and the issuer decide |
| `Jwt.AcceptedIff` | pkg/jwtx/jwtx.go:286-339 | any token is accepted with given claims iff it has three parts, an RS256 header naming a key of the set, a signature that checks under that key over the first two parts, a payload that reads as these claims, and they are timely and from the expected issuer |
| `Jwt.RefusalReasons` | pkg/jwtx/jwtx.go:286-339 | each refusal of an authentic token has its exact cause, and signature, key and algorithm errors mean the token is not authentic |
| `Jwt.AcceptedWasIssued` | pkg/jwtx/jwtx.go:286-339 | unless its signature is forged, an accepted token has the payload and the claims of an issued one |
| `Jwt.UnixTimeIsExact` | pkg/jwtx/jwtx.go:329-334 | a time is the instant it names iff the clock's 64-bit second counter reaches it; beyond, it wraps to the past |
| `Jwt.SignVerifyRoundTrip` | pkg/jwtx/jwtx.go:170-339 | a signed token is accepted with the same claims iff the extras leave the claims undisturbed and now is in [iat - 30s, exp + 30s]; every extra comes back |
| `Jwt.OrdinaryRoundTrip` | pkg/jwtx/jwtx.go:170-339 | with extras that name no claim in any spelling and times up to 2^53 a token is accepted exactly in that window, with the same claims |
| `Words.FieldsOfJoin` | services/authentication-service/internal/idjag_redemption.go:170-181 | joining scopes with blanks and splitting them again gives them back |
| `Scopes.ResolveScopes` | services/authentication-service/internal/idjag.go:238-256 | an empty list restricts nothing, an empty request takes the list, otherwise a subset or nothing |
| `Scopes.IssuedScopes` | services/authentication-service/internal/idjag.go:238-256 | refused iff a non-empty list lacks a requested scope; otherwise granted exactly what list and request allow, in order |
| `Scopes.IntersectScopes` | services/authentication-service/internal/idjag_redemption.go:269-281 | the allowed members in their order |
| `Scopes.KeptCounts` | services/authentication-service/internal/idjag_redemption.go:269-281 | every allowed occurrence and nothing else |
| `Scopes.NarrowScopes` | services/authentication-service/internal/idjag_redemption.go:166-181 | the assertion's scopes, narrowed by the request, then by the cap |
| `Scopes.RedeemedScopes` | services/authentication-service/internal/idjag_redemption.go:166-181 | refused iff the request names a scope the assertion lacks; otherwise granted exactly what assertion, request and cap all allow |
| `Scopes.ScopesStayWithinTheServer` | services/authentication-service/internal/idjag.go:173-180 | issuance then redemption stays within a non-empty server list |
| `IdentityAssertions.JTIStore.RedeemIDJAGJTI` | services/authentication-service/internal/storage.go:1262-1276 | evicts the expired records, then records the jti unless it is still there |
| `IdentityAssertions.SingleUse` | services/authentication-service/internal/storage.go:1262-1276 | over every history a jti can be redeemed iff every earlier successful redemption of it has expired |
| `IdentityAssertions.AuthorizedMCPServer` | services/authentication-service/internal/idjag.go:220-232 | the first enabled server with exactly the target |
| `IdentityAssertions.ServerForIsEnabled` | services/authentication-service/internal/idjag.go:220-232 | found iff some listed server is enabled and matches |
| `IdentityAssertions.FindTrustedIDP` | services/authentication-service/internal/idjag_redemption.go:253-265 | the first enabled provider with exactly the issuer |
| `IdentityAssertions.IDPForIsEnabled` | services/authentication-service/internal/idjag_redemption.go:253-265 | found iff some listed provider is enabled and matches |
| `IdentityAssertions.IDPVerifierCache.Verify` | services/authentication-service/internal/idjag_redemption.go:328-343 | an accepted token is authentic and verifies under the cached or a fetched key set; one that verifies under the published set is accepted whatever was cached |
| `IdentityAssertions.IssuedWithinPolicy` | services/authentication-service/internal/idjag.go:84-215 | an issued assertion targets an enabled server of the subject's tenant, within its list, from a live subject token; signing never fails |
| `IdentityAssertions.IssuedIff` | services/authentication-service/internal/idjag.go:84-215 | an assertion is issued iff the request is well formed, its subject token an ordinary live token of this server, its client the token's, the target an enabled server of the tenant and the scopes within its list |
| `IdentityAssertions.IssuanceRefusals` | services/authentication-service/internal/idjag.go:84-215 | what invalid_target, invalid_scope, invalid_client and invalid_request mean; signing never fails |
| `IdentityAssertions.AssertionTimes` | services/authentication-service/internal/idjag.go:186-205 | issued in the current second, for five minutes |
| `IdentityAssertions.FreshAssertionVerifies` | services/authentication-service/internal/idjag.go:186-215 | an issued assertion verifies under the issuer's key, as what it says, from 30 seconds before its second until five minutes and 30 seconds after it |
| `IdentityAssertions.GateIff` | services/authentication-service/internal/idjag_redemption.go:67-125 | what passes to verification: an ID-JAG from a registered client bound to a tenant whose issuer is an enabled trusted provider of that tenant |
| `IdentityAssertions.RedemptionHandlers.HandleJWTBearerGrant` | services/authentication-service/internal/idjag_redemption.go:67-248 | the checks in order, the jti burned before the scopes, then one session and one access token and no refresh token |
| `IdentityAssertions.RedeemedOnce` | services/authentication-service/internal/idjag_redemption.go:147-181 | past the other checks an assertion is redeemed iff its jti is not blocked and its scopes fit; otherwise nothing is minted |
| `IdentityAssertions.RedeemedToken` | services/authentication-service/internal/idjag_redemption.go:183-248 | a redemption, which needs an assertion addressed to this server and client that names a subject and a jti, adds one low-risk session and one access token of the subject in the client's tenant for an hour, and no refresh token; a refusal adds nothing |
| `IdentityAssertions.RedeemedWasIssued` | services/authentication-service/internal/idjag_redemption.go:122-150 | a redeemed assertion is authentic, timely and from its provider, and unless its signature is forged one the provider issued |
| `IdentityAssertions.RedemptionRefusals` | services/authentication-service/internal/idjag_redemption.go:67-181 | what each refusal means; a scope refusal has spent the jti |
| `IdentityAssertions.AcceptedAgain` | pkg/jwtx/jwtx.go:329-338 | a token accepted once is accepted later, with the same claims, iff its expiry and the leeway have not passed |
| `IdentityAssertions.SecondRedemption` | services/authentication-service/internal/idjag_redemption.go:147-181 | over every history of a jti with one expiry, an assertion is redeemed iff it still verifies and its expiry has passed or it was never redeemed |
| `IdentityAssertions.ReplayWithinLeeway` | pkg/jwtx/jwtx.go:329 | a concrete assertion redeemed ten seconds before, and ten and twenty seconds after its expiry |
| `IdentityAssertions.SweepIsInvisibleToIssuance` | services/authentication-service/internal/idjag.go:140-149 | a sweep is invisible to any single later token exchange |
| `IdentityAssertions.ScopesEndToEnd` | services/authentication-service/internal/idjag_redemption.go:166-181 | for an assertion issued here for a server with a non-empty list, the token's scopes lie within that list, the request and the cap, and its user is the subject |
| `UserPages.ListUsers` | services/authentication-service/internal/storage.go:335-358 | the tenant's users strictly older than the cursor, newest first, cut to the limit |
| `UserPages.List` | services/authentication-service/internal/users.go:74-122 | limit and cursor errors, default and maximum limit, and a next cursor iff the page is full |
| `UserPages.ListingIsTheTenant` | services/authentication-service/internal/storage.go:335-358 | the full list holds exactly the tenant's users whatever the map's order |
| `UserPages.NextListing` | services/authentication-service/internal/users.go:114-120 | the next page resumes with what the list holds strictly below its last user, and the rest gets shorter |
| `UserPages.WalkNeverRepeats` | services/authentication-service/internal/users.go:114-120 | following the cursors to the end yields users of the tenant, newest first, none twice |
| `UserPages.WalkIsCompleteIff` | services/authentication-service/internal/storage.go:343 | for each limit the walk yields the whole list iff no page boundary falls between users created at the same instant |
| `UserPages.PagingIsCompleteIff` | services/authentication-service/internal/storage.go:343 | the walk is complete under every limit iff the tenant's creation stamps are distinct |
| `UserPages.TiedUserIsSkipped` | services/authentication-service/internal/storage.go:343 | of two users created at one instant, paging one by one never shows the one with the lower id |

## Left out

- HTTP parsing, HTML pages, cookies, CORS, routing, logging and health probes: I/O. A handler starts where its inputs
  have been parsed; the checks of /authorize before the advice binding (client, redirect URI, PKCE parameters, signed-in
  user) and the body checks of challenge creation come before the modelled part.
- The Postgres stores and migrations: their SQL runs in a database that is not visible. The in-memory stores are the model.
- The internals of RSA, SHA-256, JSON and base64, the risk service, Twilio, go-webauthn and the id service.
- The expr-lang policy package: a compiled policy is an arbitrary evaluator that may also fail; the two templates'
  meanings are written out.
- Goroutine-level interleavings, except the split of a verification into its read and its commit. Lockouts that share a
  counter across replicas are not modelled.
- Console pages, signup, branding, quickstart, seeds, roles, the device analyzer, the device-signal buffer and the
  standalone execution store: they would add only easy members.
- MemStorage is split by concern: tokens, sessions and codes; advice rows; flows; used jtis; users. No operation crosses
  these parts.
- A nil tracker, ledger or completion receiver is not modelled; the deployment that has all of them is.
- The error result of a stage: no stage of the program returns one.
- `SlidingWindow.Limiter.Allow`: compacts a copy of the stored hits in place; that the Go slices share their backing
  array is not captured.
- `FixedWindow.RedisLimiter.Allow`: windows are whole milliseconds, and whether a key lives at its deadline instant is
  left open; everything is proved for both choices.
- Lockouts with a Redis counter: only the in-memory counter is modelled, under the bound that needs its exact window.
- `Flows.OwnerConsole.SaveFlow`: the stage JSON is given parsed or as unparsable.
- `IdentityAssertions.IDPVerifierCache.Verify`: a fetch is an answer or a failure; the HTTP request is not modelled.
- `UserPages.ListUsers`: the library sort is an insertion sort here, and users do not change while a client follows the
  cursors.
- Strings that are not valid UTF-8, which the JSON encoder replaces: a string here is a sequence of characters.
- `VaultRuns.SweepIsInvisibleToRefresh` and `VaultRuns.SweepIsInvisibleToExchange`: compare what is granted; how a refusal may differ is `VaultRuns.RefusalsAfterSweep`.
