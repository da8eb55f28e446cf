# Wordotron API: a verified model

Wordotron is a vocabulary trainer's HTTP service in Go over PostgreSQL and
Redis. This project models its stateful core in Dafny and proves what that core
promises. Check it with `dafny verify dfyconfig.toml`.

## What is modelled

**Sessions and tokens** (`Jwt`, `SessionStore`, `AuthProtocol`, `AuthService`,
`AuthInvariant`, `AuthTheorems`, `AuthLedger`, `AuthInterleaving`, `AuthAlone`,
`AuthRotation`). The service keeps three
kinds of small expiring Redis keys: a hash of refresh tokens and a revocation
epoch per user, and a blacklist of logged-out access tokens. `AuthProtocol` runs
every service call against these keys and, beside them, an unbounded history of
everything that ever happened, which nothing in the service stores. The main
result is that the keys and the history never disagree, although every key
expires and epochs are overwritten. `AuthService` is the same protocol as
objects that are updated in place, each method equal to its protocol step.
`AuthInterleaving` splits each call into its store calls, lets any number of
calls interleave and any call stop between two of them, and proves the results
about access tokens, the session hash and roles again for all of those runs.
`AuthAlone` proves that a call left alone does there what the protocol says, and
`AuthRotation` says which of those runs keep rotation families apart.
`AuthLedger` takes only the log of calls and replies and derives from it every
column of every account and every reply: who signs in with what, and who may
change whom.

**Single-use links and avatars** (`SingleUse`, `Avatars`). Each read, each
transaction and each storage call is a step; any number of calls interleave. In
`Avatars` any call may fail, before or after it took effect.

**Search, sort and paging** (`LikeSearch`, `UserListing`, `FloatCeiling`,
`Ordering`). Escaping is proved against a LIKE matcher, the eight-way ORDER BY
against one column and the id, the floating-point page count against the integer
one, and the pages against the whole list.

**Counters, schedules, senses, paths** (`RateLimit`, `Leitner`, `Senses`,
`WordService`, `StoragePaths`).

## Assumptions

- Time is in nanoseconds on one clock that the service, Redis and PostgreSQL
  share and that never runs backwards. A key is gone at its deadline.
- Only the service can sign a token, so a genuine token is one the history
  issued. Hashes of link tokens are injective and generated identifiers are new.
- Token lifetimes satisfy the start-up check (app/config/config.go:307-312).
- A statement of PostgreSQL, a transaction and a Redis pipeline are atomic.
- Runs start from an empty service.

## Where the code differs from its documentation or from what one would expect

- The repository's README.md:323-325 says that the revocation epoch invalidates every token
  issued before it, and app/lib/auth/session.go:166-167 says that tokens of the
  same second are rejected. The code sets the epoch one second back and compares
  strictly, so an access token issued in the very second of the call survives it
  (`AuthTheorems.TokenSurvivesLogoutAll`,
  `AuthTheorems.DemotedAdministratorKeepsToken`). The exact rule is
  `AuthTheorems.CallEndsEarlierSessions`.
- app/repository/db/user_words.sql.go:339-342 gives the interval of box 0 as
  0 days; the statement uses ten minutes.
- app/repository/db/user_words.sql.go:38-39 says that re-adding a word returns
  the row untouched. The trigger of migrations/000003_words.up.sql:96-99 sets
  updated_at (`Leitner.ReaddingKeepsTheCard`).
- The offset of a page travels as a 32-bit integer. It arrives unchanged iff it
  is below 2^31 (`UserListing.OffsetIsFaithful`), and exactly the pages whose
  offset is a multiple of 2^32 show the first rows
  (`UserListing.FarPageRepeatsTheFirst`).
- The word list passes its search text unescaped. It searches literally for
  exactly the texts without `%`, `_` and backslash
  (`LikeSearch.UnescapedSearchIsLiteralIff`).
- A refresh looks a token up and revokes it in two store calls. Two refreshes of
  one token that interleave can leave two registered tokens in one family
  (`AuthRotation.SomeRunForksAFamily`); without such an overlap no run does
  (`AuthRotation.OneKeptPerFamily`).
- Positions of senses are 16 bits wide: a new word's senses read back in order
  iff the positions of its stored entries increase all the same
  (`Senses.OrderSurvivesIff`).
- A row refers to a missing avatar iff the update of the row took effect, was
  reported as failed, and the clean-up that followed removed the object
  (`Avatars.NoRowRefersToADeletedObject`). That happens
  (`Avatars.LostReplyLeavesDanglingRow`).
- A rate-limit window that is not positive switches limiting off
  (`RateLimit.NoWindowNoLimit`); the configuration does not exclude it.
- An object store rooted at "/" accepts no key (`StoragePaths.AcceptedIff`), and
  an upload whose file name has a backslash in its extension gets a key that the
  store then refuses (`StoragePaths.NewKeyIsUsableIff`).

## Model

| member | source | states |
|---|---|---|
| AuthTheorems.AcceptedIffHistoryAllows | app/middleware/auth.go:19-52 | In every run an issued access token is accepted iff it is unexpired, was never logged out, and no revocation of its user fell in a later second than it was issued in, although the deciding keys expire and are overwritten |
| AuthTheorems.RejectionIsPermanent | app/lib/auth/session.go:113-169 | A token rejected once is rejected at every later instant of every continuation |
| AuthTheorems.ActiveIffRegisteredAndUnexpired | app/lib/auth/session.go:68-111 | The session hash is the set of live refresh tokens: one is active iff it was issued, not revoked since, and its exp is still ahead; re-arming the hash never drops a live field |
| AuthTheorems.ActiveImpliesRegistered | app/lib/auth/session.go:83-104 | Nothing that is not in that set is ever active |
| AuthTheorems.RefreshOutcome | app/services/auth.go:196-236 | What presenting an issued refresh token does, by history alone: natural expiry changes nothing, the reuse branch is taken exactly for unexpired tokens that are no longer registered |
| AuthTheorems.CallEndsEarlierSessions | app/services/auth.go:262-306 | Signing out everywhere, new passwords, role changes, deactivation and deletion end exactly the account's refresh tokens and its access tokens of earlier seconds, now and at every later instant, and touch no other account |
| AuthTheorems.LogoutEndsOneSession | app/services/auth.go:238-260 | Signing out ends exactly the bearer token and, if it belongs to the caller, the refresh token that came along |
| AuthTheorems.FreshPairWorks | app/services/auth.go:428-439 | Every pair handed out works from that instant, even directly after a revocation, until it expires |
| AuthTheorems.OneRegisteredPerFamily | app/services/auth.go:193-236 | Of all refresh tokens that descend from one sign-in at most one is registered, and it is the newest |
| AuthTheorems.RotationAdvancesTheFamily | app/services/auth.go:231-235 | A successful refresh makes the new token the family's newest and retires the presented one |
| AuthTheorems.ReplayEndsEverySession | app/services/auth.go:211-220 | Presenting any earlier unexpired member is refused and leaves its user without one active refresh token, at every later instant |
| AuthTheorems.AcceptedRoleIsCurrent | app/services/user.go:152-195 | An accepted token of an existing account carries the current role, unless it was issued in the very second of the latest change |
| AuthTheorems.OnlyVerifiedAccountsGetTokens | app/services/auth.go:181-190 | Every pair ever minted, also by refreshing and by a change of password, belongs to an account whose address was verified before |
| AuthTheorems.TokenSurvivesLogoutAll | app/lib/auth/session.go:113-127 | A reachable state in which a token outlives signing out everywhere |
| AuthTheorems.DemotedAdministratorKeepsToken | app/services/user.go:152-195 | A reachable state in which an accepted token carries a role its account no longer has |
| AuthTheorems.KeysDecide | app/lib/auth/session.go:140-169 | The arithmetic behind the first row: epoch and blacklist outlive every token they are about |
| AuthTheorems.OtherCallsSpareSessions | app/services/auth.go:106-191 | Every call but those above leaves all tokens issued before exactly as they were |
| AuthTheorems.RefreshEndsOneToken | app/services/auth.go:196-236 | A successful refresh ends the presented token and no other |
| AuthTheorems.RefusalsChangeNothing | app/services/auth.go:154-306 | A refused call other than a refresh changes nothing |
| AuthLedger.RowIsWhatTheLogSays | app/services/user.go:152-195 | After every run an account is there, and has the password, name, role, activity and verification, that the latest successful calls setting them gave it |
| AuthLedger.SignInLaw | app/services/auth.go:154-191 | Signing in succeeds exactly with the password set last, for an existing account that is active and verified; wrong passwords and unknown accounts get one reply |
| AuthLedger.NewPasswordSignsIn | app/services/auth.go:272-306 | Once a registration, change or reset gave an account a password, exactly that password signs in, through everything later that does not concern it |
| AuthLedger.RegisteredAccountSignsIn | app/services/auth.go:106-191 | A registered account whose address was verified signs in with the password it registered with and no other |
| AuthLedger.TokensNeedVerification | app/services/auth.go:181-190 | No pair is handed out by any call before the log holds a successful verification of its account |
| AuthLedger.ChangePasswordLaw | app/services/auth.go:272-306 | A password is changed exactly by an accepted bearer of an existing account who knows it, and only to another one; every other reply has its own exact condition |
| AuthLedger.SignOutLaw | app/services/auth.go:238-268 | Signing out succeeds exactly for accepted bearers |
| AuthLedger.LinkLaw | app/services/auth.go:377-424 | A consumed link works exactly for accounts that still exist |
| AuthLedger.UpdateLaw | app/services/user.go:152-195 | An update succeeds exactly for administrators and for oneself, privileged columns for administrators only, with a role that exists and no deactivation of oneself; every refusal has its own exact condition |
| AuthLedger.DeleteLaw | app/services/user.go:197-219 | A deletion succeeds exactly for administrators on others and for everybody else on themselves; every refusal has its own exact condition |
| AuthLedger.OnlyAdministratorsGrant | app/services/user.go:157-161 | In every reachable state a role or an activity that a call changes was changed by an accepted administrator's update |
| AuthLedger.RowsChangeByRight | app/services/user.go:277-282 | Any change or removal of a row comes from its owner, an administrator or a consumed link |
| AuthLedger.AdministratorsUpdate | app/services/user.go:172-181 | An accepted administrator's update of another account succeeds, sets what it names, and leaves the other columns and accounts alone |
| AuthLedger.BearerIsDecided | app/middleware/auth.go:19-52 | Forged tokens and refresh tokens are never accepted as bearers |
| AuthLedger.OnlyRefreshTokensRefresh | app/lib/auth/jwt.go:182-220 | Nothing but an issued refresh token refreshes |
| AuthLedger.PairIsTheCallers | app/lib/auth/jwt.go:111-161 | A pair belongs to the caller, carries the role of the row, and its tokens work until the second in which the configured lifetimes end |
| AuthInvariant.StepKeeps | app/services/auth.go:154-306 | Every service call keeps the agreement of keys and history, of families and of roles |
| AuthInvariant.HashStore | app/lib/auth/session.go:68-81 | Registering a token and re-arming the hash keeps hash and history in agreement |
| AuthInvariant.HashRevokeOne | app/lib/auth/session.go:106-111 | So does removing one field, with which the key may disappear |
| AuthInvariant.EpochRevokeAll | app/lib/auth/session.go:113-127 | An overwritten epoch reaches as far as all revocations before it together |
| AuthInvariant.BlacklistAdd | app/lib/auth/session.go:129-138 | A blacklist entry lasts at least as long as its token |
| AuthInterleaving.AcceptedIffHistoryAllows | app/middleware/auth.go:19-52 | The first row for every interleaving of calls, store call by store call, and with calls that stop anywhere |
| AuthInterleaving.RejectionIsPermanent | app/lib/auth/session.go:113-169 | Rejection is permanent in all of those runs |
| AuthInterleaving.OnlyVerifiedAccountsGetTokens | app/services/auth.go:181-190 | In all of those runs only verified accounts get tokens |
| AuthInterleaving.ActiveIffKeptAndUnexpired | app/lib/auth/session.go:68-111 | In all of those runs a refresh token is active iff it was registered, not revoked since, and its exp is still ahead |
| AuthInterleaving.AcceptedRoleIsTheOneRead | app/services/user.go:152-195 | In all of those runs an accepted token carries the current role, unless the role changed only after the row was read that the token was made from; then no revocation fell in a later second than it was issued in |
| AuthInterleaving.StepIsSound | app/services/auth.go:196-306 | Each step of a call establishes what its next step relies on |
| AuthInterleaving.CallsStaySound | app/services/auth.go:196-306 | No step of another call takes away what a call relies on |
| AuthAlone.UninterruptedCallIsServed | app/services/auth.go:154-306 | A call whose store calls run with nothing in between leaves the users, keys and history of the one-step protocol |
| AuthAlone.MachineServesAlone | app/services/auth.go:154-306 | The same of the machine with any other calls waiting |
| AuthRotation.OneKeptPerFamily | app/services/auth.go:207-235 | In every interleaved run in which no token is looked up while a call that found it active has yet to revoke it, a family has at most one registered refresh token |
| AuthRotation.TwoRefreshesFork | app/services/auth.go:207-235 | Without that, any active token of any reached state can end as two registered tokens of one family |
| AuthRotation.SomeRunForksAFamily | app/services/auth.go:207-235 | Such a run from the empty service |
| AuthService.Services.Authenticate | app/middleware/auth.go:19-52 | The objects accept an issued access token iff it is unexpired, was never logged out, and no revocation of its user fell in a later second than it was issued in |
| AuthService.Services.IssueSession | app/services/auth.go:428-439 | New keys and history are those of the protocol step |
| AuthService.Services.Register | app/services/auth.go:124-132 | A new account with the trimmed name, its address not verified; reply and whole new state are the protocol's |
| AuthService.Services.VerifyEmail | app/services/auth.go:414-419 | What follows a consumed link; reply and whole new state are the protocol's |
| AuthService.Services.ResetPassword | app/services/auth.go:377-389 | What follows a consumed link; reply and whole new state are the protocol's |
| AuthService.Services.Login | app/services/auth.go:154-191 | Reply and whole new state are the protocol's |
| AuthService.Services.Refresh | app/services/auth.go:196-236 | Reply and whole new state are the protocol's |
| AuthService.Services.Logout | app/services/auth.go:238-260 | Reply and whole new state are the protocol's |
| AuthService.Services.LogoutAll | app/services/auth.go:262-268 | Reply and whole new state are the protocol's |
| AuthService.Services.ChangePassword | app/services/auth.go:272-306 | Reply and whole new state are the protocol's |
| AuthService.Services.UpdateUser | app/services/user.go:152-195 | Reply and whole new state are the protocol's |
| AuthService.Services.DeleteUser | app/services/user.go:197-219 | Reply and whole new state are the protocol's |
| Jwt.ParsedFromIssueToExpiry | app/lib/auth/jwt.go:182-220 | A genuine token of the right kind counts from the second of its issue until its expiry, and only an expired one is told so |
| Jwt.LifetimeBounds | app/config/config.go:307-312 | The bounds on the lifetimes that the start-up check lets through |
| SessionKeys.HashesAreNeverEmpty | app/lib/auth/session.go:68-127 | No operation leaves an empty hash behind |
| SessionKeys.LookUpCleansUp | app/lib/auth/session.go:83-104 | A look-up clears exactly the field it finds expired |
| SessionKeys.KeysExpireOnTime | app/lib/auth/session.go:68-138 | Each of the three kinds of keys lives exactly as long as its TTL |
| SessionStore.RedisSessionStore.StoreRefreshToken | app/lib/auth/session.go:68-81 | HSET and EXPIRE together: the new field among the live ones, the whole hash re-armed |
| SessionStore.RedisSessionStore.IsRefreshTokenActive | app/lib/auth/session.go:83-104 | The answer, and the clean-up of a field found expired |
| SessionStore.RedisSessionStore.RevokeRefreshToken | app/lib/auth/session.go:106-111 | HDEL keeps the deadline and drops an emptied key |
| SessionStore.RedisSessionStore.RevokeAllSessions | app/lib/auth/session.go:113-127 | The hash is gone and the epoch is the previous second |
| SessionStore.RedisSessionStore.BlacklistAccessToken | app/lib/auth/session.go:129-138 | A key for the rest of the token's life, none for an expired token |
| SessionStore.RedisSessionStore.IsAccessTokenValid | app/lib/auth/session.go:140-169 | Blacklist first, then the epoch, strictly compared |
| SingleUse.EveryInterleavingIsSingleUse | app/services/auth.go:355-425 | In every interleaving at most one call redeems a link, an account never has two open reset links, and a verified account is one for which a verification link of its own was redeemed |
| SingleUse.ExpiredLinksAreRefused | app/models/token.go:21-23 | A call that presents an expired link never redeems it, in any continuation |
| SingleUse.OpenLinksWork | app/services/auth.go:355-425 | An unused, unexpired link presented on its own is redeemed: its token is used, its account has the new password or is verified, and nothing else changes |
| SingleUse.OpenLinksStayOpen | app/repository/db/password_reset_tokens.sql.go:41-86 | A link ends only by redemption, by a newer reset link for its account, with its account, or by time |
| SingleUse.ForgotYieldsALink | app/services/auth.go:310-353 | Asking for a link yields an open one and uses up the account's others, for active accounts only |
| SingleUse.RegisterYieldsALink | app/services/auth.go:124-142 | Registering yields an account that is not verified and an open link for it |
| SingleUse.PurgeTakesTheExpired | app/repository/db/password_reset_tokens.sql.go:41-43 | The clean-up deletes exactly the expired rows of its table |
| SingleUse.SpentLinksStaySpent | app/repository/db/password_reset_tokens.sql.go:71-86 | A used, invalidated or deleted link is redeemed by no later transaction, not even of a call that had found it usable |
| SingleUse.PasswordChangesOnlyWithTheToken | app/services/auth.go:355-384 | A password changes only in the step that spends an open reset link of that account, to the password of that call, or by the owner's own change |
| SingleUse.TransactionOutcome | app/services/auth.go:377-384 | The token row decides: a winner applies its link and changes nothing else, a loser changes nothing |
| SingleUse.NextKeeps | app/services/auth.go:335-421 | Every step of every call keeps single use, and nothing spent is ever undone |
| LinkStore.PgStore.Begin | app/repository/store.go:66-71 | A transaction inside a transaction is refused |
| LinkStore.PgStore.Rollback | app/lib/wordotronDb.go:82-86 | A rollback restores the database as it was |
| LinkStore.PgStore.MarkUsed | app/repository/password_reset_repository.go:55-64 | The conditional update affects one unused row or reports a conflict |
| LinkStore.PgStore.Redeem | app/services/auth.go:377-384 | Commits exactly the redeeming transaction, or leaves the database as it was; succeeds iff the row was unused and COMMIT works |
| LinkStore.PgStore.UseLink | app/services/auth.go:355-384 | The whole call succeeds exactly for an unused, unexpired link when the transaction commits, and otherwise leaves the database as it was |
| LinkStore.PgStore.Forgot | app/services/auth.go:335-344 | Invalidates and creates in one transaction, or leaves the database as it was |
| Avatars.NoRowRefersToADeletedObject | app/services/user.go:197-274 | In every interleaving with any failures the avatar of a row is missing iff the update that set it took effect and was reported as failed and the clean-up after that removed it; otherwise it is stored and was never deleted |
| Avatars.NoSharedAvatars | app/services/user.go:232-274 | No two accounts refer to one object |
| Avatars.ServedUploadSetsTheAvatar | app/services/user.go:250-274 | An upload served alone makes the new object the account's avatar, stores it, and removes the one before and no other |
| Avatars.ServedDeletionRemovesTheAvatar | app/services/user.go:210-230 | A deletion served alone takes the row and its avatar and no other |
| Avatars.SerialStorageIsExact | app/services/user.go:197-274 | Served one at a time without failures, the stored avatars are exactly the referenced ones |
| Avatars.LostReplyLeavesDanglingRow | app/services/user.go:256-263 | The exception happens |
| Avatars.NextKeeps | app/services/user.go:197-274 | Every step keeps that stored keys are private until a row refers to them and that doomed keys are referred to by no row |
| AvatarService.UserService.UploadAvatar | app/services/user.go:232-274 | For owners and administrators only. Success: the row refers to the stored new object and the replaced one is gone unless its removal failed. Failure: the row is as it was unless the update took effect. For every combination of failures the call is that of the machine |
| AvatarService.UserService.Delete | app/services/user.go:197-230 | For administrators on others and everybody else on themselves. Success: the row is gone, and its avatar unless its removal failed. For every combination of failures the call is that of the machine |
| AvatarService.ObjectStore.Put | app/lib/storage/local.go:45-85 | The object is there unless the call failed before taking effect |
| AvatarService.ObjectStore.Delete | app/lib/storage/local.go:103-112 | The object is gone unless the call failed, and deleting a missing one is no error |
| LikeSearch.ThreePassesAreOne | app/repository/user_repository.go:213-218 | Three successive replacements escape each character once |
| LikeSearch.PatternIsLiteral | app/repository/user_repository.go:137-143 | The pattern is well formed and reads: anything, these characters, anything |
| LikeSearch.SubstringMatches | app/repository/db/users.sql.go:145-146 | Matching that pattern is containing the text |
| LikeSearch.FoldingCommutesWithEscaping | app/repository/db/users.sql.go:145-146 | Case folding before and after escaping agree |
| LikeSearch.SearchIsLiteral | app/repository/user_repository.go:137-143 | For every query and text, ILIKE with the escaped query holds iff the text contains the query up to case |
| LikeSearch.UnescapedSearchIsLiteralIff | app/repository/db/words.sql.go:183 | Without escaping, ILIKE finds exactly the texts that contain the query up to case iff the query has no wildcard and no backslash |
| LikeSearch.UnescapedIsLiteralIff | app/repository/db/words.sql.go:183 | The same for LIKE |
| LikeSearch.UnescapedSearchIsNotLiteral | app/repository/db/words.sql.go:183 | One query for which it fails |
| FloatCeiling.CeilingIsExact | app/models/pagination.go:79 | The ceiling computed in double precision is the integer ceiling for every total below 2^53 and every positive limit, however ties are rounded |
| FloatCeiling.RemainderIsNotRoundedAway | app/models/pagination.go:79 | A quotient with a remainder never rounds down to the integer below it |
| FloatCeiling.QuotientExists | app/models/pagination.go:79 | There is a rounded quotient for every total and limit in range, so these results are about every page count |
| FloatCeiling.CeilingFailsAboveTheBound | app/models/pagination.go:79 | The bound is needed: 2^53 + 1 rows give a wrong count |
| FloatCeiling.TieRoundsDown | app/models/pagination.go:79 | The roundings with which that happens exist |
| UserListing.CasesCollapse | app/repository/db/users.sql.go:149-158 | For every whitelisted sort the eight CASE expressions and the id order rows as the chosen column and the id do, NULLs included |
| UserListing.SqlOrderIsStrictAndTotal | app/repository/db/users.sql.go:149-158 | That order is irreflexive, transitive and decides any two rows |
| UserListing.RowOrderIsUnique | app/repository/db/users.sql.go:142-160 | So the database has no choice: separate queries see one order |
| UserListing.ListingIsSorted | app/repository/db/users.sql.go:149-158 | In a listing every two rows are in the chosen direction of the chosen column, texts in dictionary order of their keys, and by id where the column is equal |
| UserListing.NormalizedIsInRange | app/models/pagination.go:36-53 | Pages start at 1, limits at 1 up to 100 with 20 for none, orders are asc or desc with desc for anything else, and exactly parameters in range are left alone |
| UserListing.MetaIsExact | app/models/pagination.go:74-91 | HasNext holds iff rows remain after the page, and TotalPages is the least number of pages, at least one, that holds them all |
| UserListing.KeepsIsLiteral | app/repository/db/users.sql.go:14-21 | The WHERE clause selects exactly the users that contain the text and have the role and the state asked for |
| UserListing.PageIsWindow | app/repository/user_repository.go:151-159 | Page p is the p-th window of the one row order while its offset fits 32 bits |
| UserListing.PagesPartition | app/repository/user_repository.go:134-178 | Pages 1 to TotalPages, each from a query of its own over a fixed table, concatenate to the whole filtered list in order, with no row lost or repeated |
| UserListing.EnoughPagesPartition | app/repository/db/users.sql.go:142-160 | The same for any number of pages that is enough and whose offsets fit |
| UserListing.PagesExist | app/repository/db/users.sql.go:142-160 | For every table, filter and sort the database has an answer for each of those pages |
| UserListing.EarlyPagesShowTheFirst | app/models/pagination.go:56-61 | A page before the first has the answers of the first |
| UserListing.OffsetIsFaithful | app/models/pagination.go:56-61 | The offset reaches the database unchanged iff it is below 2^31 |
| UserListing.FarPageRepeatsTheFirst | app/repository/user_repository.go:157-158 | When any row is selected, a page has exactly the answers of page 1 iff its offset is a multiple of 2^32 |
| UserListing.SomeFarPageRepeats | app/repository/user_repository.go:157-158 | A page for which that happens |
| UserListing.List | app/repository/user_repository.go:134-178 | The method returns the rows of a possible answer one by one and column by column, and the number of selected rows; it fails iff the offset arrives negative |
| RateLimit.Limiter.Handle | app/middleware/ratelimit.go:50-79 | A counted request is let through iff its ordinal among the caller's requests in its window is at most Max, the remaining count follows it, and the reset leads out of the window to within half a second; without Redis every request is let through and none is counted |
| RateLimit.Limiter.IncrementWindow | app/middleware/ratelimit.go:84-101 | The expiring counter equals that ordinal: its key outlives the window it counts; the time left is that of the key in whole seconds, or the window when there is no key |
| RateLimit.WidthIsWholeSeconds | app/middleware/ratelimit.go:45-48 | A window is the configured one rounded down to whole seconds, at least one |
| RateLimit.HitsAreInTheWindow | app/middleware/ratelimit.go:52-53 | Requests share a counter exactly when they are one caller's and fall in one window, windows following each other from the epoch on |
| RateLimit.FirstMaxPass | app/middleware/ratelimit.go:29-35 | Of every window's counted requests exactly the first Max pass, or all if they are fewer |
| RateLimit.AtMostTwiceMax | app/middleware/ratelimit.go:32-35 | No span of one window's length, wherever it starts, sees more than 2 * Max pass |
| RateLimit.TwiceMaxIsReached | app/middleware/ratelimit.go:32-35 | The burst at a window boundary reaches that bound |
| RateLimit.NoWindowNoLimit | app/middleware/ratelimit.go:45-48 | With a window that is not positive everything passes |
| Leitner.ScheduleIsClosedForm | app/repository/db/user_words.sql.go:310-331 | After any history of reviews, updates and re-additions: the box is the length of the final run of correct answers, at most 5, the counts are those of the history, the due date follows from the last answer and the box, the status from the last explicit choice and the box, and note and favourite mark from the last update that set them |
| Leitner.ClosedFormIsUnique | app/repository/db/user_words.sql.go:310-331 | The closed form determines every column of the card |
| Leitner.KnownIffLastBox | app/models/user_word.go:31-32 | A card added as learning and never given another status is known iff it is in the last box |
| Leitner.ArchiveIsKept | app/repository/db/user_words.sql.go:315-319 | No reviews bring a card back from the archive |
| Leitner.ReaddingKeepsTheCard | app/repository/db/user_words.sql.go:16-28 | Re-adding keeps everything but updated_at, and is refused iff the proposed row breaks a constraint |
| Leitner.ReviewNeverViolatesChecks | migrations/000003_words.up.sql:64-75 | A review is refused iff the counter is exhausted |
| Leitner.AddingIsRefusedIff | migrations/000003_words.up.sql:59-62 | Adding is refused iff the status is none of the three or the note is longer than 2000 characters |
| Leitner.UpdateIsRefusedIff | migrations/000003_words.up.sql:59-62 | So is an update |
| Leitner.StatsAgree | app/repository/db/user_words.sql.go:134-146 | The three states partition the list, each count is that of the rows its filter selects, the sums are those of the columns, the due count is that of IsDue, and correct answers never exceed reviews |
| Leitner.EveryRowIsScheduled | app/repository/db/user_words.sql.go:310-331 | In every reachable table every row obeys the closed form |
| Leitner.UserWords.AddWordToUser | app/repository/db/user_words.sql.go:16-28 | Inserts the proposed row or keeps the present one, with the errors of constraints and foreign keys; no other row changes |
| Leitner.UserWords.RecordReview | app/repository/db/user_words.sql.go:310-331 | One row becomes what the review makes of the old row, or nothing changes |
| Leitner.UserWords.UpdateUserWord | app/repository/db/user_words.sql.go:380-388 | One row becomes what the partial update makes of it, or nothing changes |
| Leitner.UserWords.RemoveWordFromUser | app/repository/db/user_words.sql.go:363-378 | One row and its past are gone, and the count says so |
| Senses.ShareIsAnAnswer | app/repository/db/word_senses.sql.go:136-140 | Each word's share of a batch answer is an answer to the query for that word alone, ties or not |
| Senses.BatchAgreesWithSingle | app/repository/db/word_senses.sql.go:102-140 | Without ties both queries give the same list |
| Senses.StoredSensesReadBack | app/services/word.go:93-126 | The senses read back for a new word, in any answer, are one by one and in order the enricher's entries whose definition is not all white space, while the 16-bit positions of the stored entries increase: the part of speech if it is one of the nine, the definition and the example trimmed, no example for white space, and the entry's own three lists |
| Senses.OrderSurvivesIff | app/services/word.go:122 | That condition is exact: the database must return the rows as they were inserted iff it holds |
| Senses.ShortListsFit | app/services/word.go:122 | It holds for every list of up to 2^15 entries |
| Text.TrimIsUnique | app/services/word.go:57-58 | Only one text is what is left without the white space at both ends |
| Text.TrimSpaceTrims | app/services/word.go:57-58 | Trimming takes away white space only, and all of it at both ends |
| WordService.Catalogue.ListByWord | app/repository/word_sense_repository.go:66-81 | Returns an answer of the query, row by row |
| WordService.Catalogue.ListByWords | app/repository/word_sense_repository.go:83-102 | Every group is an answer to the query for its word alone; words without senses have no entry |
| WordService.Catalogue.Get | app/services/word.go:139-155 | Only the contributor gets the word, with an answer of the query for its senses |
| WordService.Catalogue.List | app/services/word.go:157-180 | Every word of the page carries the senses that Get would load |
| WordService.Catalogue.InsertSenses | app/services/word.go:93-126 | Stores the cleaned senses in order, or stops at the first INSERT that fails with those before it stored |
| WordService.Catalogue.StoreEnriched | app/services/word.go:82-131 | The word with all its senses, or nothing, and exactly when |
| WordService.Catalogue.CreateAndEnrich | app/services/word.go:56-137 | All or nothing for every combination of failures; on success the word is the caller's, with the trimmed term and the normalised language, and its senses are the enricher's entries field by field |
| WordService.StoresIff | app/services/word.go:63-131 | A word is created exactly when nothing fails, enrichment is on and has entries, the language is allowed, the term is new in it, and every entry with a definition fits its columns |
| WordService.LanguageIsNormalised | app/services/word.go:58-61 | The language is the lower-case form of the trimmed one, and English for none |
| StoragePaths.PrefixCheckContains | app/lib/storage/local.go:141-144 | The prefix comparison alone keeps every key, even one with "..", strictly below the root |
| StoragePaths.AcceptedKeysStayInside | app/lib/storage/local.go:136-146 | An accepted key names a path strictly below the root, by its own components, none of them ".." |
| StoragePaths.AcceptedIff | app/lib/storage/storage.go:76-84 | Exactly which keys are accepted |
| StoragePaths.SameFileIff | app/lib/storage/local.go:136-146 | Two accepted keys name one file iff they differ only in empty and "." components |
| StoragePaths.KeyRoundTrip | app/services/user.go:285-291 | keyFromURL yields a valid key exactly for the URL of that key |
| StoragePaths.UrlIgnoresSlashes | app/lib/storage/local.go:128-130 | The public address may end in any number of slashes |
| StoragePaths.ExtIsTheLastDots | app/lib/storage/storage.go:60 | The extension of a file name starts at the last dot of its last component |
| StoragePaths.ExtensionIsKept | app/lib/storage/storage.go:60-63 | It is kept, in lower case, up to ten bytes |
| StoragePaths.AvatarKey | app/services/user.go:250-255 | A new avatar's key is its own name under avatars/ |
| StoragePaths.NewKeyIsCanonical | app/lib/storage/storage.go:57-73 | A new key is its cleaned prefix and its own name |
| StoragePaths.NewKeyIsUsableIff | app/lib/storage/storage.go:57-73 | Exactly when a new key is accepted, and that it then is the path below the root letter for letter |

## Left out

- AuthTheorems.ReplayEndsEverySession: for serialised calls without Redis failures, as are AuthTheorems.RefreshOutcome and AuthTheorems.CallEndsEarlierSessions; a call that interleaves can register a token it signed before.
- AuthTheorems.OneRegisteredPerFamily: for serialised calls; AuthRotation.OneKeptPerFamily is the result for interleaved ones.
- Redis itself: deadlines in whole milliseconds, latency between reading the clock and Redis executing a command, replies lost after a command took effect, and entries that are not what the service wrote (app/lib/auth/session.go:94-97, 160-164).
- RateLimit.Limiter.IncrementWindow: a reply that is lost after Redis counted the request, and the rounding of Duration.Seconds for fractional windows of many days.
- RateLimit.Limiter.Handle: counts per caller and window number; that the textual keys of different pairs differ is taken for granted.
- Password hashing, e-mail look-up and normalisation, the last-login timestamp, URLs in messages, the active-session count.
- Interleavings at PostgreSQL's isolation level below one transaction, and a COMMIT that takes effect but reports failure for links and words.
- UserListing.PagesPartition: the table does not change between the queries; List's two queries see one table.
- Collations: a text column is ordered by an abstract sort key; case folding is an abstract map of characters that spares the wildcards and the backslash.
- FloatCeiling.CeilingIsExact: exponents are unbounded, which the numbers involved never notice.
- Words: tags, pronunciation, JSON encoding of a sense's meta data, updates and deletions of words and senses, the text of enrichment, names that PostgreSQL cannot store.
- Leitner.ScheduleIsClosedForm: a day is 24 hours, as in a database session whose time zone has no daylight saving.
- Cascades of deleting a user or a word into user_words.
- StoragePaths.AcceptedKeysStayInside: lexical, on a system whose separator is a slash; symbolic links below the root are not modelled.
- Object contents, content types and sizes, S3 storage, the OAuth flow, handlers, request validation, routing, configuration parsing.
