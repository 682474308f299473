# MedAssist authentication and client-state core, in Dafny

MedAssist is a medication assistant. A Spring backend authenticates users and healthcare
providers with JWT bearer tokens. An Android client keeps the login state, attaches and
refreshes tokens, and drives the reminder, profile and account screens. This project models
the decision logic beneath both and proves what that logic promises.

Backend:

- `Jwt`: the token service. It refuses short secrets, issues access and refresh tokens
  (`sub`, `iat`, `exp` and a `type` claim), reads the subject and classifies tokens. The
  compact serialization and the HMAC are a codec and a "signed with" key.
- `TokenBlacklist`: the revocation cache. It is a class whose entries expire a fixed time
  after their last write and whose size is bounded.
- `JwtFilter`: the per-request authentication state machine.
- `JwtIntegration`: the fail-closed token wrappers and the current-user lookup.
- `RateLimiting` and `RateLimitService`: per-(action, client address) Bucket4j buckets with
  interval refill, and the choice of client address from the proxy headers.
- `AuthService`: the account flows (registration, provider registration, refresh, email
  verification, password reset, provider approval, password change). It is a class over
  the user table, the two token tables and the outbox of sent emails, and a failed
  operation rolls back the tables.
- `AuthEntity`, `UserStore`, `Passwords` and `RoleHashing`: the user, role and permission
  entities, the user queries, the abstract BCrypt encoder, and the Java hash arithmetic
  behind the role/permission sets.
- `UserProfile`: partial profile updates and account switching.
- `SecurityConfig`: the first-match authorization rules and the CORS origin list.
- `ExceptionHandler` and `AppErrors`: the mapping from failures to status, code and body.
- `ImageValidation`: the upload guard chain, the signature test and the dimension bounds.
- `MedicineEntity`: the medicine row.

Client:

- `TokenStore`: the login state in preferences.
- `AuthInterceptors`: the skip-auth paths, the bearer header, and refresh on 401.
- `UserSettings`: typed preferences with defaults.
- `ReminderEntities`, `ReminderForms` and `ReminderList`: the reminder row and its enum
  converters, the reminder form and its view model, and the schedule text of the list.
- `AuthScreens`, `RegisterForms`, `ProfileScreens` and `ChangePasswordForms`: the form
  reducers and validators of the account screens.
- `ApiErrors`: the error envelope's message.
- `Pharmacies`: the location-result mapping.

Shared modules:

- `Strings`: Java/Kotlin text primitives, including Java's `split`, which the CORS origins
  and the client-address choice share.
- `Collections`: the size bound of a subset, which both caches use.
- `Sorting`: list sorting and removal.
- `Wrappers`: `Option` and `Result`.
- `ClientModels`: the values the client's view models share.

Objects whose fields the source updates in place are classes:

- the blacklist, the bucket cache and its buckets;
- the account service;
- `Role` and `Permission`;
- the token store and the settings manager;
- the reminder, auth and profile view models.

Their methods are proved against specification functions, whose properties are lemmas.
Pure code is datatypes, functions and lemmas.

Times are milliseconds and are passed in as `now`. Random token values and BCrypt salts are
parameters. Network and store outcomes are parameters too: a `fault` flag, or the sequence
of `Resource` emissions a use case produces.

`JwtTokenService.isTokenExpired` is modelled as the code behaves. The parser already throws
`ExpiredJwtException` for an expired token, so the method never answers true. Its failure
is an error result (`Jwt.IsTokenExpired`).

## Model

| member | source | states |
|---|---|---|
| Jwt.ValidateConfiguration | medassist-backend/src/main/java/com/medassist/auth/service/JwtTokenService.java:33-46 | start-up succeeds iff the secret is set, not blank and at least 32 characters; an unset secret is refused as missing, a short one reports its length |
| Jwt.SecretLengthBoundary | medassist-backend/src/main/java/com/medassist/auth/service/JwtTokenService.java:40-45 | for a non-blank secret, 32 characters is the exact acceptance boundary, and a shorter one is refused with its length |
| Jwt.GenerateToken | medassist-backend/src/main/java/com/medassist/auth/service/JwtTokenService.java:74-85 | with a lossless codec the token decodes to subject, type claim, `iat` = now and `exp` = now + lifetime, signed with the configured key |
| Jwt.ParseSignedClaims | medassist-backend/src/main/java/com/medassist/auth/service/JwtTokenService.java:100-106 | a parse succeeds only for a decodable token signed with the configured key whose expiry is not past; blank input is the empty-token error, undecodable text is malformed |
| Jwt.ValidateToken | medassist-backend/src/main/java/com/medassist/auth/service/JwtTokenService.java:118-141 | true exactly for non-blank, decodable, correctly signed, unexpired tokens; every other input yields false, never an exception |
| Jwt.GetUsernameFromToken | medassist-backend/src/main/java/com/medassist/auth/service/JwtTokenService.java:87-89 | succeeds exactly on valid tokens and then returns the `sub` claim |
| Jwt.GetExpirationFromToken | medassist-backend/src/main/java/com/medassist/auth/service/JwtTokenService.java:91-93 | succeeds exactly on valid tokens and returns their `exp`, which is never before now |
| Jwt.IsTokenExpired | medassist-backend/src/main/java/com/medassist/auth/service/JwtTokenService.java:108-111 | the answer is "exp strictly before now" when it can be read, so a readable answer is always false; a correctly signed token that is past its expiry makes the parser fail with the expired error |
| Jwt.ValidateTokenForUser | medassist-backend/src/main/java/com/medassist/auth/service/JwtTokenService.java:113-116 | on a valid token, true iff its subject equals the username; on any other token the parser's failure propagates |
| Jwt.GetTokenType | medassist-backend/src/main/java/com/medassist/auth/service/JwtTokenService.java:143-146 | on a valid token, the `type` claim (absent when the token has none) |
| Jwt.IsAccessToken | medassist-backend/src/main/java/com/medassist/auth/service/JwtTokenService.java:148-150 | on a valid token, true iff the type claim is exactly "access" |
| Jwt.IsRefreshToken | medassist-backend/src/main/java/com/medassist/auth/service/JwtTokenService.java:152-154 | on a valid token, true iff the type claim is exactly "refresh" |
| Jwt.GenerateAccessToken | medassist-backend/src/main/java/com/medassist/auth/service/JwtTokenService.java:57-61 | the token decodes to type "access" with lifetime `jwt.expiration` |
| Jwt.GenerateRefreshToken | medassist-backend/src/main/java/com/medassist/auth/service/JwtTokenService.java:68-72 | the token decodes to type "refresh" with lifetime `jwt.refresh-expiration` |
| Jwt.AccessRefreshExclusive | medassist-backend/src/main/java/com/medassist/auth/service/JwtTokenService.java:143-154 | a token is never both access and refresh; a valid token with any other type claim is neither |
| Jwt.AccessTokenRoundTrip | medassist-backend/src/main/java/com/medassist/auth/service/JwtTokenService.java:57-89 | until its expiry an access token validates, yields its username and expiry, is access and not refresh, and validates for its own user |
| Jwt.RefreshTokenRoundTrip | medassist-backend/src/main/java/com/medassist/auth/service/JwtTokenService.java:68-93 | until its expiry a refresh token validates, yields its username and expiry, and is refresh and not access |
| Jwt.GeneratedTokenExpires | medassist-backend/src/main/java/com/medassist/auth/service/JwtTokenService.java:100-141 | after issue time + lifetime a generated token no longer validates, and reading its subject or expiry fails with the expired error |
| Jwt.ForeignKeyRejected | medassist-backend/src/main/java/com/medassist/auth/service/JwtTokenService.java:100-106 | a token signed with any other key fails with a bad signature, whatever its claims |
| TokenBlacklist.JavaDiv | medassist-backend/src/main/java/com/medassist/auth/service/TokenBlacklistService.java:23 | Java `long` division truncates toward zero: for a non-negative dividend the quotient times the divisor is at most the dividend and less than one divisor below it; for a negative dividend it is at least the dividend and less than one divisor above it |
| TokenBlacklist.JavaDivNegates | medassist-backend/src/main/java/com/medassist/auth/service/TokenBlacklistService.java:23 | negating the dividend negates the quotient |
| TokenBlacklist.RetentionMinutes | medassist-backend/src/main/java/com/medassist/auth/service/TokenBlacklistService.java:20-24 | for a non-negative lifetime the retention is at least five minutes and strictly longer than the token lifetime |
| TokenBlacklist.DefaultRetention | medassist-backend/src/main/java/com/medassist/auth/service/TokenBlacklistService.java:20-24 | the 86400000 ms default lifetime gives 1445 minutes |
| TokenBlacklist.Purge | medassist-backend/src/main/java/com/medassist/auth/service/TokenBlacklistService.java:27 | dropping expired entries keeps only live entries, with unchanged write times |
| TokenBlacklist.PurgeKeepsLaterAnswers | medassist-backend/src/main/java/com/medassist/auth/service/TokenBlacklistService.java:27-52 | purging at a time never changes membership at that time or later |
| TokenBlacklist.Stored | medassist-backend/src/main/java/com/medassist/auth/service/TokenBlacklistService.java:27-38 | after a write the token is present with write time now, and every other token is present iff it was present and live |
| TokenBlacklist.StoredSize | medassist-backend/src/main/java/com/medassist/auth/service/TokenBlacklistService.java:28-38 | a write grows the cache by at most one entry, and by none when the token is already live |
| TokenBlacklist.TokenBlacklistService.constructor | medassist-backend/src/main/java/com/medassist/auth/service/TokenBlacklistService.java:20-30 | the cache starts empty with write expiry equal to the retention minutes |
| TokenBlacklist.TokenBlacklistService.BlacklistSize | medassist-backend/src/main/java/com/medassist/auth/service/TokenBlacklistService.java:58-60 | the size never exceeds 100000 |
| TokenBlacklist.TokenBlacklistService.IsBlacklisted | medassist-backend/src/main/java/com/medassist/auth/service/TokenBlacklistService.java:47-52 | never for the empty token; only for a written token, before its retention has run out since the write |
| TokenBlacklist.TokenBlacklistService.BlacklistToken | medassist-backend/src/main/java/com/medassist/auth/service/TokenBlacklistService.java:27-52 | the empty token changes nothing; otherwise the token is stored with write time now and reads as blacklisted for the whole retention period unless it is the eviction victim; an eviction happens only at the size bound for a token not already live; every other token's answer is unchanged unless it is the victim |
| TokenBlacklist.BlacklistAgain | medassist-backend/src/main/java/com/medassist/auth/service/TokenBlacklistService.java:27-38 | blacklisting a live token again adds no key and only refreshes its write time |
| JwtFilter.GetJwtFromRequest | medassist-backend/src/main/java/com/medassist/common/security/JwtAuthenticationFilter.java:84-90 | a credential exists iff the header exists and starts with the case-sensitive "Bearer ", and the header is exactly that prefix followed by the credential |
| JwtFilter.BearerRoundTrip | medassist-backend/src/main/java/com/medassist/common/security/JwtAuthenticationFilter.java:84-90 | a header built from "Bearer " and a token yields exactly that token |
| JwtFilter.SecurityContext.constructor | medassist-backend/src/main/java/com/medassist/common/security/JwtAuthenticationFilter.java:30-82 | a request's security context starts unauthenticated |
| JwtFilter.DoFilterInternal | medassist-backend/src/main/java/com/medassist/common/security/JwtAuthenticationFilter.java:30-82 | the chain runs exactly once; revocation is decided before validity; authentication is set iff the credential is present, not revoked, valid, of access type and its user loads, and then carries exactly that user's authorities; on every other path the context is unchanged |
| JwtFilter.RefreshNeverAuthenticates | medassist-backend/src/main/java/com/medassist/common/security/JwtAuthenticationFilter.java:51-68 | a valid refresh token is not an access token, so the filter never authenticates with it |
| JwtIntegration.ValidateTokenSafe | medassist-backend/src/main/java/com/medassist/auth/integration/JwtValidationUtility.java:13-19 | never throws, and is true exactly for a non-blank token that decodes, is signed with the configured key and whose expiry is not before now |
| JwtIntegration.ExtractUsername | medassist-backend/src/main/java/com/medassist/auth/integration/JwtValidationUtility.java:21-27 | the subject when the token is valid, and null exactly when it is not |
| JwtIntegration.IsTokenExpiredSafe | medassist-backend/src/main/java/com/medassist/auth/integration/JwtValidationUtility.java:29-35 | fails closed: true exactly when the token is not valid |
| JwtIntegration.FreshTokenNotExpired | medassist-backend/src/main/java/com/medassist/auth/integration/JwtValidationUtility.java:21-35 | an issued access token is not expired and yields its username until its expiry |
| JwtIntegration.GetCurrentUser | medassist-backend/src/main/java/com/medassist/auth/integration/UserContextService.java:15-26 | null for a missing or invalid token; a returned user is stored and has the token's username |
| JwtIntegration.CurrentUserExact | medassist-backend/src/main/java/com/medassist/auth/integration/UserContextService.java:20-25 | in a well-formed user table, a valid token finds a user iff one with its subject exists |
| JwtIntegration.GetCurrentUserId | medassist-backend/src/main/java/com/medassist/auth/integration/UserContextService.java:28-31 | the current user's id, or null exactly when there is no current user |
| JwtIntegration.IsValidUser | medassist-backend/src/main/java/com/medassist/auth/integration/UserContextService.java:33-35 | true iff there is a current user |
| AuthEntity.Permission.constructor | medassist-backend/src/main/java/com/medassist/auth/entity/Permission.java:41-45 | a new permission has the given name and description and belongs to no role |
| AuthEntity.Role.constructor | medassist-backend/src/main/java/com/medassist/auth/entity/Role.java:50-55 | a new role has the given name and description, no users and no permissions |
| AuthEntity.Role.AddPermission | medassist-backend/src/main/java/com/medassist/auth/entity/Role.java:58-61 | afterwards the permission is in the role's set and the role is in the permission's set; nothing else changes |
| AuthEntity.Role.RemovePermission | medassist-backend/src/main/java/com/medassist/auth/entity/Role.java:63-66 | afterwards neither side holds the other and nothing else changes; this is the corrected behaviour (see Findings) |
| AuthEntity.AddPermissionTwice | medassist-backend/src/main/java/com/medassist/auth/entity/Role.java:58-61 | two calls of addPermission leave both sides exactly as one call does |
| AuthEntity.AddRemoveKeepOthers | medassist-backend/src/main/java/com/medassist/auth/entity/Role.java:58-66 | add then remove leaves every other permission's role set unchanged, and neither side holds the other |
| AuthEntity.NewUser | medassist-backend/src/main/java/com/medassist/auth/entity/User.java:64-97 | a built user is unverified, enabled, not a provider, not provider-verified and has no roles, so it is unlocked but not yet enabled for login |
| AuthEntity.Authorities | medassist-backend/src/main/java/com/medassist/auth/entity/User.java:133-138 | the authorities are exactly the names of the permissions of the user's roles, with duplicates collapsed |
| AuthEntity.RolesWithoutPermissionsGrantNothing | medassist-backend/src/main/java/com/medassist/auth/entity/User.java:133-138 | role names never become authorities: roles without permissions grant nothing |
| AuthEntity.AuthoritiesDependOnlyOnRoles | medassist-backend/src/main/java/com/medassist/auth/entity/User.java:133-138 | two users with the same roles have the same authorities |
| AuthEntity.AccountFlags | medassist-backend/src/main/java/com/medassist/auth/entity/User.java:140-158 | enabled for login iff unlocked and verified; an unverified user is never enabled; accounts and credentials never expire |
| AuthEntity.FullName | medassist-backend/src/main/java/com/medassist/auth/entity/User.java:160-162 | the first name, one space, then the last name |
| Passwords.Encode | medassist-backend/src/main/java/com/medassist/auth/service/AuthenticationService.java:71 | an encoding matches the password it was made from (also the encodings at lines 255 and 303) |
| Passwords.MatchesOnlyItsPassword | medassist-backend/src/main/java/com/medassist/auth/service/AuthenticationService.java:299 | an encoding matches exactly one password, whatever its salt |
| UserStore.Filter | medassist-backend/src/main/java/com/medassist/auth/service/UserDetailsServiceImpl.java:21 | the rows satisfying a query, all from the table |
| UserStore.FindUnique | medassist-backend/src/main/java/com/medassist/auth/service/UserDetailsServiceImpl.java:21-22 | a single-result query is empty exactly when no row matches, and a returned row is stored and matches |
| UserStore.FindUniqueSingle | medassist-backend/src/main/java/com/medassist/auth/service/UserDetailsServiceImpl.java:21-22 | when exactly one row matches, the query returns that row |
| UserStore.OnlyMatch | medassist-backend/src/main/java/com/medassist/auth/service/UserDetailsServiceImpl.java:21 | when exactly one row matches, the matching rows are that row alone |
| UserStore.NoMatch | medassist-backend/src/main/java/com/medassist/auth/service/UserDetailsServiceImpl.java:21 | when no row matches, there are no matching rows |
| UserStore.FindById | medassist-backend/src/main/java/com/medassist/auth/service/AuthenticationService.java:262-263 | in a well-formed table a user is found iff one has that id, and the found user has it |
| UserStore.FindByUsername | medassist-backend/src/main/java/com/medassist/auth/service/AuthenticationService.java:296 | nothing exactly when no row has the username; a found row is in the table and has it |
| UserStore.FindByEmail | medassist-backend/src/main/java/com/medassist/auth/service/AuthenticationService.java:282 | nothing exactly when no row has the email; a found row is in the table and has it |
| UserStore.FindVerifiedByEmail | medassist-backend/src/main/java/com/medassist/auth/service/AuthenticationService.java:217 | nothing exactly when no verified row has the email; a found row is verified and has it |
| UserStore.FindByUsernameOrEmail | medassist-backend/src/main/java/com/medassist/auth/service/AuthenticationService.java:316 | nothing exactly when no row has the username or the email; a found row has one of them |
| UserStore.ExistsByUsername | medassist-backend/src/main/java/com/medassist/auth/service/AuthenticationService.java:59 | true exactly when the rows with that username are not empty |
| UserStore.ExistsByEmail | medassist-backend/src/main/java/com/medassist/auth/service/AuthenticationService.java:63 | true exactly when the rows with that email are not empty |
| UserStore.ExistsByLicenseNumber | medassist-backend/src/main/java/com/medassist/auth/service/AuthenticationService.java:100 | true exactly when the rows with that licence number are not empty |
| UserStore.FindByUsernameExact | medassist-backend/src/main/java/com/medassist/auth/service/AuthenticationService.java:296-297 | in a well-formed table a lookup by username never fails and finds exactly the user with that username |
| UserStore.FindByEmailExact | medassist-backend/src/main/java/com/medassist/auth/service/AuthenticationService.java:282-283 | in a well-formed table a lookup by email never fails and finds exactly the user with that email |
| UserStore.FindVerifiedByEmailExact | medassist-backend/src/main/java/com/medassist/auth/service/AuthenticationService.java:217-218 | in a well-formed table a lookup of a verified user by email never fails and finds exactly the verified user with that email |
| UserStore.VerifiedIndex | medassist-backend/src/main/java/com/medassist/auth/service/AuthenticationService.java:217-218 | the position of the verified user with that email, which is what the lookup returns, or -1 when there is none |
| UserStore.EmailIndex | medassist-backend/src/main/java/com/medassist/auth/service/AuthenticationService.java:282-283 | the position of the user with that email, which is what the lookup returns, or -1 when there is none |
| UserStore.UsernameIndex | medassist-backend/src/main/java/com/medassist/auth/service/AuthenticationService.java:296-297 | the position of the user with that username, which is what the lookup returns, or -1 when there is none |
| UserStore.AppendKeepsWellFormed | medassist-backend/src/main/java/com/medassist/auth/service/AuthenticationService.java:59-85 | saving a new user with the next key and a fresh username and email keeps ids and unique columns consistent |
| UserStore.ReplaceKeepsWellFormed | medassist-backend/src/main/java/com/medassist/auth/service/AuthenticationService.java:211 | saving a changed user back under its own key, username and email keeps the table consistent (also the saves at lines 256, 278 and 304) |
| UserStore.LoadUserByUsername | medassist-backend/src/main/java/com/medassist/auth/service/UserDetailsServiceImpl.java:20-23 | a loaded user is stored and has the text as username or email; with no such user it fails with "User not found with username or email: " and the text |
| UserStore.LoadByUsername | medassist-backend/src/main/java/com/medassist/auth/service/UserDetailsServiceImpl.java:20-23 | a user is loaded by its own username when no other user has that text as email |
| RoleHashing.Wrap | medassist-backend/src/main/java/com/medassist/auth/entity/Role.java:13 | the result is a Java int |
| RoleHashing.WrapSteps | medassist-backend/src/main/java/com/medassist/auth/entity/Role.java:13 | wrapping subtracts a whole number of 2^32 steps |
| RoleHashing.WrapAbsorbs | medassist-backend/src/main/java/com/medassist/auth/entity/Role.java:13 | wrapping an inner sum first does not change the outer wrapped sum |
| RoleHashing.WrapShifts | medassist-backend/src/main/java/com/medassist/auth/entity/Role.java:13 | adding a non-zero Java int always changes a wrapped sum |
| RoleHashing.HashSetRemove | medassist-backend/src/main/java/com/medassist/auth/entity/Role.java:65 | after a HashSet removal under a hash, no entry is filed under that hash for that object |
| RoleHashing.Without | medassist-backend/src/main/java/com/medassist/auth/entity/Role.java:64 | removing a permission from a set leaves it absent, and removing an absent one changes nothing |
| RoleHashing.AddPermissionAsWritten | medassist-backend/src/main/java/com/medassist/auth/entity/Role.java:58-61 | the permission joins the role, and the role is filed in the permission's set under the role's new hash |
| RoleHashing.RemovePermissionAsWritten | medassist-backend/src/main/java/com/medassist/auth/entity/Role.java:63-66 | the permission leaves the role, and the removal finds no entry under the role's new hash |
| RoleHashing.RemoveKeepsOthers | medassist-backend/src/main/java/com/medassist/auth/entity/Role.java:65 | a HashSet removal keeps every other entry |
| RoleHashing.AddingChangesRoleHash | medassist-backend/src/main/java/com/medassist/auth/entity/Role.java:38-59 | adding a permission whose hash code is not zero changes the role's hash code |
| RoleHashing.RoleHashParts | medassist-backend/src/main/java/com/medassist/auth/entity/Role.java:13-45 | the role's hash code combines the hash of its scalar fields with the wrapped sum of its permission hashes |
| RoleHashing.ShiftedSumsDiffer | medassist-backend/src/main/java/com/medassist/auth/entity/Role.java:13 | a non-zero change to the inner sum changes the outer wrapped sum |
| RoleHashing.HashSumAppend | medassist-backend/src/main/java/com/medassist/auth/entity/Role.java:38-45 | the permission hash sum of a set with one more element grows by that element's hash |
| RoleHashing.RemoveAfterAddLeavesRole | medassist-backend/src/main/java/com/medassist/auth/entity/Role.java:58-66 | as written, addPermission then removePermission of a permission with non-zero hash leaves the role filed in the permission's role set (see Findings) |
| RoleHashing.WithoutAppend | medassist-backend/src/main/java/com/medassist/auth/entity/Role.java:64 | removing the element just added gives back the original set |
| RoleHashing.ReadPermissionHash | medassist-backend/src/main/java/com/medassist/auth/entity/Permission.java:13-30 | a new permission named "READ" has hash code 148519091, which is not zero, so the discrepancy occurs for it |
| AuthService.RegistrationError | medassist-backend/src/main/java/com/medassist/auth/service/AuthenticationService.java:59-81 | registration fails first on a taken username, then on a taken email, then on a missing USER role, and passes exactly when none of these holds |
| AuthService.ProviderRegistrationError | medassist-backend/src/main/java/com/medassist/auth/service/AuthenticationService.java:100-116 | provider registration fails first on a taken license number, then as user registration would, then on a missing HEALTHCARE_PROVIDER role, and passes exactly when none holds |
| AuthService.DeleteByUser | medassist-backend/src/main/java/com/medassist/auth/repository/VerificationTokenRepository.java:28-30 | every token of that user is removed and every other token is kept unchanged |
| AuthService.Issue | medassist-backend/src/main/java/com/medassist/auth/service/AuthenticationService.java:174-183 | the user's old tokens of that kind are gone, the new token is unredeemed with the given expiry, and every other user's tokens are kept (and the reset token at lines 216-228) |
| AuthService.IssueKeepsOnePerUser | medassist-backend/src/main/java/com/medassist/auth/service/AuthenticationService.java:174-183 | after issuing, the new token is the user's only token of that kind, so each user holds at most one per purpose (and the reset token at lines 216-228) |
| AuthService.ExpiryAfter | medassist-backend/src/main/java/com/medassist/auth/service/AuthenticationService.java:180 | the expiry is now plus the lifetime truncated to whole seconds: never later than now + lifetime and less than a second earlier (and line 225) |
| AuthService.Redeem | medassist-backend/src/main/java/com/medassist/auth/service/AuthenticationService.java:205-206 | the token is marked redeemed for the same user, and no other token changes (and lines 250-251) |
| AuthService.RedeemOnce | medassist-backend/src/main/java/com/medassist/auth/service/AuthenticationService.java:236-259 | a redeemed token can never be redeemed again, and redeeming one token changes no other token's redeemability (and verifyEmail at lines 191-214) |
| AuthService.RedeemKeepsOnePerUser | medassist-backend/src/main/java/com/medassist/auth/service/AuthenticationService.java:205-206 | redeeming keeps at most one token per user and purpose (and lines 250-251) |
| AuthService.SweepExpired | medassist-backend/src/main/java/com/medassist/auth/repository/VerificationTokenRepository.java:32-35 | the sweep removes exactly the tokens that expired before now and were never redeemed, and keeps the rest unchanged |
| AuthService.SweepKeepsAnswers | medassist-backend/src/main/java/com/medassist/auth/repository/PasswordResetTokenRepository.java:32-35 | sweeping changes no later redeemability answer, and never removes a redeemed token |
| AuthService.SweepKeepsOnePerUser | medassist-backend/src/main/java/com/medassist/auth/repository/VerificationTokenRepository.java:32-35 | sweeping keeps at most one token per user and purpose |
| AuthService.SetAdd | medassist-backend/src/main/java/com/medassist/auth/service/AuthenticationService.java:82-117 | adding to a set built with Set.of fails with an unchecked exception; adding to a HashSet adds the element |
| AuthService.RefreshToken | medassist-backend/src/main/java/com/medassist/auth/service/AuthenticationService.java:159-172 | succeeds iff the token is valid and of refresh type, and then returns a new access token for its subject and the identical refresh string; otherwise InvalidToken("refresh", "Invalid or expired refresh token") |
| AuthService.RefreshRoundTrip | medassist-backend/src/main/java/com/medassist/auth/service/AuthenticationService.java:159-172 | a live issued refresh token buys an access token that yields the same username and is an access token during its own lifetime |
| AuthService.AccessTokenCannotRefresh | medassist-backend/src/main/java/com/medassist/auth/service/AuthenticationService.java:163-165 | an access token is always refused by refresh |
| AuthService.AuthenticationService.constructor | medassist-backend/src/main/java/com/medassist/auth/service/AuthenticationService.java:30-54 | the service starts with no users, no tokens and no emails sent, with the configured roles, mailer and token lifetimes |
| AuthService.AuthenticationService.GenerateAndSendVerificationToken | medassist-backend/src/main/java/com/medassist/auth/service/AuthenticationService.java:174-189 | the user's verification tokens are replaced by the new one with its expiry, a verification email is queued when a mailer exists, and users and reset tokens are unchanged |
| AuthService.AuthenticationService.RegisterUser | medassist-backend/src/main/java/com/medassist/auth/service/AuthenticationService.java:56-93 | fails exactly as RegistrationError says, then changing nothing; on success one user is appended with the next id, the given details, an encoded password, verified and enabled, not a provider and exactly the USER role, and a verification token and email follow when a mailer exists |
| AuthService.AuthenticationService.RegisterHealthcareProviderAsWritten | medassist-backend/src/main/java/com/medassist/auth/service/AuthenticationService.java:95-131 | as written every call fails: with the first failed check, or with an unchecked exception from adding to the immutable role set; no user or token remains, but the verification email of the inner registration stays sent (see Findings) |
| AuthService.AuthenticationService.RegisterHealthcareProvider | medassist-backend/src/main/java/com/medassist/auth/service/AuthenticationService.java:95-131 | fails exactly as ProviderRegistrationError says, with all saved state rolled back; on success the new user carries the provider fields, providerVerified false and roles {USER, HEALTHCARE_PROVIDER}, and a verification and a provider email are queued when a mailer exists |
| AuthService.AuthenticationService.CompleteProvider | medassist-backend/src/main/java/com/medassist/auth/service/AuthenticationService.java:107-130 | on the just-registered user, sets the provider fields and adds the HEALTHCARE_PROVIDER role, or fails and restores the saved users and tokens when that role is missing |
| AuthService.AuthenticationService.VerifyEmail | medassist-backend/src/main/java/com/medassist/auth/service/AuthenticationService.java:191-214 | true iff the token exists, is unexpired and unverified; then the token is marked verified and its user becomes verified; otherwise nothing changes |
| AuthService.AuthenticationService.RequestPasswordReset | medassist-backend/src/main/java/com/medassist/auth/service/AuthenticationService.java:216-234 | succeeds iff a verified user has that email; that user's reset tokens are replaced by the new one and a reset email is queued when a mailer exists; otherwise a not-found error for that email and nothing changes |
| AuthService.AuthenticationService.ResetPassword | medassist-backend/src/main/java/com/medassist/auth/service/AuthenticationService.java:236-259 | true iff the token exists, is unexpired and unused; then the token is marked used and its user's password is replaced by the encoded new one; otherwise nothing changes |
| AuthService.AuthenticationService.VerifyHealthcareProvider | medassist-backend/src/main/java/com/medassist/auth/service/AuthenticationService.java:261-279 | an unknown id is not found and a non-provider is refused with NOT_HEALTHCARE_PROVIDER; otherwise providerVerified becomes the decision and approval adds VERIFIED_HEALTHCARE_PROVIDER, failing if that role is missing; failures change nothing |
| AuthService.AuthenticationService.ResendVerificationEmail | medassist-backend/src/main/java/com/medassist/auth/service/AuthenticationService.java:281-293 | an unknown email is not found and a verified user is refused with EMAIL_ALREADY_VERIFIED; otherwise the verification token is replaced and an email queued when a mailer exists |
| AuthService.AuthenticationService.ChangePassword | medassist-backend/src/main/java/com/medassist/auth/service/AuthenticationService.java:295-305 | an unknown username is not found; a wrong current password fails with "Current password is incorrect" and leaves the password unchanged; otherwise only that user's password changes, to the encoded new one |
| AuthService.AuthenticationService.DeleteExpiredVerificationTokens | medassist-backend/src/main/java/com/medassist/auth/repository/VerificationTokenRepository.java:32-35 | the verification tokens become the sweep of the old ones and nothing else changes |
| AuthService.AuthenticationService.DeleteExpiredResetTokens | medassist-backend/src/main/java/com/medassist/auth/repository/PasswordResetTokenRepository.java:32-35 | the reset tokens become the sweep of the old ones and nothing else changes |
| RateLimiting.BandwidthOf | medassist-backend/src/main/java/com/medassist/common/config/RateLimitConfig.java:27-69 | every action's limit refills its whole capacity: login 5 per 15 minutes, registration 20 per hour, reset 3 per hour, verification 5 per hour, general 100 per minute |
| RateLimiting.Fresh | medassist-backend/src/main/java/com/medassist/common/config/RateLimitConfig.java:29-31 | a new bucket starts full |
| RateLimiting.Refill | medassist-backend/src/main/java/com/medassist/common/config/RateLimitConfig.java:30 | the interval refill never exceeds capacity, never loses tokens short of capacity, and moves the refill time forward to the start of the current period |
| RateLimiting.NoRefillWithinPeriod | medassist-backend/src/main/java/com/medassist/common/config/RateLimitConfig.java:30 | within one period of the last refill nothing comes back |
| RateLimiting.FullAfterPeriod | medassist-backend/src/main/java/com/medassist/common/config/RateLimitConfig.java:30 | once a whole period has passed the bucket is full again |
| RateLimiting.Consume | medassist-backend/src/main/java/com/medassist/common/config/RateLimitConfig.java:28-32 | an attempt succeeds iff the refilled bucket holds a token; success takes exactly one token, refusal leaves the state unchanged |
| RateLimiting.Attempts | medassist-backend/src/main/java/com/medassist/common/config/RateLimitConfig.java:28-32 | one answer per attempt |
| RateLimiting.AttemptsWithinPeriod | medassist-backend/src/main/java/com/medassist/common/config/RateLimitConfig.java:30 | within one period, exactly the first attempts up to the token count succeed |
| RateLimiting.SixthLoginRefused | medassist-backend/src/main/java/com/medassist/auth/service/RateLimitService.java:15-19 | from a fresh login bucket, five attempts within 15 minutes succeed and the sixth is refused |
| RateLimiting.DrainWithinPeriod | medassist-backend/src/main/java/com/medassist/common/config/RateLimitConfig.java:30 | attempts within one period never move the refill time and keep the count within capacity |
| RateLimiting.AttemptsAppend | medassist-backend/src/main/java/com/medassist/common/config/RateLimitConfig.java:28-32 | two runs of attempts answer as one run whose second half starts from the first's final state |
| RateLimiting.AttemptsAtOnce | medassist-backend/src/main/java/com/medassist/common/config/RateLimitConfig.java:30 | attempts at one instant all succeed while the refilled bucket holds enough tokens |
| RateLimiting.BurstAcrossBoundary | medassist-backend/src/main/java/com/medassist/common/config/RateLimitConfig.java:30 | the interval refill is not a sliding window: twice the capacity succeeds across a period boundary |
| RateLimiting.Bucket.constructor | medassist-backend/src/main/java/com/medassist/common/config/RateLimitConfig.java:29-31 | a built bucket has the given limit and is full |
| RateLimiting.Bucket.AvailableTokens | medassist-backend/src/main/java/com/medassist/auth/service/RateLimitService.java:21-25 | the available count never exceeds the capacity |
| RateLimiting.Bucket.TryConsume | medassist-backend/src/main/java/com/medassist/auth/service/RateLimitService.java:18 | the bucket moves exactly as Consume says, and succeeds iff a token was available |
| RateLimiting.KeyNamesAction | medassist-backend/src/main/java/com/medassist/common/config/RateLimitConfig.java:28-64 | every cache key names its own action: no key prefix is a prefix of another |
| RateLimiting.KeyInjective | medassist-backend/src/main/java/com/medassist/common/config/RateLimitConfig.java:28-64 | two key strings are equal iff action and client address are both equal, so one address has independent buckets per action |
| RateLimiting.Put | medassist-backend/src/main/java/com/medassist/common/config/RateLimitConfig.java:21-24 | after a cache write the key holds the value and every other entry is kept iff it was live, unchanged |
| RateLimiting.PutSize | medassist-backend/src/main/java/com/medassist/common/config/RateLimitConfig.java:21-24 | a cache write grows the cache by at most one entry, and by none when the key was live |
| RateLimiting.Without | medassist-backend/src/main/java/com/medassist/common/config/RateLimitConfig.java:23 | eviction removes exactly the victim and nothing else |
| RateLimiting.SubmapGood | medassist-backend/src/main/java/com/medassist/common/config/RateLimitConfig.java:21-24 | dropping entries keeps every bucket valid, with its own action's limit, and unshared |
| RateLimiting.PutGood | medassist-backend/src/main/java/com/medassist/common/config/RateLimitConfig.java:28-32 | storing a valid bucket of the key's own limit keeps the cache's buckets valid and unshared |
| RateLimiting.OverflowOnlyWhenFull | medassist-backend/src/main/java/com/medassist/common/config/RateLimitConfig.java:23 | the cache exceeds 10000 entries after a write only when it was full and the key was not live |
| RateLimiting.EvictGood | medassist-backend/src/main/java/com/medassist/common/config/RateLimitConfig.java:23 | evicting after an overflow restores the 10000-entry bound with every bucket valid and unshared |
| RateLimiting.PutKeys | medassist-backend/src/main/java/com/medassist/common/config/RateLimitConfig.java:21-24 | the bucket map and the access-time map keep the same keys through a write |
| RateLimiting.RateLimitConfig.constructor | medassist-backend/src/main/java/com/medassist/common/config/RateLimitConfig.java:21-24 | the cache starts empty |
| RateLimiting.RateLimitConfig.Store | medassist-backend/src/main/java/com/medassist/common/config/RateLimitConfig.java:21-24 | a write stores the bucket, drops idle entries, records the access time, and evicts one entry exactly when the cache would exceed 10000 entries |
| RateLimiting.RateLimitConfig.GetBucket | medassist-backend/src/main/java/com/medassist/common/config/RateLimitConfig.java:27-69 | a live bucket under (action, address) is returned and its access time refreshed; otherwise a new full bucket of the action's limit is stored; an eviction happens only when the cache was full |
| RateLimiting.RateLimitConfig.ConsumeFrom | medassist-backend/src/main/java/com/medassist/auth/service/RateLimitService.java:18 | consuming from the looked-up bucket moves it exactly as Consume says and keeps the cache valid |
| RateLimitService.ActionFor | medassist-backend/src/main/java/com/medassist/auth/service/RateLimitService.java:27-35 | the lower-cased action name chooses login, register, reset or verify, and every other name chooses the general limit |
| RateLimitService.ToLowerIdempotent | medassist-backend/src/main/java/com/medassist/auth/service/RateLimitService.java:28 | lower-casing twice is lower-casing once |
| RateLimitService.ActionIgnoresCase | medassist-backend/src/main/java/com/medassist/auth/service/RateLimitService.java:28 | an action name and its lower-case form choose the same limit |
| RateLimitService.SplitFirst | medassist-backend/src/main/java/com/medassist/auth/service/RateLimitService.java:40 | splitting on commas yields first the text before the first comma, or the whole text when there is none |
| RateLimitService.ClientIp | medassist-backend/src/main/java/com/medassist/auth/service/RateLimitService.java:37-49 | a non-empty forwarded-for header fails exactly when it is made only of commas, and otherwise gives a comma-free address; without one, a non-empty real-IP header as it is, else the remote address |
| RateLimitService.FirstHopWins | medassist-backend/src/main/java/com/medassist/auth/service/RateLimitService.java:37-49 | the address is the first forwarded-for hop, trimmed, whatever follows the first comma; this covers a header with no comma and an empty first hop |
| RateLimitService.ConsumeForAction | medassist-backend/src/main/java/com/medassist/auth/service/RateLimitService.java:15-35 | one attempt on the bucket of the chosen action and address: the answer and the new state are those of Consume on the bucket the cache hands out, and no other bucket changes |
| RateLimitService.IsAllowed | medassist-backend/src/main/java/com/medassist/auth/service/RateLimitService.java:15-19 | an address that cannot be read fails and changes nothing; otherwise one attempt on the bucket of (action, address), leaving every other bucket unchanged |
| RateLimitService.GetRemainingTokens | medassist-backend/src/main/java/com/medassist/auth/service/RateLimitService.java:21-25 | the refilled count of the bucket the cache holds, or of a fresh one, without consuming; never more than capacity |
| UserProfile.NameAfter | medassist-backend/src/main/java/com/medassist/auth/service/UserProfileService.java:25-31 | a name becomes the trimmed value only when one is given and it is not empty once trimmed; otherwise it is kept |
| UserProfile.OptionalAfter | medassist-backend/src/main/java/com/medassist/auth/service/UserProfileService.java:33-45 | an optional field becomes the trimmed value whenever one is given, even an empty one; otherwise it is kept |
| UserProfile.Updated | medassist-backend/src/main/java/com/medassist/auth/service/UserProfileService.java:24-46 | names, phone number and, for a provider only, specialty and affiliation change as the two rules say, and no other field changes |
| UserProfile.UpdateIdempotent | medassist-backend/src/main/java/com/medassist/auth/service/UserProfileService.java:24-46 | sending the same update twice leaves the profile as sending it once |
| UserProfile.EmptyUpdateChangesNothing | medassist-backend/src/main/java/com/medassist/auth/service/UserProfileService.java:24-46 | an update with no fields changes nothing |
| UserProfile.UpdateKeepsIdentity | medassist-backend/src/main/java/com/medassist/auth/service/UserProfileService.java:20-49 | the update never touches id, username, email, password, roles, flags or license number |
| UserProfile.GetUserProfile | medassist-backend/src/main/java/com/medassist/auth/service/UserProfileService.java:67-70 | in a well-formed table the user with that id, and a not-found error exactly when no user has it |
| UserProfile.UserNotFound | medassist-backend/src/main/java/com/medassist/common/exception/ResourceNotFoundException.java:29-33 | a not-found error whose message names the user and the id |
| UserProfile.UserProfileService.constructor | medassist-backend/src/main/java/com/medassist/auth/service/UserProfileService.java:15-18 | the service works on the given user table |
| UserProfile.UserProfileService.UpdateUserProfile | medassist-backend/src/main/java/com/medassist/auth/service/UserProfileService.java:20-49 | an unknown id is not found and nothing is saved; otherwise the stored user becomes the updated profile, which is returned |
| UserProfile.UserProfileService.SetEnabled | medassist-backend/src/main/java/com/medassist/auth/service/UserProfileService.java:51-65 | an unknown id is not found; otherwise only the enabled flag changes, to the given value; setting it again changes nothing |
| UserProfile.UserProfileService.DeactivateUser | medassist-backend/src/main/java/com/medassist/auth/service/UserProfileService.java:51-57 | an unknown id is not found; otherwise the user is disabled, hence locked and not enabled for login |
| UserProfile.UserProfileService.ReactivateUser | medassist-backend/src/main/java/com/medassist/auth/service/UserProfileService.java:59-65 | an unknown id is not found; otherwise the user is enabled, hence unlocked |
| SecurityConfig.DecideIsFirstMatch | medassist-backend/src/main/java/com/medassist/common/security/CoreSecurityConfig.java:44-82 | the rule at the least matching position decides |
| SecurityConfig.DecideNoMatch | medassist-backend/src/main/java/com/medassist/common/security/CoreSecurityConfig.java:81 | a path no rule matches needs authentication |
| SecurityConfig.Decide | medassist-backend/src/main/java/com/medassist/common/security/CoreSecurityConfig.java:44-82 | with no matching rule a path needs authentication; otherwise the answer is the access of some matching rule |
| SecurityConfig.Permits | medassist-backend/src/main/java/com/medassist/common/security/CoreSecurityConfig.java:44-82 | an anonymous principal passes exactly the permitAll rules, and permitAll admits everyone |
| SecurityConfig.StartsWithAppend | medassist-backend/src/main/java/com/medassist/common/security/CoreSecurityConfig.java:46-78 | a path built from a prefix starts with it |
| SecurityConfig.MissAt | medassist-backend/src/main/java/com/medassist/common/security/CoreSecurityConfig.java:44-78 | a pattern whose text differs from the path at some position does not match it |
| SecurityConfig.MissLonger | medassist-backend/src/main/java/com/medassist/common/security/CoreSecurityConfig.java:44-78 | a pattern whose text is longer than the path does not match it |
| SecurityConfig.OpenApis | medassist-backend/src/main/java/com/medassist/common/security/CoreSecurityConfig.java:46-48 | everything under the authentication, public and token APIs is open to anyone |
| SecurityConfig.MedicinesOpen | medassist-backend/src/main/java/com/medassist/common/security/CoreSecurityConfig.java:63 | the medicines catalogue, the bare path and everything below it, is open to anyone |
| SecurityConfig.MedicinesOpenAt | medassist-backend/src/main/java/com/medassist/common/security/CoreSecurityConfig.java:62-63 | every path the medicines subtree pattern matches is open |
| SecurityConfig.PrefixChars | medassist-backend/src/main/java/com/medassist/common/security/CoreSecurityConfig.java:44-78 | a path matching a subtree pattern starts with the pattern's text |
| SecurityConfig.MissDocsAndProbes | medassist-backend/src/main/java/com/medassist/common/security/CoreSecurityConfig.java:51-59 | a path starting "/ap" matches none of the documentation and probe rules |
| SecurityConfig.MissFirstTen | medassist-backend/src/main/java/com/medassist/common/security/CoreSecurityConfig.java:46-59 | an API path whose ninth character is not a, p or j matches none of the first ten rules |
| SecurityConfig.MedicinesAdminRuleShadowed | medassist-backend/src/main/java/com/medassist/common/security/CoreSecurityConfig.java:63-76 | the ADMIN rule for the bare medicines path never decides: every path it matches is already open by the earlier subtree rule |
| SecurityConfig.ActuatorProbesOpen | medassist-backend/src/main/java/com/medassist/common/security/CoreSecurityConfig.java:56-59 | the health probes and the metrics endpoint are open to anyone |
| SecurityConfig.ActuatorProbeOpen | medassist-backend/src/main/java/com/medassist/common/security/CoreSecurityConfig.java:56-59 | each exact probe rule decides its own path as open |
| SecurityConfig.ThirdCharNotC | medassist-backend/src/main/java/com/medassist/common/security/CoreSecurityConfig.java:46-77 | no rule outside the actuator rules has c as the third character of its text |
| SecurityConfig.MissesOffActuator | medassist-backend/src/main/java/com/medassist/common/security/CoreSecurityConfig.java:46-77 | a path whose third character is c matches none of the rules outside the actuator |
| SecurityConfig.OtherActuatorPathsNeedAdmin | medassist-backend/src/main/java/com/medassist/common/security/CoreSecurityConfig.java:56-78 | every other actuator path needs the ADMIN role |
| SecurityConfig.AiNeedsAuthentication | medassist-backend/src/main/java/com/medassist/common/security/CoreSecurityConfig.java:73 | the AI endpoints need an authenticated principal |
| SecurityConfig.MissMedicinesAndPharmacies | medassist-backend/src/main/java/com/medassist/common/security/CoreSecurityConfig.java:62-70 | a path whose ninth character is neither m nor p escapes the medicines and pharmacy rules |
| SecurityConfig.PharmacySubtreesLonger | medassist-backend/src/main/java/com/medassist/common/security/CoreSecurityConfig.java:65-70 | the pharmacy permitAll rules all name paths longer than the bare pharmacies path |
| SecurityConfig.PharmaciesNeedAdmin | medassist-backend/src/main/java/com/medassist/common/security/CoreSecurityConfig.java:65-77 | the bare pharmacies path, which no permitAll rule covers, needs the ADMIN role |
| SecurityConfig.OtherApisMissPharmacies | medassist-backend/src/main/java/com/medassist/common/security/CoreSecurityConfig.java:46-76 | the other API rules before the pharmacies rule do not match its path |
| SecurityConfig.AdminNeedsRoleAdminPermission | medassist-backend/src/main/java/com/medassist/common/security/CoreSecurityConfig.java:76-78 | a user passes an ADMIN rule exactly when one of its roles carries a permission named "ROLE_ADMIN" |
| Strings.JavaSplit | medassist-backend/src/main/java/com/medassist/common/security/CoreSecurityConfig.java:94 | no piece of a split contains the separator |
| Strings.DropTrailingEmpty | medassist-backend/src/main/java/com/medassist/common/security/CoreSecurityConfig.java:94 | the trailing empty pieces are dropped and nothing else |
| Strings.JavaSplitEmpty | medassist-backend/src/main/java/com/medassist/auth/service/RateLimitService.java:40 | a non-empty string splits into nothing exactly when it is made only of the delimiter, and otherwise its first piece is the text before the first delimiter |
| SecurityConfig.AllowedOrigins | medassist-backend/src/main/java/com/medassist/common/security/CoreSecurityConfig.java:94-95 | no allowed origin contains a comma |
| SecurityConfig.OriginsRoundTrip | medassist-backend/src/main/java/com/medassist/common/security/CoreSecurityConfig.java:94-95 | when the value does not end with a comma, joining the origins with commas gives back the value: nothing is trimmed or lost |
| SecurityConfig.DefaultOrigins | medassist-backend/src/main/java/com/medassist/common/security/CoreSecurityConfig.java:94 | the default value gives the two localhost origins (the default value at lines 32-33) |
| SecurityConfig.DefaultIsJoined | medassist-backend/src/main/java/com/medassist/common/security/CoreSecurityConfig.java:32-33 | the default value is the two localhost origins joined by a comma |
| SecurityConfig.SplitLastNonEmpty | medassist-backend/src/main/java/com/medassist/common/security/CoreSecurityConfig.java:94 | the last piece of a split is not empty when the string does not end with the separator |
| ExceptionHandler.ValidationErrors | medassist-backend/src/main/java/com/medassist/common/exception/BackendGlobalExceptionHandler.java:57-80 | the details map has exactly the rejected fields as keys |
| ExceptionHandler.BuildErrorResponse | medassist-backend/src/main/java/com/medassist/common/exception/BackendGlobalExceptionHandler.java:137-146 | the response has the given status and a failure body with the message, the code and the current time, and no details |
| ExceptionHandler.ValidationKeepsFirst | medassist-backend/src/main/java/com/medassist/common/exception/BackendGlobalExceptionHandler.java:62-68 | for a repeated field the first error's message is kept, "Invalid value" when it has none |
| ExceptionHandler.StatusOf | medassist-backend/src/main/java/com/medassist/common/exception/BackendGlobalExceptionHandler.java:25-133 | every failure gets 400, 401, 404, 409 or 500: 401 exactly for the token, credential and authentication failures, 500 exactly for unexpected ones, 400 exactly for validation failures |
| ExceptionHandler.Handle | medassist-backend/src/main/java/com/medassist/common/exception/BackendGlobalExceptionHandler.java:57-80 | every body has success false and the current timestamp, and carries details exactly for a validation failure (the body built at lines 137-146) |
| ExceptionHandler.ApplicationErrors | medassist-backend/src/main/java/com/medassist/common/exception/BackendGlobalExceptionHandler.java:25-53 | the application's own exceptions keep their message, with 409 USER_ALREADY_EXISTS, 404 RESOURCE_NOT_FOUND, 401 INVALID_TOKEN, 401 INVALID_CREDENTIALS, or 400 with the exception's own code |
| ExceptionHandler.SecurityErrorsHideText | medassist-backend/src/main/java/com/medassist/common/exception/BackendGlobalExceptionHandler.java:84-114 | bad credentials, disabled accounts and other authentication failures answer the same whatever the exception text |
| ExceptionHandler.UnverifiedUserReported | medassist-backend/src/main/java/com/medassist/common/exception/BackendGlobalExceptionHandler.java:98-108 | a missing user is reported as EMAIL_NOT_VERIFIED exactly when the text contains "User not verified" |
| ExceptionHandler.UnexpectedErrors | medassist-backend/src/main/java/com/medassist/common/exception/BackendGlobalExceptionHandler.java:118-133 | unexpected failures are 500; an unchecked one shows its own message when it has one, and a checked one always shows the same fixed message |
| ExceptionHandler.ValidationResponse | medassist-backend/src/main/java/com/medassist/common/exception/BackendGlobalExceptionHandler.java:57-80 | a validation failure is 400 VALIDATION_ERROR with details for exactly the rejected fields |
| ImageValidation.StartsWith | medassist-backend/src/main/java/com/medassist/ai/service/ImageProcessingService.java:347-357 | true iff the data is at least as long as the prefix and agrees with it at every prefix position |
| ImageValidation.Read | medassist-backend/src/main/java/com/medassist/ai/service/ImageProcessingService.java:306-307 | a read fills the buffer with the first bytes of the upload and leaves the rest of the buffer as it was; it returns the count read, or -1 for an empty upload |
| ImageValidation.Header | medassist-backend/src/main/java/com/medassist/ai/service/ImageProcessingService.java:304-307 | the header is the first twelve bytes of the upload, padded with zeros |
| ImageValidation.IsValidImageMagicBytes | medassist-backend/src/main/java/com/medassist/ai/service/ImageProcessingService.java:303-342 | the answer is the buffered signature test: at least two bytes read, then a JPEG, PNG, GIF87a/89a, RIFF…WEBP or BMP signature in the zero-padded header |
| ImageValidation.PaddedPrefix | medassist-backend/src/main/java/com/medassist/ai/service/ImageProcessingService.java:304-310 | zero padding never completes a signature, because no signature byte is zero |
| ImageValidation.SignatureValidIsRecognisedContent | medassist-backend/src/main/java/com/medassist/ai/service/ImageProcessingService.java:303-342 | the buffered test agrees with a reference stated on the upload itself: at least two bytes and one of the signatures at its start, WebP needing "WEBP" at bytes 8 to 11 |
| ImageValidation.ShortUploads | medassist-backend/src/main/java/com/medassist/ai/service/ImageProcessingService.java:308-339 | a two-byte upload "BM" passes, a two-byte JPEG start fails, and a one-byte upload fails |
| ImageValidation.Rejection | medassist-backend/src/main/java/com/medassist/ai/service/ImageProcessingService.java:273-297 | the first failing check decides, in the order empty, over 10 MB, content type, signature; nothing is rejected exactly when the upload is non-empty, at most 10 MB, of an allowed type ignoring case, and signed |
| ImageValidation.ValidateImage | medassist-backend/src/main/java/com/medassist/ai/service/ImageProcessingService.java:273-297 | succeeds exactly when nothing is rejected, and otherwise fails with the first rejection's message |
| ImageValidation.SizeCapIsInclusive | medassist-backend/src/main/java/com/medassist/ai/service/ImageProcessingService.java:280 | exactly 10 MiB is not refused for its size; one byte more is (the cap at line 26) |
| ImageValidation.TypeNotCrossChecked | medassist-backend/src/main/java/com/medassist/ai/service/ImageProcessingService.java:285-341 | the declared type is not checked against the signature: a BMP signature passes as "IMAGE/PNG" |
| ImageValidation.IsValidMedicineImage | medassist-backend/src/main/java/com/medassist/ai/service/ImageProcessingService.java:248-261 | true iff the image decodes and both dimensions are within 100 to 5000 inclusive |
| MedicineEntity.NewMedicine | medassist-backend/src/main/java/com/medassist/medicine/entity/Medicine.java:106-110 | name, generic name and manufacturer are set and every other field keeps its no-argument default |
| MedicineEntity.ActiveIngredients | medassist-backend/src/main/java/com/medassist/medicine/entity/Medicine.java:115-121 | empty exactly when the ingredient is null or blank, and otherwise the one trimmed ingredient; never longer than one and never containing "" |
| MedicineEntity.ActiveIngredientsStable | medassist-backend/src/main/java/com/medassist/medicine/entity/Medicine.java:117-118 | storing the listed ingredient back gives the same list |
| TokenStore.TokenManager.constructor | Medassistandroid/app/src/main/java/com/example/medassist_android/data/local/TokenManager.kt:15-26 | the store starts empty |
| TokenStore.TokenManager.Lookup | Medassistandroid/app/src/main/java/com/example/medassist_android/data/local/TokenManager.kt:54-97 | a getter returns the stored value, and null exactly when the key is absent or the read fails |
| TokenStore.TokenManager.GetAccessToken | Medassistandroid/app/src/main/java/com/example/medassist_android/data/local/TokenManager.kt:54-61 | the stored access token, or null when it is absent or the read fails |
| TokenStore.TokenManager.GetRefreshToken | Medassistandroid/app/src/main/java/com/example/medassist_android/data/local/TokenManager.kt:63-70 | the stored refresh token, or null when it is absent or the read fails |
| TokenStore.TokenManager.GetUserId | Medassistandroid/app/src/main/java/com/example/medassist_android/data/local/TokenManager.kt:72-79 | the stored user id, or null when it is absent or the read fails |
| TokenStore.TokenManager.GetUsername | Medassistandroid/app/src/main/java/com/example/medassist_android/data/local/TokenManager.kt:81-88 | the stored username, or null when it is absent or the read fails |
| TokenStore.TokenManager.GetEmail | Medassistandroid/app/src/main/java/com/example/medassist_android/data/local/TokenManager.kt:90-97 | the stored email, or null when it is absent or the read fails |
| TokenStore.TokenManager.IsLoggedIn | Medassistandroid/app/src/main/java/com/example/medassist_android/data/local/TokenManager.kt:99-106 | true exactly when the read succeeds and the flag holds the text true |
| TokenStore.TokenManager.SaveTokens | Medassistandroid/app/src/main/java/com/example/medassist_android/data/local/TokenManager.kt:28-39 | both tokens are stored and the flag set to "true", so the user reads as logged in; a failed write changes nothing |
| TokenStore.TokenManager.SaveUserInfo | Medassistandroid/app/src/main/java/com/example/medassist_android/data/local/TokenManager.kt:41-52 | the three user keys are written and no other key changes; a failed write changes nothing |
| TokenStore.TokenManager.ClearTokens | Medassistandroid/app/src/main/java/com/example/medassist_android/data/local/TokenManager.kt:112-126 | the five session keys are removed and the flag set to "false", so every token getter returns null and the user is logged out |
| TokenStore.TokenManager.ClearAllData | Medassistandroid/app/src/main/java/com/example/medassist_android/data/local/TokenManager.kt:128-137 | the store is emptied, so the user is logged out in both views |
| TokenStore.FlowAgreesWithIsLoggedIn | Medassistandroid/app/src/main/java/com/example/medassist_android/data/local/TokenManager.kt:99-110 | the flow and the one-shot read agree on every store state, unless the read fails |
| AuthInterceptors.WithBearer | Medassistandroid/app/src/main/java/com/example/medassist_android/data/network/AuthInterceptor.kt:35-38 | the request keeps its path and every header not named Authorization in some case; every case variant of Authorization is removed and "Authorization: Bearer " followed by the token is set |
| AuthInterceptors.WithBearerReplaces | Medassistandroid/app/src/main/java/com/example/medassist_android/data/network/AuthInterceptor.kt:35-38 | setting the bearer header twice leaves only the second token, as setting it once would |
| AuthInterceptors.TrailingDigits | Medassistandroid/app/src/main/java/com/example/medassist_android/data/network/AuthInterceptor.kt:25 | the length of the run of digits that ends the path |
| AuthInterceptors.MedicineDetailPathIntro | Medassistandroid/app/src/main/java/com/example/medassist_android/data/network/AuthInterceptor.kt:25 | every path made of line-break-free text, "/medicines/" and one or more digits matches the detail pattern |
| AuthInterceptors.MedicineDetailPathElim | Medassistandroid/app/src/main/java/com/example/medassist_android/data/network/AuthInterceptor.kt:25 | every path matching the detail pattern has exactly that form |
| AuthInterceptors.PublicSubpathSkipsAuth | Medassistandroid/app/src/main/java/com/example/medassist_android/data/network/AuthInterceptor.kt:18-24 | a path containing any public authentication subpath or "/medicines/search", anywhere, skips authentication |
| AuthInterceptors.AuthorizedRequest | Medassistandroid/app/src/main/java/com/example/medassist_android/data/network/AuthInterceptor.kt:14-45 | skipped requests, and requests with no stored token, go out unchanged; otherwise the stored token is attached as a bearer header |
| AuthInterceptors.Intercept | Medassistandroid/app/src/main/java/com/example/medassist_android/data/network/AuthInterceptor.kt:14-45 | a request outside the public paths carries the stored access token as a bearer header; a public path, a missing token or a failed read sends it unchanged |
| AuthInterceptors.SkipAuth | Medassistandroid/app/src/main/java/com/example/medassist_android/data/network/AuthInterceptor.kt:18-25 | only authentication paths and medicine paths skip the token |
| AuthInterceptors.IsMedicineDetailPath | Medassistandroid/app/src/main/java/com/example/medassist_android/data/network/AuthInterceptor.kt:25 | a medicine-detail path ends in a non-empty run of digits with room for the medicines segment before it |
| AuthInterceptors.RefreshIntercept | Medassistandroid/app/src/main/java/com/example/medassist_android/data/network/AuthInterceptor.kt:53-99 | only a 401 from a request other than the refresh call triggers a refresh, and only when the refresh token reads back; a successful refresh with a body saves both tokens (unless the store write fails, which is swallowed) and retries once with the new access token either way; a failed refresh or an exception clears the tokens unless the store write fails; a successful refresh with no body neither saves nor clears |
| UserSettings.ThemeValueOf | Medassistandroid/app/src/main/java/com/example/medassist_android/data/local/UserPreferencesManager.kt:97-119 | a theme is found exactly for the names SYSTEM, LIGHT and DARK, and the name of the theme found is the text given |
| UserSettings.ThemeRoundTrip | Medassistandroid/app/src/main/java/com/example/medassist_android/data/local/UserPreferencesManager.kt:119 | a theme stored by name reads back as itself (the theme written at line 173) |
| UserSettings.ThemeAt | Medassistandroid/app/src/main/java/com/example/medassist_android/data/local/UserPreferencesManager.kt:119 | an absent theme reads as SYSTEM; a stored name that is no constant fails with valueOf's "No enum constant" message; any other name reads as the theme of that name |
| UserSettings.Read | Medassistandroid/app/src/main/java/com/example/medassist_android/data/local/UserPreferencesManager.kt:111-133 | the read fails exactly when the stored theme is no constant; otherwise every field comes from its key, or its default when the key is absent |
| UserSettings.EmptyReadsAsDefaults | Medassistandroid/app/src/main/java/com/example/medassist_android/data/local/UserPreferencesManager.kt:111-133 | an empty store reads as the data class's default arguments (the defaults at lines 61-95) |
| UserSettings.Observe | Medassistandroid/app/src/main/java/com/example/medassist_android/data/local/UserPreferencesManager.kt:102-109 | an IOException from the store reads as the defaults; any other failure is passed on; data is read as stored |
| UserSettings.UserPreferencesManager.constructor | Medassistandroid/app/src/main/java/com/example/medassist_android/data/local/UserPreferencesManager.kt:18-21 | the manager starts with an empty store |
| UserSettings.UserPreferencesManager.Current | Medassistandroid/app/src/main/java/com/example/medassist_android/data/local/UserPreferencesManager.kt:102-133 | the preferences a read of the current store delivers; such a read never fails, because only setThemeMode stores a theme |
| UserSettings.UserPreferencesManager.SetNotificationsEnabled | Medassistandroid/app/src/main/java/com/example/medassist_android/data/local/UserPreferencesManager.kt:137-141 | stores the new value under its own key and changes no other key; the preferences then read with that one field changed |
| UserSettings.UserPreferencesManager.SetReminderSoundEnabled | Medassistandroid/app/src/main/java/com/example/medassist_android/data/local/UserPreferencesManager.kt:143-147 | stores the new value under its own key and changes no other key; the preferences then read with that one field changed |
| UserSettings.UserPreferencesManager.SetReminderVibrationEnabled | Medassistandroid/app/src/main/java/com/example/medassist_android/data/local/UserPreferencesManager.kt:149-153 | stores the new value under its own key and changes no other key; the preferences then read with that one field changed |
| UserSettings.UserPreferencesManager.SetReminderSnoozeDuration | Medassistandroid/app/src/main/java/com/example/medassist_android/data/local/UserPreferencesManager.kt:155-159 | stores the new value under its own key and changes no other key; the preferences then read with that one field changed |
| UserSettings.UserPreferencesManager.SetQuietHours | Medassistandroid/app/src/main/java/com/example/medassist_android/data/local/UserPreferencesManager.kt:161-167 | the enabled flag is always stored; the start and end times are stored only when given, and are otherwise kept as they were |
| UserSettings.UserPreferencesManager.SetThemeMode | Medassistandroid/app/src/main/java/com/example/medassist_android/data/local/UserPreferencesManager.kt:171-175 | the theme is stored by name and reads back as the theme given; no other key changes |
| UserSettings.UserPreferencesManager.SetUseDynamicColors | Medassistandroid/app/src/main/java/com/example/medassist_android/data/local/UserPreferencesManager.kt:177-181 | stores the new value under its own key and changes no other key; the preferences then read with that one field changed |
| UserSettings.UserPreferencesManager.SetLanguageCode | Medassistandroid/app/src/main/java/com/example/medassist_android/data/local/UserPreferencesManager.kt:185-189 | stores the new value under its own key and changes no other key; the preferences then read with that one field changed |
| UserSettings.UserPreferencesManager.SetBiometricEnabled | Medassistandroid/app/src/main/java/com/example/medassist_android/data/local/UserPreferencesManager.kt:193-197 | stores the new value under its own key and changes no other key; the preferences then read with that one field changed |
| UserSettings.UserPreferencesManager.SetAutoLockTimeout | Medassistandroid/app/src/main/java/com/example/medassist_android/data/local/UserPreferencesManager.kt:199-203 | stores the new value under its own key and changes no other key; the preferences then read with that one field changed |
| UserSettings.UserPreferencesManager.SetDefaultReminderTime | Medassistandroid/app/src/main/java/com/example/medassist_android/data/local/UserPreferencesManager.kt:207-211 | stores the new value under its own key and changes no other key; the preferences then read with that one field changed |
| UserSettings.UserPreferencesManager.SetShowMedicineImages | Medassistandroid/app/src/main/java/com/example/medassist_android/data/local/UserPreferencesManager.kt:213-217 | stores the new value under its own key and changes no other key; the preferences then read with that one field changed |
| UserSettings.UserPreferencesManager.SetTrackSideEffects | Medassistandroid/app/src/main/java/com/example/medassist_android/data/local/UserPreferencesManager.kt:219-223 | stores the new value under its own key and changes no other key; the preferences then read with that one field changed |
| UserSettings.UserPreferencesManager.SetTrackMood | Medassistandroid/app/src/main/java/com/example/medassist_android/data/local/UserPreferencesManager.kt:225-229 | stores the new value under its own key and changes no other key; the preferences then read with that one field changed |
| UserSettings.UserPreferencesManager.SetAutoBackupEnabled | Medassistandroid/app/src/main/java/com/example/medassist_android/data/local/UserPreferencesManager.kt:233-237 | stores the new value under its own key and changes no other key; the preferences then read with that one field changed |
| UserSettings.UserPreferencesManager.UpdateLastSyncTime | Medassistandroid/app/src/main/java/com/example/medassist_android/data/local/UserPreferencesManager.kt:239-243 | the last sync time becomes the current clock reading; no other key changes |
| UserSettings.UserPreferencesManager.SetOnboardingCompleted | Medassistandroid/app/src/main/java/com/example/medassist_android/data/local/UserPreferencesManager.kt:247-254 | the flag is stored; the first launch time is set to now only when completing with no first launch time recorded, and a recorded one never changes |
| UserSettings.UserPreferencesManager.ClearAllSettings | Medassistandroid/app/src/main/java/com/example/medassist_android/data/local/UserPreferencesManager.kt:258-262 | the store is emptied, so every setting reads as its default |
| ReminderEntities.ToReminderFrequency | Medassistandroid/app/src/main/java/com/example/medassist_android/data/local/converter/ReminderConverters.kt:14-17 | fails exactly for text that is no constant's exact name, with valueOf's message; otherwise returns the constant of that name |
| ReminderEntities.FrequencyRoundTrip | Medassistandroid/app/src/main/java/com/example/medassist_android/data/local/converter/ReminderConverters.kt:9-17 | a frequency stored by name reads back as itself |
| ReminderEntities.ToIntakeStatus | Medassistandroid/app/src/main/java/com/example/medassist_android/data/local/converter/ReminderConverters.kt:24-27 | fails exactly for text that is no constant's exact name, with valueOf's message; otherwise returns the constant of that name |
| ReminderEntities.StatusRoundTrip | Medassistandroid/app/src/main/java/com/example/medassist_android/data/local/converter/ReminderConverters.kt:19-27 | a status stored by name reads back as itself |
| ReminderEntities.NamesAreCaseSensitive | Medassistandroid/app/src/main/java/com/example/medassist_android/data/local/converter/ReminderConverters.kt:16-26 | valueOf is case-sensitive: "daily" and "taken" are refused |
| ReminderForms.DefaultForm | Medassistandroid/app/src/main/java/com/example/medassist_android/presentation/reminder/ReminderViewModel.kt:26-39 | a daily form at 09:00 on all seven days, starting now, with no end, error or save; its time and day lists are ordered and free of repeats |
| ReminderForms.FormatClock | Medassistandroid/app/src/main/java/com/example/medassist_android/presentation/reminder/AddReminderScreen.kt:327 | the picker's zero-padded HH:MM text is a clock time naming that hour and minute |
| ReminderForms.ClockOrder | Medassistandroid/app/src/main/java/com/example/medassist_android/presentation/reminder/ReminderViewModel.kt:126 | on clock times the text order that sort uses is the order of the day |
| ReminderForms.ClockTimeIsPlain | Medassistandroid/app/src/main/java/com/example/medassist_android/presentation/reminder/ReminderViewModel.kt:170 | a clock time is not blank and has no comma, so it survives the comma-joined row (and the split at line 235) |
| ReminderForms.UpdatedForm | Medassistandroid/app/src/main/java/com/example/medassist_android/presentation/reminder/ReminderViewModel.kt:107-120 | an unknown field leaves the form as it is; a failed hard cast throws; otherwise the named field holds the cast value, null for a failed soft cast, and every other field is unchanged; an empty list is accepted for either list field |
| ReminderForms.AsTexts | Medassistandroid/app/src/main/java/com/example/medassist_android/presentation/reminder/ReminderViewModel.kt:113 | the unchecked list cast accepts a list of strings as it is, and an empty list of any element type |
| ReminderForms.AsInts | Medassistandroid/app/src/main/java/com/example/medassist_android/presentation/reminder/ReminderViewModel.kt:114 | the unchecked list cast accepts a list of numbers as it is, and an empty list of any element type |
| ReminderForms.WithTimeSpec | Medassistandroid/app/src/main/java/com/example/medassist_android/presentation/reminder/ReminderViewModel.kt:122-129 | after addTime the time is listed; a new time is added once, as a permutation that comes out sorted; order and freedom from repeats are kept |
| ReminderForms.WithTime | Medassistandroid/app/src/main/java/com/example/medassist_android/presentation/reminder/ReminderViewModel.kt:122-129 | the new list holds exactly the old times and the added one, and a listed time changes nothing |
| ReminderForms.AddThenRemoveTime | Medassistandroid/app/src/main/java/com/example/medassist_android/presentation/reminder/ReminderViewModel.kt:122-135 | removing a time just added to an ordered list gives the list back |
| ReminderForms.ToggleFlipsOneDay | Medassistandroid/app/src/main/java/com/example/medassist_android/presentation/reminder/ReminderViewModel.kt:137-146 | on an ordered list without repeats, toggling flips the membership of that day only and keeps the list ordered and free of repeats |
| ReminderForms.ToggledDays | Medassistandroid/app/src/main/java/com/example/medassist_android/presentation/reminder/ReminderViewModel.kt:137-146 | a present day is removed and an absent one added, the length changing by one; every other day keeps its membership |
| ReminderForms.ToggleTwice | Medassistandroid/app/src/main/java/com/example/medassist_android/presentation/reminder/ReminderViewModel.kt:137-146 | toggling the same day twice restores an ordered list without repeats |
| ReminderForms.Rejection | Medassistandroid/app/src/main/java/com/example/medassist_android/presentation/reminder/ReminderViewModel.kt:148-162 | the first failing check decides, in the order blank name, blank dosage, no time; nothing is rejected exactly when the name and dosage are not blank and a time is listed |
| ReminderForms.ToEntity | Medassistandroid/app/src/main/java/com/example/medassist_android/presentation/reminder/ReminderViewModel.kt:165-177 | the row copies the form's fields; it holds days only for a weekly reminder and instructions only when they are not blank; it is new, active and created now |
| ReminderForms.AfterEmission | Medassistandroid/app/src/main/java/com/example/medassist_android/presentation/reminder/ReminderViewModel.kt:179-194 | success resets the form to the default and marks it saved; loading and error start from the form as it was when the save began and change only the loading flag and the error |
| ReminderForms.FromEntity | Medassistandroid/app/src/main/java/com/example/medassist_android/presentation/reminder/ReminderViewModel.kt:226-243 | the form copies the row's fields; blank time pieces are dropped; a row with no days gives all seven days; absent instructions become empty text |
| ReminderForms.EditLoadsSavedForm | Medassistandroid/app/src/main/java/com/example/medassist_android/presentation/reminder/ReminderViewModel.kt:226-243 | loading a saved reminder for edit gives back the saved form; a non-weekly form comes back with all seven days and blank instructions as empty text (the row encoded at lines 165-177) |
| ReminderForms.ReminderViewModel.constructor | Medassistandroid/app/src/main/java/com/example/medassist_android/presentation/reminder/ReminderViewModel.kt:77 | the view model starts with the default form |
| ReminderForms.ReminderViewModel.UpdateFormField | Medassistandroid/app/src/main/java/com/example/medassist_android/presentation/reminder/ReminderViewModel.kt:107-120 | throws exactly when a hard cast fails, leaving the form as it was; otherwise the form becomes the updated form |
| ReminderForms.ReminderViewModel.AddTime | Medassistandroid/app/src/main/java/com/example/medassist_android/presentation/reminder/ReminderViewModel.kt:122-129 | the times become the list after addTime; a listed time changes nothing |
| ReminderForms.ReminderViewModel.RemoveTime | Medassistandroid/app/src/main/java/com/example/medassist_android/presentation/reminder/ReminderViewModel.kt:131-135 | the first occurrence of the time is removed and the others are kept in order |
| ReminderForms.ReminderViewModel.ToggleDayOfWeek | Medassistandroid/app/src/main/java/com/example/medassist_android/presentation/reminder/ReminderViewModel.kt:137-146 | the days become the toggled list |
| ReminderForms.ReminderViewModel.SaveReminder | Medassistandroid/app/src/main/java/com/example/medassist_android/presentation/reminder/ReminderViewModel.kt:148-197 | a rejected form gets only the error and nothing is created; otherwise the row built from the form is sent, and the form is what the last emission makes of it |
| ReminderForms.ReminderViewModel.ResetForm | Medassistandroid/app/src/main/java/com/example/medassist_android/presentation/reminder/ReminderViewModel.kt:222-224 | the form becomes the default form |
| ReminderForms.ReminderViewModel.LoadReminderForEdit | Medassistandroid/app/src/main/java/com/example/medassist_android/presentation/reminder/ReminderViewModel.kt:226-243 | a missing reminder leaves the form as it was; a found one replaces it with the form built from the row |
| ReminderList.DayName | Medassistandroid/app/src/main/java/com/example/medassist_android/presentation/reminder/ReminderListScreen.kt:382-393 | days 1 to 7 are Mon to Sun; any other integer is the empty text |
| ReminderList.DayNamesDistinct | Medassistandroid/app/src/main/java/com/example/medassist_android/presentation/reminder/ReminderListScreen.kt:382-393 | different days of the week have different names, and none is empty |
| ReminderList.DayNames | Medassistandroid/app/src/main/java/com/example/medassist_android/presentation/reminder/ReminderListScreen.kt:372-373 | one name per day, in order |
| ReminderList.FormatFrequency | Medassistandroid/app/src/main/java/com/example/medassist_android/presentation/reminder/ReminderListScreen.kt:360-380 | once and daily name the times; weekly names the days and then the times; the three interval frequencies have fixed texts |
| ReminderList.TimesText | Medassistandroid/app/src/main/java/com/example/medassist_android/presentation/reminder/ReminderListScreen.kt:365-366 | a single time without a comma is shown as stored, and a blank one as nothing |
| ReminderList.DaysText | Medassistandroid/app/src/main/java/com/example/medassist_android/presentation/reminder/ReminderListScreen.kt:372-373 | no stored days show "Selected days"; a single stored day shows its name, or nothing when it is not a number |
| ReminderList.IntervalTextsIgnoreSchedule | Medassistandroid/app/src/main/java/com/example/medassist_android/presentation/reminder/ReminderListScreen.kt:376-378 | every-few-hours, every-few-days and as-needed are described the same whatever the times or days |
| ReminderList.ListShowsSavedSchedule | Medassistandroid/app/src/main/java/com/example/medassist_android/presentation/reminder/ReminderListScreen.kt:365-373 | the list shows a saved reminder's times as entered in the form, and a weekly reminder's days by name; a non-weekly one shows "Selected days" |
| AuthScreens.LoginFieldUpdated | Medassistandroid/app/src/main/java/com/example/medassist_android/presentation/auth/AuthViewModel.kt:255-261 | the named text field of the login form is set and every other field kept; an unknown name leaves the form as it is |
| AuthScreens.LoginUpdatesCompose | Medassistandroid/app/src/main/java/com/example/medassist_android/presentation/auth/AuthViewModel.kt:255-261 | writing one field twice keeps the second value, and writes to different fields commute |
| AuthScreens.RegisterFieldUpdatedAsWritten | Medassistandroid/app/src/main/java/com/example/medassist_android/presentation/auth/AuthViewModel.kt:263-277 | the named text field is set; only a confirmPassword edit recomputes passwordsMatch, against the password as it then is; an unknown name leaves the form as it is |
| AuthScreens.StaleMatchAsWritten | Medassistandroid/app/src/main/java/com/example/medassist_android/presentation/auth/AuthViewModel.kt:263-277 | editing the password after a matching confirmation leaves passwordsMatch true while the two fields differ |
| AuthScreens.RegisterFieldUpdated | Medassistandroid/app/src/main/java/com/example/medassist_android/presentation/auth/AuthViewModel.kt:263-277 | as the update above, except that an edit of either password field recomputes passwordsMatch as the equality of the two fields |
| AuthScreens.MatchStaysExact | Medassistandroid/app/src/main/java/com/example/medassist_android/presentation/auth/AuthViewModel.kt:263-277 | the default form's flag is exact, and the corrected update keeps it exact (the defaults at lines 30-44) |
| AuthScreens.IntendedDiffersOnlyInFlag | Medassistandroid/app/src/main/java/com/example/medassist_android/presentation/auth/AuthViewModel.kt:263-277 | the corrected update and the update as written differ only in the match flag, and only on a password edit |
| AuthScreens.PasswordVisibilityToggled | Medassistandroid/app/src/main/java/com/example/medassist_android/presentation/auth/AuthViewModel.kt:279-289 | only the selected form's show-password flag flips; everything else is unchanged |
| AuthScreens.ConfirmVisibilityToggled | Medassistandroid/app/src/main/java/com/example/medassist_android/presentation/auth/AuthViewModel.kt:291-295 | only the registration form's show-confirmation flag flips |
| AuthScreens.TogglesAreInvolutions | Medassistandroid/app/src/main/java/com/example/medassist_android/presentation/auth/AuthViewModel.kt:279-295 | toggling twice restores the screens |
| AuthScreens.ErrorsCleared | Medassistandroid/app/src/main/java/com/example/medassist_android/presentation/auth/AuthViewModel.kt:297-302 | none of the four states shows an error, and nothing else changes |
| AuthScreens.SuccessCleared | Medassistandroid/app/src/main/java/com/example/medassist_android/presentation/auth/AuthViewModel.kt:304-308 | the three forms are no longer marked successful; the session state and every other field are unchanged |
| AuthScreens.ClearsAreIdempotent | Medassistandroid/app/src/main/java/com/example/medassist_android/presentation/auth/AuthViewModel.kt:297-308 | clearing errors or successes a second time changes nothing |
| AuthScreens.ClearsCommute | Medassistandroid/app/src/main/java/com/example/medassist_android/presentation/auth/AuthViewModel.kt:297-308 | clearing errors and clearing successes can be done in either order |
| AuthScreens.AfterLogoutEmission | Medassistandroid/app/src/main/java/com/example/medassist_android/presentation/auth/AuthViewModel.kt:174-196 | loading marks the session busy; success resets the session, login and registration states, leaving the user logged out; an error ends loading and shows the message; the forgot-password state is never touched |
| AuthScreens.AfterLogoutSnoc | Medassistandroid/app/src/main/java/com/example/medassist_android/presentation/auth/AuthViewModel.kt:176-194 | the logout flow's emissions are applied in turn, the last one after the others |
| AuthScreens.LogoutEndsLoggedOut | Medassistandroid/app/src/main/java/com/example/medassist_android/presentation/auth/AuthViewModel.kt:181-186 | a logout whose last emission is a success leaves the user logged out with fresh login and registration forms, whatever came before |
| AuthScreens.LogoutKeepsForgotPassword | Medassistandroid/app/src/main/java/com/example/medassist_android/presentation/auth/AuthViewModel.kt:174-196 | no emission of the logout flow touches the forgot-password state |
| AuthScreens.AuthViewModel.constructor | Medassistandroid/app/src/main/java/com/example/medassist_android/presentation/auth/AuthViewModel.kt:64-74 | the four states start at the data classes' defaults |
| AuthScreens.AuthViewModel.UpdateLoginField | Medassistandroid/app/src/main/java/com/example/medassist_android/presentation/auth/AuthViewModel.kt:255-261 | only the login form changes, as the field update says |
| AuthScreens.AuthViewModel.UpdateRegisterField | Medassistandroid/app/src/main/java/com/example/medassist_android/presentation/auth/AuthViewModel.kt:263-277 | only the registration form changes, as the corrected update says, so an exact match flag stays exact |
| AuthScreens.AuthViewModel.TogglePasswordVisibility | Medassistandroid/app/src/main/java/com/example/medassist_android/presentation/auth/AuthViewModel.kt:279-289 | the screens become the toggled screens |
| AuthScreens.AuthViewModel.ToggleConfirmPasswordVisibility | Medassistandroid/app/src/main/java/com/example/medassist_android/presentation/auth/AuthViewModel.kt:291-295 | the screens become the toggled screens |
| AuthScreens.AuthViewModel.ClearError | Medassistandroid/app/src/main/java/com/example/medassist_android/presentation/auth/AuthViewModel.kt:297-302 | the screens become the screens with errors cleared |
| AuthScreens.AuthViewModel.ClearSuccess | Medassistandroid/app/src/main/java/com/example/medassist_android/presentation/auth/AuthViewModel.kt:304-308 | the screens become the screens with successes cleared |
| AuthScreens.AuthViewModel.ClearForgotPasswordState | Medassistandroid/app/src/main/java/com/example/medassist_android/presentation/auth/AuthViewModel.kt:310-312 | the forgot-password state returns to its default and nothing else changes |
| AuthScreens.AuthViewModel.Logout | Medassistandroid/app/src/main/java/com/example/medassist_android/presentation/auth/AuthViewModel.kt:174-196 | the screens become what the logout flow's emissions make of them, in order |
| RegisterForms.PhoneIsOptional | Medassistandroid/app/src/main/java/com/example/medassist_android/presentation/auth/RegisterScreen.kt:388-396 | the phone number plays no part in the form's validity |
| RegisterForms.IsFormValid | Medassistandroid/app/src/main/java/com/example/medassist_android/presentation/auth/RegisterScreen.kt:388-396 | a valid form has the passwords flagged as matching and a non-empty username, email and password |
| RegisterForms.Submitted | Medassistandroid/app/src/main/java/com/example/medassist_android/presentation/auth/RegisterScreen.kt:334-345 | register is called exactly when the form is valid, with the form's fields, and a blank phone number is sent as null (the keyboard path at lines 283-294 is the same) |
| RegisterForms.ButtonEnabled | Medassistandroid/app/src/main/java/com/example/medassist_android/presentation/auth/RegisterScreen.kt:349 | the button is enabled exactly when the screen is not busy and the form is valid, so a press always submits |
| RegisterForms.UnconfirmedPasswordSubmittedAsWritten | Medassistandroid/app/src/main/java/com/example/medassist_android/presentation/auth/RegisterScreen.kt:388-396 | with the update as written, a form reached by ordinary typing is submitted with a password different from its confirmation |
| RegisterForms.SubmittedPasswordIsConfirmed | Medassistandroid/app/src/main/java/com/example/medassist_android/presentation/auth/RegisterScreen.kt:388-396 | when the match flag is exact, a submitted password always equals its confirmation |
| ProfileScreens.EditFieldUpdated | Medassistandroid/app/src/main/java/com/example/medassist_android/presentation/profile/ProfileViewModel.kt:87-96 | the named text field of the edit form is set and every other field kept; an unknown name leaves the form as it is |
| ProfileScreens.WithUserFields | Medassistandroid/app/src/main/java/com/example/medassist_android/presentation/profile/ProfileViewModel.kt:66-74 | the user's editable fields are copied into the form, a missing optional as the empty text, and the form's status is kept |
| ProfileScreens.UpdateArguments | Medassistandroid/app/src/main/java/com/example/medassist_android/presentation/profile/ProfileViewModel.kt:98-108 | each field is sent as null when blank and as its text otherwise |
| ProfileScreens.UntouchedFormResendsUser | Medassistandroid/app/src/main/java/com/example/medassist_android/presentation/profile/ProfileViewModel.kt:98-108 | saving a form fresh from the user sends the user's own values back, a missing optional staying null (the form filled at lines 66-74) |
| ProfileScreens.BlankOptionalSentAsNull | Medassistandroid/app/src/main/java/com/example/medassist_android/presentation/profile/ProfileViewModel.kt:70-104 | a blank phone number on the user is sent as null, which the backend reads as "leave unchanged", so saving keeps the stored value rather than clearing it |
| ProfileScreens.FormOf | Medassistandroid/app/src/main/java/com/example/medassist_android/presentation/profile/ProfileViewModel.kt:146-156 | a fresh form holding the user's fields, neither loading nor failed nor successful |
| ProfileScreens.LoadAndInitializeAgree | Medassistandroid/app/src/main/java/com/example/medassist_android/presentation/profile/ProfileViewModel.kt:146-156 | a user load and initializeEditForm agree on the text fields and differ only in the status fields (the load at lines 66-74) |
| ProfileScreens.AfterLoadEmission | Medassistandroid/app/src/main/java/com/example/medassist_android/presentation/profile/ProfileViewModel.kt:52-85 | loading marks the profile busy; success stores the user, which may be null, clears the error and copies a present user into the form; an error ends loading and shows the message; the form's status never changes |
| ProfileScreens.LoadKeepsFormStatus | Medassistandroid/app/src/main/java/com/example/medassist_android/presentation/profile/ProfileViewModel.kt:52-85 | however the loads went, they never change the form's status fields |
| ProfileScreens.AfterSaveEmission | Medassistandroid/app/src/main/java/com/example/medassist_android/presentation/profile/ProfileViewModel.kt:109-133 | loading marks the form busy and clears the error; success marks it successful; an error shows the message and clears success |
| ProfileScreens.SaveKeepsText | Medassistandroid/app/src/main/java/com/example/medassist_android/presentation/profile/ProfileViewModel.kt:98-136 | saving never changes the text the form holds, and the outcome shown is the last emission's |
| ProfileScreens.EditStateCleared | Medassistandroid/app/src/main/java/com/example/medassist_android/presentation/profile/ProfileViewModel.kt:139-144 | only the success flag and the error are reset |
| ProfileScreens.ProfileViewModel.constructor | Medassistandroid/app/src/main/java/com/example/medassist_android/presentation/profile/ProfileViewModel.kt:42-46 | both states start at their defaults |
| ProfileScreens.ProfileViewModel.LoadCurrentUser | Medassistandroid/app/src/main/java/com/example/medassist_android/presentation/profile/ProfileViewModel.kt:52-85 | the states become what the current-user flow's emissions make of them, in order |
| ProfileScreens.ProfileViewModel.UpdateEditField | Medassistandroid/app/src/main/java/com/example/medassist_android/presentation/profile/ProfileViewModel.kt:87-96 | only the edit form changes, as the field update says |
| ProfileScreens.ProfileViewModel.SaveProfile | Medassistandroid/app/src/main/java/com/example/medassist_android/presentation/profile/ProfileViewModel.kt:98-137 | the arguments come from the form as it was when the save began, and the form becomes what the update flow's emissions make of it; the profile state is unchanged |
| ProfileScreens.ProfileViewModel.ClearEditState | Medassistandroid/app/src/main/java/com/example/medassist_android/presentation/profile/ProfileViewModel.kt:139-144 | the form's success flag and error are reset and nothing else changes |
| ProfileScreens.ProfileViewModel.InitializeEditForm | Medassistandroid/app/src/main/java/com/example/medassist_android/presentation/profile/ProfileViewModel.kt:146-156 | without a loaded user nothing changes; otherwise the form becomes a fresh form of the user's fields |
| ChangePasswordForms.ValidateNewPassword | Medassistandroid/app/src/main/java/com/example/medassist_android/presentation/profile/ChangePasswordScreen.kt:365-374 | no error exactly when the password is not blank, has at least 8 characters and holds an upper-case letter, a lower-case letter and a digit; otherwise the first failed requirement's message, in that order |
| ChangePasswordForms.WhitespaceIsRequired | Medassistandroid/app/src/main/java/com/example/medassist_android/presentation/profile/ChangePasswordScreen.kt:367 | a password of spaces only is reported as missing, not as weak |
| ChangePasswordForms.Checklist | Medassistandroid/app/src/main/java/com/example/medassist_android/presentation/profile/ChangePasswordScreen.kt:210-225 | the four ticks under the field, in the order length, upper-case, lower-case, digit |
| ChangePasswordForms.ChecklistMirrorsValidator | Medassistandroid/app/src/main/java/com/example/medassist_android/presentation/profile/ChangePasswordScreen.kt:210-225 | a non-blank password passes the check exactly when every item is ticked, and a failure names the first unticked item (the validator at lines 365-374) |
| ChangePasswordForms.MismatchError | Medassistandroid/app/src/main/java/com/example/medassist_android/presentation/profile/ChangePasswordScreen.kt:145-173 | a mismatch error exactly when the two texts differ |
| ChangePasswordForms.TypingKeepsInStep | Medassistandroid/app/src/main/java/com/example/medassist_android/presentation/profile/ChangePasswordScreen.kt:110-175 | the screen starts with its error texts in step with the typed texts, and typing in any field keeps them in step |
| ChangePasswordForms.ErrorsAfterPress | Medassistandroid/app/src/main/java/com/example/medassist_android/presentation/profile/ChangePasswordScreen.kt:289-311 | each failed check sets its error text, the must-differ text replacing any strength text; a passed check leaves its text as it was; the typed texts are kept |
| ChangePasswordForms.PressChangePassword | Medassistandroid/app/src/main/java/com/example/medassist_android/presentation/profile/ChangePasswordScreen.kt:286-314 | the error texts become those after the press, and changePassword is called, with the current and new passwords, exactly when every check passes |
| ChangePasswordForms.EnabledPressAccepted | Medassistandroid/app/src/main/java/com/example/medassist_android/presentation/profile/ChangePasswordScreen.kt:289-323 | on a screen in step, pressing the enabled button changes the password exactly when the new password differs from the current one |
| ChangePasswordForms.RejectedPressDisablesButton | Medassistandroid/app/src/main/java/com/example/medassist_android/presentation/profile/ChangePasswordScreen.kt:289-323 | a rejected press always leaves an error text, so the button is disabled afterwards |
| ApiErrors.ValidationErrors | Medassistandroid/app/src/main/java/com/example/medassist_android/data/model/ApiErrorResponse.kt:20-22 | the details, or no entries when the envelope has none |
| ApiErrors.Rendered | Medassistandroid/app/src/main/java/com/example/medassist_android/data/model/ApiErrorResponse.kt:29-31 | one "field: message" text per entry, in order |
| ApiErrors.FormattedErrorMessage | Medassistandroid/app/src/main/java/com/example/medassist_android/data/model/ApiErrorResponse.kt:24-36 | the message alone when there are no validation errors; otherwise the message, " - " and the rendered entries joined by "; " |
| ApiErrors.SegmentPerEntry | Medassistandroid/app/src/main/java/com/example/medassist_android/data/model/ApiErrorResponse.kt:29-31 | when no field name or message contains ';', the details text holds exactly one separator fewer than there are entries |
| Pharmacies.ToPharmacy | Medassistandroid/app/src/main/java/com/example/medassist_android/data/repository/PharmacyRepository.kt:303-334 | every shared field is copied; a missing id becomes 0 and a missing feature flag false; country and licence number are null; the pharmacy is active and timestamped with the response time |
| Pharmacies.LocationOnlyFieldsDropped | Medassistandroid/app/src/main/java/com/example/medassist_android/data/repository/PharmacyRepository.kt:303-334 | travel time, availability, directions and place id play no part in the pharmacy |
| Pharmacies.MissingMeansFalse | Medassistandroid/app/src/main/java/com/example/medassist_android/data/repository/PharmacyRepository.kt:305-321 | a missing feature flag maps like a false one, and a missing id like id 0 |
| Strings.NullIfBlank | Medassistandroid/app/src/main/java/com/example/medassist_android/presentation/reminder/ReminderViewModel.kt:176 | null exactly for blank text; any other text is kept as it is |
| Strings.Trim | medassist-backend/src/main/java/com/medassist/medicine/entity/Medicine.java:117-118 | the result neither starts nor ends with a character at or below U+0020, and is empty exactly when every character is |
| Strings.TrimIdempotent | medassist-backend/src/main/java/com/medassist/medicine/entity/Medicine.java:117-118 | trimming a trimmed text changes nothing |
| Strings.Split | Medassistandroid/app/src/main/java/com/example/medassist_android/presentation/reminder/ReminderViewModel.kt:235-236 | at least one piece, and no piece holds the delimiter |
| Strings.JoinSplit | Medassistandroid/app/src/main/java/com/example/medassist_android/presentation/reminder/ReminderViewModel.kt:235 | joining the pieces of a split with the delimiter gives the text back (the join at line 170) |
| Strings.SplitJoin | Medassistandroid/app/src/main/java/com/example/medassist_android/presentation/reminder/ReminderViewModel.kt:235 | splitting a join gives the pieces back when none holds the delimiter (the join at line 170) |
| Strings.ParseInt | Medassistandroid/app/src/main/java/com/example/medassist_android/presentation/reminder/ReminderViewModel.kt:236 | a parsed value is a 32-bit integer |
| Strings.ParseIntToString | Medassistandroid/app/src/main/java/com/example/medassist_android/presentation/reminder/ReminderViewModel.kt:236 | rendering a 32-bit integer in decimal and parsing it with toIntOrNull gives it back (the join at line 172) |
| Strings.ParseJoinedInts | Medassistandroid/app/src/main/java/com/example/medassist_android/presentation/reminder/ReminderViewModel.kt:236 | reading back a comma-joined list of 32-bit integers gives the list (the join at line 172) |
| Strings.LexLeTotalOrder | Medassistandroid/app/src/main/java/com/example/medassist_android/presentation/reminder/ReminderViewModel.kt:126 | string comparison is a total order, so a sorted list of times is determined by its elements |
| Sorting.Sort | Medassistandroid/app/src/main/java/com/example/medassist_android/presentation/reminder/ReminderViewModel.kt:126-142 | the result is a permutation of the list |
| Sorting.SortSorted | Medassistandroid/app/src/main/java/com/example/medassist_android/presentation/reminder/ReminderViewModel.kt:126-142 | under a total order the result is ordered |
| Sorting.SortIsTheSort | Medassistandroid/app/src/main/java/com/example/medassist_android/presentation/reminder/ReminderViewModel.kt:126-142 | any ordered permutation of the list is the sorted list, so the stable sort's result is determined |
| Sorting.RemoveFirst | Medassistandroid/app/src/main/java/com/example/medassist_android/presentation/reminder/ReminderViewModel.kt:133-140 | an absent element changes nothing; otherwise the first occurrence is taken out and the rest kept in order |
| Sorting.RemoveFirstKeeps | Medassistandroid/app/src/main/java/com/example/medassist_android/presentation/reminder/ReminderViewModel.kt:131-146 | removing keeps a list ordered and free of repeats, and takes a once-present element out entirely |

## Left out

- HMAC-SHA256 signing, the JWS compact serialization and BCrypt are foreign algorithms. A token is decoded by an abstract codec, a signature verifies exactly when it was made with the configured secret, and an encoded password records its salt and its password.
- JWT `NumericDate` claims hold whole seconds. The model keeps milliseconds, so the truncation of `iat` and `exp` to seconds is not modelled.
- Caffeine's eviction policy (Window TinyLFU) is not modelled. When the blacklist or the bucket cache is over its maximum size, an arbitrary entry is evicted.
- Concurrency is not modelled: concurrent requests, the thread safety of the caches and buckets, and the thread-local `SecurityContextHolder`. Each operation runs alone.
- JwtFilter.DoFilterInternal: exceptions thrown by the rest of the filter chain are not modelled. In the source, the blacklisted branch calls the chain inside the `try`. A downstream exception there would be caught and the chain called a second time (JwtAuthenticationFilter.java lines 46, 77 and 81). The model calls the chain exactly once.
- TokenBlacklist.TokenBlacklistService.constructor: requires a non-negative retention. In the source, a `jwt.expiration` below minus five minutes makes Caffeine's `expireAfterWrite` throw `IllegalArgumentException` when the service is built (TokenBlacklistService.java lines 24-27). That start-up failure is not modelled.
- Stateless sessions and the position of the JWT filter before the username/password filter (CoreSecurityConfig.java lines 43 and 84) are framework configuration and are not modelled.
- Bucket4j's clock is the `now` parameter. A reading earlier than the last refill is treated as no time elapsed.
- The `LocalDateTime.now()`, `new Date()` and `System.currentTimeMillis()` reads are `now` parameters. `UUID.randomUUID()` and BCrypt salts are parameters too; a new token value is required to be absent from its table.
- `AuthenticationService.authenticateUser`, `devVerifyUser`, `getUserDebugInfo` and `getCurrentUser` are not modelled. They delegate to Spring's authentication manager or serve debugging.
- `existsByLicenseNumber(null)` is not modelled. A provider's licence number is always present, as request validation demands.
- Character classes are ASCII. Java's `trim`, `isWhitespace` and `toLowerCase` and Kotlin's `isBlank`, `isUpperCase`, `isLowerCase`, `isDigit` and `toIntOrNull` are stated for ASCII characters only.
- The image pipeline beyond validation is not modelled. That covers ImageIO decoding, contrast, noise reduction, resizing and Base64. Decoding is an input saying whether the image decodes and what its width and height are.
- `Medicine`'s JPA mapping, and the `User` entity's persistence hooks, are not modelled.
- UserProfile.UserProfileService.UpdateUserProfile: the Bean Validation constraints on the `User` entity are not checked (User.java lines 36-60). They are `@NotBlank` and `@Size(min = 3, max = 50)` on the username, `@NotBlank` and `@Email` on the email, `@NotBlank` and `@Size(min = 8)` on the password, `@NotBlank` and `@Size(max = 50)` on the names, and `@Pattern("^\\+?[1-9]\\d{1,14}$")` on the phone number. The model saves every update and returns `Ok`. In the source, a value that breaks a constraint fails when the entity is flushed. An example is a phone number that trims to the empty string. The other members that save a user do not check these constraints either.
- The `@Pattern` on `ChangePasswordDto` is a regular-expression concern and is not part of this model.
- Room, Retrofit, Moshi, Hilt and the Compose UI are not modelled. The client's view models get what their use cases emit as a sequence of `Resource` values, applied in order.
- DataStore failures are a `fault` flag in `TokenStore` and a `StoreRead` outcome in `UserSettings`. The `IOException` that the setters of `UserPreferencesManager` can throw is not modelled.
- AuthInterceptors.RefreshIntercept: the outcome of the retried request is an input. In the source, the retry at AuthInterceptor.kt line 85 runs inside the `try`. If the retried call threw, the tokens just saved would be cleared and the closed first response returned. The model does not cover that case.
- ReminderForms.UpdatedForm: a non-empty list of the wrong element type is treated as a failed cast. Kotlin's `as List<String>` and `as List<Int>` (ReminderViewModel.kt lines 113-114) do not check the elements, so the source accepts such a list into the form and fails only when an element is read. The form's lists are typed, so the model cannot hold such a list. An empty list of either element type is accepted, as in the source.
- ReminderForms.ReminderViewModel.UpdateFormField: the same gap as `UpdatedForm`. A non-empty list of the wrong element type leaves the form unchanged and reports a throw, where the source stores the list.
- `AuthViewModel`'s `checkAuthStatus`, `login`, `register`, `getCurrentUser` and `forgotPassword` are network use cases and are not modelled. The constructor starts from the default states without the `checkAuthStatus` that `init` launches.
- ProfileScreens.ProfileViewModel.constructor: the `loadCurrentUser` that `init` launches is the separate method `LoadCurrentUser`.
- ProfileScreens.ProfileViewModel.SaveProfile: the `loadCurrentUser` refresh after a successful save is the separate method `LoadCurrentUser`.
- The rest of `ReminderViewModel` is not modelled: list loading, deletion, activation, alarms, intake logs and weekly statistics. These are database and calendar work.
- `AddReminderScreen`'s date formatting is not modelled.
- The repository's other mappings between pharmacy entities and pharmacies are not modelled.

## Findings

| source | as written | input that shows it | evidently intended | confidence | as-written member | corrected member |
|---|---|---|---|---|---|---|
| medassist-backend/src/main/java/com/medassist/auth/entity/Role.java:58-66 | Lombok `@Data` puts `permissions` into `Role.hashCode`. `addPermission` changes the role's hash and then files the role in `permission.roles`. `removePermission` changes it again before removing, so the `HashSet` looks in the wrong bucket. | a new role and a new permission; `addPermission(p)` then `removePermission(p)`: `p.roles` still holds the role | after remove, neither side holds the other | not executed | RoleHashing.RemoveAfterAddLeavesRole | AuthEntity.Role.RemovePermission |
| medassist-backend/src/main/java/com/medassist/auth/service/AuthenticationService.java:117 | `registerUser` stores `Set.of(userRole)`, which is immutable. `registerHealthcareProvider` then calls `getRoles().add(...)` on it, which throws `UnsupportedOperationException`. The result is a 500, the transaction rolls back, and the verification email has already been sent. | any provider registration with a free licence number, username and email | the provider is saved with roles USER and HEALTHCARE_PROVIDER | not executed | AuthService.AuthenticationService.RegisterHealthcareProviderAsWritten | AuthService.AuthenticationService.RegisterHealthcareProvider |
| Medassistandroid/app/src/main/java/com/example/medassist_android/presentation/auth/AuthViewModel.kt:263-277 | `passwordsMatch` is recomputed only when the confirmation is edited. Editing the password afterwards leaves it stale, and the registration screen's `isFormValid` trusts it. | password "Secret123", confirmation "Secret123", then password "Other4567": the form is valid and `register` is sent "Other4567" | the flag always says whether the two fields agree | not executed | AuthScreens.StaleMatchAsWritten | AuthScreens.MatchStaysExact |
| Medassistandroid/app/src/main/java/com/example/medassist_android/presentation/auth/RegisterScreen.kt:388-396 | the form counts as valid on the stale flag | the same typing, with the other fields filled in: a password different from its confirmation is submitted | a submitted password equals its confirmation | not executed | RegisterForms.UnconfirmedPasswordSubmittedAsWritten | RegisterForms.SubmittedPasswordIsConfirmed |

