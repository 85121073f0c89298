# support-service: identity, authorization and ticket logic in Dafny

A Dafny model of the decision logic of the `support-service` system. The system is four Spring
services:

- **Gateway.** `RouteValidator` decides which paths are secured. `AuthenticationFilter` forwards
  open paths untouched, and for a secured path reads the bearer token and either forwards the
  request with `userId`, `username` and `role` headers or answers 401.
- **User service.**
  - `JwtUtils` issues tokens, keeps an insert-only blacklist and validates tokens.
  - `AuthTokenFilter` authenticates a request from its bearer token.
  - `AuthDetails` builds the principal from a user.
  - `UserService` registers users, applies partial profile updates, resets verification when the
    e-mail changes, verifies users and checks tokens.
  - `VerificationCodeService` and the `VerificationCode` entity cover the six-digit e-mail
    codes: generate, expire, validate, resend and purge.
- **Support service.**
  - `RoleUtil` ranks roles: ADMIN 4, MODERATOR 3, SUPPORT_STAFF 2, USER 1.
  - `UserRoleContext` remembers one user's role per request.
  - `SupportTicketService` creates tickets and updates them for their owner or for staff,
    sending a notice when a ticket is resolved.
  - `SupportTicketCacheService` keeps ticket DTOs in Redis with a TTL that depends on the status.
  - `SupportTicketMapper` turns tickets into DTOs.
- **Image service.** `ImageService` stores uploaded files and gives each one a download URL
  that names its id.

## How the model is built

One Dafny module per source class, each in its own file.

- **Stateful classes are Dafny classes.** The blacklist, the role memo, the cache store, the
  repositories and the exchanges keep their fields, and each method's `ensures` gives the new
  state as a function of the old one.
- **Pure logic is functions.** Lemmas state the properties that relate several calls.
- **Repositories are sequences of entity values** (`seq`) with an id counter. `findAll` order is
  sequence order. `save` is `Repo.Upsert`. `delete` is `Repo.RemoveKey`.
- **Collecting DTOs into a `Set`** is `Repo.Distinct`: equal DTOs merge. The model lists the
  remaining DTOs in entity order; the source's `HashSet` has no defined order, so no property
  below depends on that order.
- **Transactions.** A `@Transactional` operation that fails puts its database tables back as
  they were. The custom exceptions are unchecked, so Spring rolls back on them. Redis writes,
  Kafka messages and id generators are not transactional and are not undone. This has visible
  effects:
  - `validateVerificationCode` deletes an expired code and then throws, so the deletion is
    rolled back and the code stays.
  - `verifyUser` sets VERIFIED before its already-verified check, so on that failure the status
    change is rolled back.
  - In `updateSupportTicketForStaff`, when the resolution notice cannot be addressed (the owner's
    e-mail lookup fails), the ticket save is rolled back but the cache write stays.
  - The unique `code` column of `verification_code` is checked when the transaction commits.
    `save` does not flush, so in `addUser`, `updateUserInfo` (e-mail change) and
    `resendVerificationCode` a new code that another row already holds fails the call only
    after the confirmation carrying it has been sent. The model's repository reports the
    clash at `save`, and the user-service methods send the confirmation before they act on
    that report.
- **Kafka messages** are recorded in outbox sequences: `confirmations` for registration and
  ticket-creation messages, `resolutionNotices` for resolution notices.
- **Clocks.** `LocalDateTime.now()` is an integer clock in seconds. The JWT clock is in
  milliseconds, and `iat`/`exp` are whole seconds, as the JWT library stores them.
- **Randomness.** The random draw for a verification code is an input `draw` below 999999.
- **UUIDs** are natural numbers. Their text is their decimal numeral, which keeps it injective
  and free of whitespace, as a UUID's text is.
- **JWT signing and parsing** are abstract functions: `Jwt.Signer` maps claims to a token and
  `Jwt.Verifier` maps a token to its claims or a library error. `Jwt.SignerMatches` says the two
  use the same key.

Where the repository's description and its code disagree, the model follows the code:

- **`/auth/login` is secured.** It is described as a public route, but the open list in
  `RouteValidator` contains `/user/auth/login` and not `/auth/login`
  (`RouteValidator.SecuredExamples`).
- **An unknown required role fails.** `RoleUtil.hasRoleOrHigher` with a required role that is
  not in the table fails with the unboxing `NullPointerException` (`Err(NullPointer)` in
  `RoleUtil.CompareRoles`). The model does not forbid such a role.
- **No attachment on the ticket.** `addSupportTicket` stores the uploaded attachment's id in the
  request, but `createSupportTicket` does not copy it into the ticket, so a new ticket has no
  attachment id.
- **A stale role after a failed lookup.** `UserRoleContext.getUserRole` records the user id
  before the lookup. After a failed lookup, the next call for the same id answers with the
  previous user's role (`RoleContext.StaleRoleAfterFailure`).
- **The gateway ignores the blacklist.** A token revoked in the user service is still forwarded
  by the gateway (`GatewayFilter.RevokedTokenStillForwarded`).


## Model

| member | source | states |
|---|---|---|
| RouteValidator.NoStarUnchanged | services/gateway/src/main/java/com/fayupable/gateway/filter/RouteValidator.java:28 | A pattern without `*` is left unchanged by the `**` to `.*` rewrite. |
| RouteValidator.LiteralMatchesOnlyItself | services/gateway/src/main/java/com/fayupable/gateway/filter/RouteValidator.java:29 | A regular expression with neither `.` nor `*` fully matches exactly its own text. |
| RouteValidator.StarMatchesRun | services/gateway/src/main/java/com/fayupable/gateway/filter/RouteValidator.java:29 | `.*` fully matches every text without a line terminator. |
| RouteValidator.DoubleStarMatchesAnyTail | services/gateway/src/main/java/com/fayupable/gateway/filter/RouteValidator.java:28-29 | A literal prefix followed by `**` matches that prefix followed by any text without a line terminator. |
| RouteValidator.AnyMatchExists | services/gateway/src/main/java/com/fayupable/gateway/filter/RouteValidator.java:25-30 | `anyMatch` holds exactly when some listed pattern, rewritten, fully matches the path. |
| RouteValidator.OrderIndependent | services/gateway/src/main/java/com/fayupable/gateway/filter/RouteValidator.java:25-30 | Two open-endpoint lists with the same members give the same answer for every path. |
| RouteValidator.AnyMatchOfPlain | services/gateway/src/main/java/com/fayupable/gateway/filter/RouteValidator.java:25-30 | For patterns without `.` or `*`, a path matches exactly when it is one of them. |
| RouteValidator.EndpointsArePlain | services/gateway/src/main/java/com/fayupable/gateway/filter/RouteValidator.java:14-20 | None of the five open endpoints contains `.` or `*`. |
| RouteValidator.SecuredUnlessListed | services/gateway/src/main/java/com/fayupable/gateway/filter/RouteValidator.java:14-34 | A path is secured exactly when it is not one of the five open endpoints spelled exactly. |
| RouteValidator.SecuredExamples | services/gateway/src/main/java/com/fayupable/gateway/filter/RouteValidator.java:14-20 | `/eureka/apps`, `/user/auth/login/x` and `/auth/login` are all secured: the list has no wildcard and `/auth/login` is not on it. |
| GatewayFilter.ExtractAuthHeader | services/gateway/src/main/java/com/fayupable/gateway/filter/AuthenticationFilter.java:70-84 | A missing Authorization header is an error; otherwise the first value, without its `Bearer ` prefix when it has one and unchanged when it does not. |
| GatewayFilter.AddHeadersToRequest | services/gateway/src/main/java/com/fayupable/gateway/filter/AuthenticationFilter.java:103-112 | The rebuilt request keeps the path and every other header, and carries exactly one value each for `userId`, `username` and `role`. |
| GatewayFilter.ReadUserHeader | services/gateway/src/main/java/com/fayupable/gateway/filter/AuthenticationFilter.java:41-47 | Succeeds exactly when the token parses and has at least one role; the header values are then its id claim, its subject and its first role. |
| GatewayFilter.Decide | services/gateway/src/main/java/com/fayupable/gateway/filter/AuthenticationFilter.java:32-68 | An open path is forwarded untouched; every rejection is 401; a forwarded secured request carries the identity read from its own bearer token. |
| GatewayFilter.ServerExchange.constructor | services/gateway/src/main/java/com/fayupable/gateway/filter/AuthenticationFilter.java:34 | A fresh exchange has no status, is not completed and has forwarded nothing. |
| GatewayFilter.ServerExchange.HandleUnauthorizedAccess | services/gateway/src/main/java/com/fayupable/gateway/filter/AuthenticationFilter.java:114-122 | Sets status 401 and completes the response. |
| GatewayFilter.ServerExchange.Apply | services/gateway/src/main/java/com/fayupable/gateway/filter/AuthenticationFilter.java:32-68 | The exchange ends as `Decide` says: forwarded with no status set, or 401, completed and not forwarded. |
| GatewayFilter.MissingHeaderRejected | services/gateway/src/main/java/com/fayupable/gateway/filter/AuthenticationFilter.java:71-76 | A secured request without an Authorization header is answered 401. |
| GatewayFilter.InvalidTokenRejected | services/gateway/src/main/java/com/fayupable/gateway/filter/AuthenticationFilter.java:86-93 | A secured request whose token does not parse (bad signature, malformed, expired, blank) is answered 401. |
| GatewayFilter.EmptyRolesRejected | services/gateway/src/main/java/com/fayupable/gateway/filter/AuthenticationFilter.java:44-47 | A valid token with an empty role list is answered 401 (the `get(0)` fails inside the `try`). |
| GatewayFilter.ForwardedIdentityComesFromToken | services/gateway/src/main/java/com/fayupable/gateway/filter/AuthenticationFilter.java:41-59 | Whenever a secured request is forwarded, its token parses and `userId`, `username` and `role` are the token's id, subject and first role; other headers are as received. |
| GatewayFilter.RevokedTokenStillForwarded | services/gateway/src/main/java/com/fayupable/gateway/filter/AuthenticationFilter.java:86-93 | The gateway does not consult the user service's blacklist: a revoked but well-signed, unexpired token is forwarded while the user service's `validateToken` answers false. |
| GatewayFilter.IssuedTokenForwardsIdentity | services/gateway/src/main/java/com/fayupable/gateway/filter/AuthenticationFilter.java:32-68 | End to end: a token the user service issued for a user, presented before it expires, is forwarded with that user's id, e-mail and first role name. |
| Jwt.ParseClaimsJws | services/gateway/src/main/java/com/fayupable/gateway/util/JwtUtil.java:18-20 | A blank token is an illegal argument; a token parses exactly when its signature verifies and the clock is not past `exp`, and then yields its claims; it is expired exactly when signed and past `exp`. |
| Jwt.IssuedClaims | services/user-service/src/main/java/com/fayupable/test/security/jwt/JwtUtils.java:28-43 | The issued claims carry the e-mail as subject, the user id as text and the authority names as roles; `iat` and `exp` are whole seconds, `exp` within one second of issue time plus lifetime. |
| Jwt.SignedTokenParses | services/user-service/src/main/java/com/fayupable/test/security/jwt/JwtUtils.java:28-43 | With matching keys a signed token parses back to its claims up to its expiry and is expired afterwards. |
| Jwt.IssuedTokenLifetime | services/user-service/src/main/java/com/fayupable/test/security/jwt/JwtUtils.java:38-39 | An issued token is accepted from its issue time until the lifetime has run (less the sub-second truncation) and is expired once the lifetime has passed. |
| UserJwt.ValidateOutcome | services/user-service/src/main/java/com/fayupable/test/security/jwt/JwtUtils.java:58-77 | A blacklisted token is false; otherwise true exactly when the token parses; only the uncaught JWT exceptions escape as errors. |
| UserJwt.JwtUtils.constructor | services/user-service/src/main/java/com/fayupable/test/security/jwt/JwtUtils.java:18-26 | A fresh token utility has an empty blacklist. |
| UserJwt.JwtUtils.GenerateTokenForUser | services/user-service/src/main/java/com/fayupable/test/security/jwt/JwtUtils.java:28-43 | The token is non-blank and decodes to the issued claims of the principal at the current clock. |
| UserJwt.JwtUtils.BlacklistToken | services/user-service/src/main/java/com/fayupable/test/security/jwt/JwtUtils.java:90-92 | The token is added and blacklisted afterwards; nothing already blacklisted is removed. |
| UserJwt.JwtUtils.ValidateToken | services/user-service/src/main/java/com/fayupable/test/security/jwt/JwtUtils.java:58-77 | Same answer as `ValidateOutcome` on the current blacklist: false for a revoked token, true exactly when unrevoked and parsing. |
| UserJwt.JwtUtils.GetUserNameFromToken | services/user-service/src/main/java/com/fayupable/test/security/jwt/JwtUtils.java:49-56 | Succeeds exactly when the token parses, giving its subject. |
| UserJwt.JwtUtils.GetUserIdFromToken | services/user-service/src/main/java/com/fayupable/test/security/jwt/JwtUtils.java:79-87 | Succeeds exactly when the token parses, giving its id claim with surrounding whitespace trimmed. |
| UserJwt.RevokedNeverValidates | services/user-service/src/main/java/com/fayupable/test/security/jwt/JwtUtils.java:58-62 | Once a token is blacklisted it never validates again, whatever is added to the blacklist later. |
| UserJwt.CaughtExceptionsGiveFalse | services/user-service/src/main/java/com/fayupable/test/security/jwt/JwtUtils.java:66-76 | Expired, malformed, badly signed, unsupported and blank tokens all give false rather than an exception. |
| UserJwt.IssuedTokenRoundTrip | services/user-service/src/main/java/com/fayupable/test/security/jwt/JwtUtils.java:28-87 | A token issued to a principal and checked before expiry validates unless revoked, and gives back the principal's e-mail, id text and authorities. |
| UserJwt.IssuedTokenUserId | services/user-service/src/main/java/com/fayupable/test/security/jwt/JwtUtils.java:79-87 | The user id read back from an issued token is the principal's id text (the trim changes nothing). |
| UserTokenFilter.ParseJwt | services/user-service/src/main/java/com/fayupable/test/security/jwt/AuthTokenFilter.java:63-69 | A token is extracted exactly when the header has text and starts with `Bearer `; the header is then that prefix followed by the token. |
| UserTokenFilter.FilterDecision | services/user-service/src/main/java/com/fayupable/test/security/jwt/AuthTokenFilter.java:30-61 | A written response is always 401 or 500; the chain runs authenticated only for a token that validates, as the principal whose username is the token's subject. |
| UserTokenFilter.ServletExchange.constructor | services/user-service/src/main/java/com/fayupable/test/security/jwt/AuthTokenFilter.java:30-33 | A fresh exchange has status 200, no body, no authentication and the chain not yet invoked. |
| UserTokenFilter.ServletExchange.Respond | services/user-service/src/main/java/com/fayupable/test/security/jwt/AuthTokenFilter.java:37-41 | Sets the status and the body and nothing else. |
| UserTokenFilter.ServletExchange.DoFilterInternal | services/user-service/src/main/java/com/fayupable/test/security/jwt/AuthTokenFilter.java:30-61 | The response and security context end as `FilterDecision` says: the chain invoked with that authentication, or the status and body written and the chain not invoked. |
| UserTokenFilter.NoTokenContinues | services/user-service/src/main/java/com/fayupable/test/security/jwt/AuthTokenFilter.java:35-36 | Without a bearer token the chain continues unauthenticated. |
| UserTokenFilter.RevokedTokenRefused | services/user-service/src/main/java/com/fayupable/test/security/jwt/AuthTokenFilter.java:37-41 | A blacklisted token is answered 401 with the revoked-token body. |
| UserTokenFilter.InvalidTokenPassesUnauthenticated | services/user-service/src/main/java/com/fayupable/test/security/jwt/AuthTokenFilter.java:42-48 | A token that fails validation through a caught exception passes on unauthenticated. |
| UserTokenFilter.OtherJwtExceptionRefused | services/user-service/src/main/java/com/fayupable/test/security/jwt/AuthTokenFilter.java:49-53 | Any other JWT exception is answered 401 with the invalid-token body. |
| UserTokenFilter.ValidTokenAuthenticatesSubject | services/user-service/src/main/java/com/fayupable/test/security/jwt/AuthTokenFilter.java:42-58 | A valid token authenticates the user whose e-mail is its subject; when there is none the answer is 500 `User not found`. |
| Users.Role.Name | services/user-service/src/main/java/com/fayupable/test/entity/user/UserInfo.java:46-49 | Every role's authority name starts with `ROLE_`. |
| Users.RoleNameInjective | services/user-service/src/main/java/com/fayupable/test/security/user/AuthDetails.java:67-70 | Distinct roles have distinct authority names. |
| Users.FindByEmail | services/user-service/src/main/java/com/fayupable/test/repository/IUserRepository.java:13 | Finds a user exactly when some row has that e-mail, and the row found has it. |
| SecurityUser.AuthDetails.Username | services/user-service/src/main/java/com/fayupable/test/security/user/AuthDetails.java:49-52 | The username of a principal is its e-mail. |
| SecurityUser.AuthorityNames | services/user-service/src/main/java/com/fayupable/test/security/user/AuthDetails.java:67-70 | One authority per role, in order, named by the role. |
| SecurityUser.BuildUserDetails | services/user-service/src/main/java/com/fayupable/test/security/user/AuthDetails.java:66-78 | Copies id, e-mail and password; the username is the e-mail; one authority per role, named by it. |
| SecurityUser.AuthoritiesMatchRoles | services/user-service/src/main/java/com/fayupable/test/security/user/AuthDetails.java:66-78 | For a user whose roles are distinct, an authority is granted exactly when its role is held, and no authority repeats. |
| SecurityUser.LoadUserByUsername | services/user-service/src/main/java/com/fayupable/test/security/user/AuthDetailsService.java:17-21 | Succeeds exactly when a user has that e-mail, with that username; otherwise `User not found`. |
| UserStore.UserRepository.constructor | services/user-service/src/main/java/com/fayupable/test/repository/IUserRepository.java:11-13 | An empty table whose id generator is ahead of every id. |
| UserStore.UserRepository.FindById | services/user-service/src/main/java/com/fayupable/test/service/user/UserService.java:232-235 | Finds a row exactly when one has that id, and the row found has it. |
| UserStore.UserRepository.NewId | services/user-service/src/main/java/com/fayupable/test/entity/user/UserInfo.java:23-26 | A generated id is not held by any row and is never issued again. |
| UserStore.UserRepository.Save | services/user-service/src/main/java/com/fayupable/test/service/user/UserService.java:202-205 | Inserts or replaces the row with that id; afterwards the id finds exactly the saved row. |
| UserStore.UserRepository.Restore | services/user-service/src/main/java/com/fayupable/test/service/user/UserService.java:64-77 | Puts the table back as it was when a transaction started. |
| UserStore.VerificationCodeRepository.constructor | services/user-service/src/main/java/com/fayupable/test/repository/IVerificationCodeRepository.java:11-19 | An empty table whose id generator is ahead of every id. |
| UserStore.VerificationCodeRepository.NewId | services/user-service/src/main/java/com/fayupable/test/entity/verification/VerificationCode.java:19-22 | A generated id is not held by any row and is never issued again. |
| UserStore.VerificationCodeRepository.FindByUserIdAndCode | services/user-service/src/main/java/com/fayupable/test/repository/IVerificationCodeRepository.java:13 | Finds a code of that user with that text exactly when one exists. |
| UserStore.VerificationCodeRepository.FindByUserId | services/user-service/src/main/java/com/fayupable/test/repository/IVerificationCodeRepository.java:19 | Several codes for the user are a non-unique-result error; none gives empty; otherwise the user's only code. |
| UserStore.VerificationCodeRepository.Save | services/user-service/src/main/java/com/fayupable/test/entity/verification/VerificationCode.java:24-25 | Refused exactly when another row already holds the same code text (the unique column); otherwise inserts or replaces by id. |
| UserStore.VerificationCodeRepository.Delete | services/user-service/src/main/java/com/fayupable/test/service/verification/VerificationCodeService.java:88-90 | Removes the row with that id and only it. |
| UserStore.VerificationCodeRepository.DeleteAllByExpirationTimeBefore | services/user-service/src/main/java/com/fayupable/test/repository/IVerificationCodeRepository.java:15 | Leaves exactly the codes that have not expired at the given time. |
| UserStore.FirstOfUserWithCode | services/user-service/src/main/java/com/fayupable/test/repository/IVerificationCodeRepository.java:13 | A code of the given user with the given text, present exactly when one exists. |
| UserStore.CodesOf | services/user-service/src/main/java/com/fayupable/test/repository/IVerificationCodeRepository.java:19 | Exactly the codes that belong to the user. |
| UserStore.Unexpired | services/user-service/src/main/java/com/fayupable/test/repository/IVerificationCodeRepository.java:15 | Exactly the codes not expired at the given time; never more codes than before. |
| VerificationCodes.PrePersist | services/user-service/src/main/java/com/fayupable/test/entity/verification/VerificationCode.java:37-41 | A persisted code is stamped with the clock and expires five minutes later; id, code and owner are kept. |
| VerificationCodes.ExpiryTestsAgree | services/user-service/src/main/java/com/fayupable/test/entity/verification/VerificationCode.java:44-46 | The entity's `isExpired` and the service's `isCodeExpired` agree, and a code is not expired at its own expiry instant. |
| VerificationCodes.PersistedCodeLifetime | services/user-service/src/main/java/com/fayupable/test/entity/verification/VerificationCode.java:37-46 | A persisted code is expired exactly when the clock is more than five minutes past its creation. |
| VerificationCodes.GenerateVerificationCode | services/user-service/src/main/java/com/fayupable/test/service/verification/VerificationCodeService.java:103-105 | The code is six decimal digits whose value is the number drawn. |
| VerificationCodes.GeneratedCodesDiffer | services/user-service/src/main/java/com/fayupable/test/service/verification/VerificationCodeService.java:103-105 | Different draws give different codes. |
| VerificationService.VerificationCodeService.constructor | services/user-service/src/main/java/com/fayupable/test/service/verification/VerificationCodeService.java:26-30 | The service works over the two given repositories. |
| VerificationService.VerificationCodeService.Rollback | services/user-service/src/main/java/com/fayupable/test/service/verification/VerificationCodeService.java:48-57 | Both tables go back to their state when the transaction started. |
| VerificationService.VerificationCodeService.GenerateAndSaveVerificationCode | services/user-service/src/main/java/com/fayupable/test/service/verification/VerificationCodeService.java:32-40 | An unknown user is refused; otherwise success holds exactly when no row holds the new code, and then the fresh row for the user, expiring five minutes from now, is appended; the only other failure is the duplicate-key error, which changes nothing. |
| VerificationService.VerificationCodeService.DeleteExpiredVerificationCodes | services/user-service/src/main/java/com/fayupable/test/service/verification/VerificationCodeService.java:42-46 | Leaves exactly the codes not yet expired. |
| VerificationService.VerificationCodeService.ValidateVerificationCode | services/user-service/src/main/java/com/fayupable/test/service/verification/VerificationCodeService.java:48-57 | Missing code, expired code and unknown user are refused with both tables unchanged; otherwise the user is marked verified and that code is deleted. |
| VerificationService.VerificationCodeService.ResendVerificationCode | services/user-service/src/main/java/com/fayupable/test/service/verification/VerificationCodeService.java:59-73 | Unknown and already verified users are refused; several codes or none are errors; with exactly one code, success holds exactly when no other row already holds the new text (otherwise a duplicate-key error), and then that row keeps its id and user and gets the new text and a five-minute expiry while nothing else changes; the answer is `ResendOutcome`. |
| VerificationService.ResendOutcome | services/user-service/src/main/java/com/fayupable/test/service/verification/VerificationCodeService.java:59-73 | For an existing user: already verified, several codes, no code and duplicate new text give their errors in the source's order; success holds exactly for one code whose new text is free, and the result keeps that row's id, user and creation time with the new text and a five-minute expiry. |
| VerificationService.PurgeIsExact | services/user-service/src/main/java/com/fayupable/test/service/verification/VerificationCodeService.java:42-46 | The purge keeps exactly the codes whose expiry is not before the clock, and a second purge changes nothing. |
| UserService.RoleOf | services/user-service/src/main/java/com/fayupable/test/repository/IUserRepository.java:19-20 | An unknown user, or one without a role, is `User not found with id`; a user with several roles is a non-unique result; otherwise the name of the one role. |
| UserService.NewProfiles | services/user-service/src/main/java/com/fayupable/test/service/user/UserService.java:103-112 | One new profile per requested one, in order, with its bio and avatar. |
| UserService.NewContacts | services/user-service/src/main/java/com/fayupable/test/service/user/UserService.java:93-101 | One new contact per requested one, in order, with its phone number. |
| UserService.UpdatedProfiles | services/user-service/src/main/java/com/fayupable/test/service/user/UserService.java:305-315 | The replacement profiles: one per requested one, keeping the requested id. |
| UserService.UpdatedContacts | services/user-service/src/main/java/com/fayupable/test/service/user/UserService.java:317-326 | The replacement contacts: one per requested one, keeping the requested id. |
| UserService.CreateUser | services/user-service/src/main/java/com/fayupable/test/service/user/UserService.java:80-91 | Fails exactly when a list is null; otherwise the requested names, the encoded password, the single role ROLE_USER, the profiles and contacts built from the requested ones in order, PENDING_APPROVAL and not verified. |
| UserService.ApplyUpdate | services/user-service/src/main/java/com/fayupable/test/service/user/UserService.java:265-303 | Each null field of the update keeps the old value and each present one replaces it: the password encoded, profiles and contacts replaced wholesale by the requested ones; id, e-mail, status, verification and roles are untouched. |
| UserService.WithEmail | services/user-service/src/main/java/com/fayupable/test/service/user/UserService.java:334-349 | A new, different e-mail replaces the old one and resets the user to unverified and PENDING_APPROVAL; otherwise the user is unchanged. |
| UserService.CheckToken | services/user-service/src/main/java/com/fayupable/test/service/user/UserService.java:146-164 | Valid exactly when `JwtUtils.validateToken` is true, then with the token's subject and trimmed id; otherwise `Invalid token` or the error's message. |
| UserService.UserService.constructor | services/user-service/src/main/java/com/fayupable/test/service/user/UserService.java:39-49 | The service works over the verification service's repositories and has sent no confirmation. |
| UserService.UserService.GetRoleByUserId | services/user-service/src/main/java/com/fayupable/test/service/user/UserService.java:58-62 | The role lookup of `RoleOf` on the current table; an unknown user is `User not found with id`. |
| UserService.UserService.SendUserConfirmation | services/user-service/src/main/java/com/fayupable/test/service/user/UserService.java:237-244 | Appends one confirmation with the user's id and e-mail and the code and its expiry. |
| UserService.UserService.AddUser | services/user-service/src/main/java/com/fayupable/test/service/user/UserService.java:64-77 | Fails with a null-list error, sending nothing, when a list is null; otherwise one confirmation with the new code is always sent, and the call succeeds exactly when no stored code has the new text (otherwise a duplicate-key error at commit). On success the new user is appended with a fresh id and exactly the new code row is appended; on any failure the users and codes tables are unchanged. |
| UserService.UserService.HandleEmailUpdate | services/user-service/src/main/java/com/fayupable/test/service/user/UserService.java:334-349 | An unchanged e-mail does nothing and sends nothing. A new one always sends a confirmation to the new address, and succeeds exactly when no stored code has the new text; then the user is saved reset to unverified and pending and exactly the new code row is appended. The only failure is the duplicate code at commit, which leaves both tables unchanged but not the confirmation already sent. |
| UserService.UserService.UpdateUserInfo | services/user-service/src/main/java/com/fayupable/test/service/user/UserService.java:247-332 | Unknown user, missing principal and another principal are refused and send nothing. For the owner it succeeds exactly when the e-mail is unchanged or no stored code has the new text; an e-mail change always sends a confirmation to the new address. The user is saved as the update applied after the e-mail handling, with exactly the new code row appended on an e-mail change; a failure leaves both tables unchanged. |
| UserService.UserService.VerifyUser | services/user-service/src/main/java/com/fayupable/test/service/user/UserService.java:167-205 | Unknown e-mail, already verified, missing code and expired code are refused with both tables unchanged; otherwise the user becomes VERIFIED and verified, and the code is deleted. |
| UserService.UserService.ResendVerificationCode | services/user-service/src/main/java/com/fayupable/test/service/user/UserService.java:208-230 | A missing principal or unknown user is refused; otherwise the answer follows `ResendOutcome` (already verified, no code, several codes, duplicate code, or success). On success and on the duplicate-code failure at commit, one confirmation with the new code and a five-minute expiry goes to the user's e-mail; on success the new code is returned and the re-issued row is saved over the old one. A failure leaves the code table unchanged, and the other failures send nothing. |
| UserService.EmptyUpdateChangesNothing | services/user-service/src/main/java/com/fayupable/test/service/user/UserService.java:265-303 | An update with every field null leaves the user as it was and is not an e-mail change. |
| UserService.UpdateIsIdempotent | services/user-service/src/main/java/com/fayupable/test/service/user/UserService.java:265-349 | Applying the same update twice gives the same user as applying it once. |
| UserService.NewUserAuthorities | services/user-service/src/main/java/com/fayupable/test/service/user/UserService.java:80-91 | A newly created user's only authority is `ROLE_USER`. |
| UserService.IssuedTokenChecksOut | services/user-service/src/main/java/com/fayupable/test/service/user/UserService.java:146-164 | A token the service issued, checked before expiry, is valid with the principal's e-mail and id text, unless revoked, when it is `Invalid token`. |
| UserService.CheckParsedToken | services/user-service/src/main/java/com/fayupable/test/service/user/UserService.java:150-154 | An unrevoked token that parses is valid with its subject and trimmed id claim. |
| UserService.RevokedTokenChecksInvalid | services/user-service/src/main/java/com/fayupable/test/service/user/UserService.java:146-164 | A revoked token is always `Invalid token`. |
| UserClient.GetRoleByUserId | services/support-service/src/main/java/com/fayupable/test/client/user/UserClient.java:14-15 | Fails exactly for an id the user service does not know; otherwise that user's role, possibly null. |
| UserClient.GetEmailByUserId | services/support-service/src/main/java/com/fayupable/test/client/user/UserClient.java:11-12 | Fails exactly for an id the user service does not know; otherwise that user's e-mail. |
| RoleUtil.Rank | services/support-service/src/main/java/com/fayupable/test/util/RoleUtil.java:22-30 | Defined exactly for the four roles of the hierarchy, with ranks from 1 to 4. |
| RoleUtil.RanksAreDistinct | services/support-service/src/main/java/com/fayupable/test/util/RoleUtil.java:22-30 | The hierarchy has only the four roles and no two share a rank. |
| RoleUtil.CompareRoles | services/support-service/src/main/java/com/fayupable/test/util/RoleUtil.java:70-76 | A null or unknown user role is false; a known user role against an unknown required role fails (the unboxing NullPointerException); otherwise true exactly when the user's rank is at least the required rank. |
| RoleUtil.HasRoleOrHigher | services/support-service/src/main/java/com/fayupable/test/util/RoleUtil.java:66-81 | A failed user-client call propagates; otherwise true exactly when the fetched role and the required role are both known and the fetched one ranks at least as high. |
| RoleUtil.HasRoleOrHigherTest | services/support-service/src/main/java/com/fayupable/test/util/RoleUtil.java:83-94 | The role comes from the request's memo, whose new state is the memo step's; the answer is true exactly when the memo answers and the comparison holds, and every exception becomes false. |
| RoleUtil.AdminSatisfiesEveryRole | services/support-service/src/main/java/com/fayupable/test/util/RoleUtil.java:49-51 | ADMIN passes every check for a role of the hierarchy. |
| RoleUtil.SupportStaffExample | services/support-service/src/main/java/com/fayupable/test/util/RoleUtil.java:49-53 | SUPPORT_STAFF passes USER and SUPPORT_STAFF but not MODERATOR or ADMIN; USER does not pass SUPPORT_STAFF. |
| RoleUtil.Reflexive | services/support-service/src/main/java/com/fayupable/test/util/RoleUtil.java:76 | Every role of the hierarchy passes a check for itself. |
| RoleUtil.Transitive | services/support-service/src/main/java/com/fayupable/test/util/RoleUtil.java:76 | Passing a role implies passing every role ranked no higher. |
| RoleUtil.Monotone | services/support-service/src/main/java/com/fayupable/test/util/RoleUtil.java:76 | A higher-ranked user passes whatever a lower-ranked one passes. |
| RoleUtil.TestVariantFailsClosed | services/support-service/src/main/java/com/fayupable/test/util/RoleUtil.java:83-94 | A true answer implies both roles are known and the user's rank is at least the required one. |
| RoleContext.GetUserRoleStep | services/support-service/src/main/java/com/fayupable/test/util/UserRoleContext.java:22-35 | A hit answers the cached role without a lookup; a miss records the id, looks the role up once and caches it, or answers `Failed to retrieve user role` keeping the previous role beside the new id. |
| RoleContext.UserRoleContext.constructor | services/support-service/src/main/java/com/fayupable/test/util/UserRoleContext.java:18-20 | A fresh memo holds no id and no role and has made no lookup. |
| RoleContext.UserRoleContext.GetUserRole | services/support-service/src/main/java/com/fayupable/test/util/UserRoleContext.java:22-35 | The new memo, the answer and the recorded lookups are those of `GetUserRoleStep` from the old memo. |
| RoleContext.SecondCallIsHit | services/support-service/src/main/java/com/fayupable/test/util/UserRoleContext.java:22-35 | A second call for the same id makes no lookup, changes nothing and repeats a successful first answer. |
| RoleContext.OneEntryOnly | services/support-service/src/main/java/com/fayupable/test/util/UserRoleContext.java:28-29 | Only one id is remembered: after a call for another id, the first id is looked up again. |
| RoleContext.StaleRoleAfterFailure | services/support-service/src/main/java/com/fayupable/test/util/UserRoleContext.java:22-35 | After a failed lookup for an id, the next call for it answers, without error, the role left over from the previous id. |
| Tickets.MapDetails | services/support-service/src/main/java/com/fayupable/test/mapper/SupportTicketMapper.java:31-35 | One DTO per detail, in order, copying description and creation time. |
| Tickets.MapResolutions | services/support-service/src/main/java/com/fayupable/test/mapper/SupportTicketMapper.java:37-41 | One DTO per resolution, in order, copying message and closing time. |
| Tickets.FromSupportTicket | services/support-service/src/main/java/com/fayupable/test/mapper/SupportTicketMapper.java:21-44 | The scalar fields are copied and the DTO's collections are no longer than the ticket's. |
| Tickets.MappedCollections | services/support-service/src/main/java/com/fayupable/test/mapper/SupportTicketMapper.java:26-41 | The DTO's collections hold exactly the mapped entities, without repeats. |
| Tickets.EqualResolutionsCollapse | services/support-service/src/main/java/com/fayupable/test/mapper/SupportTicketMapper.java:37-41 | Two resolutions with the same message and closing time become one DTO, so the DTO has fewer resolutions than the ticket. |
| Tickets.ExtractResolutionMessage | services/support-service/src/main/java/com/fayupable/test/service/SupportTicketService.java:261-267 | The first resolution's message, or empty when there is none. |
| Tickets.NoticeMessageIsSomeResolution | services/support-service/src/main/java/com/fayupable/test/service/SupportTicketService.java:248-267 | The notice message of a ticket is empty when it has no resolution and otherwise the message of one of its resolutions; which one is not fixed by the source. |
| TicketCache.TicketKeysAreDistinct | services/support-service/src/main/java/com/fayupable/test/service/cache/SupportTicketCacheService.java:21-22 | Each ticket has its own key, and no ticket key is the list's key. |
| TicketCache.StatusTtl | services/support-service/src/main/java/com/fayupable/test/service/cache/SupportTicketCacheService.java:27-38 | PENDING and IN_PROGRESS live six hours, CLOSED and RESOLVED thirty minutes, anything else one hour. |
| TicketCache.DetermineTtl | services/support-service/src/main/java/com/fayupable/test/service/cache/SupportTicketCacheService.java:27-38 | The entity's TTL is positive and is the status TTL. |
| TicketCache.DetermineTtlDto | services/support-service/src/main/java/com/fayupable/test/service/cache/SupportTicketCacheService.java:40-51 | The DTO's TTL is positive and is the status TTL. |
| TicketCache.TtlsAgree | services/support-service/src/main/java/com/fayupable/test/service/cache/SupportTicketCacheService.java:27-51 | The entity switch and the DTO switch agree on a ticket and its DTO. |
| TicketCache.Live | services/support-service/src/main/java/com/fayupable/test/service/cache/SupportTicketCacheService.java:81-93 | An entry is found exactly while it has not expired. |
| TicketCache.TicketFrom | services/support-service/src/main/java/com/fayupable/test/service/cache/SupportTicketCacheService.java:81-93 | A read hits exactly when Redis is reached and a live ticket is stored under the ticket's key. |
| TicketCache.AllFrom | services/support-service/src/main/java/com/fayupable/test/service/cache/SupportTicketCacheService.java:104-116 | A read hits exactly when Redis is reached and a live list is stored under the list key. |
| TicketCache.SupportTicketCacheService.constructor | services/support-service/src/main/java/com/fayupable/test/service/cache/SupportTicketCacheService.java:19-25 | The store starts empty. |
| TicketCache.SupportTicketCacheService.CacheTicketDto | services/support-service/src/main/java/com/fayupable/test/service/cache/SupportTicketCacheService.java:54-64 | When Redis is reached, the DTO is stored under its ticket's key for its status TTL; otherwise nothing changes. |
| TicketCache.SupportTicketCacheService.CacheTicket | services/support-service/src/main/java/com/fayupable/test/service/cache/SupportTicketCacheService.java:67-78 | Stores the ticket's DTO for the entity's TTL, which is the same entry `cacheTicketDto` writes. |
| TicketCache.SupportTicketCacheService.GetCachedTicket | services/support-service/src/main/java/com/fayupable/test/service/cache/SupportTicketCacheService.java:81-93 | The live ticket under the key, and nothing when Redis is not reached. |
| TicketCache.SupportTicketCacheService.CacheAllTickets | services/support-service/src/main/java/com/fayupable/test/service/cache/SupportTicketCacheService.java:95-102 | When Redis is reached, the list is stored for three hours; otherwise nothing changes. |
| TicketCache.SupportTicketCacheService.GetCachedAllTickets | services/support-service/src/main/java/com/fayupable/test/service/cache/SupportTicketCacheService.java:104-116 | The live list, and nothing when Redis is not reached. |
| TicketCache.SupportTicketCacheService.EvictTicket | services/support-service/src/main/java/com/fayupable/test/service/cache/SupportTicketCacheService.java:118-126 | Removes the ticket's key only. |
| TicketCache.SupportTicketCacheService.EvictAllTickets | services/support-service/src/main/java/com/fayupable/test/service/cache/SupportTicketCacheService.java:128-135 | Removes the list key only. |
| TicketCache.CachedTicketReadBack | services/support-service/src/main/java/com/fayupable/test/service/cache/SupportTicketCacheService.java:54-93 | A cached ticket is read back until its TTL runs out, and not after. |
| TicketCache.CachingTicketTouchesOnlyItsKey | services/support-service/src/main/java/com/fayupable/test/service/cache/SupportTicketCacheService.java:54-93 | Caching one ticket changes the reads of no other ticket and of the list. |
| TicketCache.CachedListReadBack | services/support-service/src/main/java/com/fayupable/test/service/cache/SupportTicketCacheService.java:95-116 | The cached list is read back for three hours. |
| TicketCache.EvictedTicketIsGone | services/support-service/src/main/java/com/fayupable/test/service/cache/SupportTicketCacheService.java:118-135 | After an eviction the key reads as missing. |
| TicketService.ValidateUserAccess | services/support-service/src/main/java/com/fayupable/test/service/SupportTicketService.java:350-358 | A missing user id is refused; the user passes exactly when their role ranks at least USER; otherwise `Only users` (a client failure propagates). |
| TicketService.GetUserIdFromHeader | services/support-service/src/main/java/com/fayupable/test/service/SupportTicketService.java:379-385 | A missing header is refused, a malformed one is a bad UUID, and a parsed one gives its id. |
| TicketService.ProcessAttachment | services/support-service/src/main/java/com/fayupable/test/service/SupportTicketService.java:327-348 | A failed upload is an error; otherwise the first image id when any was returned. |
| TicketService.NewDetails | services/support-service/src/main/java/com/fayupable/test/service/SupportTicketService.java:108-117 | One detail per description, in order, stamped with the clock. |
| TicketService.NewResolutions | services/support-service/src/main/java/com/fayupable/test/service/SupportTicketService.java:119-128 | One resolution per message, in order, each with its own new id, stamped with the clock. |
| TicketService.CreateSupportTicket | services/support-service/src/main/java/com/fayupable/test/service/SupportTicketService.java:95-106 | Fails exactly when a list is null; otherwise a ticket for the requesting user with the requested status and priority, no worker, no attachment, the details built from the requested descriptions and the resolutions from the requested messages with consecutive fresh ids. |
| TicketService.UserUpdate | services/support-service/src/main/java/com/fayupable/test/service/SupportTicketService.java:156-175 | A user update changes only the priority and replaces the details; it fails on a null detail list. |
| TicketService.AppendedMessages | services/support-service/src/main/java/com/fayupable/test/service/SupportTicketService.java:229-234 | The resolution messages a staff update appends: the requested ones, or none for a null list. |
| TicketService.StaffUpdate | services/support-service/src/main/java/com/fayupable/test/service/SupportTicketService.java:211-234 | A staff update sets status and priority, keeps the details and appends new resolutions after the existing ones; nothing else changes. |
| TicketService.IndexOfResolution | services/support-service/src/main/java/com/fayupable/test/service/SupportTicketService.java:299-304 | The position of the resolution with that id, or none when no id is given or none matches. |
| TicketService.UpdateResolution | services/support-service/src/main/java/com/fayupable/test/service/SupportTicketService.java:299-310 | Fails exactly when the id is not found; otherwise only that resolution changes, to the new message and closing time. |
| TicketService.MapTickets | services/support-service/src/main/java/com/fayupable/test/service/SupportTicketService.java:51-58 | One DTO per ticket, in order. |
| TicketService.SupportTicketService.constructor | services/support-service/src/main/java/com/fayupable/test/service/SupportTicketService.java:40-48 | An empty ticket table and no message sent, over the given user client, role memo and cache. |
| TicketService.SupportTicketService.FindById | services/support-service/src/main/java/com/fayupable/test/service/SupportTicketService.java:206-209 | Finds a ticket exactly when one has that id, and the ticket found has it. |
| TicketService.SupportTicketService.Save | services/support-service/src/main/java/com/fayupable/test/service/SupportTicketService.java:147 | Inserts or replaces the ticket with that id. |
| TicketService.SupportTicketService.ReserveIds | services/support-service/src/main/java/com/fayupable/test/entity/TicketResolution.java:18-21 | Advances the id generator by the number of new resolutions. |
| TicketService.SupportTicketService.Restore | services/support-service/src/main/java/com/fayupable/test/service/SupportTicketService.java:76-93 | Puts the ticket table back as it was when the transaction started. |
| TicketService.SupportTicketService.ValidateStaff | services/support-service/src/main/java/com/fayupable/test/service/SupportTicketService.java:372-385 | A missing header is refused and a malformed one is a bad UUID; otherwise the memo advances and the caller passes exactly when they rank at least SUPPORT_STAFF, or gets `Only staff`. |
| TicketService.SupportTicketService.GetAllSupportTickets | services/support-service/src/main/java/com/fayupable/test/service/SupportTicketService.java:51-58 | Staff get every ticket's DTO, in table order, and the table is loaded once; anyone else is refused with the header's error or `Only staff`, without a load; the role memo takes one `getUserRole` step for a parsed header. |
| TicketService.SupportTicketService.GetAllSupportTicketsWithRedis | services/support-service/src/main/java/com/fayupable/test/service/SupportTicketService.java:61-73 | Staff get the live cached list without loading the table; on a miss they get every ticket's DTO, which is then cached; a refusal changes no cache. |
| TicketService.SupportTicketService.AddSupportTicket | services/support-service/src/main/java/com/fayupable/test/service/SupportTicketService.java:76-138 | Succeeds exactly when the user passes, the upload succeeds, both lists are present and the user's e-mail is known; then one ticket is appended, cached and confirmed as PENDING to that e-mail; any failure changes nothing. |
| TicketService.SupportTicketService.UpdateSupportTicketForUser | services/support-service/src/main/java/com/fayupable/test/service/SupportTicketService.java:141-184 | A user may update only a ticket they own: a missing ticket or another owner is refused; for the owner it succeeds exactly when the detail list is present, and then saves and caches the updated ticket; a failure changes nothing. |
| TicketService.SupportTicketService.HandleResolutionIfResolved | services/support-service/src/main/java/com/fayupable/test/service/SupportTicketService.java:236-259 | A RESOLVED ticket sends one notice, with its first resolution's message, to its owner's e-mail; it fails when that e-mail is unknown; other statuses send nothing. |
| TicketService.SupportTicketService.ProcessTicketUpdate | services/support-service/src/main/java/com/fayupable/test/service/SupportTicketService.java:194-234 | A missing ticket is refused; otherwise the staff update is saved and cached, and a RESOLVED ticket is notified; when the notice fails, the save is undone but the cache write is kept. |
| TicketService.SupportTicketService.UpdateSupportTicketForStaff | services/support-service/src/main/java/com/fayupable/test/service/SupportTicketService.java:187-192 | Non-staff are refused with nothing changed; for staff the outcome is `processTicketUpdate`'s. |
| TicketService.SupportTicketService.UpdateTicketResolution | services/support-service/src/main/java/com/fayupable/test/service/SupportTicketService.java:283-324 | Succeeds exactly for staff on an existing ticket with that resolution; then the one resolution is updated, saved and the ticket re-cached, and its new message and time are returned; a failure changes nothing. |
| TicketService.UpdatedResolutionIsFound | services/support-service/src/main/java/com/fayupable/test/service/SupportTicketService.java:299-317 | After the update the id lookup finds the same position, now with the new message and closing time. |
| TicketService.StaffNoticeMessage | services/support-service/src/main/java/com/fayupable/test/service/SupportTicketService.java:211-267 | The notice of a staff update is empty when the ticket has no resolution, old or appended, and otherwise carries the message of one of them; which one the hash-set order decides is left open. |
| TicketService.StaffUpdateKeepsResolutions | services/support-service/src/main/java/com/fayupable/test/service/SupportTicketService.java:229-234 | A staff update loses no resolution: old ones keep their place and each appended one gets a new id. |
| Images.DownloadUrlNamesTheImage | services/image-service/src/main/java/com/fayupable/test/service/ImageService.java:120-122 | Each image has its own download URL, which is the fixed prefix followed by the image id. |
| Images.SaveAll | services/image-service/src/main/java/com/fayupable/test/service/ImageService.java:84-89 | One row per file, in order, with consecutive new ids, the file's name, type and bytes and its download URL. |
| Images.MapImages | services/image-service/src/main/java/com/fayupable/test/service/ImageService.java:84-92 | One DTO per saved row. |
| Images.MapImagesPointwise | services/image-service/src/main/java/com/fayupable/test/mapper/ImageMapper.java:11-24 | Each DTO is the mapper's image of the row at the same position. |
| Images.AppendedRowsAreFound | services/image-service/src/main/java/com/fayupable/test/service/ImageService.java:111 | A row appended under a fresh id is found by that id. |
| Images.SavedRowReadBack | services/image-service/src/main/java/com/fayupable/test/service/ImageService.java:77-124 | Every image saved by one call is found again by its id, with its own download URL. |
| Images.ImageService.constructor | services/image-service/src/main/java/com/fayupable/test/service/ImageService.java:30-32 | The image table starts empty. |
| Images.ImageService.FindById | services/image-service/src/main/java/com/fayupable/test/service/ImageService.java:37 | Finds a row exactly when one has that id, and the row found has it. |
| Images.ImageService.GetImageById | services/image-service/src/main/java/com/fayupable/test/service/ImageService.java:34-44 | Unknown id is `Image not found`; otherwise the DTO of the row `findById` returns. |
| Images.ImageService.DownloadImage | services/image-service/src/main/java/com/fayupable/test/service/ImageService.java:47-66 | Unknown id is `Image not found with ID`; otherwise the stored bytes. |
| Images.ImageService.GetImageContentType | services/image-service/src/main/java/com/fayupable/test/service/ImageService.java:68-74 | Unknown id is `Image not found with ID`; otherwise the stored type, or `application/octet-stream` when none was stored. |
| Images.ImageService.ProcessAndSaveImage | services/image-service/src/main/java/com/fayupable/test/service/ImageService.java:102-118 | An unreadable file fails and changes nothing; otherwise one row with the next id, the file's name, type and bytes is appended. |
| Images.ImageService.UpdateDownloadUrl | services/image-service/src/main/java/com/fayupable/test/service/ImageService.java:120-124 | The last saved row is replaced, in place, by itself with its download URL. |
| Images.ImageService.SaveImages | services/image-service/src/main/java/com/fayupable/test/service/ImageService.java:77-100 | A missing user id is refused; succeeds exactly when every file is readable, then appends one row per file and returns their DTOs in order; a failure leaves the table unchanged. |
| Ids.UuidText | services/user-service/src/main/java/com/fayupable/test/service/user/UserService.java:58-62 | The text of an id is a non-empty run of digits. |
| Ids.UuidTextInjective | services/support-service/src/main/java/com/fayupable/test/service/cache/SupportTicketCacheService.java:56-59 | Different ids have different texts. |
| Ids.UuidTextIsTrimmed | services/user-service/src/main/java/com/fayupable/test/security/jwt/JwtUtils.java:79-87 | An id's text has no surrounding whitespace. |
| Repo.IndexOfKey | services/support-service/src/main/java/com/fayupable/test/service/SupportTicketService.java:312-317 | The first position holding the key, or none exactly when no element has it. |
| Repo.FindByKey | services/support-service/src/main/java/com/fayupable/test/service/SupportTicketService.java:206-209 | Finds an element exactly when one has the key, and it has the key. |
| Repo.Upsert | services/support-service/src/main/java/com/fayupable/test/service/SupportTicketService.java:147 | `save`: afterwards the key finds exactly the saved entity, every other key finds what it found before, and a new key appends. |
| Repo.UpsertOverwrite | services/user-service/src/main/java/com/fayupable/test/service/user/UserService.java:247-263 | Saving twice under one key equals saving the second entity once. |
| Repo.RemoveKey | services/user-service/src/main/java/com/fayupable/test/service/verification/VerificationCodeService.java:88-90 | `delete`: exactly the elements with other keys remain. |
| Repo.Distinct | services/support-service/src/main/java/com/fayupable/test/mapper/SupportTicketMapper.java:31-41 | Collecting into a set: the same members, no repeats, never longer. It also keeps the first element first, which holds of the model's entity order only (a `HashSet` has no order) and is not relied on. |
| Repo.DistinctShrinks | services/support-service/src/main/java/com/fayupable/test/mapper/SupportTicketMapper.java:37-41 | A sequence with a repeated element becomes strictly shorter when collected into a set. |
| Text.TrimIsCore | services/user-service/src/main/java/com/fayupable/test/security/jwt/JwtUtils.java:86 | `trim()` removes exactly the leading and trailing whitespace. |
| Text.ZeroPaddedRoundTrip | services/user-service/src/main/java/com/fayupable/test/service/verification/VerificationCodeService.java:103-105 | A zero-padded six-digit code reads back as the number it was formatted from. |

## Left out

- JWT cryptography and encoding: HMAC-SHA256 signing, Base64 and the JSON layout are abstract functions, so only the claims and the expiry rule are modelled.
- The gateway's `JwtUtil`: it is a thin wrapper over the JWT library. Its parse is `Jwt.ParseClaimsJws` and its claim getters are field reads.
- Concurrency: the synchronized blacklist set, the reactive `Mono` chain of the gateway and asynchronous e-mail sending are modelled as sequential steps.
- Header names are compared exactly; HTTP's case-insensitive header names are not modelled.
- Regular expressions: route patterns are restricted to literal text plus `.*` (after the `**` rewrite), which covers every pattern in the open list.
- UUID text is a decimal numeral rather than the 36-character hexadecimal form. Only its injectivity and its lack of whitespace are used.
- Database constraints other than the unique verification code, such as unique e-mail and username, are not enforced by the model's repositories.
- Kafka, e-mail and the notification consumer are recorded as outbox messages only. Templates and delivery are not modelled.
- Security annotations (`@PreAuthorize`), controllers, exception handlers and their status tables, `RoleHierarchyConfiguration`, the Feign configuration and the application classes are framework wiring outside this model.
- `UserService.login` and `authenticateUser` are not modelled. They delegate to Spring's `AuthenticationManager`; the token they return is `UserJwt.JwtUtils.GenerateTokenForUser`.
- `UserService.getEmailByUserId` is not modelled on the user-service side. The support service's view of it is `UserClient.GetEmailByUserId`.
- Dead helpers that nothing calls are not modelled:
  - `SupportTicketService.validateAndGetStaffUserId`, `validateAndGetUserUserId`, `isStaffRole`, `isStaffMember`, `isUserStaff`, `isUser` and `updateTicketDetails`;
  - `UserService.isUserExists`;
  - the commented-out cookie code of the gateway.
- Entities are values, so the aliasing of a JPA entity shared between the repository and the caller is not modelled. The image saved by `processAndSaveImage` and then changed by `updateDownloadUrl` is modelled as an insert followed by an in-place update of the last row.
- Null inputs: a null ticket given to `SupportTicketMapper.fromSupportTicket`, and null detail or resolution sets inside a stored ticket, cannot occur in the datatypes. Null request lists are modelled as `None` and fail with `NullPointer`, as the streams over them do.
- `SupportStatus` constants other than PENDING, IN_PROGRESS, RESOLVED and CLOSED are collapsed into `Other`, which is all the TTL switch distinguishes.
- Image bytes: the `Blob`/`SerialBlob` conversion and its `SQLException` are not modelled. A file whose bytes cannot be read is `UploadedFile.content == None`, and downloading yields the stored bytes. The file type that `downloadImage` only logs is not modelled.
- The attachment upload in `addSupportTicket` goes to another service and is not undone when the ticket transaction rolls back. It is an input (`Attachment`) here.
- Id generators are counters that advance even when a transaction rolls back, as database sequences do.
- The ghost counters `loads` (table loads in `SupportTicketService`) and `lookups` (client calls in `UserRoleContext`) exist only to state cache-hit properties.
- Tickets.FromSupportTicket: its `ensures` states only the copied scalars and that the collections do not grow. Membership and absence of repeats are stated in `Tickets.MappedCollections`, to keep the function's contract cheap for its many callers.
- Tickets.ExtractResolutionMessage: the source collects the resolution DTOs into a `HashSet` and takes `findFirst` of it, so which resolution's message the notice carries depends on hash order, which the code does not fix. The model keeps the DTO collections in entity order and `ExtractResolutionMessage` reads the first element of that order. Nothing is proved that depends on it: `Tickets.NoticeMessageIsSomeResolution` and `TicketService.StaffNoticeMessage` state only that the message is empty without resolutions and is otherwise the message of one of them.
- Jwt.IssuedClaims: the lifetime `ttlMs` is a natural number, whereas the configured `jwtExpirationTime` is a Java `int` that could be negative or overflow when added to the clock. The source also reads the clock twice, once for `iat` and once for `exp`; the model uses one reading for both, so the milliseconds between the two reads are not modelled.
