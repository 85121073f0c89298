/** The user service's `UserService`: registration, partial profile updates, e-mail
    verification, token checks and the role lookup. Every transactional operation commits its
    repository changes only when it succeeds; a failure leaves both tables as they were. The
    confirmation messages handed to Kafka are kept in `confirmations`. */
module UserService {
  import opened Wrappers
  import opened Ids
  import Repo
  import Text
  import Jwt
  import UserJwt
  import Users
  import SecurityUser
  import VerificationCodes
  import opened UserStore
  import VerificationService

  const UserNotFoundWithId := "User not found with id: "
  const UserNotFoundWithEmail := "User not found with email: "
  const InvalidAuthenticationContext := "Invalid authentication context"
  const InvalidUser := "Invalid user"
  const InvalidToken := "Invalid token"
  const ErrorValidatingToken := "Error validating token: "

  datatype AddUserProfileRequest = AddUserProfileRequest(bio: string, avatarUrl: string)
  datatype AddUserContactRequest = AddUserContactRequest(phoneNumber: string)

  /** `AddUserInfoRequest`; a list of `None` is a null list. */
  datatype AddUserInfoRequest = AddUserInfoRequest(
    username: string, email: string, password: string, firstName: string, lastName: string,
    profiles: Option<seq<AddUserProfileRequest>>, contacts: Option<seq<AddUserContactRequest>>)

  datatype UpdateUserProfileRequest = UpdateUserProfileRequest(profileId: Option<Uuid>, bio: string, avatarUrl: string)
  datatype UpdateUserContactRequest = UpdateUserContactRequest(contactId: Option<Uuid>, phoneNumber: string)

  /** `UpdateUserInfoRequest`: every field may be null (`None`). */
  datatype UpdateUserInfoRequest = UpdateUserInfoRequest(
    username: Option<string>, email: Option<string>, password: Option<string>,
    firstName: Option<string>, lastName: Option<string>,
    profiles: Option<seq<UpdateUserProfileRequest>>, contacts: Option<seq<UpdateUserContactRequest>>)

  /** The `UserConfirmation` message sent to the notification service. */
  datatype UserConfirmation = UserConfirmation(
    userId: Uuid, email: string, verificationCode: string, verificationCodeExpiration: int)

  /** The map `validateToken` answers with. */
  datatype TokenCheck = Valid(username: string, userId: string) | Invalid(message: string)

  /** `getRoleByUserId`: the query selects the user's role collection as one string, so a user
      without a role is "not found" and a user with several roles is a non-unique result. */
  function RoleOf(users: seq<Users.UserInfo>, userId: Uuid): (r: Result<string, ServiceError>)
    ensures Repo.FindByKey(users, Users.UserKey, userId).None? ==>
              r == Err(UsernameNotFound(UserNotFoundWithId + UuidText(userId)))
    ensures r.Ok? <==> exists u :: Repo.FindByKey(users, Users.UserKey, userId) == Some(u) && |u.roles| == 1
    ensures r.Ok? ==> r.value == Repo.FindByKey(users, Users.UserKey, userId).value.roles[0].Name()
  {
    match Repo.FindByKey(users, Users.UserKey, userId)
    case None => Err(UsernameNotFound(UserNotFoundWithId + UuidText(userId)))
    case Some(u) =>
      if u.roles == [] then Err(UsernameNotFound(UserNotFoundWithId + UuidText(userId)))
      else if |u.roles| > 1 then Err(IncorrectResultSize)
      else Ok(u.roles[0].Name())
  }

  function NewProfiles(requests: seq<AddUserProfileRequest>): (r: seq<Users.UserProfile>)
    ensures |r| == |requests|
    ensures forall i :: 0 <= i < |r| ==>
              r[i] == Users.UserProfile(None, requests[i].bio, requests[i].avatarUrl)
  {
    if requests == [] then []
    else [Users.UserProfile(None, requests[0].bio, requests[0].avatarUrl)] + NewProfiles(requests[1..])
  }

  function NewContacts(requests: seq<AddUserContactRequest>): (r: seq<Users.UserContact>)
    ensures |r| == |requests|
    ensures forall i :: 0 <= i < |r| ==> r[i] == Users.UserContact(None, requests[i].phoneNumber)
  {
    if requests == [] then []
    else [Users.UserContact(None, requests[0].phoneNumber)] + NewContacts(requests[1..])
  }

  function UpdatedProfiles(requests: seq<UpdateUserProfileRequest>): (r: seq<Users.UserProfile>)
    ensures |r| == |requests|
    ensures forall i :: 0 <= i < |r| ==>
              r[i] == Users.UserProfile(requests[i].profileId, requests[i].bio, requests[i].avatarUrl)
  {
    if requests == [] then []
    else [Users.UserProfile(requests[0].profileId, requests[0].bio, requests[0].avatarUrl)]
         + UpdatedProfiles(requests[1..])
  }

  function UpdatedContacts(requests: seq<UpdateUserContactRequest>): (r: seq<Users.UserContact>)
    ensures |r| == |requests|
    ensures forall i :: 0 <= i < |r| ==>
              r[i] == Users.UserContact(requests[i].contactId, requests[i].phoneNumber)
  {
    if requests == [] then []
    else [Users.UserContact(requests[0].contactId, requests[0].phoneNumber)] + UpdatedContacts(requests[1..])
  }

  /** `createUserHelper` followed by the entity's `prePersist`: the new user has the single
      role ROLE_USER, the encoded password, one profile and one contact per requested one,
      status PENDING_APPROVAL and is not verified. A null list fails while it is streamed. */
  function CreateUser(request: AddUserInfoRequest, userId: Uuid): (r: Result<Users.UserInfo, ServiceError>)
    ensures r.Err? <==> request.profiles.None? || request.contacts.None?
    ensures r.Err? ==> r.error == NullPointer
    ensures r.Ok? ==>
      var u := r.value;
      && u.userId == userId && u.username == request.username && u.email == request.email
      && u.firstName == request.firstName && u.lastName == request.lastName
      && u.password == Users.Encoded(request.password)
      && u.roles == [Users.User]
      && u.profiles == NewProfiles(request.profiles.value) && u.contacts == NewContacts(request.contacts.value)
      && u.status == Users.PendingApproval && !u.verified
  {
    if request.profiles.None? || request.contacts.None? then Err(NullPointer)
    else Ok(Users.UserInfo(
      userId, request.username, request.email, Users.Encoded(request.password),
      request.firstName, request.lastName, Users.PendingApproval, [Users.User],
      NewProfiles(request.profiles.value), NewContacts(request.contacts.value), false))
  }

  function OrElse<T>(o: Option<T>, default: T): T
  {
    if o.Some? then o.value else default
  }

  /** `updateBasicInfo`: personal details, password and the two collections, each only when
      the request carries it; the e-mail is handled separately. */
  function ApplyUpdate(request: UpdateUserInfoRequest, u: Users.UserInfo): (r: Users.UserInfo)
    ensures r.userId == u.userId && r.email == u.email && r.status == u.status
    ensures r.verified == u.verified && r.roles == u.roles
    ensures r.firstName == OrElse(request.firstName, u.firstName)
    ensures r.lastName == OrElse(request.lastName, u.lastName)
    ensures r.username == OrElse(request.username, u.username)
    ensures request.password.None? ==> r.password == u.password
    ensures request.password.Some? ==> r.password == Users.Encoded(request.password.value)
    ensures request.profiles.None? ==> r.profiles == u.profiles
    ensures request.profiles.Some? ==> r.profiles == UpdatedProfiles(request.profiles.value)
    ensures request.contacts.None? ==> r.contacts == u.contacts
    ensures request.contacts.Some? ==> r.contacts == UpdatedContacts(request.contacts.value)
  {
    u.(firstName := OrElse(request.firstName, u.firstName),
       lastName := OrElse(request.lastName, u.lastName),
       username := OrElse(request.username, u.username),
       password := if request.password.Some? then Users.Encoded(request.password.value) else u.password,
       profiles := if request.profiles.Some? then UpdatedProfiles(request.profiles.value) else u.profiles,
       contacts := if request.contacts.Some? then UpdatedContacts(request.contacts.value) else u.contacts)
  }

  /** `handleEmailUpdate` changes the user only for a non-null e-mail different from the
      current one. */
  predicate EmailChanged(request: UpdateUserInfoRequest, u: Users.UserInfo)
  {
    request.email.Some? && request.email.value != u.email
  }

  /** The user as `handleEmailUpdate` leaves it. */
  function WithEmail(request: UpdateUserInfoRequest, u: Users.UserInfo): (r: Users.UserInfo)
    ensures EmailChanged(request, u) ==>
              r == u.(email := request.email.value, verified := false, status := Users.PendingApproval)
    ensures !EmailChanged(request, u) ==> r == u
  {
    if EmailChanged(request, u) then
      u.(email := request.email.value, verified := false, status := Users.PendingApproval)
    else u
  }

  /** `validateToken`: valid with the subject and the trimmed id claim exactly when
      `JwtUtils.validateToken` says so; otherwise the reason. */
  function CheckToken(jwt: UserJwt.JwtUtils, token: string, nowMs: int): (r: TokenCheck)
    reads jwt
    ensures r.Valid? <==> jwt.ValidateToken(token, nowMs) == Ok(true)
    ensures r.Valid? ==> jwt.GetUserNameFromToken(token, nowMs) == Ok(r.username)
                         && jwt.GetUserIdFromToken(token, nowMs) == Ok(r.userId)
    ensures jwt.ValidateToken(token, nowMs) == Ok(false) ==> r == Invalid(InvalidToken)
    ensures jwt.ValidateToken(token, nowMs).Err? ==>
              r == Invalid(ErrorValidatingToken + jwt.ValidateToken(token, nowMs).error.message)
  {
    match jwt.ValidateToken(token, nowMs)
    case Err(e) => Invalid(ErrorValidatingToken + e.message)
    case Ok(valid) =>
      if !valid then Invalid(InvalidToken)
      else
        var username := jwt.GetUserNameFromToken(token, nowMs);
        var userId := jwt.GetUserIdFromToken(token, nowMs);
        Valid(username.value, userId.value)
  }

  class UserService {
    const userRepository: UserRepository
    const codeService: VerificationService.VerificationCodeService
    const jwtUtils: UserJwt.JwtUtils
    var confirmations: seq<UserConfirmation>

    ghost predicate Valid()
      reads this, userRepository, codeService, codeService.userRepository, codeService.codeRepository
    {
      codeService.userRepository == userRepository && codeService.Valid()
    }

    constructor (codeService: VerificationService.VerificationCodeService, jwtUtils: UserJwt.JwtUtils)
      requires codeService.Valid()
      ensures this.codeService == codeService && this.jwtUtils == jwtUtils
      ensures userRepository == codeService.userRepository && confirmations == []
      ensures Valid()
    {
      this.userRepository := codeService.userRepository;
      this.codeService := codeService;
      this.jwtUtils := jwtUtils;
      confirmations := [];
    }

    function Codes(): seq<VerificationCodes.VerificationCode>
      reads this, codeService, codeService.codeRepository
    {
      codeService.codeRepository.codes
    }

    /** `getRoleByUserId`. */
    function GetRoleByUserId(userId: Uuid): (r: Result<string, ServiceError>)
      reads this, userRepository
      ensures r == RoleOf(userRepository.users, userId)
      ensures userRepository.FindById(userId).None? ==>
                r == Err(UsernameNotFound(UserNotFoundWithId + UuidText(userId)))
    {
      RoleOf(userRepository.users, userId)
    }

    /** `sendUserConfirmationMessage`. */
    method SendUserConfirmation(u: Users.UserInfo, c: VerificationCodes.VerificationCode)
      modifies this`confirmations
      ensures confirmations == old(confirmations) + [UserConfirmation(u.userId, u.email, c.code, c.expirationTime)]
    {
      confirmations := confirmations + [UserConfirmation(u.userId, u.email, c.code, c.expirationTime)];
    }

    /** `addUser`: create, save, issue a verification code and announce it. The unique `code`
        column is checked only when the transaction commits, so a code already held by another
        row fails the call after the confirmation carrying it has been sent; the tables are
        rolled back, the message is not. */
    method AddUser(request: AddUserInfoRequest, draw: nat, now: int)
      returns (r: Result<Users.UserInfo, ServiceError>)
      requires Valid() && draw < VerificationCodes.CodeBound
      modifies userRepository, codeService.codeRepository, this`confirmations
      ensures Valid()
      ensures r.Err? ==> userRepository.users == old(userRepository.users) && Codes() == old(Codes())
      ensures CreateUser(request, 0).Err? ==> r == Err(NullPointer) && confirmations == old(confirmations)
      ensures CreateUser(request, 0).Ok? ==>
        && (r.Err? ==> r == Err(DuplicateKey))
        && var u := CreateUser(request, old(userRepository.nextId)).value;
           var c := VerificationCodes.NewCode(old(codeService.codeRepository.nextId), u.userId, draw, now);
           confirmations == old(confirmations) + [UserConfirmation(u.userId, u.email, c.code, c.expirationTime)]
      ensures r.Ok? <==> CreateUser(request, 0).Ok?
                         && forall c :: c in old(Codes()) ==> c.code != VerificationCodes.GenerateVerificationCode(draw)
      ensures r.Ok? ==>
        && r == CreateUser(request, old(userRepository.nextId))
        && userRepository.users == old(userRepository.users) + [r.value]
        && var c := VerificationCodes.NewCode(old(codeService.codeRepository.nextId), r.value.userId, draw, now);
           && Codes() == old(Codes()) + [c]
           && confirmations == old(confirmations) + [UserConfirmation(r.value.userId, r.value.email, c.code, c.expirationTime)]
    {
      var usersBefore := userRepository.users;
      var id := userRepository.NewId();
      var created := CreateUser(request, id);
      if created.Err? {
        return Err(created.error);
      }
      var user := created.value;
      userRepository.Save(user);
      var codeId := codeService.codeRepository.nextId;
      var code := codeService.GenerateAndSaveVerificationCode(user.userId, draw, now);
      SendUserConfirmation(user, VerificationCodes.NewCode(codeId, user.userId, draw, now));
      if code.Err? {
        userRepository.Restore(usersBefore);
        return Err(code.error);
      }
      return Ok(user);
    }

    /** `handleEmailUpdate`: a new e-mail address makes the account unverified and pending,
        saves it, issues a verification code and announces it; otherwise the user is returned
        as it was. As in `addUser`, a duplicate code fails only at commit, after the
        confirmation has been sent. */
    method HandleEmailUpdate(request: UpdateUserInfoRequest, user: Users.UserInfo, draw: nat, now: int)
      returns (r: Result<Users.UserInfo, ServiceError>)
      requires Valid() && draw < VerificationCodes.CodeBound
      requires userRepository.FindById(user.userId) == Some(user)
      modifies userRepository`users, codeService.codeRepository, this`confirmations
      ensures Valid()
      ensures r.Err? || !EmailChanged(request, user) ==>
                userRepository.users == old(userRepository.users) && Codes() == old(Codes())
      ensures !EmailChanged(request, user) ==> r == Ok(user) && confirmations == old(confirmations)
      ensures EmailChanged(request, user) ==>
        var c := VerificationCodes.NewCode(old(codeService.codeRepository.nextId), user.userId, draw, now);
        confirmations == old(confirmations) + [UserConfirmation(user.userId, request.email.value, c.code, c.expirationTime)]
      ensures r.Ok? ==> r.value == WithEmail(request, user)
      ensures EmailChanged(request, user) ==>
        (r.Ok? <==> forall c :: c in old(Codes()) ==> c.code != VerificationCodes.GenerateVerificationCode(draw))
      ensures r.Err? ==> r == Err(DuplicateKey)
      ensures EmailChanged(request, user) && r.Ok? ==>
        && userRepository.users == Repo.Upsert(old(userRepository.users), r.value, Users.UserKey)
        && var c := VerificationCodes.NewCode(old(codeService.codeRepository.nextId), user.userId, draw, now);
           && Codes() == old(Codes()) + [c]
           && confirmations == old(confirmations) + [UserConfirmation(user.userId, request.email.value, c.code, c.expirationTime)]
    {
      if !EmailChanged(request, user) {
        return Ok(user);
      }
      var usersBefore := userRepository.users;
      var changed := WithEmail(request, user);
      userRepository.Save(changed);
      var codeId := codeService.codeRepository.nextId;
      var code := codeService.GenerateAndSaveVerificationCode(user.userId, draw, now);
      SendUserConfirmation(changed, VerificationCodes.NewCode(codeId, user.userId, draw, now));
      if code.Err? {
        userRepository.Restore(usersBefore);
        return Err(code.error);
      }
      return Ok(changed);
    }

    /** `updateUserInfo` for the authenticated principal `principal` (`None` when the
        authentication is not an `AuthDetails`). */
    method UpdateUserInfo(request: UpdateUserInfoRequest, userId: Uuid, principal: Option<Uuid>, draw: nat, now: int)
      returns (r: Result<Users.UserInfo, ServiceError>)
      requires Valid() && draw < VerificationCodes.CodeBound
      modifies userRepository`users, codeService.codeRepository, this`confirmations
      ensures Valid()
      ensures r.Err? ==> userRepository.users == old(userRepository.users) && Codes() == old(Codes())
      ensures r.Err? && r != Err(DuplicateKey) ==> confirmations == old(confirmations)
      ensures old(userRepository.FindById(userId)).Some? && principal == Some(userId)
              && EmailChanged(request, old(userRepository.FindById(userId)).value) ==>
        var c := VerificationCodes.NewCode(old(codeService.codeRepository.nextId), userId, draw, now);
        confirmations == old(confirmations) + [UserConfirmation(userId, request.email.value, c.code, c.expirationTime)]
      ensures old(userRepository.FindById(userId)).None? ==>
                r == Err(UsernameNotFound(UserNotFoundWithId + UuidText(userId)))
      ensures old(userRepository.FindById(userId)).Some? && principal.None? ==>
                r == Err(Security(InvalidAuthenticationContext))
      ensures old(userRepository.FindById(userId)).Some? && principal.Some? && principal.value != userId ==>
                r == Err(Security(InvalidUser))
      ensures r.Ok? ==>
        var u := old(userRepository.FindById(userId)).value;
        && principal == Some(userId)
        && r.value == ApplyUpdate(request, WithEmail(request, u))
        && userRepository.users == Repo.Upsert(old(userRepository.users), r.value, Users.UserKey)
        && (!EmailChanged(request, u) ==> Codes() == old(Codes()) && confirmations == old(confirmations))
        && (EmailChanged(request, u) ==>
              && var c := VerificationCodes.NewCode(old(codeService.codeRepository.nextId), userId, draw, now);
                 && Codes() == old(Codes()) + [c]
                 && confirmations == old(confirmations) + [UserConfirmation(userId, request.email.value, c.code, c.expirationTime)])
      ensures old(userRepository.FindById(userId)).Some? && principal == Some(userId) ==>
        (r.Ok? <==> !EmailChanged(request, old(userRepository.FindById(userId)).value)
                    || forall c :: c in old(Codes()) ==> c.code != VerificationCodes.GenerateVerificationCode(draw))
      ensures old(userRepository.FindById(userId)).Some? && principal == Some(userId) && r.Err? ==>
                r == Err(DuplicateKey)
    {
      var usersBefore := userRepository.users;
      var found := userRepository.FindById(userId);
      if found.None? {
        return Err(UsernameNotFound(UserNotFoundWithId + UuidText(userId)));
      }
      var user := found.value;
      if principal.None? {
        return Err(Security(InvalidAuthenticationContext));
      }
      if principal.value != userId {
        return Err(Security(InvalidUser));
      }
      var handled := HandleEmailUpdate(request, user, draw, now);
      if handled.Err? {
        return Err(handled.error);
      }
      var base := handled.value;
      var updated := ApplyUpdate(request, base);
      userRepository.Save(updated);
      if EmailChanged(request, user) {
        Repo.UpsertOverwrite(usersBefore, base, updated, Users.UserKey);
      }
      return Ok(updated);
    }

    /** `verifyUser`: the user with that e-mail is set to VERIFIED (in the same persistence
        context the code check then reads), refused when already verified, and marked
        verified once the code checks out. */
    method VerifyUser(email: string, code: string, now: int) returns (r: Result<Users.UserInfo, ServiceError>)
      requires Valid()
      modifies userRepository`users, codeService.codeRepository`codes
      ensures Valid()
      ensures r.Err? ==> userRepository.users == old(userRepository.users) && Codes() == old(Codes())
      ensures Users.FindByEmail(old(userRepository.users), email).None? ==>
                r == Err(UsernameNotFound(UserNotFoundWithEmail + email))
      ensures Users.FindByEmail(old(userRepository.users), email).Some?
              && Users.FindByEmail(old(userRepository.users), email).value.verified ==>
                r == Err(UserAlreadyVerified(VerificationService.AlreadyVerifiedMessage))
      ensures Users.FindByEmail(old(userRepository.users), email).Some?
              && !Users.FindByEmail(old(userRepository.users), email).value.verified ==>
        var u := Users.FindByEmail(old(userRepository.users), email).value;
        match FirstOfUserWithCode(old(Codes()), u.userId, code)
        case None => r == Err(VerificationCodeNotFound(VerificationService.CodeNotFoundMessage))
        case Some(c) =>
          if VerificationCodes.IsCodeExpired(c, now) then
            r == Err(VerificationCodeExpired(VerificationService.CodeExpiredMessage))
          else
            && r == Ok(u.(status := Users.Verified, verified := true))
            && userRepository.users == Repo.Upsert(old(userRepository.users), r.value, Users.UserKey)
            && Codes() == Repo.RemoveKey(old(Codes()), VerificationCodes.CodeKey, c.verificationCodeId)
    {
      var usersBefore := userRepository.users;
      var found := Users.FindByEmail(userRepository.users, email);
      if found.None? {
        return Err(UsernameNotFound(UserNotFoundWithEmail + email));
      }
      var user := found.value;
      if user.verified {
        return Err(UserAlreadyVerified(VerificationService.AlreadyVerifiedMessage));
      }
      var marked := user.(status := Users.Verified);
      userRepository.Save(marked);
      var checked := codeService.ValidateVerificationCode(user.userId, code, now);
      if checked.Err? {
        userRepository.Restore(usersBefore);
        return Err(checked.error);
      }
      var verified := marked.(verified := true);
      userRepository.Save(verified);
      Repo.UpsertOverwrite(usersBefore, marked, verified, Users.UserKey);
      Repo.UpsertOverwrite(Repo.Upsert(usersBefore, marked, Users.UserKey), verified, verified, Users.UserKey);
      return Ok(verified);
    }

    /** `resendVerificationCode` for the authenticated principal: the new code is announced
        and returned. A new code already held by another row fails only at commit, after the
        confirmation carrying it has been sent. */
    method ResendVerificationCode(principal: Option<Uuid>, draw: nat, now: int) returns (r: Result<string, ServiceError>)
      requires Valid() && draw < VerificationCodes.CodeBound
      modifies codeService.codeRepository`codes, this`confirmations
      ensures Valid()
      ensures r.Err? ==> Codes() == old(Codes())
      ensures r.Err? && r != Err(DuplicateKey) ==> confirmations == old(confirmations)
      ensures principal.None? ==> r == Err(Security(InvalidAuthenticationContext))
      ensures principal.Some? && userRepository.FindById(principal.value).None? ==>
                r == Err(UsernameNotFound(UserNotFoundWithId + UuidText(principal.value)))
      ensures principal.Some? && userRepository.FindById(principal.value).Some? ==>
        var u := userRepository.FindById(principal.value).value;
        var o := VerificationService.ResendOutcome(u, old(Codes()), draw, now);
        && (r.Ok? <==> o.Ok?)
        && (o.Err? ==> r == Err(o.error))
        && (o.Ok? ==>
              && r == Ok(o.value.code)
              && Codes() == Repo.Upsert(old(Codes()), o.value, VerificationCodes.CodeKey))
        && (o.Ok? || o == Err(DuplicateKey) ==>
              confirmations == old(confirmations) +
                [UserConfirmation(u.userId, u.email, VerificationCodes.GenerateVerificationCode(draw),
                                  now + VerificationCodes.CodeLifetimeSeconds)])
      ensures r.Ok? ==>
        && principal.Some? && userRepository.FindById(principal.value).Some?
        && r.value == VerificationCodes.GenerateVerificationCode(draw)
        && confirmations == old(confirmations) +
             [UserConfirmation(principal.value, userRepository.FindById(principal.value).value.email,
                               r.value, now + VerificationCodes.CodeLifetimeSeconds)]
    {
      if principal.None? {
        return Err(Security(InvalidAuthenticationContext));
      }
      var userId := principal.value;
      var found := userRepository.FindById(userId);
      if found.None? {
        return Err(UsernameNotFound(UserNotFoundWithId + UuidText(userId)));
      }
      var mine := CodesOf(Codes(), userId);
      ghost var outcome := VerificationService.ResendOutcome(found.value, Codes(), draw, now);
      var code := codeService.ResendVerificationCode(userId, draw, now);
      assert code == outcome;
      if code.Err? && code.error != DuplicateKey {
        return Err(code.error);
      }
      assert !found.value.verified && |mine| == 1 by {
        assert outcome.Ok? || outcome == Err(DuplicateKey);
      }
      var reissued := VerificationService.Reissued(mine[0], draw, now);
      SendUserConfirmation(found.value, reissued);
      if code.Err? {
        return Err(code.error);
      }
      return Ok(code.value.code);
    }
  }

  /** A request with every field null changes nothing, and applying the same update twice
      is the same as applying it once. */
  lemma EmptyUpdateChangesNothing(u: Users.UserInfo)
    ensures ApplyUpdate(UpdateUserInfoRequest(None, None, None, None, None, None, None), u) == u
    ensures !EmailChanged(UpdateUserInfoRequest(None, None, None, None, None, None, None), u)
  {
  }

  lemma UpdateIsIdempotent(request: UpdateUserInfoRequest, u: Users.UserInfo)
    ensures ApplyUpdate(request, ApplyUpdate(request, u)) == ApplyUpdate(request, u)
    ensures WithEmail(request, WithEmail(request, u)) == WithEmail(request, u)
  {
  }

  /** A new account holds exactly the authority ROLE_USER. */
  lemma NewUserAuthorities(request: AddUserInfoRequest, userId: Uuid)
    requires CreateUser(request, userId).Ok?
    ensures SecurityUser.BuildUserDetails(CreateUser(request, userId).value).authorities == ["ROLE_USER"]
  {
  }

  /** A token issued to a principal checks out, before it expires and unless revoked, as the
      principal's e-mail and user id; a revoked token is "Invalid token" whatever it holds. */
  lemma IssuedTokenChecksOut(jwt: UserJwt.JwtUtils, principal: SecurityUser.AuthDetails, issuedMs: nat, nowMs: int)
    requires Jwt.SignerMatches(jwt.sign, jwt.verify)
    requires issuedMs <= nowMs && nowMs + 1000 <= issuedMs + jwt.expirationMs
    ensures var token := jwt.GenerateTokenForUser(principal, issuedMs);
            CheckToken(jwt, token, nowMs) ==
              if jwt.IsTokenBlacklisted(token) then Invalid(InvalidToken)
              else Valid(principal.email, UuidText(principal.id))
  {
    var token := jwt.GenerateTokenForUser(principal, issuedMs);
    if jwt.IsTokenBlacklisted(token) {
      RevokedTokenChecksInvalid(jwt, token, nowMs);
    } else {
      UserJwt.IssuedTokenRoundTrip(jwt.sign, jwt.verify, jwt.expirationMs, {}, principal, issuedMs, nowMs);
      CheckParsedToken(jwt, token, nowMs);
      UuidTextIsTrimmed(principal.id);
    }
  }

  /** An unrevoked token that parses checks out as its subject and trimmed id claim. */
  lemma CheckParsedToken(jwt: UserJwt.JwtUtils, token: string, nowMs: int)
    requires !jwt.IsTokenBlacklisted(token) && Jwt.ParseClaimsJws(jwt.verify, token, nowMs).Ok?
    ensures CheckToken(jwt, token, nowMs) ==
              Valid(jwt.verify(token).claims.subject, Text.Trim(jwt.verify(token).claims.id))
  {
  }

  lemma RevokedTokenChecksInvalid(jwt: UserJwt.JwtUtils, token: string, nowMs: int)
    requires jwt.IsTokenBlacklisted(token)
    ensures CheckToken(jwt, token, nowMs) == Invalid(InvalidToken)
  {
  }
}
