/** The user service's `VerificationCodeService`. Each public operation runs in one database
    transaction: when it ends in an exception, every repository change it made is rolled back
    (the `Rollback` step below); the id generators are not part of the transaction. */
module VerificationService {
  import opened Wrappers
  import opened Ids
  import Repo
  import Users
  import VerificationCodes
  import opened UserStore

  const UserNotFoundMessage := "User not found"
  const CodeNotFoundMessage := "Verification code not found"
  const CodeExpiredMessage := "Verification code expired"
  const AlreadyVerifiedMessage := "User already verified"

  datatype VerificationCodeDto = VerificationCodeDto(userId: Uuid, verificationCode: string)

  class VerificationCodeService {
    const userRepository: UserRepository
    const codeRepository: VerificationCodeRepository

    ghost predicate Valid()
      reads this, userRepository, codeRepository
    {
      userRepository.Valid() && codeRepository.Valid()
    }

    constructor (userRepository: UserRepository, codeRepository: VerificationCodeRepository)
      requires userRepository.Valid() && codeRepository.Valid()
      ensures this.userRepository == userRepository && this.codeRepository == codeRepository
      ensures Valid()
    {
      this.userRepository := userRepository;
      this.codeRepository := codeRepository;
    }

    /** Puts both tables back as they were when the transaction began. */
    method Rollback(users: seq<Users.UserInfo>, codes: seq<VerificationCodes.VerificationCode>)
      requires Valid()
      requires forall u :: u in users ==> u.userId < userRepository.nextId
      requires forall c :: c in codes ==> c.verificationCodeId < codeRepository.nextId
      modifies userRepository`users, codeRepository`codes
      ensures Valid() && userRepository.users == users && codeRepository.codes == codes
    {
      userRepository.users := users;
      codeRepository.codes := codes;
    }

    /** `generateAndSaveVerificationCode` with `draw` the value of `Random.nextInt(999999)`. */
    method GenerateAndSaveVerificationCode(userId: Uuid, draw: nat, now: int)
      returns (r: Result<VerificationCodes.VerificationCode, ServiceError>)
      requires Valid() && draw < VerificationCodes.CodeBound
      modifies codeRepository
      ensures Valid() && userRepository.users == old(userRepository.users)
      ensures userRepository.FindById(userId).None? ==> r == Err(UserNotFound(UserNotFoundMessage))
      ensures r.Err? ==> codeRepository.codes == old(codeRepository.codes)
      ensures r.Ok? ==>
        && r.value.verificationCodeId == old(codeRepository.nextId)
        && r.value.userId == userId
        && r.value.code == VerificationCodes.GenerateVerificationCode(draw)
        && r.value.createdAt == now
        && r.value.expirationTime == now + VerificationCodes.CodeLifetimeSeconds
        && r.value == VerificationCodes.NewCode(old(codeRepository.nextId), userId, draw, now)
        && codeRepository.codes == old(codeRepository.codes) + [r.value]
      ensures userRepository.FindById(userId).Some? ==>
        (r.Ok? <==> forall c :: c in old(codeRepository.codes) ==>
                      c.code != VerificationCodes.GenerateVerificationCode(draw))
      ensures userRepository.FindById(userId).Some? && r.Err? ==> r == Err(DuplicateKey)
    {
      var user := userRepository.FindById(userId);
      if user.None? {
        return Err(UserNotFound(UserNotFoundMessage));
      }
      var code := VerificationCodes.GenerateVerificationCode(draw);
      var id := codeRepository.NewId();
      var built := VerificationCodes.VerificationCode(
        id, code, userId, 0, now + VerificationCodes.CodeLifetimeSeconds);
      var entity := VerificationCodes.PrePersist(built, now);
      assert Repo.FindByKey(codeRepository.codes, VerificationCodes.CodeKey, id).None?;
      var saved := codeRepository.Save(entity);
      if !saved {
        return Err(DuplicateKey);
      }
      return Ok(entity);
    }

    /** `deleteExpiredVerificationCodes`. */
    method DeleteExpiredVerificationCodes(now: int)
      requires Valid()
      modifies codeRepository`codes
      ensures Valid()
      ensures codeRepository.codes == Unexpired(old(codeRepository.codes), now)
    {
      codeRepository.DeleteAllByExpirationTimeBefore(now);
    }

    /** `validateVerificationCode`: the code must exist for the user and not be expired; then
        the user is marked verified and the code is deleted. An expired code is deleted and
        the exception raised, which rolls the deletion back. */
    method ValidateVerificationCode(userId: Uuid, code: string, now: int)
      returns (r: Result<VerificationCodeDto, ServiceError>)
      requires Valid()
      modifies userRepository`users, codeRepository`codes
      ensures Valid()
      ensures r.Err? ==> userRepository.users == old(userRepository.users)
                         && codeRepository.codes == old(codeRepository.codes)
      ensures match FirstOfUserWithCode(old(codeRepository.codes), userId, code)
        case None => r == Err(VerificationCodeNotFound(CodeNotFoundMessage))
        case Some(c) =>
          if VerificationCodes.IsCodeExpired(c, now) then r == Err(VerificationCodeExpired(CodeExpiredMessage))
          else match old(userRepository.FindById(userId))
            case None => r == Err(UserNotFound(UserNotFoundMessage))
            case Some(u) =>
              && r == Ok(VerificationCodeDto(userId, code))
              && userRepository.users == Repo.Upsert(old(userRepository.users), u.(verified := true), Users.UserKey)
              && codeRepository.codes == Repo.RemoveKey(old(codeRepository.codes), VerificationCodes.CodeKey, c.verificationCodeId)
    {
      var usersBefore, codesBefore := userRepository.users, codeRepository.codes;
      var found := codeRepository.FindByUserIdAndCode(userId, code);
      if found.None? {
        return Err(VerificationCodeNotFound(CodeNotFoundMessage));
      }
      var entity := found.value;
      if VerificationCodes.IsCodeExpired(entity, now) {
        codeRepository.Delete(entity);
        Rollback(usersBefore, codesBefore);
        return Err(VerificationCodeExpired(CodeExpiredMessage));
      }
      var user := userRepository.FindById(userId);
      if user.None? {
        return Err(UserNotFound(UserNotFoundMessage));
      }
      userRepository.Save(user.value.(verified := true));
      codeRepository.Delete(entity);
      return Ok(VerificationCodeDto(userId, entity.code));
    }

    /** `resendVerificationCode`: a fresh code and a fresh five-minute expiry on the user's one
        existing code. */
    method ResendVerificationCode(userId: Uuid, draw: nat, now: int)
      returns (r: Result<VerificationCodes.VerificationCode, ServiceError>)
      requires Valid() && draw < VerificationCodes.CodeBound
      modifies codeRepository`codes
      ensures Valid()
      ensures r.Err? ==> codeRepository.codes == old(codeRepository.codes)
      ensures userRepository.FindById(userId).None? ==> r == Err(UserNotFound(UserNotFoundMessage))
      ensures userRepository.FindById(userId).Some? && userRepository.FindById(userId).value.verified ==>
                r == Err(UserAlreadyVerified(AlreadyVerifiedMessage))
      ensures userRepository.FindById(userId).Some? && !userRepository.FindById(userId).value.verified ==>
        var mine := CodesOf(old(codeRepository.codes), userId);
        && (|mine| > 1 ==> r == Err(IncorrectResultSize))
        && (mine == [] ==> r == Err(VerificationCodeNotFound(CodeNotFoundMessage)))
        && (|mine| == 1 ==>
              && (r.Ok? <==> CodeFree(old(codeRepository.codes), Reissued(mine[0], draw, now)))
              && (r.Err? ==> r == Err(DuplicateKey)))
        && (r.Ok? ==>
              && mine == [r.value.(code := mine[0].code, expirationTime := mine[0].expirationTime)]
              && r.value == Reissued(mine[0], draw, now)
              && r.value.code == VerificationCodes.GenerateVerificationCode(draw)
              && r.value.expirationTime == now + VerificationCodes.CodeLifetimeSeconds
              && codeRepository.codes == Repo.Upsert(old(codeRepository.codes), r.value, VerificationCodes.CodeKey))
      ensures userRepository.FindById(userId).Some? ==>
                r == ResendOutcome(userRepository.FindById(userId).value, old(codeRepository.codes), draw, now)
    {
      var user := userRepository.FindById(userId);
      if user.None? {
        return Err(UserNotFound(UserNotFoundMessage));
      }
      if user.value.verified {
        return Err(UserAlreadyVerified(AlreadyVerifiedMessage));
      }
      var existing := codeRepository.FindByUserId(user.value.userId);
      if existing.Err? {
        return Err(existing.error);
      }
      if existing.value.None? {
        return Err(VerificationCodeNotFound(CodeNotFoundMessage));
      }
      var entity := existing.value.value;
      assert entity in codeRepository.codes;
      entity := entity.(expirationTime := now + VerificationCodes.CodeLifetimeSeconds);
      entity := entity.(code := VerificationCodes.GenerateVerificationCode(draw));
      var saved := codeRepository.Save(entity);
      if !saved {
        return Err(DuplicateKey);
      }
      return Ok(entity);
    }
  }

  /** The row `resendVerificationCode` saves: the user's code with a new text and a fresh
      five-minute expiry, keeping its id, its user and its creation time. */
  function Reissued(c: VerificationCodes.VerificationCode, draw: nat, now: int): VerificationCodes.VerificationCode
    requires draw < VerificationCodes.CodeBound
  {
    c.(code := VerificationCodes.GenerateVerificationCode(draw),
       expirationTime := now + VerificationCodes.CodeLifetimeSeconds)
  }

  /** What `resendVerificationCode` answers for the existing user `u` over the code table
      `codes`: the refusals in the order the service checks them, and success exactly when
      the user's one code can take the new text. */
  function ResendOutcome(u: Users.UserInfo, codes: seq<VerificationCodes.VerificationCode>, draw: nat, now: int)
    : (r: Result<VerificationCodes.VerificationCode, ServiceError>)
    requires draw < VerificationCodes.CodeBound
    ensures u.verified ==> r == Err(UserAlreadyVerified(AlreadyVerifiedMessage))
    ensures !u.verified && |CodesOf(codes, u.userId)| > 1 ==> r == Err(IncorrectResultSize)
    ensures !u.verified && CodesOf(codes, u.userId) == [] ==>
              r == Err(VerificationCodeNotFound(CodeNotFoundMessage))
    ensures r.Ok? <==> !u.verified && |CodesOf(codes, u.userId)| == 1
                       && CodeFree(codes, Reissued(CodesOf(codes, u.userId)[0], draw, now))
    ensures !u.verified && |CodesOf(codes, u.userId)| == 1 && r.Err? ==> r == Err(DuplicateKey)
    ensures r.Ok? ==>
      var prior := CodesOf(codes, u.userId)[0];
      && prior in codes
      && r.value.verificationCodeId == prior.verificationCodeId && r.value.userId == u.userId
      && r.value.createdAt == prior.createdAt
      && r.value.code == VerificationCodes.GenerateVerificationCode(draw)
      && r.value.expirationTime == now + VerificationCodes.CodeLifetimeSeconds
  {
    if u.verified then Err(UserAlreadyVerified(AlreadyVerifiedMessage))
    else
      var mine := CodesOf(codes, u.userId);
      if |mine| > 1 then Err(IncorrectResultSize)
      else if mine == [] then Err(VerificationCodeNotFound(CodeNotFoundMessage))
      else
        assert mine[0] in mine;
        var c := Reissued(mine[0], draw, now);
        if CodeFree(codes, c) then Ok(c) else Err(DuplicateKey)
  }

  /** The purge removes exactly the codes whose expiry is strictly before the clock and keeps
      the others; running it twice changes nothing more. */
  lemma {:induction false} PurgeIsExact(codes: seq<VerificationCodes.VerificationCode>, now: int)
    ensures forall c :: c in Unexpired(codes, now) <==> c in codes && !VerificationCodes.IsExpired(c, now)
    ensures Unexpired(Unexpired(codes, now), now) == Unexpired(codes, now)
  {
    forall c ensures VerificationCodes.IsExpired(c, now) <==> VerificationCodes.IsCodeExpired(c, now) {
      VerificationCodes.ExpiryTestsAgree(c, now);
    }
    UnexpiredIdempotent(codes, now);
  }

  lemma {:induction false} UnexpiredIdempotent(codes: seq<VerificationCodes.VerificationCode>, now: int)
    ensures Unexpired(Unexpired(codes, now), now) == Unexpired(codes, now)
  {
    if codes != [] {
      UnexpiredIdempotent(codes[1..], now);
    }
  }
}
