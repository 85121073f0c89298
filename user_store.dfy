/** The user service's persistence: the user and verification-code repositories over one
    database, and the exceptions the user-service operations raise. */
module UserStore {
  import opened Wrappers
  import opened Ids
  import Repo
  import Users
  import VerificationCodes

  datatype ServiceError =
    | UserNotFound(message: string)
    | UsernameNotFound(message: string)
    | VerificationCodeNotFound(message: string)
    | VerificationCodeExpired(message: string)
    | UserAlreadyVerified(message: string)
    | Security(message: string)
    /** A single-result query that found more than one row. */
    | IncorrectResultSize
    /** A second row with the same value in the unique `code` column. */
    | DuplicateKey
    /** A null request list streamed over. */
    | NullPointer

  /** `IUserRepository`. Generated ids come from `nextId`, above every stored id. */
  class UserRepository {
    var users: seq<Users.UserInfo>
    var nextId: Uuid

    ghost predicate Valid()
      reads this
    {
      forall u :: u in users ==> u.userId < nextId
    }

    constructor ()
      ensures Valid() && users == []
    {
      users := [];
      nextId := 0;
    }

    function FindById(userId: Uuid): (r: Option<Users.UserInfo>)
      reads this
      ensures r.Some? ==> r.value in users && r.value.userId == userId
      ensures r.None? <==> forall i :: 0 <= i < |users| ==> users[i].userId != userId
    {
      Repo.FindByKey(users, Users.UserKey, userId)
    }

    method NewId() returns (id: Uuid)
      requires Valid()
      modifies this`nextId
      ensures Valid() && id == old(nextId) && nextId == id + 1
      ensures forall i :: 0 <= i < |users| ==> users[i].userId != id
    {
      id := nextId;
      nextId := nextId + 1;
    }

    method Save(u: Users.UserInfo)
      requires Valid() && u.userId < nextId
      modifies this`users
      ensures Valid()
      ensures users == Repo.Upsert(old(users), u, Users.UserKey)
      ensures FindById(u.userId) == Some(u)
    {
      users := Repo.Upsert(users, u, Users.UserKey);
    }

    /** Puts the table back as it was when the transaction began. */
    method Restore(saved: seq<Users.UserInfo>)
      requires forall u :: u in saved ==> u.userId < nextId
      modifies this`users
      ensures Valid() && users == saved
    {
      users := saved;
    }
  }

  /** `IVerificationCodeRepository`. */
  class VerificationCodeRepository {
    var codes: seq<VerificationCodes.VerificationCode>
    var nextId: Uuid

    ghost predicate Valid()
      reads this
    {
      forall c :: c in codes ==> c.verificationCodeId < nextId
    }

    constructor ()
      ensures Valid() && codes == []
    {
      codes := [];
      nextId := 0;
    }

    method NewId() returns (id: Uuid)
      requires Valid()
      modifies this`nextId
      ensures Valid() && id == old(nextId) && nextId == id + 1
      ensures forall i :: 0 <= i < |codes| ==> codes[i].verificationCodeId != id
    {
      id := nextId;
      nextId := nextId + 1;
    }

    /** `findByUserUserIdAndCode`. */
    function FindByUserIdAndCode(userId: Uuid, code: string): (r: Option<VerificationCodes.VerificationCode>)
      reads this
      ensures r.Some? ==> r.value in codes && r.value.userId == userId && r.value.code == code
      ensures r.None? <==> forall c :: c in codes ==> !(c.userId == userId && c.code == code)
    {
      FirstOfUserWithCode(codes, userId, code)
    }

    /** `findByUserUserId`: the user's one code, none, or a failure when there are several. */
    function FindByUserId(userId: Uuid): (r: Result<Option<VerificationCodes.VerificationCode>, ServiceError>)
      reads this
      ensures r.Err? <==> |CodesOf(codes, userId)| > 1
      ensures r.Err? ==> r.error == IncorrectResultSize
      ensures r == Ok(None) <==> CodesOf(codes, userId) == []
      ensures r.Ok? && r.value.Some? ==> CodesOf(codes, userId) == [r.value.value]
    {
      var mine := CodesOf(codes, userId);
      if |mine| > 1 then Err(IncorrectResultSize)
      else if mine == [] then Ok(None)
      else Ok(Some(mine[0]))
    }

    /** `save`, refused when another row already holds the same code. The database reports
        that clash when the transaction commits; callers that act after `save` and before the
        commit (sending a message) do so before they act on `ok`. */
    method Save(c: VerificationCodes.VerificationCode) returns (ok: bool)
      requires Valid() && c.verificationCodeId < nextId
      modifies this`codes
      ensures Valid()
      ensures ok <==> CodeFree(old(codes), c)
      ensures codes == if ok then Repo.Upsert(old(codes), c, VerificationCodes.CodeKey) else old(codes)
    {
      ok := CodeFree(codes, c);
      if ok {
        codes := Repo.Upsert(codes, c, VerificationCodes.CodeKey);
      }
    }

    method Delete(c: VerificationCodes.VerificationCode)
      requires Valid()
      modifies this`codes
      ensures Valid()
      ensures codes == Repo.RemoveKey(old(codes), VerificationCodes.CodeKey, c.verificationCodeId)
    {
      codes := Repo.RemoveKey(codes, VerificationCodes.CodeKey, c.verificationCodeId);
    }

    /** `deleteAllByExpirationTimeBefore(now)`. */
    method DeleteAllByExpirationTimeBefore(now: int)
      requires Valid()
      modifies this`codes
      ensures Valid()
      ensures codes == Unexpired(old(codes), now)
    {
      codes := Unexpired(codes, now);
    }
  }

  /** No other row (a different id) holds `c`'s code. */
  predicate CodeFree(codes: seq<VerificationCodes.VerificationCode>, c: VerificationCodes.VerificationCode)
  {
    forall d :: d in codes && d.code == c.code ==> d.verificationCodeId == c.verificationCodeId
  }

  function FirstOfUserWithCode(codes: seq<VerificationCodes.VerificationCode>, userId: Uuid, code: string)
    : (r: Option<VerificationCodes.VerificationCode>)
    ensures r.Some? ==> r.value in codes && r.value.userId == userId && r.value.code == code
    ensures r.None? <==> forall c :: c in codes ==> !(c.userId == userId && c.code == code)
  {
    if codes == [] then None
    else if codes[0].userId == userId && codes[0].code == code then Some(codes[0])
    else FirstOfUserWithCode(codes[1..], userId, code)
  }

  /** The codes that belong to `userId`, in order. */
  function CodesOf(codes: seq<VerificationCodes.VerificationCode>, userId: Uuid)
    : (r: seq<VerificationCodes.VerificationCode>)
    ensures forall c :: c in r <==> c in codes && c.userId == userId
  {
    if codes == [] then []
    else if codes[0].userId == userId then [codes[0]] + CodesOf(codes[1..], userId)
    else CodesOf(codes[1..], userId)
  }

  /** The codes whose expiry is not before `now`, in order. */
  function Unexpired(codes: seq<VerificationCodes.VerificationCode>, now: int)
    : (r: seq<VerificationCodes.VerificationCode>)
    ensures |r| <= |codes|
    ensures forall c :: c in r <==> c in codes && !VerificationCodes.IsCodeExpired(c, now)
  {
    if codes == [] then []
    else if VerificationCodes.IsCodeExpired(codes[0], now) then Unexpired(codes[1..], now)
    else [codes[0]] + Unexpired(codes[1..], now)
  }
}
