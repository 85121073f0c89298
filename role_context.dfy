/** `UserRoleContext`: a request-scoped, one-entry memo of the role of a user id.
    The id is written to the memo BEFORE the lookup is made, so a failed lookup leaves the new
    id paired with the previous role. */
module RoleContext {
  import opened Wrappers
  import opened Ids
  import UserClient

  datatype Unauthorized = Unauthorized(message: string)

  const FailedToRetrieveRole := "Failed to retrieve user role"

  /** The two fields of the memo; `None` is Java's null. */
  datatype Memo = Memo(cachedUserId: Option<Uuid>, cachedRole: Option<string>)

  /** What one call of `getUserRole` does: the new memo, the answer, and whether the user
      client was called. */
  datatype Step = Step(memo: Memo, answer: Result<Option<string>, Unauthorized>, lookedUp: bool)

  function GetUserRoleStep(m: Memo, userId: Uuid, client: UserClient.Directory): (s: Step)
    ensures m.cachedUserId == Some(userId) ==> s == Step(m, Ok(m.cachedRole), false)
    ensures m.cachedUserId != Some(userId) ==>
      s.lookedUp && s.memo.cachedUserId == Some(userId)
      && match UserClient.GetRoleByUserId(client, userId)
         case Ok(role) => s.memo.cachedRole == role && s.answer == Ok(role)
         case Err(_) => s.memo.cachedRole == m.cachedRole
                        && s.answer == Err(Unauthorized(FailedToRetrieveRole))
  {
    if m.cachedUserId == Some(userId) then Step(m, Ok(m.cachedRole), false)
    else
      var withId := Memo(Some(userId), m.cachedRole);
      match UserClient.GetRoleByUserId(client, userId)
      case Ok(role) => Step(Memo(Some(userId), role), Ok(role), true)
      case Err(_) => Step(withId, Err(Unauthorized(FailedToRetrieveRole)), true)
  }

  class UserRoleContext {
    const client: UserClient.Directory
    var cachedUserId: Option<Uuid>
    var cachedRole: Option<string>
    /** The ids the user client was asked about, in order. */
    ghost var lookups: seq<Uuid>

    function State(): Memo
      reads this
    {
      Memo(cachedUserId, cachedRole)
    }

    constructor (client: UserClient.Directory)
      ensures this.client == client
      ensures cachedUserId == None && cachedRole == None && lookups == []
    {
      this.client := client;
      cachedUserId := None;
      cachedRole := None;
      lookups := [];
    }

    method GetUserRole(userId: Uuid) returns (r: Result<Option<string>, Unauthorized>)
      modifies this
      ensures var s := GetUserRoleStep(old(State()), userId, client);
              State() == s.memo && r == s.answer
              && lookups == old(lookups) + (if s.lookedUp then [userId] else [])
    {
      if cachedUserId == Some(userId) {
        return Ok(cachedRole);
      }
      cachedUserId := Some(userId);
      lookups := lookups + [userId];
      var reply := UserClient.GetRoleByUserId(client, userId);
      match reply {
        case Ok(role) =>
          cachedRole := role;
          return Ok(cachedRole);
        case Err(_) =>
          return Err(Unauthorized(FailedToRetrieveRole));
      }
    }
  }

  /** Two calls with the same id: the second is a hit, answers as the first did when the first
      succeeded, and the client is consulted at most once. */
  lemma SecondCallIsHit(m: Memo, userId: Uuid, client: UserClient.Directory)
    ensures var s1 := GetUserRoleStep(m, userId, client);
            var s2 := GetUserRoleStep(s1.memo, userId, client);
            !s2.lookedUp && s2.memo == s1.memo
            && (s1.answer.Ok? ==> s2.answer == s1.answer)
  {
  }

  /** Only one entry is kept: after a call for `b`, a call for `a != b` looks up again even if
      `a` was cached before. */
  lemma OneEntryOnly(m: Memo, a: Uuid, b: Uuid, client: UserClient.Directory)
    requires a != b
    ensures var s1 := GetUserRoleStep(m, a, client);
            var s2 := GetUserRoleStep(s1.memo, b, client);
            var s3 := GetUserRoleStep(s2.memo, a, client);
            s2.memo.cachedUserId == Some(b) && s3.lookedUp
  {
  }

  /** A failed lookup for `x` still caches `x`; the next call for `x` is answered from the
      memo with the role left over from the previous id, without an error. */
  lemma StaleRoleAfterFailure(m: Memo, x: Uuid, client: UserClient.Directory)
    requires m.cachedUserId != Some(x)
    requires x !in client.roles
    ensures var s1 := GetUserRoleStep(m, x, client);
            var s2 := GetUserRoleStep(s1.memo, x, client);
            s1.answer == Err(Unauthorized(FailedToRetrieveRole))
            && s2.answer == Ok(m.cachedRole) && !s2.lookedUp
  {
  }
}
