/** `RoleUtil`: the support service's own role hierarchy, ADMIN > MODERATOR > SUPPORT_STAFF >
    USER, checked against a role fetched from the user service. */
module RoleUtil {
  import opened Wrappers
  import opened Ids
  import UserClient
  import RoleContext

  const RoleAdmin := "ROLE_ADMIN"
  const RoleModerator := "ROLE_MODERATOR"
  const RoleSupportStaff := "ROLE_SUPPORT_STAFF"
  const RoleUser := "ROLE_USER"

  /** The table built once in the static initializer and never changed afterwards. */
  const RoleHierarchy: map<string, int> :=
    map[RoleAdmin := 4, RoleModerator := 3, RoleSupportStaff := 2, RoleUser := 1]

  /** Unboxing the missing rank of an unknown required role throws a NullPointerException;
      a failed user-service call propagates out of `hasRoleOrHigher`. */
  datatype RoleError = NullPointer | ClientFailure(e: UserClient.ClientError)

  /** The comparison shared by both checks, given the user's role (`None` for null). */
  function CompareRoles(userRole: Option<string>, requiredRole: string): (r: Result<bool, RoleError>)
    ensures (userRole.None? || userRole.value !in RoleHierarchy) ==> r == Ok(false)
    ensures r.Err? <==> userRole.Some? && userRole.value in RoleHierarchy
                        && requiredRole !in RoleHierarchy
    ensures r == Ok(true) <==>
      userRole.Some? && userRole.value in RoleHierarchy && requiredRole in RoleHierarchy
      && RoleHierarchy[userRole.value] >= RoleHierarchy[requiredRole]
  {
    if userRole.None? || userRole.value !in RoleHierarchy then Ok(false)
    else if requiredRole !in RoleHierarchy then Err(NullPointer)
    else Ok(RoleHierarchy[userRole.value] >= RoleHierarchy[requiredRole])
  }

  /** `hasRoleOrHigher`: asks the user service for the role on every call. */
  function HasRoleOrHigher(client: UserClient.Directory, userId: Uuid, requiredRole: string)
    : (r: Result<bool, RoleError>)
    ensures userId !in client.roles ==> r == Err(ClientFailure(UserClient.FeignError(userId)))
    ensures r == Ok(true) <==>
      userId in client.roles && client.roles[userId].Some?
      && client.roles[userId].value in RoleHierarchy && requiredRole in RoleHierarchy
      && RoleHierarchy[client.roles[userId].value] >= RoleHierarchy[requiredRole]
  {
    match UserClient.GetRoleByUserId(client, userId)
    case Err(e) => Err(ClientFailure(e))
    case Ok(role) => CompareRoles(role, requiredRole)
  }

  /** `hasRoleOrHigherTest`: the role comes from the request's memo, and every exception
      (an Unauthorized from the memo, the NullPointerException of an unknown required role)
      becomes `false`. */
  method HasRoleOrHigherTest(ctx: RoleContext.UserRoleContext, userId: Uuid, requiredRole: string)
    returns (b: bool)
    modifies ctx
    ensures var s := RoleContext.GetUserRoleStep(old(ctx.State()), userId, ctx.client);
            ctx.State() == s.memo
            && ctx.lookups == old(ctx.lookups) + (if s.lookedUp then [userId] else [])
            && b == (s.answer.Ok? && CompareRoles(s.answer.value, requiredRole) == Ok(true))
  {
    var role := ctx.GetUserRole(userId);
    if role.Err? {
      return false;
    }
    var cmp := CompareRoles(role.value, requiredRole);
    b := cmp == Ok(true);
  }

  function Rank(role: string): (r: Option<int>)
    ensures r.Some? <==> role in RoleHierarchy
    ensures r.Some? ==> 1 <= r.value <= 4
  {
    if role in RoleHierarchy then Some(RoleHierarchy[role]) else None
  }

  /** The four roles are the table's only keys and each has its own rank. */
  lemma RanksAreDistinct(a: string, b: string)
    requires a in RoleHierarchy && b in RoleHierarchy
    ensures a in {RoleAdmin, RoleModerator, RoleSupportStaff, RoleUser}
    ensures RoleHierarchy[a] == RoleHierarchy[b] <==> a == b
  {
  }

  /** An ADMIN passes every check whose required role is in the table. */
  lemma AdminSatisfiesEveryRole(requiredRole: string)
    requires requiredRole in RoleHierarchy
    ensures CompareRoles(Some(RoleAdmin), requiredRole) == Ok(true)
  {
  }

  /** SUPPORT_STAFF includes USER but neither MODERATOR nor ADMIN; USER includes nothing else. */
  lemma SupportStaffExample()
    ensures CompareRoles(Some(RoleSupportStaff), RoleUser) == Ok(true)
    ensures CompareRoles(Some(RoleSupportStaff), RoleSupportStaff) == Ok(true)
    ensures CompareRoles(Some(RoleSupportStaff), RoleModerator) == Ok(false)
    ensures CompareRoles(Some(RoleSupportStaff), RoleAdmin) == Ok(false)
    ensures CompareRoles(Some(RoleUser), RoleSupportStaff) == Ok(false)
  {
  }

  /** Every known role satisfies itself. */
  lemma Reflexive(role: string)
    requires role in RoleHierarchy
    ensures CompareRoles(Some(role), role) == Ok(true)
  {
  }

  /** Passing a check for `r1` implies passing one for any lower-ranked `r2`. */
  lemma Transitive(userRole: Option<string>, r1: string, r2: string)
    requires CompareRoles(userRole, r1) == Ok(true)
    requires r2 in RoleHierarchy && r1 in RoleHierarchy && RoleHierarchy[r1] >= RoleHierarchy[r2]
    ensures CompareRoles(userRole, r2) == Ok(true)
  {
  }

  /** A higher-ranked user passes every check a lower-ranked one passes. */
  lemma Monotone(lower: string, higher: string, requiredRole: string)
    requires lower in RoleHierarchy && higher in RoleHierarchy
    requires RoleHierarchy[higher] >= RoleHierarchy[lower]
    requires CompareRoles(Some(lower), requiredRole) == Ok(true)
    ensures CompareRoles(Some(higher), requiredRole) == Ok(true)
  {
  }

  /** The test variant never fails and never grants more than `hasRoleOrHigher` would for the
      same role: a true answer means the role is known, the required role is known, and the
      rank comparison holds. */
  lemma TestVariantFailsClosed(role: Result<Option<string>, RoleContext.Unauthorized>, requiredRole: string)
    requires role.Ok? && CompareRoles(role.value, requiredRole) == Ok(true)
    ensures role.value.Some? && Rank(role.value.value).Some? && Rank(requiredRole).Some?
    ensures Rank(role.value.value).value >= Rank(requiredRole).value
  {
  }
}
