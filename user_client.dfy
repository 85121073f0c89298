/** The support service's Feign client for the user service, as the answers it can give.
    A user id missing from a map is a call that fails (the user service answers an unknown id
    with an error status, which the Feign client raises as an exception). A role of `None` is a
    reply whose body is null. */
module UserClient {
  import opened Wrappers
  import opened Ids

  datatype ClientError = FeignError(userId: Uuid)

  datatype Directory = Directory(roles: map<Uuid, Option<string>>, emails: map<Uuid, string>)

  function GetRoleByUserId(d: Directory, userId: Uuid): (r: Result<Option<string>, ClientError>)
    ensures r.Ok? <==> userId in d.roles
    ensures r.Ok? ==> r.value == d.roles[userId]
  {
    if userId in d.roles then Ok(d.roles[userId]) else Err(FeignError(userId))
  }

  function GetEmailByUserId(d: Directory, userId: Uuid): (r: Result<string, ClientError>)
    ensures r.Ok? <==> userId in d.emails
    ensures r.Ok? ==> r.value == d.emails[userId]
  {
    if userId in d.emails then Ok(d.emails[userId]) else Err(FeignError(userId))
  }
}
