/** The user service's user entity (`UserInfo`) and its enumerations, as values. */
module Users {
  import opened Wrappers
  import opened Ids

  /** `Role`: the four roles of the role hierarchy. */
  datatype Role = Admin | Moderator | SupportStaff | User
  {
    /** `role.name()`, the authority string Spring Security sees. */
    function Name(): (s: string)
      ensures |s| > 5 && s[..5] == "ROLE_"
    {
      match this
      case Admin => "ROLE_ADMIN"
      case Moderator => "ROLE_MODERATOR"
      case SupportStaff => "ROLE_SUPPORT_STAFF"
      case User => "ROLE_USER"
    }
  }

  lemma RoleNameInjective(a: Role, b: Role)
    ensures a.Name() == b.Name() <==> a == b
  {
  }

  datatype UserStatus = PendingApproval | Verified

  /** A password as `PasswordEncoder.encode` leaves it: only its raw text is tracked, and the
      stored form is never the raw text itself. */
  datatype Password = Encoded(raw: string)

  datatype UserProfile = UserProfile(profileId: Option<Uuid>, bio: string, avatarUrl: string)
  datatype UserContact = UserContact(contactId: Option<Uuid>, phoneNumber: string)

  /** The `user_info` row. `roles` is the role set in its iteration order, without repeats.
      `profiles`/`contacts` of `None` are null collections. */
  datatype UserInfo = UserInfo(
    userId: Uuid,
    username: string,
    email: string,
    password: Password,
    firstName: string,
    lastName: string,
    status: UserStatus,
    roles: seq<Role>,
    profiles: seq<UserProfile>,
    contacts: seq<UserContact>,
    verified: bool)

  predicate DistinctRoles(roles: seq<Role>)
  {
    forall i, j :: 0 <= i < j < |roles| ==> roles[i] != roles[j]
  }

  /** `findByEmail` / `findById` over the user table: the first row that matches. */
  function FindByEmail(users: seq<UserInfo>, email: string): (r: Option<UserInfo>)
    ensures r.Some? <==> exists i :: 0 <= i < |users| && users[i].email == email
    ensures r.Some? ==> r.value in users && r.value.email == email
  {
    if users == [] then None
    else if users[0].email == email then Some(users[0])
    else FindByEmail(users[1..], email)
  }

  function UserKey(u: UserInfo): Uuid { u.userId }
}

/** `AuthDetails`: the Spring Security principal built from a user. */
module SecurityUser {
  import opened Wrappers
  import opened Ids
  import Users

  datatype AuthDetails = AuthDetails(
    id: Uuid, email: string, password: Users.Password, authorities: seq<string>)
  {
    /** The principal's user name is its e-mail address. */
    function Username(): (s: string)
      ensures s == email
    {
      email
    }
  }

  function AuthorityNames(roles: seq<Users.Role>): (r: seq<string>)
    ensures |r| == |roles|
    ensures forall i :: 0 <= i < |roles| ==> r[i] == roles[i].Name()
  {
    if roles == [] then [] else [roles[0].Name()] + AuthorityNames(roles[1..])
  }

  function BuildUserDetails(user: Users.UserInfo): (d: AuthDetails)
    ensures d.id == user.userId && d.email == user.email && d.password == user.password
    ensures d.Username() == user.email
    ensures |d.authorities| == |user.roles|
    ensures forall i :: 0 <= i < |user.roles| ==> d.authorities[i] == user.roles[i].Name()
  {
    AuthDetails(user.userId, user.email, user.password, AuthorityNames(user.roles))
  }

  /** One authority per role: distinct roles give distinct authority names, and a name is
      granted exactly when its role is held. */
  lemma {:induction false} AuthoritiesMatchRoles(user: Users.UserInfo, role: Users.Role)
    requires Users.DistinctRoles(user.roles)
    ensures var a := BuildUserDetails(user).authorities;
            (role.Name() in a <==> role in user.roles)
            && forall i, j :: 0 <= i < j < |a| ==> a[i] != a[j]
  {
    var a := BuildUserDetails(user).authorities;
    forall i, j | 0 <= i < j < |a| ensures a[i] != a[j] {
      Users.RoleNameInjective(user.roles[i], user.roles[j]);
    }
    if role.Name() in a {
      var i :| 0 <= i < |a| && a[i] == role.Name();
      Users.RoleNameInjective(user.roles[i], role);
    }
    if role in user.roles {
      var i :| 0 <= i < |user.roles| && user.roles[i] == role;
      assert a[i] == role.Name();
    }
  }

  /** `loadUserByUsername`: the user with that e-mail, or "User not found". */
  datatype UsernameNotFound = UsernameNotFound(message: string)

  function LoadUserByUsername(users: seq<Users.UserInfo>, username: string)
    : (r: Result<AuthDetails, UsernameNotFound>)
    ensures r.Ok? <==> Users.FindByEmail(users, username).Some?
    ensures r.Ok? ==> r.value.Username() == username
    ensures r.Err? ==> r.error == UsernameNotFound("User not found")
  {
    match Users.FindByEmail(users, username)
    case None => Err(UsernameNotFound("User not found"))
    case Some(u) => Ok(BuildUserDetails(u))
  }
}
