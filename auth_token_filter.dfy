/** The user service's `AuthTokenFilter`: reads a bearer token, refuses a revoked one with 401,
    authenticates the request when the token validates, and otherwise lets the request through
    without authentication. A JWT exception is answered 401 and any other exception 500, with
    the chain skipped. */
module UserTokenFilter {
  import opened Wrappers
  import Text
  import Jwt
  import Users
  import SecurityUser
  import UserJwt

  const BearerPrefix := "Bearer "
  const BlacklistedBody := "Token has been blacklisted. Please login again."
  const InvalidTokenBody := "Invalid or expired token, please login and try again"
  const Ok200 := 200
  const Unauthorized401 := 401
  const ServerError500 := 500

  /** `parseJwt`: the text after `Bearer ` when the header has text and that prefix, else null. */
  function ParseJwt(header: Option<string>): (r: Option<string>)
    ensures r.Some? <==> Text.HasText(header) && Text.StartsWith(header.value, BearerPrefix)
    ensures r.Some? ==> header.value == BearerPrefix + r.value
  {
    if Text.HasText(header) && Text.StartsWith(header.value, BearerPrefix) then
      assert header.value == header.value[..7] + header.value[7..];
      Some(header.value[7..])
    else None
  }

  /** How `doFilterInternal` ends: the chain runs with the given authentication (if any), or
      the filter writes a status and body and returns. */
  datatype FilterOutcome =
    | ChainContinues(authentication: Option<SecurityUser.AuthDetails>)
    | Responded(status: int, body: string)

  function FilterDecision(blacklist: set<string>, verify: Jwt.Verifier, users: seq<Users.UserInfo>,
                          header: Option<string>, nowMs: int): (o: FilterOutcome)
    ensures o.Responded? ==> o.status in {Unauthorized401, ServerError500}
    ensures o.ChainContinues? && o.authentication.Some? ==>
      ParseJwt(header).Some? &&
      var token := ParseJwt(header).value;
      UserJwt.ValidateOutcome(blacklist, verify, token, nowMs) == Ok(true)
      && o.authentication.value.Username() == verify(token).claims.subject
  {
    var jwt := ParseJwt(header);
    if !Text.HasText(jwt) then ChainContinues(None)
    else if jwt.value in blacklist then Responded(Unauthorized401, BlacklistedBody)
    else match UserJwt.ValidateOutcome(blacklist, verify, jwt.value, nowMs)
      case Err(_) => Responded(Unauthorized401, InvalidTokenBody)
      case Ok(false) => ChainContinues(None)
      case Ok(true) =>
        var username := verify(jwt.value).claims.subject;
        match SecurityUser.LoadUserByUsername(users, username)
        case Err(e) => Responded(ServerError500, e.message)
        case Ok(details) => ChainContinues(Some(details))
  }

  /** The servlet response and security context of one request. */
  class ServletExchange {
    var status: int
    var body: string
    var authentication: Option<SecurityUser.AuthDetails>
    var chainInvoked: bool

    constructor ()
      ensures status == Ok200 && body == [] && authentication == None && !chainInvoked
    {
      status := Ok200;
      body := [];
      authentication := None;
      chainInvoked := false;
    }

    method Respond(code: int, text: string)
      modifies this
      ensures status == code && body == text
      ensures authentication == old(authentication) && chainInvoked == old(chainInvoked)
    {
      status := code;
      body := text;
    }

    method DoFilterInternal(jwtUtils: UserJwt.JwtUtils, users: seq<Users.UserInfo>,
                            header: Option<string>, nowMs: int)
      requires status == Ok200 && body == [] && authentication == None && !chainInvoked
      modifies this
      ensures match FilterDecision(jwtUtils.blacklistedTokens, jwtUtils.verify, users, header, nowMs)
              case ChainContinues(a) =>
                chainInvoked && authentication == a && status == Ok200 && body == []
              case Responded(code, text) =>
                !chainInvoked && authentication == None && status == code && body == text
    {
      var jwt := ParseJwt(header);
      if Text.HasText(jwt) {
        if jwtUtils.IsTokenBlacklisted(jwt.value) {
          Respond(Unauthorized401, BlacklistedBody);
          return;
        }
        var valid := jwtUtils.ValidateToken(jwt.value, nowMs);
        if valid.Err? {
          Respond(Unauthorized401, InvalidTokenBody);
          return;
        }
        if valid.value {
          var username := jwtUtils.GetUserNameFromToken(jwt.value, nowMs);
          var details := SecurityUser.LoadUserByUsername(users, username.value);
          if details.Err? {
            Respond(ServerError500, details.error.message);
            return;
          }
          authentication := Some(details.value);
        }
      }
      chainInvoked := true;
    }
  }

  /** With no usable bearer token the chain continues unauthenticated. */
  lemma NoTokenContinues(blacklist: set<string>, verify: Jwt.Verifier, users: seq<Users.UserInfo>,
                         header: Option<string>, nowMs: int)
    requires !Text.HasText(ParseJwt(header))
    ensures FilterDecision(blacklist, verify, users, header, nowMs) == ChainContinues(None)
  {
  }

  /** A revoked token is refused with 401 before it is parsed, whatever it holds. */
  lemma RevokedTokenRefused(blacklist: set<string>, verify: Jwt.Verifier, users: seq<Users.UserInfo>,
                            header: Option<string>, nowMs: int)
    requires Text.HasText(ParseJwt(header)) && ParseJwt(header).value in blacklist
    ensures FilterDecision(blacklist, verify, users, header, nowMs) == Responded(Unauthorized401, BlacklistedBody)
  {
  }

  /** A token `validateToken` calls false (expired, malformed, badly signed) does not stop the
      request: the chain continues without authentication. */
  lemma InvalidTokenPassesUnauthenticated(blacklist: set<string>, verify: Jwt.Verifier,
                                          users: seq<Users.UserInfo>, header: Option<string>, nowMs: int)
    requires Text.HasText(ParseJwt(header)) && ParseJwt(header).value !in blacklist
    requires Jwt.ParseClaimsJws(verify, ParseJwt(header).value, nowMs).Err?
    requires !Jwt.ParseClaimsJws(verify, ParseJwt(header).value, nowMs).error.OtherJwt?
    ensures FilterDecision(blacklist, verify, users, header, nowMs) == ChainContinues(None)
  {
  }

  /** Any other JWT exception is answered 401 with the chain skipped. */
  lemma OtherJwtExceptionRefused(blacklist: set<string>, verify: Jwt.Verifier,
                                 users: seq<Users.UserInfo>, header: Option<string>, nowMs: int)
    requires Text.HasText(ParseJwt(header)) && ParseJwt(header).value !in blacklist
    requires Jwt.ParseClaimsJws(verify, ParseJwt(header).value, nowMs).Err?
    requires Jwt.ParseClaimsJws(verify, ParseJwt(header).value, nowMs).error.OtherJwt?
    ensures FilterDecision(blacklist, verify, users, header, nowMs) == Responded(Unauthorized401, InvalidTokenBody)
  {
  }

  /** A valid token authenticates the user whose e-mail is its subject; when no such user
      exists the `UsernameNotFoundException` is answered 500 with its message. */
  lemma {:induction false} ValidTokenAuthenticatesSubject(
    blacklist: set<string>, verify: Jwt.Verifier, users: seq<Users.UserInfo>, header: Option<string>, nowMs: int)
    requires Text.HasText(ParseJwt(header)) && ParseJwt(header).value !in blacklist
    requires Jwt.ParseClaimsJws(verify, ParseJwt(header).value, nowMs).Ok?
    ensures var subject := verify(ParseJwt(header).value).claims.subject;
            match Users.FindByEmail(users, subject)
            case Some(u) => FilterDecision(blacklist, verify, users, header, nowMs)
                              == ChainContinues(Some(SecurityUser.BuildUserDetails(u)))
            case None => FilterDecision(blacklist, verify, users, header, nowMs)
                              == Responded(ServerError500, "User not found")
  {
    assert UserJwt.ValidateOutcome(blacklist, verify, ParseJwt(header).value, nowMs) == Ok(true);
  }
}
