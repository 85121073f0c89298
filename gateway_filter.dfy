/** The gateway's `AuthenticationFilter`: for a secured path it takes the bearer token from the
    Authorization header, validates it with the shared key, and forwards the request with
    `userId`, `username` and `role` headers taken from the token's claims; any failure on the
    way answers 401 and completes the response. Open paths go through untouched. The gateway
    keeps no blacklist. Header names are taken in one canonical spelling. */
module GatewayFilter {
  import opened Wrappers
  import Text
  import Jwt
  import RouteValidator
  import UserJwt
  import Users
  import SecurityUser
  import opened Ids

  const Authorization := "Authorization"
  /** The scheme prefix of section 2.1 of RFC 6750, seven characters. */
  const BearerPrefix := "Bearer "
  const Unauthorized := 401

  datatype Request = Request(path: string, headers: map<string, seq<string>>)

  /** The exceptions the filter catches, each answered with 401. */
  datatype FilterError =
    | MissingAuthorizationHeader
    | NoHeaderValue
    | InvalidToken
    | NoRoles

  /** `extractAuthHeader`: the first Authorization value without its `Bearer ` prefix, or the
      value unchanged when it has no such prefix. */
  function ExtractAuthHeader(req: Request): (r: Result<string, FilterError>)
    ensures Authorization !in req.headers ==> r == Err(MissingAuthorizationHeader)
    ensures r.Ok? <==> Authorization in req.headers && req.headers[Authorization] != []
    ensures r.Ok? ==>
      var v := req.headers[Authorization][0];
      (Text.StartsWith(v, BearerPrefix) ==> v == BearerPrefix + r.value)
      && (!Text.StartsWith(v, BearerPrefix) ==> r.value == v)
  {
    if Authorization !in req.headers then Err(MissingAuthorizationHeader)
    else if req.headers[Authorization] == [] then Err(NoHeaderValue)
    else
      var v := req.headers[Authorization][0];
      if Text.StartsWith(v, BearerPrefix) then
        assert v == v[..7] + v[7..];
        Ok(v[7..])
      else Ok(v)
  }

  /** `UserHeaderDto`: what the forwarded request will carry. */
  datatype UserHeader = UserHeader(userId: string, username: string, role: string)

  /** `addHeadersToRequest`: each `header(name, value)` call replaces that header's values. */
  function AddHeadersToRequest(req: Request, h: UserHeader): (r: Request)
    ensures r.path == req.path
    ensures r.headers.Keys == req.headers.Keys + {"userId", "username", "role"}
    ensures r.headers["userId"] == [h.userId] && r.headers["username"] == [h.username]
            && r.headers["role"] == [h.role]
    ensures forall name :: name in req.headers && name !in {"userId", "username", "role"} ==>
              name in r.headers && r.headers[name] == req.headers[name]
  {
    Request(req.path, req.headers["userId" := [h.userId]]["username" := [h.username]]["role" := [h.role]])
  }

  /** The header values read from a token: the id claim, the subject, and the first role. */
  function ReadUserHeader(verify: Jwt.Verifier, token: string, nowMs: int): (r: Result<UserHeader, FilterError>)
    ensures r.Ok? <==> Jwt.ParseClaimsJws(verify, token, nowMs).Ok? && verify(token).claims.roles != []
    ensures r.Ok? ==> var c := verify(token).claims;
                      r.value == UserHeader(c.id, c.subject, c.roles[0])
  {
    match Jwt.ParseClaimsJws(verify, token, nowMs)
    case Err(_) => Err(InvalidToken)
    case Ok(c) => if c.roles == [] then Err(NoRoles) else Ok(UserHeader(c.id, c.subject, c.roles[0]))
  }

  datatype Outcome = Forwarded(request: Request) | Rejected(status: int)

  /** The filter's decision for one request at clock time `nowMs`. */
  function Decide(verify: Jwt.Verifier, req: Request, nowMs: int): (o: Outcome)
    ensures !RouteValidator.IsSecured(req.path) ==> o == Forwarded(req)
    ensures o.Rejected? ==> o.status == Unauthorized
    ensures RouteValidator.IsSecured(req.path) && o.Forwarded? ==>
      ExtractAuthHeader(req).Ok?
      && ReadUserHeader(verify, ExtractAuthHeader(req).value, nowMs).Ok?
      && o.request == AddHeadersToRequest(req, ReadUserHeader(verify, ExtractAuthHeader(req).value, nowMs).value)
  {
    if !RouteValidator.IsSecured(req.path) then Forwarded(req)
    else match ExtractAuthHeader(req)
      case Err(_) => Rejected(Unauthorized)
      case Ok(token) =>
        match ReadUserHeader(verify, token, nowMs)
        case Err(_) => Rejected(Unauthorized)
        case Ok(h) => Forwarded(AddHeadersToRequest(req, h))
  }

  /** One exchange through the filter: the request as received, the response status set by
      `handleUnauthorizedAccess`, whether the response was completed, and the request the rest
      of the chain receives, if any. */
  class ServerExchange {
    const request: Request
    var responseStatus: Option<int>
    var completed: bool
    var forwarded: Option<Request>

    constructor (request: Request)
      ensures this.request == request
      ensures responseStatus == None && !completed && forwarded == None
    {
      this.request := request;
      responseStatus := None;
      completed := false;
      forwarded := None;
    }

    /** `handleUnauthorizedAccess`. */
    method HandleUnauthorizedAccess()
      modifies this`responseStatus, this`completed
      ensures responseStatus == Some(Unauthorized) && completed
    {
      responseStatus := Some(Unauthorized);
      completed := true;
    }

    /** The filter body of `apply`. */
    method Apply(verify: Jwt.Verifier, nowMs: int)
      requires responseStatus == None && !completed && forwarded == None
      modifies this`responseStatus, this`completed, this`forwarded
      ensures match Decide(verify, request, nowMs)
              case Forwarded(r) => forwarded == Some(r) && responseStatus == None && !completed
              case Rejected(s) => forwarded == None && responseStatus == Some(s) && completed
    {
      if !RouteValidator.IsSecured(request.path) {
        forwarded := Some(request);
        return;
      }
      var authHeader := ExtractAuthHeader(request);
      if authHeader.Err? {
        assert Decide(verify, request, nowMs) == Rejected(Unauthorized);
        HandleUnauthorizedAccess();
        return;
      }
      var header := ReadUserHeader(verify, authHeader.value, nowMs);
      if header.Err? {
        assert Decide(verify, request, nowMs) == Rejected(Unauthorized);
        HandleUnauthorizedAccess();
        return;
      }
      assert Decide(verify, request, nowMs) == Forwarded(AddHeadersToRequest(request, header.value));
      forwarded := Some(AddHeadersToRequest(request, header.value));
    }
  }

  /** A secured request without an Authorization header is answered 401 and not forwarded. */
  lemma MissingHeaderRejected(verify: Jwt.Verifier, req: Request, nowMs: int)
    requires RouteValidator.IsSecured(req.path) && Authorization !in req.headers
    ensures Decide(verify, req, nowMs) == Rejected(Unauthorized)
  {
  }

  /** Every token failure (bad signature, bad format, expired, blank) is answered 401. */
  lemma InvalidTokenRejected(verify: Jwt.Verifier, req: Request, nowMs: int)
    requires RouteValidator.IsSecured(req.path) && ExtractAuthHeader(req).Ok?
    requires Jwt.ParseClaimsJws(verify, ExtractAuthHeader(req).value, nowMs).Err?
    ensures Decide(verify, req, nowMs) == Rejected(Unauthorized)
  {
  }

  /** A valid token with an empty roles claim fails at `get(0)`, which is answered 401. */
  lemma EmptyRolesRejected(verify: Jwt.Verifier, req: Request, nowMs: int)
    requires RouteValidator.IsSecured(req.path) && ExtractAuthHeader(req).Ok?
    requires Jwt.ParseClaimsJws(verify, ExtractAuthHeader(req).value, nowMs).Ok?
    requires verify(ExtractAuthHeader(req).value).claims.roles == []
    ensures Decide(verify, req, nowMs) == Rejected(Unauthorized)
  {
  }

  /** A forwarded secured request carries the identity of its token and nothing a client sent
      under those three names: `userId`, `username` and `role` are the token's id, subject and
      first role, and every other header is as received. */
  lemma {:induction false} ForwardedIdentityComesFromToken(verify: Jwt.Verifier, req: Request, nowMs: int)
    requires RouteValidator.IsSecured(req.path)
    requires Decide(verify, req, nowMs).Forwarded?
    ensures var token := ExtractAuthHeader(req).value;
            var c := verify(token).claims;
            var out := Decide(verify, req, nowMs).request;
            Jwt.ParseClaimsJws(verify, token, nowMs) == Ok(c)
            && out.path == req.path
            && out.headers["userId"] == [c.id] && out.headers["username"] == [c.subject]
            && out.headers["role"] == [c.roles[0]]
            && (forall name :: name in req.headers && name !in {"userId", "username", "role"} ==>
                  name in out.headers && out.headers[name] == req.headers[name])
  {
    var token := ExtractAuthHeader(req).value;
    var h := ReadUserHeader(verify, token, nowMs).value;
    assert Decide(verify, req, nowMs).request == AddHeadersToRequest(req, h);
  }

  /** The gateway does not see the user service's blacklist: a token revoked there, but still
      correctly signed and unexpired, is forwarded here while the user service rejects it. */
  lemma {:induction false} RevokedTokenStillForwarded(
    verify: Jwt.Verifier, req: Request, nowMs: int, blacklist: set<string>)
    requires RouteValidator.IsSecured(req.path) && ExtractAuthHeader(req).Ok?
    requires ExtractAuthHeader(req).value in blacklist
    requires Jwt.ParseClaimsJws(verify, ExtractAuthHeader(req).value, nowMs).Ok?
    requires verify(ExtractAuthHeader(req).value).claims.roles != []
    ensures Decide(verify, req, nowMs).Forwarded?
    ensures UserJwt.ValidateOutcome(blacklist, verify, ExtractAuthHeader(req).value, nowMs) == Ok(false)
  {
    var token := ExtractAuthHeader(req).value;
    assert ReadUserHeader(verify, token, nowMs).Ok?;
  }

  /** End to end: a token the user service issued for a user, presented as a bearer token
      before it expires, is forwarded with that user's id, e-mail and first role name. */
  lemma {:induction false} IssuedTokenForwardsIdentity(
    sign: Jwt.Signer, verify: Jwt.Verifier, ttlMs: nat, user: Users.UserInfo,
    issuedMs: nat, nowMs: int, req: Request)
    requires Jwt.SignerMatches(sign, verify)
    requires issuedMs <= nowMs && nowMs + 1000 <= issuedMs + ttlMs
    requires user.roles != [] && RouteValidator.IsSecured(req.path)
    requires var d := SecurityUser.BuildUserDetails(user);
             var token := sign(Jwt.IssuedClaims(d.email, d.id, d.authorities, issuedMs, ttlMs));
             Authorization in req.headers && req.headers[Authorization] != []
             && req.headers[Authorization][0] == BearerPrefix + token
    ensures Decide(verify, req, nowMs) ==
              Forwarded(AddHeadersToRequest(req, UserHeader(UuidText(user.userId), user.email, user.roles[0].Name())))
  {
    var d := SecurityUser.BuildUserDetails(user);
    var c := Jwt.IssuedClaims(d.email, d.id, d.authorities, issuedMs, ttlMs);
    var token := sign(c);
    var v := req.headers[Authorization][0];
    assert v[..7] == BearerPrefix && v[7..] == token;
    assert ExtractAuthHeader(req) == Ok(token);
    Jwt.IssuedTokenLifetime(sign, verify, d.email, d.id, d.authorities, issuedMs, ttlMs, nowMs);
    assert verify(token) == Jwt.Signed(c);
    assert ReadUserHeader(verify, token, nowMs) == Ok(UserHeader(c.id, c.subject, c.roles[0]));
  }
}
