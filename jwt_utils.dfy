/** The user service's `JwtUtils`: issues tokens, reads their claims, and keeps an in-memory,
    insert-only blacklist of revoked tokens that `validateToken` consults before parsing. */
module UserJwt {
  import opened Wrappers
  import opened Ids
  import Text
  import Jwt
  import SecurityUser

  /** `validateToken` as a function of the blacklist: a revoked token is false whatever it
      holds; otherwise true when it parses, false for the five caught exceptions, and any other
      JWT exception escapes. */
  function ValidateOutcome(blacklist: set<string>, verify: Jwt.Verifier, token: string, nowMs: int)
    : (r: Result<bool, Jwt.JwtError>)
    ensures token in blacklist ==> r == Ok(false)
    ensures r == Ok(true) <==> token !in blacklist && Jwt.ParseClaimsJws(verify, token, nowMs).Ok?
    ensures r.Err? <==> token !in blacklist && Jwt.ParseClaimsJws(verify, token, nowMs).Err?
                        && Jwt.ParseClaimsJws(verify, token, nowMs).error.OtherJwt?
  {
    if token in blacklist then Ok(false)
    else match Jwt.ParseClaimsJws(verify, token, nowMs)
      case Ok(_) => Ok(true)
      case Err(e) => if e.OtherJwt? then Err(e) else Ok(false)
  }

  class JwtUtils {
    const verify: Jwt.Verifier
    const sign: Jwt.Signer
    /** `auth.token.expirationInMils`. */
    const expirationMs: nat
    var blacklistedTokens: set<string>

    constructor (sign: Jwt.Signer, verify: Jwt.Verifier, expirationMs: nat)
      ensures this.sign == sign && this.verify == verify && this.expirationMs == expirationMs
      ensures blacklistedTokens == {}
    {
      this.sign := sign;
      this.verify := verify;
      this.expirationMs := expirationMs;
      blacklistedTokens := {};
    }

    /** `generateTokenForUser` for the authenticated principal at clock time `nowMs`. */
    function GenerateTokenForUser(principal: SecurityUser.AuthDetails, nowMs: nat): (token: string)
      requires Jwt.SignerMatches(sign, verify)
      ensures Text.HasText(Some(token))
      ensures verify(token) == Jwt.Signed(Jwt.IssuedClaims(
                principal.email, principal.id, principal.authorities, nowMs, expirationMs))
    {
      sign(Jwt.IssuedClaims(principal.email, principal.id, principal.authorities, nowMs, expirationMs))
    }

    predicate IsTokenBlacklisted(token: string)
      reads this
    {
      token in blacklistedTokens
    }

    /** Revokes `token`; nothing is ever removed from the blacklist. */
    method BlacklistToken(token: string)
      modifies this
      ensures blacklistedTokens == old(blacklistedTokens) + {token}
      ensures IsTokenBlacklisted(token)
      ensures forall t :: old(IsTokenBlacklisted(t)) ==> IsTokenBlacklisted(t)
    {
      blacklistedTokens := blacklistedTokens + {token};
    }

    function ValidateToken(token: string, nowMs: int): (r: Result<bool, Jwt.JwtError>)
      reads this
      ensures IsTokenBlacklisted(token) ==> r == Ok(false)
      ensures r == Ok(true) <==> !IsTokenBlacklisted(token) && Jwt.ParseClaimsJws(verify, token, nowMs).Ok?
    {
      ValidateOutcome(blacklistedTokens, verify, token, nowMs)
    }

    /** `getUserNameFromToken`: the subject; parse failures propagate. */
    function GetUserNameFromToken(token: string, nowMs: int): (r: Result<string, Jwt.JwtError>)
      ensures r.Ok? <==> Jwt.ParseClaimsJws(verify, token, nowMs).Ok?
      ensures r.Ok? ==> r.value == verify(token).claims.subject
    {
      var claims :- Jwt.ParseClaimsJws(verify, token, nowMs);
      Ok(claims.subject)
    }

    /** `getUserIdFromToken`: the `id` claim with `trim()` applied; no blacklist check. */
    function GetUserIdFromToken(token: string, nowMs: int): (r: Result<string, Jwt.JwtError>)
      ensures r.Ok? <==> Jwt.ParseClaimsJws(verify, token, nowMs).Ok?
      ensures r.Ok? ==> r.value == Text.Trim(verify(token).claims.id)
    {
      var claims :- Jwt.ParseClaimsJws(verify, token, nowMs);
      Ok(Text.Trim(claims.id))
    }
  }

  /** Revocation dominates: once a token is blacklisted it never validates again, whatever its
      signature, claims or expiry and whatever the clock says. */
  lemma RevokedNeverValidates(blacklist: set<string>, token: string, verify: Jwt.Verifier, nowMs: int)
    requires token in blacklist
    ensures forall later: set<string> :: blacklist <= later ==>
              ValidateOutcome(later, verify, token, nowMs) == Ok(false)
  {
  }

  /** The five caught exceptions never escape `validateToken`; only the remaining JWT
      exceptions do. */
  lemma CaughtExceptionsGiveFalse(blacklist: set<string>, verify: Jwt.Verifier, token: string, nowMs: int)
    requires Jwt.ParseClaimsJws(verify, token, nowMs).Err?
    requires !Jwt.ParseClaimsJws(verify, token, nowMs).error.OtherJwt?
    ensures ValidateOutcome(blacklist, verify, token, nowMs) == Ok(false)
  {
  }

  /** A token issued to a principal and checked before it expires validates (unless revoked)
      and gives back the principal's e-mail and user id. */
  lemma {:induction false} IssuedTokenRoundTrip(
    sign: Jwt.Signer, verify: Jwt.Verifier, expirationMs: nat, blacklist: set<string>,
    principal: SecurityUser.AuthDetails, issuedMs: nat, nowMs: int)
    requires Jwt.SignerMatches(sign, verify)
    requires issuedMs <= nowMs && nowMs + 1000 <= issuedMs + expirationMs
    ensures var token := sign(Jwt.IssuedClaims(principal.email, principal.id, principal.authorities, issuedMs, expirationMs));
            var claims := verify(token).claims;
            ValidateOutcome(blacklist, verify, token, nowMs) == Ok(token !in blacklist)
            && Jwt.ParseClaimsJws(verify, token, nowMs) == Ok(claims)
            && claims.subject == principal.email
            && claims.id == UuidText(principal.id)
            && claims.roles == principal.authorities
  {
    var c := Jwt.IssuedClaims(principal.email, principal.id, principal.authorities, issuedMs, expirationMs);
    var token := sign(c);
    assert Text.HasText(Some(token)) && verify(token) == Jwt.Signed(c);
    assert nowMs <= c.expiration * 1000;
    assert Jwt.ParseClaimsJws(verify, token, nowMs) == Ok(c);
  }

  /** `getUserIdFromToken` on an issued token gives back the user id's text: the id claim is
      written without surrounding whitespace, so the `trim()` changes nothing. */
  lemma IssuedTokenUserId(u: JwtUtils, principal: SecurityUser.AuthDetails, issuedMs: nat, nowMs: int)
    requires Jwt.SignerMatches(u.sign, u.verify)
    requires issuedMs <= nowMs && nowMs + 1000 <= issuedMs + u.expirationMs
    ensures u.GetUserIdFromToken(u.GenerateTokenForUser(principal, issuedMs), nowMs) == Ok(UuidText(principal.id))
  {
    var token := u.GenerateTokenForUser(principal, issuedMs);
    IssuedTokenRoundTrip(u.sign, u.verify, u.expirationMs, {}, principal, issuedMs, nowMs);
    UuidTextIsTrimmed(principal.id);
  }
}
