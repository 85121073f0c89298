/** JSON Web Tokens (RFC 7519) signed with HMAC SHA-256 (section 3.2 of RFC 7518), as the
    services use them through the jjwt library. The cryptography and the compact encoding are
    abstract: a `Signer` turns claims into a token string, and a `Verifier` checks a token's
    signature with the shared key and decodes its claims, or names the library exception that
    decoding raises. Expiry is checked here, after the signature, as the library does. */
module Jwt {
  import opened Wrappers
  import opened Ids
  import Text

  /** The claims the services write and read: `sub`, the custom `id` and `roles` claims, and
      `iat`/`exp` as NumericDate values (whole seconds, section 2 of RFC 7519). */
  datatype Claims = Claims(subject: string, id: string, roles: seq<string>, issuedAt: int, expiration: int)

  /** jjwt's exceptions. `OtherJwt` stands for every other `JwtException` (a premature token,
      a claim of the wrong type, a key that is too weak). `IllegalArgument` is the only one that
      is not a `JwtException`. */
  datatype JwtError =
    | ExpiredJwt
    | UnsupportedJwt
    | MalformedJwt
    | SignatureMismatch
    | IllegalArgument
    | OtherJwt(message: string)
  {
    predicate IsJwtException() { !IllegalArgument? }
  }

  datatype Decoded = Signed(claims: Claims) | Undecodable(error: JwtError)

  type Verifier = string -> Decoded
  type Signer = Claims -> string

  /** The signer and the verifier share one key: every signed token has text and decodes to
      the claims it was signed with. */
  ghost predicate SignerMatches(sign: Signer, verify: Verifier)
  {
    forall c :: Text.HasText(Some(sign(c))) && verify(sign(c)) == Signed(c)
  }

  /** `parseClaimsJws` at clock time `nowMs` (milliseconds): a token without text is an
      IllegalArgumentException; otherwise the signature and format are checked, then the token
      is expired when the clock is strictly after `exp`. */
  function ParseClaimsJws(verify: Verifier, token: string, nowMs: int): (r: Result<Claims, JwtError>)
    ensures !Text.HasText(Some(token)) ==> r == Err(IllegalArgument)
    ensures r.Ok? <==> Text.HasText(Some(token)) && verify(token).Signed?
                       && nowMs <= verify(token).claims.expiration * 1000
    ensures r.Ok? ==> r.value == verify(token).claims
    ensures r == Err(ExpiredJwt) <==>
      Text.HasText(Some(token))
      && ((verify(token).Signed? && nowMs > verify(token).claims.expiration * 1000)
          || verify(token) == Undecodable(ExpiredJwt))
  {
    if !Text.HasText(Some(token)) then Err(IllegalArgument)
    else match verify(token)
      case Undecodable(e) => Err(e)
      case Signed(c) => if nowMs > c.expiration * 1000 then Err(ExpiredJwt) else Ok(c)
  }

  /** The claims `generateTokenForUser` writes for a principal at clock time `nowMs`: the
      e-mail as subject, the user id as text, the authority names as roles, and an expiry
      `ttlMs` after the issue time, both cut down to whole seconds. */
  function IssuedClaims(email: string, userId: Uuid, authorities: seq<string>, nowMs: nat, ttlMs: nat)
    : (c: Claims)
    ensures c.subject == email && c.id == UuidText(userId) && c.roles == authorities
    ensures c.issuedAt * 1000 <= nowMs < c.issuedAt * 1000 + 1000
    ensures c.expiration * 1000 <= nowMs + ttlMs < c.expiration * 1000 + 1000
  {
    Claims(email, UuidText(userId), authorities, nowMs / 1000, (nowMs + ttlMs) / 1000)
  }

  /** A token signed with matching keys parses back to its claims exactly until its expiry. */
  lemma SignedTokenParses(sign: Signer, verify: Verifier, c: Claims, nowMs: int)
    requires SignerMatches(sign, verify)
    ensures ParseClaimsJws(verify, sign(c), nowMs) ==
              if nowMs <= c.expiration * 1000 then Ok(c) else Err(ExpiredJwt)
  {
  }

  /** An issued token is accepted at every instant from its issue time up to `ttlMs` later,
      except for the last fraction of a second lost to whole-second `exp`, and rejected as
      expired from `ttlMs` after issue onwards (strictly after its `exp` second). */
  lemma {:induction false} IssuedTokenLifetime(
    sign: Signer, verify: Verifier, email: string, userId: Uuid, authorities: seq<string>,
    issuedMs: nat, ttlMs: nat, nowMs: int)
    requires SignerMatches(sign, verify)
    ensures var t := sign(IssuedClaims(email, userId, authorities, issuedMs, ttlMs));
            (issuedMs <= nowMs && nowMs + 1000 <= issuedMs + ttlMs ==> ParseClaimsJws(verify, t, nowMs).Ok?)
            && (nowMs > issuedMs + ttlMs ==> ParseClaimsJws(verify, t, nowMs) == Err(ExpiredJwt))
  {
    var c := IssuedClaims(email, userId, authorities, issuedMs, ttlMs);
    SignedTokenParses(sign, verify, c, nowMs);
  }
}
