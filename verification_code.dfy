/** The `verification_code` entity: a six-digit code for one user, valid for five minutes.
    Clock times are `LocalDateTime` values counted in whole seconds. */
module VerificationCodes {
  import opened Ids
  import Text

  const CodeLifetimeSeconds := 5 * 60
  /** The exclusive bound passed to `Random.nextInt`. */
  const CodeBound := 999999
  const CodeWidth := 6

  datatype VerificationCode = VerificationCode(
    verificationCodeId: Uuid, code: string, userId: Uuid, createdAt: int, expirationTime: int)

  function CodeKey(c: VerificationCode): Uuid { c.verificationCodeId }

  /** `prePersist`: stamps the creation time and overrides whatever expiry the builder set. */
  function PrePersist(c: VerificationCode, now: int): (r: VerificationCode)
    ensures r.createdAt == now && r.expirationTime == now + CodeLifetimeSeconds
    ensures r.expirationTime - r.createdAt == CodeLifetimeSeconds
    ensures r.verificationCodeId == c.verificationCodeId && r.code == c.code && r.userId == c.userId
  {
    c.(createdAt := now, expirationTime := now + CodeLifetimeSeconds)
  }

  /** `isExpired`: the clock is strictly after the expiry. */
  predicate IsExpired(c: VerificationCode, now: int)
  {
    now > c.expirationTime
  }

  /** The service's `isCodeExpired`: the expiry is strictly before the clock. */
  predicate IsCodeExpired(c: VerificationCode, now: int)
  {
    c.expirationTime < now
  }

  /** The entity's and the service's expiry tests agree at every instant, and a code is still
      valid at its expiration instant. */
  lemma ExpiryTestsAgree(c: VerificationCode, now: int)
    ensures IsExpired(c, now) <==> IsCodeExpired(c, now)
    ensures !IsExpired(c, c.expirationTime)
  {
  }

  /** A freshly persisted code is valid for exactly five minutes after `now`, inclusive. */
  lemma PersistedCodeLifetime(c: VerificationCode, now: int, later: int)
    ensures IsExpired(PrePersist(c, now), later) <==> later > now + CodeLifetimeSeconds
  {
  }

  /** `String.format("%06d", n)` for the random draw `n`. */
  function GenerateVerificationCode(n: nat): (s: string)
    requires n < CodeBound
    ensures |s| == CodeWidth && Text.AllDigits(s) && Text.DecimalValue(s) == n
  {
    assert n < Text.Pow10(6);
    Text.ZeroPaddedRoundTrip(n, CodeWidth);
    Text.ZeroPadded(n, CodeWidth)
  }

  /** The row `generateAndSaveVerificationCode` stores for `userId` with the id `id`, once
      persisted at `now`. */
  function NewCode(id: Uuid, userId: Uuid, draw: nat, now: int): VerificationCode
    requires draw < CodeBound
  {
    VerificationCode(id, GenerateVerificationCode(draw), userId, now, now + CodeLifetimeSeconds)
  }

  /** Different draws give different codes. */
  lemma GeneratedCodesDiffer(m: nat, n: nat)
    requires m < CodeBound && n < CodeBound && m != n
    ensures GenerateVerificationCode(m) != GenerateVerificationCode(n)
  {
  }
}
