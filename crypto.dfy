/** bcrypt, seen only through what the services rely on: a salted one-way digest
    and a comparison that accepts exactly the password it was made from. */
module Bcrypt {

  /** A digest. Nothing but `Compare` looks inside it; the salt is the random
      part `bcrypt.hash` draws. */
  datatype Digest = Digest(secret: string, salt: nat)

  function Hash(password: string, salt: nat): Digest
  {
    Digest(password, salt)
  }

  predicate Compare(password: string, digest: Digest)
  {
    digest.secret == password
  }

  lemma CompareHash(password: string, candidate: string, salt: nat)
    ensures Compare(candidate, Hash(password, salt)) <==> candidate == password
  {
  }
}

/** JSON Web Tokens as `@nestjs/jwt` signs, verifies and decodes them. A token is
    either well formed, carrying the secret that signed it, its claims and its
    `iat`/`exp` times in seconds, or something that does not parse at all. */
module Jwt {
  import opened Responses

  type Key = string

  /** The claim set both token kinds carry. A `userId` of 0 stands for a claim
      that is missing or falsy (the tables hand out keys from 1). */
  datatype Claims = Claims(userId: nat, email: string)

  datatype Token =
    | Signed(secret: Key, claims: Claims, issuedAt: int, expiresAt: int)
    | Malformed(text: string)

  /** `expiresIn: '7d'`, in seconds. */
  const ExpiresIn := 7 * 24 * 60 * 60

  const MissingSecret := "secretOrPrivateKey must have a value"

  /** What `verify` reports: the claims, or which error it throws
      (`TokenExpiredError` or `JsonWebTokenError`). */
  datatype Verdict = Verified(claims: Claims) | Expired | Invalid

  /** `sign(payload, { secret, expiresIn: '7d' })` at clock time `now`; an unset
      secret makes it throw. */
  function Sign(secret: Option<Key>, claims: Claims, now: int): (r: Result<Token>)
    ensures r.Err? <==> secret.None?
    ensures r.Err? ==> r.error == Failure(MissingSecret)
    ensures r.Ok? ==> r.value.Signed? && r.value.secret == secret.value && r.value.claims == claims
    ensures r.Ok? ==> r.value.issuedAt == now && r.value.expiresAt == now + ExpiresIn
  {
    match secret
    case None => Err(Failure(MissingSecret))
    case Some(key) => Ok(Signed(key, claims, now, now + ExpiresIn))
  }

  /** `verify(token, { secret })` at clock time `now`: the signature first, then
      the expiry (`now >= exp` is expired). */
  function Verify(token: Token, secret: Option<Key>, now: int): Verdict
  {
    if secret.None? || token.Malformed? || token.secret != secret.value then Invalid
    else if now >= token.expiresAt then Expired
    else Verified(token.claims)
  }

  /** `decode(token)`: the claims of anything that parses, checking neither
      signature nor expiry; `null` for what does not parse. */
  function Decode(token: Token): Option<Claims>
  {
    if token.Signed? then Some(token.claims) else None
  }

  /** A token verifies under the secret that signed it until its seventh day
      starts, and is expired from then on. */
  lemma SignThenVerify(secret: Key, claims: Claims, now: int, later: int)
    ensures Sign(Some(secret), claims, now).Ok?
    ensures Verify(Sign(Some(secret), claims, now).value, Some(secret), later)
         == if later < now + ExpiresIn then Verified(claims) else Expired
  {
  }

  /** Signing under one secret and verifying under another never succeeds and
      never reads as expiry. */
  lemma OtherSecretRejects(signer: Key, verifier: Key, claims: Claims, now: int, later: int)
    requires signer != verifier
    ensures Verify(Sign(Some(signer), claims, now).value, Some(verifier), later) == Invalid
  {
  }

  /** Two signings a second apart yield different tokens; in the same second
      they yield the same one. */
  lemma SigningsDifferByTime(secret: Key, claims: Claims, t1: int, t2: int)
    ensures (Sign(Some(secret), claims, t1) == Sign(Some(secret), claims, t2)) <==> t1 == t2
  {
  }
}
