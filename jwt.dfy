/**
  JSON Web Tokens (RFC 7519) as the `jsonwebtoken` library produces and checks
  them. The cryptography is not modelled: the library's signing and signature
  check are two function values handed in by the caller, and `SignerSound`
  states the little that the controllers rely on. What is modelled is the
  library's own bookkeeping around them: `iat` is the signing time in whole
  seconds, `exp` is `iat` plus the lifetime, and a token whose `exp` has been
  reached is rejected as expired.
*/
module Jwt {
  import opened Wrappers

  /** The payload the application signs: the user id (a private claim named `id`),
      and the `iat` and `exp` claims, NumericDate values in whole seconds
      (RFC 7519, sections 4.1.6 and 4.1.4). */
  datatype Claims = Claims(id: nat, iat: int, exp: int)

  /** `sign` serialises the claims and signs them with a secret; `unsign` checks
      a token's signature against a secret and gives back the claims it carries. */
  datatype Signer = Signer(sign: (Claims, string) -> string, unsign: (string, string) -> Option<Claims>)

  /** The characters of the compact serialisation: base64url and the dots between parts. */
  predicate IsCompactChar(c: char) {
    'A' <= c <= 'Z' || 'a' <= c <= 'z' || '0' <= c <= '9' || c == '-' || c == '_' || c == '.'
  }

  predicate IsCompact(t: string) {
    |t| > 0 && forall i :: 0 <= i < |t| ==> IsCompactChar(t[i])
  }

  /** What the application assumes of the signer: a signed token gives back its
      claims under the secret that signed it, under no other secret, and is a
      non-empty compact string. */
  ghost predicate SignerSound(sg: Signer) {
    && (forall c: Claims, key: string :: sg.unsign(sg.sign(c, key), key) == Some(c))
    && (forall c: Claims, key: string, other: string :: key != other ==> sg.unsign(sg.sign(c, key), other) == None)
    && (forall c: Claims, key: string :: IsCompact(sg.sign(c, key)))
  }

  /** The outcome of `jwt.verify`: the decoded claims, or the error it throws
      (`JsonWebTokenError` for a bad signature, `TokenExpiredError` for an expired token). */
  datatype Verdict = Valid(claims: Claims) | Invalid | Expired

  /** The `jsonwebtoken` clock: `Math.floor(Date.now() / 1000)`. */
  function Seconds(nowMs: nat): nat {
    nowMs / 1000
  }

  /** `jwt.sign({ id }, secret, { expiresIn: lifetime })` at time `nowMs`. */
  function Sign(sg: Signer, id: nat, secret: string, lifetime: nat, nowMs: nat): string {
    sg.sign(Claims(id, Seconds(nowMs), Seconds(nowMs) + lifetime), secret)
  }

  /** `jwt.verify(token, secret)` at time `nowMs`: the signature is checked, then
      the token is expired once the clock has reached `exp`. */
  function Verify(sg: Signer, token: string, secret: string, nowMs: nat): (v: Verdict)
    ensures v.Valid? <==> sg.unsign(token, secret).Some? && Seconds(nowMs) < sg.unsign(token, secret).value.exp
    ensures v.Valid? ==> Some(v.claims) == sg.unsign(token, secret)
    ensures v == Invalid <==> sg.unsign(token, secret).None?
  {
    match sg.unsign(token, secret)
    case None => Invalid
    case Some(c) => if Seconds(nowMs) >= c.exp then Expired else Valid(c)
  }

  /** A token verifies under the secret that signed it, with the claims it was
      signed with, until its lifetime has run out; from then on it is expired. */
  lemma VerifySigned(sg: Signer, id: nat, secret: string, lifetime: nat, issuedMs: nat, nowMs: nat)
    requires SignerSound(sg)
    ensures Verify(sg, Sign(sg, id, secret, lifetime, issuedMs), secret, nowMs)
            == if Seconds(nowMs) < Seconds(issuedMs) + lifetime
               then Valid(Claims(id, Seconds(issuedMs), Seconds(issuedMs) + lifetime))
               else Expired
  {
  }

  /** A token signed with one secret never verifies under another. */
  lemma VerifyOtherSecret(sg: Signer, id: nat, secret: string, other: string, lifetime: nat, issuedMs: nat, nowMs: nat)
    requires SignerSound(sg)
    requires secret != other
    ensures Verify(sg, Sign(sg, id, secret, lifetime, issuedMs), other, nowMs) == Invalid
  {
  }
}
