/** Tokens with ideal signatures: only the holder of a key can make a token that verifies under it. */
module Jwt {
  import opened Models

  /** Times are nanoseconds; a NumericDate is written in whole seconds (RFC 7519, section 4.1.4). */
  const SECOND: nat := 1_000_000_000

  function Truncate(t: nat): nat {
    t - t % SECOND
  }

  datatype Method = Hmac(bits: nat) | OtherMethod

  /** A string the parser can be given. `exp` is absent when the claim is. */
  datatype Token = Garbage | Signed(alg: Method, key: string, value: string, exp: Option<nat>)

  function GenerateToken(value: string, secret: string, ttl: nat, now: nat): Token {
    Signed(Hmac(256), secret, value, Some(Truncate(now + ttl)))
  }

  function ParseToken(token: Token, secret: string, now: nat): Option<string> {
    match token
    case Garbage => None
    case Signed(alg, key, value, exp) =>
      if !alg.Hmac? || key != secret then None
      else if exp.Some? && now >= exp.value then None
      else Some(value)
  }

  /** ParseToken inverts GenerateToken exactly under the same secret and before the written expiry. */
  lemma RoundTrip(value: string, secret: string, ttl: nat, issued: nat, other: string, now: nat)
    ensures ParseToken(GenerateToken(value, secret, ttl, issued), other, now) == Some(value)
       <==> other == secret && now < Truncate(issued + ttl)
    ensures ParseToken(GenerateToken(value, secret, ttl, issued), other, now) in {None, Some(value)}
    ensures issued + ttl < Truncate(issued + ttl) + SECOND <= issued + ttl + SECOND
  {
  }

  /** What parses was signed with an HMAC under this very secret and has not expired. */
  lemma AcceptedTokens(token: Token, secret: string, now: nat)
    requires ParseToken(token, secret, now).Some?
    ensures token.Signed? && token.alg.Hmac? && token.key == secret && (token.exp.Some? ==> now < token.exp.value)
    ensures ParseToken(token, secret, now).value == token.value
  {
  }
}
