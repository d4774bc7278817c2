/** The two libraries the server calls, as uninterpreted functions: jsonwebtoken
    (`sign`, `verify`) and bcryptjs (`hash`, `compare`). Only the properties the
    routes rely on are stated about them, as predicates a caller may assume. */
module Crypto {
  import opened Wrappers

  /** The claims a token carries: the user id as subject, and the email. */
  datatype Claims = Claims(sub: string, email: string)

  /** `sign(payload, secret, lifetimeSeconds)` and `verify(token, secret)`; a
      failing `verify` (bad signature, malformed, expired) is `None`. */
  datatype Jwt = Jwt(sign: (Claims, string, int) -> string, verify: (string, string) -> Option<Claims>)

  /** `hash(password, salt, cost)` and `compare(password, hash)`. */
  datatype Bcrypt = Bcrypt(hash: (string, string, int) -> string, compare: (string, string) -> bool)

  /** A token signed with a secret verifies under the same secret to its payload. */
  ghost predicate SignThenVerify(jwt: Jwt) {
    forall p, secret, lifetime :: jwt.verify(jwt.sign(p, secret, lifetime), secret) == Some(p)
  }

  /** A signed token is never the empty string (a JWT has three dot-separated parts). */
  ghost predicate TokensNonEmpty(jwt: Jwt) {
    forall p, secret, lifetime :: jwt.sign(p, secret, lifetime) != ""
  }

  /** A password matches every hash made of it, whatever the salt and cost. */
  ghost predicate HashThenCompare(b: Bcrypt) {
    forall password, salt, cost :: b.compare(password, b.hash(password, salt, cost))
  }
}
