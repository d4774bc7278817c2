/** The token service and the auth guard of the middleware: `signToken` and
    `requireAuth`. */
module AuthGuard {
  import opened Wrappers
  import opened Db
  import opened Crypto
  import opened Http

  /** The signing secret used when `JWT_SECRET` is unset or empty. */
  const DevSecret := "dev_secret"

  /** `expiresIn: '7d'`, in seconds. */
  const TokenLifetime := 7 * 24 * 60 * 60

  const BearerPrefix := "Bearer "

  /** `process.env.JWT_SECRET || 'dev_secret'`, shared by signing and verifying. */
  function SigningSecret(jwtSecretEnv: Option<string>): (secret: string)
    ensures Present(jwtSecretEnv) ==> secret == jwtSecretEnv.value
    ensures !Present(jwtSecretEnv) ==> secret == DevSecret
    ensures secret != ""
  {
    if Present(jwtSecretEnv) then jwtSecretEnv.value else DevSecret
  }

  /** The payload `signToken` signs: the user's id as `sub` and the user's email. */
  function Payload(u: User): Claims {
    Claims(u.id, u.email)
  }

  /** `signToken`: a token whose verified claims are exactly the user's id and email. */
  function SignToken(jwt: Jwt, secret: string, u: User): (token: string)
    ensures SignThenVerify(jwt) ==> jwt.verify(token, secret) == Some(Claims(u.id, u.email))
  {
    jwt.sign(Payload(u), secret, TokenLifetime)
  }

  /** JavaScript's `s.startsWith(prefix)`, character by character. */
  predicate StartsWith(s: string, prefix: string)
    decreases |prefix|
  {
    |prefix| == 0 || (|s| > 0 && s[0] == prefix[0] && StartsWith(s[1..], prefix[1..]))
  }

  /** `startsWith` holds exactly when `prefix` is the first `|prefix|` characters of `s`. */
  lemma {:induction false} StartsWithIsPrefix(s: string, prefix: string)
    ensures StartsWith(s, prefix) <==> |prefix| <= |s| && s[..|prefix|] == prefix
    decreases |prefix|
  {
    if |prefix| > 0 && |s| > 0 {
      StartsWithIsPrefix(s[1..], prefix[1..]);
      if |prefix| <= |s| && s[..|prefix|] == prefix {
        assert s[1..][..|prefix| - 1] == s[..|prefix|][1..];
      }
      if s[0] == prefix[0] && |prefix| - 1 <= |s| - 1 && s[1..][..|prefix| - 1] == prefix[1..] {
        assert s[..|prefix|] == [s[0]] + s[1..][..|prefix| - 1];
        assert prefix == [prefix[0]] + prefix[1..];
      }
    }
  }

  /** The header value carries the `"Bearer "` prefix. */
  predicate HasBearerPrefix(header: Option<string>) {
    header.Some? && |header.value| >= 7 && header.value[..7] == BearerPrefix
  }

  /** The token `requireAuth` extracts: the header (absent read as `""`) with its
      7-character prefix removed, or none when the prefix is missing. */
  function BearerToken(header: Option<string>): (token: Option<string>)
    ensures token.Some? <==> HasBearerPrefix(header)
    ensures token.Some? ==> header.value == BearerPrefix + token.value
  {
    var h := header.GetOr("");
    StartsWithIsPrefix(h, BearerPrefix);
    if StartsWith(h, BearerPrefix) then
      assert h == h[..7] + h[7..];
      Some(h[7..])
    else None
  }

  /** The header a client sends for a token. */
  lemma BearerHeaderYieldsToken(token: string)
    ensures BearerToken(Some(BearerPrefix + token)) == Some(token)
  {
    var h := BearerPrefix + token;
    assert h[..7] == BearerPrefix;
  }

  /** What the guard does with a request: answer it itself, or call `next` once
      with `req.user` set to the decoded claims. */
  datatype GuardResult = Halt(response: Response) | Next(user: Claims)

  /** `requireAuth` with the secret and `jwt.verify` it uses. */
  function RequireAuth(header: Option<string>, secret: string, jwt: Jwt): (g: GuardResult)
    ensures g.Halt? ==> g.response.status == 401
    ensures !HasBearerPrefix(header) ==> g == Halt(Unauthorized)
    ensures header == Some(BearerPrefix) ==> g == Halt(Unauthorized)
    ensures HasBearerPrefix(header) && |header.value| > 7 ==>
              match jwt.verify(header.value[7..], secret)
              case None => g == Halt(InvalidToken)
              case Some(claims) => g == Next(claims)
  {
    match BearerToken(header)
    case None => Halt(Unauthorized)
    case Some(token) =>
      if token == "" then Halt(Unauthorized)
      else match jwt.verify(token, secret)
        case None => Halt(InvalidToken)
        case Some(decoded) => Next(decoded)
  }

  /** A token `signToken` issued passes the guard, which attaches the user's id as `sub`. */
  lemma SignedTokenPasses(jwt: Jwt, secret: string, u: User)
    requires SignThenVerify(jwt) && TokensNonEmpty(jwt)
    ensures RequireAuth(Some(BearerPrefix + SignToken(jwt, secret, u)), secret, jwt) == Next(Payload(u))
    ensures RequireAuth(Some(BearerPrefix + SignToken(jwt, secret, u)), secret, jwt).user.sub == u.id
  {
    var token := SignToken(jwt, secret, u);
    BearerHeaderYieldsToken(token);
    assert jwt.verify(token, secret) == Some(Payload(u));
  }
}
