/** The `/auth/register` and `/auth/login` handlers. */
module AuthRoutes {
  import opened Wrappers
  import opened Db
  import opened Crypto
  import opened Http
  import AuthGuard

  /** The JSON body of both routes; an absent body reads as `{}`. */
  datatype AuthBody = AuthBody(email: Option<string>, password: Option<string>, displayName: Option<string>)

  /** bcrypt's work factor. */
  const HashCost := 10

  /** The user fields sent back to the client. */
  function Public(u: User): PublicUser {
    PublicUser(u.id, u.email, u.displayName)
  }

  /** The `{ token, user }` response for a user who registered or logged in. */
  function SessionFor(jwt: Jwt, secret: string, u: User): Response {
    Response(200, Session(AuthGuard.SignToken(jwt, secret, u), Public(u)))
  }

  /** The user row `register` creates. */
  function NewUser(body: AuthBody, gen: Fresh, bcrypt: Bcrypt): User
    requires body.email.Some? && body.password.Some?
  {
    User(gen.id, body.email.value, bcrypt.hash(body.password.value, gen.salt, HashCost), body.displayName)
  }

  function Register(s: Store, body: AuthBody, gen: Fresh, jwt: Jwt, secret: string, bcrypt: Bcrypt): (o: Outcome)
    // 400 comes first, and changes nothing
    ensures !Present(body.email) || !Present(body.password) ==> o == Outcome(CredentialsRequired, s)
    // 409 for a taken email, and changes nothing
    ensures Present(body.email) && Present(body.password) && (exists u :: u in s.users && u.email == body.email.value) ==>
              o == Outcome(EmailUsed, s)
    // otherwise one new user, with the hashed password, and nothing else changes
    ensures Present(body.email) && Present(body.password) && (forall u :: u in s.users ==> u.email != body.email.value) ==>
              if gen.id in UserIds(s.users) then o == Outcome(StoreFailure, s)
              else
                var u := NewUser(body, gen, bcrypt);
                && o.store == s.(users := s.users + [u])
                && u.email == body.email.value && u.passwordHash == bcrypt.hash(body.password.value, gen.salt, HashCost)
                && o.response == SessionFor(jwt, secret, u)
    ensures o.response.status == 200 ==> |o.store.users| == |s.users| + 1 && o.store.chats == s.chats && o.store.messages == s.messages
    ensures o.response.status != 200 ==> o.store == s
  {
    if !Present(body.email) || !Present(body.password) then Outcome(CredentialsRequired, s)
    else if FindUserByEmail(s.users, body.email.value).Some? then Outcome(EmailUsed, s)
    else if gen.id in UserIds(s.users) then Outcome(StoreFailure, s)
    else
      var u := NewUser(body, gen, bcrypt);
      Outcome(SessionFor(jwt, secret, u), s.(users := s.users + [u]))
  }

  function Login(s: Store, body: AuthBody, jwt: Jwt, secret: string, bcrypt: Bcrypt): (r: Response)
    ensures !Present(body.email) || !Present(body.password) ==> r == CredentialsRequired
    // an unknown email and a wrong password give one and the same answer
    ensures Present(body.email) && Present(body.password) &&
            (forall u :: u in s.users && u.email == body.email.value ==> !bcrypt.compare(body.password.value, u.passwordHash)) ==>
              r == InvalidCredentials
    ensures r.status == 200 ==>
              exists u :: u in s.users && u.email == body.email.value && bcrypt.compare(body.password.value, u.passwordHash) &&
                          r == SessionFor(jwt, secret, u)
    ensures r.status != 200 ==> r == CredentialsRequired || r == InvalidCredentials
  {
    if !Present(body.email) || !Present(body.password) then CredentialsRequired
    else match FindUserByEmail(s.users, body.email.value)
      case None => InvalidCredentials
      case Some(u) =>
        if !bcrypt.compare(body.password.value, u.passwordHash) then InvalidCredentials
        else SessionFor(jwt, secret, u)
  }

  /** The session response does not depend on the password hash: neither the
      user object nor the token reveals anything about it. */
  lemma SessionIgnoresHash(jwt: Jwt, secret: string, u: User, h: string)
    ensures SessionFor(jwt, secret, u) == SessionFor(jwt, secret, u.(passwordHash := h))
  {
  }

  /** With unique emails, the right password for a stored user logs in as that user. */
  lemma LoginSucceeds(s: Store, body: AuthBody, jwt: Jwt, secret: string, bcrypt: Bcrypt, u: User)
    requires UniqueUsers(s.users)
    requires u in s.users && body.email == Some(u.email) && Present(body.email) && Present(body.password)
    requires bcrypt.compare(body.password.value, u.passwordHash)
    ensures Login(s, body, jwt, secret, bcrypt) == SessionFor(jwt, secret, u)
  {
    FindUserByUniqueEmail(s.users, u);
  }

  /** Registering, then logging in with the same credentials, succeeds as the new
      user, whose token the guard accepts with that user's id as subject. */
  lemma RegisterThenLogin(s: Store, body: AuthBody, gen: Fresh, jwt: Jwt, secret: string, bcrypt: Bcrypt, login: AuthBody)
    requires HashThenCompare(bcrypt)
    requires Register(s, body, gen, jwt, secret, bcrypt).response.status == 200
    requires login.email == body.email && login.password == body.password
    ensures var o := Register(s, body, gen, jwt, secret, bcrypt);
            && Login(o.store, login, jwt, secret, bcrypt).status == 200
            && Login(o.store, login, jwt, secret, bcrypt).body.user == o.response.body.user
            && o.response.body.user.id == gen.id
            // tokens carry no issue time here, so the two sessions coincide
            && Login(o.store, login, jwt, secret, bcrypt) == o.response
    ensures SignThenVerify(jwt) && TokensNonEmpty(jwt) ==>
              var token := Login(Register(s, body, gen, jwt, secret, bcrypt).store, login, jwt, secret, bcrypt).body.token;
              AuthGuard.RequireAuth(Some(AuthGuard.BearerPrefix + token), secret, jwt).user.sub == gen.id
  {
    var o := Register(s, body, gen, jwt, secret, bcrypt);
    var u := NewUser(body, gen, bcrypt);
    assert o.store.users == s.users + [u];
    // the email was free, so the new user is its only holder
    assert FindUserByEmail(o.store.users, u.email) == Some(u);
    assert bcrypt.compare(body.password.value, u.passwordHash);
    if SignThenVerify(jwt) && TokensNonEmpty(jwt) {
      AuthGuard.SignedTokenPasses(jwt, secret, u);
    }
  }

  /** A second registration with the same email, and a password, is a conflict. */
  lemma RegisterTwiceConflicts(s: Store, body: AuthBody, gen: Fresh, body2: AuthBody, gen2: Fresh, jwt: Jwt, secret: string, bcrypt: Bcrypt)
    requires Register(s, body, gen, jwt, secret, bcrypt).response.status == 200
    requires body2.email == body.email && Present(body2.password)
    ensures var s' := Register(s, body, gen, jwt, secret, bcrypt).store;
            Register(s', body2, gen2, jwt, secret, bcrypt) == Outcome(EmailUsed, s')
  {
    var u := NewUser(body, gen, bcrypt);
    assert u in Register(s, body, gen, jwt, secret, bcrypt).store.users;
  }

  /** Registration keeps the user table's keys unique. */
  lemma RegisterKeepsValid(s: Store, body: AuthBody, gen: Fresh, jwt: Jwt, secret: string, bcrypt: Bcrypt)
    requires Valid(s)
    ensures Valid(Register(s, body, gen, jwt, secret, bcrypt).store)
  {
  }
}
