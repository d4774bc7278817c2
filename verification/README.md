# BilimAI server: auth guard and ownership-scoped routes in Dafny

This project models the request-handling core of the BilimAI chat backend: the
token service and `requireAuth` guard of `middleware/auth.js`, the
`/auth/register` and `/auth/login` handlers, the `/chats` handlers (list,
create, delete with its messages) and the `/messages/:chatId` handlers (list,
create).

The database is an immutable `Db.Store` of three tables (`users`, `chats`,
`messages`) held as sequences of rows. Each handler is a pure function of
the store and the request. The handlers that write (register, create chat,
delete chat, create message) return a status code, a JSON body and the next
store (`Http.Outcome`). The read-only handlers (login, list chats, list
messages) return only the `Http.Response`, and `App.Handle` / `App.Route`
pair it with the unchanged store. `App.Handle` runs a routed request: for the chats and
messages routers it runs the guard first, then the handler with the caller's
`sub`. The store's schema constraints are `Db.Valid`: unique user ids and
emails, unique chat and message ids, and every message belongs to an existing
chat. Every request preserves them (`App.HandleKeepsValid`).

Library calls are parameters:
- `Crypto.Jwt` holds jsonwebtoken's `sign` and `verify` as uninterpreted functions.
- `Crypto.Bcrypt` holds bcryptjs's `hash` and `compare` the same way.
- The properties the routes rely on are ghost predicates, assumed only where a lemma needs them:
  - `SignThenVerify`: a token verifies to its payload under the secret that signed it.
  - `TokensNonEmpty`: a signed token is never `""`.
  - `HashThenCompare`: a password matches every hash made of it.

What the database and libraries generate per request is a `Db.Fresh` value:
the new row's id, the `now()` timestamp and bcrypt's random salt. If the
generated id is already taken, the create throws a unique-constraint error.
The handler's catch then answers 500. The model keeps that path as
`Http.StoreFailure` and leaves the store unchanged.

JSON body fields, the `Authorization` header and `JWT_SECRET` are
`Option<string>`. JavaScript's truthiness test `!x` on them is `Http.Present`:
the field is present and is not `""`.

Listings are ordered by `createdAt` only, so two rows with equal timestamps
may come back in either order. The contracts therefore promise non-decreasing
(messages) and non-increasing (chats) `createdAt`, not a strict order. Among
equal timestamps the model returns rows in table order.

## Model

| member | source | states |
|---|---|---|
| AuthGuard.SigningSecret | bilim_ai/server/src/middleware/auth.js:5 | the secret is `JWT_SECRET` when it is set and non-empty, otherwise `"dev_secret"`; it is never empty |
| AuthGuard.SignToken | bilim_ai/server/src/middleware/auth.js:3-5 | if verify undoes sign, the token verifies under the same secret to claims holding exactly `sub` = the user's id and `email` = the user's email |
| AuthGuard.StartsWithIsPrefix | bilim_ai/server/src/middleware/auth.js:10 | the character-by-character `startsWith` holds exactly when the prefix equals the first characters of the header |
| AuthGuard.BearerToken | bilim_ai/server/src/middleware/auth.js:9-10 | an absent header reads as `""`; a token exists exactly when the header begins with `"Bearer "`, and then the header is `"Bearer "` followed by the token |
| AuthGuard.BearerHeaderYieldsToken | bilim_ai/server/src/middleware/auth.js:10 | removing the 7-character prefix from `"Bearer " + t` gives back `t` |
| AuthGuard.RequireAuth | bilim_ai/server/src/middleware/auth.js:8-19 | every rejection is 401; an absent header, a header without the prefix, or exactly `"Bearer "` (empty token) gives `'Unauthorized'`; a non-empty token that fails `verify` gives `'Invalid token'`; otherwise `next` runs once with `req.user` set to the decoded claims |
| AuthGuard.SignedTokenPasses | bilim_ai/server/src/middleware/auth.js:3-15 | if verify undoes sign and signed tokens are never empty, a token from `signToken(u)` passes the guard with `sub = u.id` |
| AuthRoutes.SessionIgnoresHash | bilim_ai/server/src/routes/auth.js:16-17 | the `{ token, user }` response of register and login is the same whatever the user's password hash is, so it reveals nothing of it |
| AuthRoutes.Register | bilim_ai/server/src/routes/auth.js:8-21 | 400 when email or password is missing or empty, before any lookup; 409 when the email is taken; otherwise exactly one user is appended with that email and `passwordHash = hash(password)`; on every non-200 outcome the store is unchanged |
| AuthRoutes.Login | bilim_ai/server/src/routes/auth.js:23-36 | 400 when email or password is missing or empty; an unknown email and a wrong password give the one identical 401 `'invalid credentials'`; a 200 belongs to a stored user with that email whose hash matches the password |
| AuthRoutes.LoginSucceeds | bilim_ai/server/src/routes/auth.js:27-32 | with unique emails, the right password for a stored user returns that user's session |
| AuthRoutes.RegisterThenLogin | bilim_ai/server/src/routes/auth.js:12-32 | if compare accepts the hash of the password, register then login with the same credentials returns 200 with the same user object, whose id is the new id; if moreover verify undoes sign and signed tokens are never empty, the login token passes the guard with that id as `sub` |
| AuthRoutes.RegisterTwiceConflicts | bilim_ai/server/src/routes/auth.js:11-15 | after a successful register, any register with the same email and a present password returns 409 and changes nothing (a missing password is the 400 of auth.js:11 instead) |
| AuthRoutes.RegisterKeepsValid | bilim_ai/server/src/routes/auth.js:12-15 | registration keeps user ids and emails unique |
| Db.FindUserByEmail | bilim_ai/server/src/routes/auth.js:12 | the lookup returns a stored user with exactly that email, and finds none only when no user has it |
| Db.FindUserByUniqueEmail | bilim_ai/server/src/routes/auth.js:27 | with unique emails the lookup returns the one user holding the email |
| Db.FindChat | bilim_ai/server/src/routes/chats.js:39 | the lookup returns a stored chat with that id, and finds none only when the id is absent |
| Db.FoundAndOwned | bilim_ai/server/src/routes/chats.js:39-40 | the test "found and `userId` matches" implies the caller owns the chat, and with unique ids is implied by it |
| Seqs.Find | bilim_ai/server/src/routes/chats.js:39 | a lookup returns the first row satisfying the condition, and none only when no row does |
| Seqs.Filter | bilim_ai/server/src/routes/messages.js:15-16 | a `where` filter keeps exactly the rows satisfying the condition |
| Seqs.FilterCount | bilim_ai/server/src/routes/chats.js:41 | a filter keeps each kept row as many times as it occurs and drops every other row |
| Seqs.SortBy | bilim_ai/server/src/routes/messages.js:17 | `orderBy` returns a rearrangement of its input, with the same elements, in non-decreasing order of the key |
| ChatRoutes.ListChats | bilim_ai/server/src/routes/chats.js:9-20 | 200 with exactly the chats whose `userId` is the caller's `sub`, each as often as stored, in non-increasing `createdAt` order |
| ChatRoutes.NewestFirstDescending | bilim_ai/server/src/routes/chats.js:14 | sorting by the negated timestamp is `createdAt: 'desc'` order |
| ChatRoutes.CreateInvisibleToOthers | bilim_ai/server/src/routes/chats.js:11-15 | a chat one user creates does not change another user's chat list |
| ChatRoutes.CreateChat | bilim_ai/server/src/routes/chats.js:23-32 | 201 with one new chat whose `userId` is the caller's `sub` and whose title is the given one, possibly absent; it is appended and nothing else changes |
| ChatRoutes.DeleteChat | bilim_ai/server/src/routes/chats.js:35-47 | an absent chat and another user's chat give the same 404 `'Not found'`, store unchanged; a successful delete removes the chat and every message of it, and keeps every other chat and message and all users |
| ChatRoutes.DeleteTwice | bilim_ai/server/src/routes/chats.js:39-42 | deleting the same chat again returns 404 and changes nothing |
| ChatRoutes.CreateKeepsValid | bilim_ai/server/src/routes/chats.js:27 | creating a chat keeps the schema constraints |
| ChatRoutes.DeleteKeepsValid | bilim_ai/server/src/routes/chats.js:41-42 | deleting the messages together with the chat leaves no message without its chat |
| MessageRoutes.ListMessages | bilim_ai/server/src/routes/messages.js:9-23 | an absent or foreign chat gives 404 `'Not found'`; otherwise 200 with exactly that chat's messages, in non-decreasing `createdAt` order |
| MessageRoutes.CreateMessage | bilim_ai/server/src/routes/messages.js:26-39 | an absent or foreign chat gives 404 whatever the body holds; then a missing or empty role or content gives 400; otherwise 201 with one message appended with that chatId, role and content; every rejection leaves the store unchanged |
| MessageRoutes.OwnedInOwnChats | bilim_ai/server/src/routes/messages.js:14 | the caller owns a chat exactly when its id is among the ids of the caller's chats |
| MessageRoutes.ListMessagesReadsOnlyOwn | bilim_ai/server/src/routes/messages.js:13-18 | the listing reads only the caller's chats and their messages: two stores that agree on those give the same answer |
| MessageRoutes.CreateKeepsValid | bilim_ai/server/src/routes/messages.js:30-34 | a message is only ever created inside an existing chat |
| App.Handle | bilim_ai/server/src/index.js:27-29 | `/auth` is mounted without the guard, so register and login go straight to their handlers; on the chats and messages routes the guard answers first, with 401 and an unchanged store, and when it passes the handler runs with the decoded `sub` as the caller; login and both listings never change the store |
| App.AuthorizedAs | bilim_ai/server/src/routes/messages.js:6 | a request bearing a token issued to `u` reaches its handler with `u`'s id as `sub` |
| App.HandleKeepsValid | bilim_ai/server/src/routes/chats.js:39-43 | every request preserves unique keys and message-to-chat references |
| App.RouteKeepsValid | bilim_ai/server/src/routes/messages.js:30-35 | every handler behind the guard preserves the schema constraints |
| App.Scenario | bilim_ai/server/src/routes/messages.js:9-39 | register alice, create chat "trip" (201, owned by her), post "hi" (201), list it (exactly that message), delete the chat (`{ ok: true }`), list again (404) |

## Left out

- Of `index.js` only the mounting of the three routers (lines 27-29, with `/auth` unguarded) is modelled, by `App.Handle`. Server start-up, CORS, the 1 MB JSON limit, the health check's raw SQL query and the fallback 404 are left out as transport plumbing.
- Every 500 path except a colliding generated id: database and library exceptions carry no logic of their own. The error text of a 500 is abstracted to `InternalError`.
- Prisma's id generation and `now()` default are not reproduced. They arrive as the `Db.Fresh` parameter.
- jsonwebtoken's HMAC signing and the 7-day expiry clock are not modelled. `TokenLifetime` is passed to the uninterpreted `sign`. An expired token is one that `verify` rejects. The `iat`/`exp` claims `sign` adds to the payload (and `verify` returns) are not modelled.
- AuthRoutes.RegisterThenLogin: tokens in the model do not depend on the time, so its clause that the login response equals the register response holds of the model only; jsonwebtoken stamps the issue time, so a login in a later second returns a different token. The same status, the same user object and a token accepted with the new id as `sub` are what the source promises.
- Verified payloads are assumed to carry a string `sub` and `email` (`Crypto.Claims`), which holds of every token `signToken` issues. A token validly signed over a payload without `sub` would reach the handlers with `sub` undefined; Prisma reads `where: { userId: undefined }` as no filter, so that chat list would not be scoped to a caller. This case is not modelled.
- bcrypt's salting and cost are not modelled. The salt comes from `Db.Fresh` and the cost 10 is passed to the uninterpreted `hash`.
- Concurrency is not modelled: each request is atomic. This hides the race between the ownership lookup and the mutation, and the window between the two deletes of a chat deletion.
- Express routing and middleware dispatch are reduced to "the guard runs before the handler" (`App.Handle`).
- JSON body values other than strings (numbers, booleans, objects) are not modelled; truthiness is modelled for strings only. A truthy non-string value passes the presence checks and then fails wherever a library or the database first expects a string (bcryptjs for a password, Prisma for the other fields), giving a 500 — unless the request is answered earlier, for instance 409 for a taken email or 401 for an unknown one.
- A foreign key from `chat.userId` to the user table is not assumed, because the schema is not part of this model. `Db.Valid` constrains only keys and message-to-chat references.
- ChatRoutes.DeleteChat: the success clauses assume unique chat ids (part of `Db.Valid`), as the database guarantees for `findUnique`. Without them only the 404 clause is stated.
- MessageRoutes.ListMessages: the success clauses assume unique chat ids, as for `DeleteChat`.
- MessageRoutes.CreateMessage: the 400, 500 and 201 clauses assume unique chat ids, as for `DeleteChat`.
- AuthRoutes.Login: the contract states the failure direction for every store. The success direction ("the right password logs in") needs unique emails and is the lemma `AuthRoutes.LoginSucceeds`.
