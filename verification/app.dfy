/** The server as a whole: each request goes through the guard when its route
    group is protected, then to its handler, atomically against the store. */
module App {
  import opened Wrappers
  import opened Db
  import opened Crypto
  import opened Http
  import AuthGuard
  import AuthRoutes
  import ChatRoutes
  import MessageRoutes

  /** The process configuration (`JWT_SECRET`) and the two libraries. */
  datatype Server = Server(jwtSecretEnv: Option<string>, jwt: Jwt, bcrypt: Bcrypt)

  /** A request, already routed; `authorization` is the `Authorization` header. */
  datatype Request =
    | Register(body: AuthRoutes.AuthBody)
    | Login(body: AuthRoutes.AuthBody)
    | ListChats(authorization: Option<string>)
    | CreateChat(authorization: Option<string>, title: Option<string>)
    | DeleteChat(authorization: Option<string>, id: string)
    | ListMessages(authorization: Option<string>, chatId: string)
    | CreateMessage(authorization: Option<string>, chatId: string, message: MessageRoutes.MessageBody)
  {
    /** The chats and messages routers install `requireAuth`; the auth router does not. */
    predicate Protected() { !Register? && !Login? }
  }

  function Secret(sv: Server): string {
    AuthGuard.SigningSecret(sv.jwtSecretEnv)
  }

  function Handle(sv: Server, s: Store, gen: Fresh, req: Request): (o: Outcome)
    // the guard answers before any handler, with 401, and changes nothing
    ensures req.Protected() && AuthGuard.RequireAuth(req.authorization, Secret(sv), sv.jwt).Halt? ==>
              o == Outcome(AuthGuard.RequireAuth(req.authorization, Secret(sv), sv.jwt).response, s) && o.response.status == 401
    // a passing guard hands the request to its handler with the decoded `sub`
    ensures req.Protected() && AuthGuard.RequireAuth(req.authorization, Secret(sv), sv.jwt).Next? ==>
              o == Route(s, AuthGuard.RequireAuth(req.authorization, Secret(sv), sv.jwt).user.sub, gen, req)
    // the auth router has no guard: register and login reach their handlers directly
    ensures req.Register? ==> o == AuthRoutes.Register(s, req.body, gen, sv.jwt, Secret(sv), sv.bcrypt)
    ensures req.Login? ==> o == Outcome(AuthRoutes.Login(s, req.body, sv.jwt, Secret(sv), sv.bcrypt), s)
    // reads never change the store
    ensures req.Login? || req.ListChats? || req.ListMessages? ==> o.store == s
  {
    if !req.Protected() then
      match req
      case Register(body) => AuthRoutes.Register(s, body, gen, sv.jwt, Secret(sv), sv.bcrypt)
      case Login(body) => Outcome(AuthRoutes.Login(s, body, sv.jwt, Secret(sv), sv.bcrypt), s)
    else
      match AuthGuard.RequireAuth(req.authorization, Secret(sv), sv.jwt)
      case Halt(response) => Outcome(response, s)
      case Next(user) => Route(s, user.sub, gen, req)
  }

  /** The handler of a protected request, called by the guard's `next` with the caller's id. */
  function Route(s: Store, sub: string, gen: Fresh, req: Request): Outcome
    requires req.Protected()
  {
    match req
    case ListChats(_) => Outcome(ChatRoutes.ListChats(s, sub), s)
    case CreateChat(_, title) => ChatRoutes.CreateChat(s, sub, title, gen)
    case DeleteChat(_, id) => ChatRoutes.DeleteChat(s, sub, id)
    case ListMessages(_, chatId) => Outcome(MessageRoutes.ListMessages(s, sub, chatId), s)
    case CreateMessage(_, chatId, message) => MessageRoutes.CreateMessage(s, sub, chatId, message, gen)
  }

  /** Every request keeps the schema's constraints: unique keys, and no message
      outlives its chat (which is why the delete removes the messages first). */
  lemma HandleKeepsValid(sv: Server, s: Store, gen: Fresh, req: Request)
    requires Valid(s)
    ensures Valid(Handle(sv, s, gen, req).store)
  {
    match req
    case Register(body) => AuthRoutes.RegisterKeepsValid(s, body, gen, sv.jwt, Secret(sv), sv.bcrypt);
    case Login(_) =>
    case _ =>
      var g := AuthGuard.RequireAuth(req.authorization, Secret(sv), sv.jwt);
      if g.Next? {
        RouteKeepsValid(s, g.user.sub, gen, req);
      }
  }

  lemma RouteKeepsValid(s: Store, sub: string, gen: Fresh, req: Request)
    requires Valid(s) && req.Protected()
    ensures Valid(Route(s, sub, gen, req).store)
  {
    match req
    case CreateChat(_, title) => ChatRoutes.CreateKeepsValid(s, sub, title, gen);
    case DeleteChat(_, id) => ChatRoutes.DeleteKeepsValid(s, sub, id);
    case CreateMessage(_, chatId, message) => MessageRoutes.CreateKeepsValid(s, sub, chatId, message, gen);
    case _ =>
  }

  /** A header carrying a token issued to `u` lets a protected request through as `u`. */
  lemma AuthorizedAs(sv: Server, s: Store, gen: Fresh, req: Request, u: User)
    requires SignThenVerify(sv.jwt) && TokensNonEmpty(sv.jwt)
    requires req.Protected() && req.authorization == Some(AuthGuard.BearerPrefix + AuthGuard.SignToken(sv.jwt, Secret(sv), u))
    ensures Handle(sv, s, gen, req) == Route(s, u.id, gen, req)
  {
    AuthGuard.SignedTokenPasses(sv.jwt, Secret(sv), u);
  }

  /** Register, create a chat, post a message, list it, delete the chat, and list again. */
  lemma Scenario(sv: Server, g1: Fresh, g2: Fresh, g3: Fresh, g4: Fresh, g5: Fresh, g6: Fresh)
    requires SignThenVerify(sv.jwt) && TokensNonEmpty(sv.jwt)
    ensures
      var o1 := Handle(sv, Store([], [], []), g1, Register(AuthRoutes.AuthBody(Some("alice@example.com"), Some("pw123456"), None)));
      var auth := Some(AuthGuard.BearerPrefix + o1.response.body.token);
      var o2 := Handle(sv, o1.store, g2, CreateChat(auth, Some("trip")));
      var o3 := Handle(sv, o2.store, g3, CreateMessage(auth, g2.id, MessageRoutes.MessageBody(Some("user"), Some("hi"))));
      var o4 := Handle(sv, o3.store, g4, ListMessages(auth, g2.id));
      var o5 := Handle(sv, o4.store, g5, DeleteChat(auth, g2.id));
      var o6 := Handle(sv, o5.store, g6, ListMessages(auth, g2.id));
      && o1.response.status == 200
      && o2.response.status == 201 && o2.response.body.chat.userId == g1.id
      && o3.response.status == 201
      && o4.response == Response(200, MessageList([Message(g3.id, g2.id, "user", "hi", g3.now)]))
      && o5.response == Response(200, Ok)
      && o6.response == NotFound
  {
    var body := AuthRoutes.AuthBody(Some("alice@example.com"), Some("pw123456"), None);
    var alice := AuthRoutes.NewUser(body, g1, sv.bcrypt);
    var chat := Chat(g2.id, g1.id, Some("trip"), g2.now);
    var msg := Message(g3.id, g2.id, "user", "hi", g3.now);
    ScenarioRegister(sv, g1);
    ScenarioCreateChat(sv, alice, g2);
    ScenarioPost(sv, alice, chat, g3);
    ScenarioList(sv, alice, chat, msg, g4);
    ScenarioDelete(sv, alice, chat, msg, g5);
    ScenarioListDeleted(sv, alice, chat.id, g6);
  }

  /** The header with a token issued to `u`. */
  function BearerFor(sv: Server, u: User): Option<string> {
    Some(AuthGuard.BearerPrefix + AuthGuard.SignToken(sv.jwt, Secret(sv), u))
  }

  lemma ScenarioRegister(sv: Server, g1: Fresh)
    ensures var body := AuthRoutes.AuthBody(Some("alice@example.com"), Some("pw123456"), None);
            var alice := AuthRoutes.NewUser(body, g1, sv.bcrypt);
            Handle(sv, Store([], [], []), g1, Register(body)) ==
              Outcome(AuthRoutes.SessionFor(sv.jwt, Secret(sv), alice), Store([alice], [], []))
  {
  }

  lemma ScenarioCreateChat(sv: Server, u: User, g: Fresh)
    requires SignThenVerify(sv.jwt) && TokensNonEmpty(sv.jwt)
    ensures var chat := Chat(g.id, u.id, Some("trip"), g.now);
            Handle(sv, Store([u], [], []), g, CreateChat(BearerFor(sv, u), Some("trip"))) ==
              Outcome(Response(201, ChatRow(chat)), Store([u], [chat], []))
  {
    AuthorizedAs(sv, Store([u], [], []), g, CreateChat(BearerFor(sv, u), Some("trip")), u);
  }

  lemma ScenarioPost(sv: Server, u: User, chat: Chat, g: Fresh)
    requires SignThenVerify(sv.jwt) && TokensNonEmpty(sv.jwt) && chat.userId == u.id
    ensures var msg := Message(g.id, chat.id, "user", "hi", g.now);
            var req := CreateMessage(BearerFor(sv, u), chat.id, MessageRoutes.MessageBody(Some("user"), Some("hi")));
            Handle(sv, Store([u], [chat], []), g, req) ==
              Outcome(Response(201, MessageRow(msg)), Store([u], [chat], [msg]))
  {
    var s := Store([u], [chat], []);
    var req := CreateMessage(BearerFor(sv, u), chat.id, MessageRoutes.MessageBody(Some("user"), Some("hi")));
    AuthorizedAs(sv, s, g, req, u);
    assert chat in s.chats;
  }

  lemma ScenarioList(sv: Server, u: User, chat: Chat, msg: Message, g: Fresh)
    requires SignThenVerify(sv.jwt) && TokensNonEmpty(sv.jwt) && chat.userId == u.id && msg.chatId == chat.id
    ensures var s := Store([u], [chat], [msg]);
            Handle(sv, s, g, ListMessages(BearerFor(sv, u), chat.id)) == Outcome(Response(200, MessageList([msg])), s)
  {
    var s := Store([u], [chat], [msg]);
    AuthorizedAs(sv, s, g, ListMessages(BearerFor(sv, u), chat.id), u);
    ListOneMessage(s, u.id, chat.id);
  }

  lemma ScenarioDelete(sv: Server, u: User, chat: Chat, msg: Message, g: Fresh)
    requires SignThenVerify(sv.jwt) && TokensNonEmpty(sv.jwt) && chat.userId == u.id && msg.chatId == chat.id
    ensures Handle(sv, Store([u], [chat], [msg]), g, DeleteChat(BearerFor(sv, u), chat.id)) ==
              Outcome(Response(200, Ok), Store([u], [], []))
  {
    var s := Store([u], [chat], [msg]);
    AuthorizedAs(sv, s, g, DeleteChat(BearerFor(sv, u), chat.id), u);
    assert chat in s.chats;
  }

  lemma ScenarioListDeleted(sv: Server, u: User, chatId: string, g: Fresh)
    requires SignThenVerify(sv.jwt) && TokensNonEmpty(sv.jwt)
    ensures Handle(sv, Store([u], [], []), g, ListMessages(BearerFor(sv, u), chatId)) == Outcome(NotFound, Store([u], [], []))
  {
    AuthorizedAs(sv, Store([u], [], []), g, ListMessages(BearerFor(sv, u), chatId), u);
  }

  /** The listing of a chat holding a single message. */
  lemma ListOneMessage(s: Store, sub: string, chatId: string)
    requires |s.chats| == 1 && s.chats[0].id == chatId && s.chats[0].userId == sub
    requires |s.messages| == 1 && s.messages[0].chatId == chatId
    ensures MessageRoutes.ListMessages(s, sub, chatId) == Response(200, MessageList(s.messages))
  {
    assert s.chats[0] in s.chats;
    var listed := MessageRoutes.ListMessages(s, sub, chatId).body.messages;
    var msg := s.messages[0];
    assert multiset(s.messages) == multiset{msg};
    assert multiset(listed) == multiset{msg} by {
      forall m ensures multiset(listed)[m] == multiset{msg}[m] {}
    }
    assert |listed| == |multiset(listed)| == 1;
    assert listed[0] in multiset(listed);
  }
}
