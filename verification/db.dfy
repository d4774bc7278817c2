/** The three database tables the routes use, as immutable sequences of rows,
    with the lookups and filters the routes issue against them. */
module Db {
  import opened Wrappers
  import opened Seqs

  /** A row of the user table; `email` is unique and compared exactly. */
  datatype User = User(id: string, email: string, passwordHash: string, displayName: Option<string>)

  /** A row of the chat table, owned by the user whose id is `userId`. */
  datatype Chat = Chat(id: string, userId: string, title: Option<string>, createdAt: int)

  /** A row of the message table, belonging to the chat whose id is `chatId`. */
  datatype Message = Message(id: string, chatId: string, role: string, content: string, createdAt: int)

  datatype Store = Store(users: seq<User>, chats: seq<Chat>, messages: seq<Message>)

  /** What the database and the libraries generate while serving one request:
      the id of a row it creates, the `now()` default of `createdAt`, and the
      random salt bcrypt draws. */
  datatype Fresh = Fresh(id: string, now: int, salt: string)

  function UserIds(users: seq<User>): set<string> { set u | u in users :: u.id }
  function ChatIds(chats: seq<Chat>): set<string> { set c | c in chats :: c.id }
  function MessageIds(messages: seq<Message>): set<string> { set m | m in messages :: m.id }

  /** Ids and emails are unique keys of the user table. */
  ghost predicate UniqueUsers(users: seq<User>) {
    forall a, b :: a in users && b in users && (a.id == b.id || a.email == b.email) ==> a == b
  }

  ghost predicate UniqueChatIds(chats: seq<Chat>) {
    forall a, b :: a in chats && b in chats && a.id == b.id ==> a == b
  }

  ghost predicate UniqueMessageIds(messages: seq<Message>) {
    forall a, b :: a in messages && b in messages && a.id == b.id ==> a == b
  }

  /** The constraints of the schema: unique keys, and every message refers to an existing chat. */
  ghost predicate Valid(s: Store) {
    && UniqueUsers(s.users)
    && UniqueChatIds(s.chats)
    && UniqueMessageIds(s.messages)
    && forall m :: m in s.messages ==> m.chatId in ChatIds(s.chats)
  }

  // The `where` conditions the routes use, each defined once so that handlers
  // and lemmas filter by the very same predicate.

  function HasEmail(email: string): User -> bool { (u: User) => u.email == email }
  function HasId(id: string): Chat -> bool { (c: Chat) => c.id == id }
  function HasOtherId(id: string): Chat -> bool { (c: Chat) => c.id != id }
  function OwnedBy(userId: string): Chat -> bool { (c: Chat) => c.userId == userId }
  function InChat(chatId: string): Message -> bool { (m: Message) => m.chatId == chatId }
  function NotInChat(chatId: string): Message -> bool { (m: Message) => m.chatId != chatId }
  function InChats(chatIds: set<string>): Message -> bool { (m: Message) => m.chatId in chatIds }

  /** `findUnique({ where: { email } })` on the user table. */
  function FindUserByEmail(users: seq<User>, email: string): (r: Option<User>)
    ensures r.Some? ==> r.value in users && r.value.email == email
    ensures r.None? <==> forall u :: u in users ==> u.email != email
  {
    Find(users, HasEmail(email))
  }

  /** `findUnique({ where: { id } })` on the chat table. */
  function FindChat(chats: seq<Chat>, id: string): (r: Option<Chat>)
    ensures r.Some? ==> r.value in chats && r.value.id == id
    ensures r.None? <==> id !in ChatIds(chats)
  {
    Find(chats, HasId(id))
  }

  /** The chat `id` exists and belongs to `userId`. */
  ghost predicate Owned(chats: seq<Chat>, userId: string, id: string) {
    exists c :: c in chats && c.id == id && c.userId == userId
  }

  /** With unique chat ids, the routes' test "found and owned" holds exactly when the caller owns the chat. */
  lemma FoundAndOwned(chats: seq<Chat>, userId: string, id: string)
    ensures (FindChat(chats, id).Some? && FindChat(chats, id).value.userId == userId) ==> Owned(chats, userId, id)
    ensures UniqueChatIds(chats) && Owned(chats, userId, id) ==>
              FindChat(chats, id).Some? && FindChat(chats, id).value.userId == userId
  {
  }

  /** With unique emails, the lookup finds the one user holding that email. */
  lemma FindUserByUniqueEmail(users: seq<User>, u: User)
    requires UniqueUsers(users) && u in users
    ensures FindUserByEmail(users, u.email) == Some(u)
  {
  }
}
