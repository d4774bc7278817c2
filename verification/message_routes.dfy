/** The `/messages/:chatId` handlers, run after the guard with the caller's id `sub`. */
module MessageRoutes {
  import opened Wrappers
  import opened Seqs
  import opened Db
  import opened Http

  /** The JSON body of POST /messages/:chatId; an absent body reads as `{}`. */
  datatype MessageBody = MessageBody(role: Option<string>, content: Option<string>)

  /** The sort key of `orderBy: { createdAt: 'asc' }`. */
  function OldestFirst(m: Message): int { m.createdAt }

  /** GET /messages/:chatId */
  function ListMessages(s: Store, sub: string, chatId: string): (r: Response)
    ensures !Owned(s.chats, sub, chatId) ==> r == NotFound
    ensures Owned(s.chats, sub, chatId) && UniqueChatIds(s.chats) ==>
              && r.status == 200 && r.body.MessageList?
              // exactly the chat's messages ...
              && (forall m :: m in r.body.messages <==> m in s.messages && m.chatId == chatId)
              && (forall m :: multiset(r.body.messages)[m] == if m.chatId == chatId then multiset(s.messages)[m] else 0)
              // ... oldest first
              && (forall i, j :: 0 <= i < j < |r.body.messages| ==> r.body.messages[i].createdAt <= r.body.messages[j].createdAt)
  {
    FoundAndOwned(s.chats, sub, chatId);
    match FindChat(s.chats, chatId)
    case None => NotFound
    case Some(chat) =>
      if chat.userId != sub then NotFound
      else
        var inChat := Filter(s.messages, InChat(chatId));
        FilterCount(s.messages, InChat(chatId));
        var messages := SortBy(inChat, OldestFirst);
        assert forall i, j :: 0 <= i < j < |messages| ==> OldestFirst(messages[i]) <= OldestFirst(messages[j]);
        Response(200, MessageList(messages))
  }

  /** POST /messages/:chatId: ownership is checked before the body. */
  function CreateMessage(s: Store, sub: string, chatId: string, body: MessageBody, gen: Fresh): (o: Outcome)
    // an absent or foreign chat is 404 whatever the body holds
    ensures !Owned(s.chats, sub, chatId) ==> o == Outcome(NotFound, s)
    ensures Owned(s.chats, sub, chatId) && UniqueChatIds(s.chats) && (!Present(body.role) || !Present(body.content)) ==>
              o == Outcome(RoleContentRequired, s)
    ensures Owned(s.chats, sub, chatId) && UniqueChatIds(s.chats) && Present(body.role) && Present(body.content) ==>
              if gen.id in MessageIds(s.messages) then o == Outcome(StoreFailure, s)
              else
                && o.response.status == 201 && o.response.body.MessageRow?
                && var m := o.response.body.message;
                && m.id == gen.id && m.chatId == chatId && m.createdAt == gen.now
                && m.role == body.role.value && m.content == body.content.value
                // one message appended to this chat; every other row is kept
                && o.store == s.(messages := s.messages + [m])
    ensures o.response.status != 201 ==> o.store == s
  {
    FoundAndOwned(s.chats, sub, chatId);
    match FindChat(s.chats, chatId)
    case None => Outcome(NotFound, s)
    case Some(chat) =>
      if chat.userId != sub then Outcome(NotFound, s)
      else if !Present(body.role) || !Present(body.content) then Outcome(RoleContentRequired, s)
      else if gen.id in MessageIds(s.messages) then Outcome(StoreFailure, s)
      else
        var m := Message(gen.id, chatId, body.role.value, body.content.value, gen.now);
        Outcome(Response(201, MessageRow(m)), s.(messages := s.messages + [m]))
  }

  /** The caller's chats. */
  function OwnChats(s: Store, sub: string): seq<Chat> {
    Filter(s.chats, OwnedBy(sub))
  }

  /** The messages of the caller's chats. */
  function OwnMessages(s: Store, sub: string): seq<Message> {
    Filter(s.messages, InChats(ChatIds(OwnChats(s, sub))))
  }

  /** Listing reads nothing but the caller's chats and their messages: two stores
      that agree on those give the same answer. */
  lemma ListMessagesReadsOnlyOwn(s1: Store, s2: Store, sub: string, chatId: string)
    requires UniqueChatIds(s1.chats) && UniqueChatIds(s2.chats)
    requires OwnChats(s1, sub) == OwnChats(s2, sub)
    requires OwnMessages(s1, sub) == OwnMessages(s2, sub)
    ensures ListMessages(s1, sub, chatId) == ListMessages(s2, sub, chatId)
  {
    OwnedInOwnChats(s1, sub, chatId);
    OwnedInOwnChats(s2, sub, chatId);
    if Owned(s1.chats, sub, chatId) {
      FoundAndOwned(s1.chats, sub, chatId);
      FoundAndOwned(s2.chats, sub, chatId);
      var ids := ChatIds(OwnChats(s1, sub));
      assert forall m :: InChat(chatId)(m) ==> InChats(ids)(m);
      FilterFilter(s1.messages, InChats(ids), InChat(chatId));
      FilterFilter(s2.messages, InChats(ids), InChat(chatId));
    }
  }

  /** The caller owns a chat exactly when its id is among the ids of the caller's chats. */
  lemma OwnedInOwnChats(s: Store, sub: string, chatId: string)
    ensures Owned(s.chats, sub, chatId) <==> chatId in ChatIds(OwnChats(s, sub))
  {
    if Owned(s.chats, sub, chatId) {
      var c :| c in s.chats && c.id == chatId && c.userId == sub;
      assert c in OwnChats(s, sub);
    }
  }

  lemma CreateKeepsValid(s: Store, sub: string, chatId: string, body: MessageBody, gen: Fresh)
    requires Valid(s)
    ensures Valid(CreateMessage(s, sub, chatId, body, gen).store)
  {
    if Owned(s.chats, sub, chatId) {
      var c :| c in s.chats && c.id == chatId && c.userId == sub;
    }
  }
}
