/** The `/chats` handlers, run after the guard with the caller's id `sub`. */
module ChatRoutes {
  import opened Wrappers
  import opened Seqs
  import opened Db
  import opened Http

  /** The sort key of `orderBy: { createdAt: 'desc' }`. */
  function NewestFirst(c: Chat): int { -c.createdAt }

  /** GET /chats */
  function ListChats(s: Store, sub: string): (r: Response)
    ensures r.status == 200 && r.body.ChatList?
    // exactly the caller's chats ...
    ensures forall c :: c in r.body.chats <==> c in s.chats && c.userId == sub
    ensures forall c :: multiset(r.body.chats)[c] == if c.userId == sub then multiset(s.chats)[c] else 0
    // ... most recent first
    ensures forall i, j :: 0 <= i < j < |r.body.chats| ==> r.body.chats[i].createdAt >= r.body.chats[j].createdAt
  {
    var owned := Filter(s.chats, OwnedBy(sub));
    FilterCount(s.chats, OwnedBy(sub));
    var chats := SortBy(owned, NewestFirst);
    NewestFirstDescending(chats);
    Response(200, ChatList(chats))
  }

  lemma NewestFirstDescending(chats: seq<Chat>)
    requires SortedBy(chats, NewestFirst)
    ensures forall i, j :: 0 <= i < j < |chats| ==> chats[i].createdAt >= chats[j].createdAt
  {
    forall i, j | 0 <= i < j < |chats|
      ensures chats[i].createdAt >= chats[j].createdAt
    {
      assert NewestFirst(chats[i]) <= NewestFirst(chats[j]);
    }
  }

  /** POST /chats */
  function CreateChat(s: Store, sub: string, title: Option<string>, gen: Fresh): (o: Outcome)
    ensures gen.id in ChatIds(s.chats) ==> o == Outcome(StoreFailure, s)
    ensures gen.id !in ChatIds(s.chats) ==>
              && o.response.status == 201 && o.response.body.ChatRow?
              && var c := o.response.body.chat;
              && c.id == gen.id && c.userId == sub && c.title == title && c.createdAt == gen.now
              && o.store == s.(chats := s.chats + [c])
  {
    if gen.id in ChatIds(s.chats) then Outcome(StoreFailure, s)
    else
      var c := Chat(gen.id, sub, title, gen.now);
      Outcome(Response(201, ChatRow(c)), s.(chats := s.chats + [c]))
  }

  /** DELETE /chats/:id: the chat's messages first, then the chat. */
  function DeleteChat(s: Store, sub: string, id: string): (o: Outcome)
    // absent and foreign chats look the same, and nothing changes
    ensures !Owned(s.chats, sub, id) ==> o == Outcome(NotFound, s)
    ensures Owned(s.chats, sub, id) && UniqueChatIds(s.chats) ==>
              && o.response == Response(200, Ok)
              && o.store.users == s.users
              // the chat and all its messages are gone ...
              && id !in ChatIds(o.store.chats)
              && (forall m :: m in o.store.messages ==> m.chatId != id)
              // ... and every other chat and message is kept
              && (forall c :: multiset(o.store.chats)[c] == if c.id == id then 0 else multiset(s.chats)[c])
              && (forall m :: multiset(o.store.messages)[m] == if m.chatId == id then 0 else multiset(s.messages)[m])
  {
    FoundAndOwned(s.chats, sub, id);
    match FindChat(s.chats, id)
    case None => Outcome(NotFound, s)
    case Some(chat) =>
      if chat.userId != sub then Outcome(NotFound, s)
      else
        var messages := Filter(s.messages, NotInChat(id));
        var chats := Filter(s.chats, HasOtherId(id));
        FilterCount(s.messages, NotInChat(id));
        FilterCount(s.chats, HasOtherId(id));
        Outcome(Response(200, Ok), Store(s.users, chats, messages))
  }

  /** Deleting a chat a second time finds nothing and changes nothing. */
  lemma DeleteTwice(s: Store, sub: string, id: string)
    requires Owned(s.chats, sub, id) && UniqueChatIds(s.chats)
    ensures var s' := DeleteChat(s, sub, id).store;
            DeleteChat(s', sub, id) == Outcome(NotFound, s')
  {
  }

  /** A chat one user creates does not show in another user's list. */
  lemma CreateInvisibleToOthers(s: Store, owner: string, other: string, title: Option<string>, gen: Fresh)
    requires owner != other
    ensures ListChats(CreateChat(s, owner, title, gen).store, other) == ListChats(s, other)
  {
    if gen.id !in ChatIds(s.chats) {
      var c := Chat(gen.id, owner, title, gen.now);
      var s' := CreateChat(s, owner, title, gen).store;
      assert s'.chats == s.chats + [c];
      FilterAppend(s.chats, c, OwnedBy(other));
      assert !OwnedBy(other)(c);
      assert Filter(s'.chats, OwnedBy(other)) == Filter(s.chats, OwnedBy(other));
    }
  }

  lemma CreateKeepsValid(s: Store, sub: string, title: Option<string>, gen: Fresh)
    requires Valid(s)
    ensures Valid(CreateChat(s, sub, title, gen).store)
  {
    var s' := CreateChat(s, sub, title, gen).store;
    assert forall c :: c in s.chats ==> c in s'.chats;
  }

  /** Removing the messages along with the chat keeps every remaining message's chat in place. */
  lemma DeleteKeepsValid(s: Store, sub: string, id: string)
    requires Valid(s)
    ensures Valid(DeleteChat(s, sub, id).store)
  {
    if Owned(s.chats, sub, id) {
      var s' := DeleteChat(s, sub, id).store;
      forall c | c in s'.chats
        ensures c in s.chats
      {
        assert multiset(s'.chats)[c] > 0;
      }
      forall m | m in s'.messages
        ensures m in s.messages && m.chatId in ChatIds(s'.chats)
      {
        assert multiset(s'.messages)[m] > 0;
        var c :| c in s.chats && c.id == m.chatId;
        assert multiset(s'.chats)[c] == multiset(s.chats)[c] > 0;
      }
    }
  }
}
