/**
 * The messaging service: a registry of users and a registry of chats keyed
 * by the recipient's id, with the cross-entity rules of sending, reading,
 * editing and deleting.
 */
module Service {
  import opened Sequences
  import opened Messages
  import opened Chats
  import opened ListHelpers

  /** The thread stored under `key` in a snapshot, or the empty thread when there is none. */
  ghost function ThreadOf(threads: map<string, seq<Message>>, key: string): seq<Message>
  {
    if key in threads then threads[key] else []
  }

  /** The messages held by each chat of a registry, by key. */
  ghost function ThreadsOf(registry: map<string, Chat>): map<string, seq<Message>>
    reads registry.Values
  {
    map k | k in registry :: registry[k].messages
  }

  /** Dropping a chat from the registry drops exactly its thread. */
  lemma ThreadsOfRemove(registry: map<string, Chat>, key: string)
    ensures ThreadsOf(registry - {key}) == ThreadsOf(registry) - {key}
  {
  }

  /** Storing a chat under a key stores its thread under that key. */
  lemma ThreadsOfStore(registry: map<string, Chat>, key: string, chat: Chat)
    ensures ThreadsOf(registry[key := chat]) == ThreadsOf(registry)[key := chat.messages]
  {
  }

  /** A registry whose chats were not touched between two states holds the same threads in both. */
  twostate lemma ThreadsOfUnchanged(registry: map<string, Chat>)
    requires forall k :: k in registry ==> unchanged(registry[k])
    ensures ThreadsOf(registry) == old(ThreadsOf(registry))
  {
  }

  /** Every key of `keys` names a thread of `threads`. */
  ghost predicate Covers(keys: seq<string>, threads: map<string, seq<Message>>)
  {
    forall i :: 0 <= i < |keys| ==> keys[i] in threads
  }

  /** The preview of each thread named by `keys`, in the order of `keys`. */
  ghost function Previews(keys: seq<string>, threads: map<string, seq<Message>>): seq<string>
    requires Covers(keys, threads)
  {
    seq(|keys|, i requires 0 <= i < |keys| => LastText(threads[keys[i]]))
  }

  /** The partners whose thread holds at least one unread message. */
  ghost function UnreadPartners(threads: map<string, seq<Message>>): set<string>
  {
    set k | k in threads && UnreadCount(threads[k]) > 0
  }

  /** The partner id of each chat, in order. */
  ghost function PartnerIds(cs: seq<Chat>): seq<string>
  {
    seq(|cs|, i requires 0 <= i < |cs| => cs[i].partnerId)
  }

  /** Registering a new empty chat adds exactly one sentinel preview, at the end. */
  lemma PreviewsNewChat(keys: seq<string>, threads: map<string, seq<Message>>, key: string)
    requires Covers(keys, threads) && key !in keys
    ensures Covers(keys + [key], threads[key := []])
    ensures Previews(keys + [key], threads[key := []]) == Previews(keys, threads) + [NoMessages]
  {
    var after := Previews(keys + [key], threads[key := []]);
    forall i | 0 <= i < |keys| ensures after[i] == Previews(keys, threads)[i] {
      assert (keys + [key])[i] == keys[i] != key;
    }
  }

  /** Reading a chat takes it out of the unread set and leaves every other partner's status alone. */
  lemma UnreadPartnersAfterRead(threads: map<string, seq<Message>>, key: string)
    requires key in threads
    ensures UnreadPartners(threads[key := AllRead(threads[key])]) == UnreadPartners(threads) - {key}
  {
    AllReadSpec(threads[key]);
  }

  /** Sending an unread message puts the recipient in the unread set. */
  lemma UnreadPartnersAfterSend(threads: map<string, seq<Message>>, key: string, m: Message)
    requires !m.isRead
    ensures UnreadPartners(threads[key := ThreadOf(threads, key) + [m]]) == UnreadPartners(threads) + {key}
  {
    UnreadCountAppend(ThreadOf(threads, key), m);
  }

  class MessagingService {
    var users: map<string, User>
    var chats: map<string, Chat>
    /**
     * The keys of `chats` in insertion order. The source's map preserves
     * insertion order, so every enumeration of the chats follows `order`;
     * a key removed and added again moves to the end.
     */
    var order: seq<string>

    /** Every chat is stored under its own partner id; `order` lists each key once. */
    ghost predicate Valid()
      reads this
    {
      && (forall k :: k in chats ==> chats[k].partnerId == k)
      && (forall k :: k in chats <==> k in order)
      && NoDuplicates(order)
    }

    /** The messages of every chat, by partner id: the abstract state of the chat registry. */
    ghost function Threads(): map<string, seq<Message>>
      reads this, chats.Values
    {
      ThreadsOf(chats)
    }

    constructor ()
      ensures Valid()
      ensures users == map[] && chats == map[] && order == []
    {
      users := map[];
      chats := map[];
      order := [];
    }

    /** Registers `user`, replacing any user with the same id. */
    method AddUser(user: User)
      requires Valid()
      modifies this
      ensures Valid()
      ensures users == old(users)[user.id := user]
      ensures chats == old(chats) && order == old(order) && Threads() == old(Threads())
    {
      users := users[user.id := user];
      ThreadsOfUnchanged(chats);
    }

    function GetUser(userId: string): (u: Option<User>)
      reads this
      ensures u.Some? <==> userId in users
      ensures u.Some? ==> u.value == users[userId] && u.value in users.Values
    {
      if userId in users then Some(users[userId]) else None
    }

    /** All chats, in creation order. */
    function GetChats(): (cs: seq<Chat>)
      reads this
      requires Valid()
      ensures |cs| == |order| == |chats|
      ensures forall i :: 0 <= i < |cs| ==> order[i] in chats && cs[i] == chats[order[i]]
      ensures forall i :: 0 <= i < |cs| ==> cs[i].partnerId == order[i]
      ensures forall k :: k in chats ==> chats[k] in cs
      ensures forall i :: 0 <= i < |cs| ==> cs[i] in chats.Values
      ensures NoDuplicates(cs)
    {
      DistinctCardinality(order);
      assert (set k | k in order) == chats.Keys;
      seq(|order|, i requires 0 <= i < |order| && order[i] in chats reads this => chats[order[i]])
    }

    /** Number of chats that hold at least one unread message. */
    function GetUnreadChatsCount(): (n: nat)
      reads this, chats.Values
      requires Valid()
      ensures n == |UnreadPartners(Threads())|
      ensures n <= |chats|
    {
      UnreadChatsAreUnreadPartners();
      |FilterUnread(GetChats())|
    }

    /** The chats the filter keeps are exactly the chats of the unread partners, one each. */
    lemma UnreadChatsAreUnreadPartners()
      requires Valid()
      ensures |FilterUnread(GetChats())| == |UnreadPartners(Threads())|
    {
      var unread := FilterUnread(GetChats());
      var partners := PartnerIds(unread);
      KeptChatsHaveDistinctPartners();
      DistinctCardinality(partners);
      UnreadPartnersAreKept();
      KeptPartnersAreUnread();
      assert (set k | k in partners) == UnreadPartners(Threads());
    }

    /** Distinct chats of the registry have distinct partner ids. */
    lemma KeptChatsHaveDistinctPartners()
      requires Valid()
      ensures NoDuplicates(PartnerIds(FilterUnread(GetChats())))
    {
      var cs := GetChats();
      var unread := FilterUnread(cs);
      var partners := PartnerIds(unread);
      forall i, j | 0 <= i < j < |partners| ensures partners[i] != partners[j] {
        assert unread[i] in cs && unread[j] in cs;
      }
    }

    lemma UnreadPartnersAreKept()
      requires Valid()
      ensures forall k :: k in UnreadPartners(Threads()) ==> k in PartnerIds(FilterUnread(GetChats()))
    {
      var cs := GetChats();
      var unread := FilterUnread(cs);
      forall k | k in UnreadPartners(Threads()) ensures k in PartnerIds(unread) {
        var i :| 0 <= i < |order| && order[i] == k;
        FilterUnreadKeeps(cs, i);
        var j :| 0 <= j < |unread| && unread[j] == cs[i];
        assert PartnerIds(unread)[j] == k;
      }
    }

    lemma KeptPartnersAreUnread()
      requires Valid()
      ensures forall k :: k in PartnerIds(FilterUnread(GetChats())) ==> k in UnreadPartners(Threads())
    {
      var cs := GetChats();
      var unread := FilterUnread(cs);
      forall j | 0 <= j < |unread| ensures PartnerIds(unread)[j] in UnreadPartners(Threads()) {
        assert unread[j] in cs;
      }
    }

    /** The preview text of every chat, aligned with `GetChats`. */
    function GetLastMessages(): (texts: seq<string>)
      reads this, chats.Values
      requires Valid()
      ensures |texts| == |order| == |chats|
      ensures Covers(order, Threads()) && texts == Previews(order, Threads())
    {
      LastMessagesArePreviews();
      MapToLastTexts(GetChats())
    }

    /** The helper over `GetChats` yields the preview of each chat in creation order. */
    lemma LastMessagesArePreviews()
      requires Valid()
      ensures Covers(order, Threads())
      ensures MapToLastTexts(GetChats()) == Previews(order, Threads())
    {
      var cs := GetChats();
      var texts, previews := MapToLastTexts(cs), Previews(order, Threads());
      forall i | 0 <= i < |order| ensures texts[i] == previews[i] {
        assert Threads()[order[i]] == cs[i].messages;
      }
    }

    /**
     * The last `count` messages of the chat with `partnerId`, oldest first;
     * afterwards every message of that chat is read. A missing chat is
     * NotFound; a negative count is InvalidArgument and changes nothing.
     * The returned messages are the chat's own, so they are already read.
     */
    method GetMessagesFromChat(partnerId: string, count: int) returns (r: Result<seq<Message>>)
      requires Valid()
      modifies chats.Values
      ensures Valid()
      ensures users == old(users) && chats == old(chats) && order == old(order)
      ensures partnerId !in chats ==> r == Failure(NotFound) && Threads() == old(Threads())
      ensures partnerId in chats && count < 0 ==>
        r == Failure(InvalidArgument) && Threads() == old(Threads())
      ensures partnerId in chats && count >= 0 ==>
        && Threads() == old(Threads())[partnerId := AllRead(old(Threads())[partnerId])]
        && r == Success(TakeLast(Threads()[partnerId], count))
        && UnreadCount(Threads()[partnerId]) == 0
        && UnreadPartners(Threads()) == UnreadPartners(old(Threads())) - {partnerId}
    {
      if partnerId !in chats {
        return Failure(NotFound);
      }
      var chat := chats[partnerId];
      if count < 0 {
        return Failure(InvalidArgument);
      }
      var shown := TakeLast(chat.messages, count);
      ghost var before := chat.messages;
      chat.MarkAllAsRead();
      TakeLastAllRead(before, count);
      r := Success(AllRead(shown));
      UnreadPartnersAfterRead(old(Threads()), partnerId);
      forall k | k in chats
        ensures Threads()[k] == old(Threads())[partnerId := AllRead(before)][k]
      {
        assert k != partnerId ==> chats[k].partnerId != chat.partnerId;
      }
    }

    /**
     * Appends a new unread message from `senderId` to the chat keyed by
     * `recipientId`, creating that chat first when it does not exist. Both
     * users must be registered, otherwise InvalidArgument and nothing changes.
     * `id` and `timestamp` stand for the generated id and the clock reading.
     */
    method SendMessage(senderId: string, recipientId: string, text: string, id: string, timestamp: int)
      returns (r: Result<Message>)
      requires Valid()
      modifies this, chats.Values
      ensures Valid()
      ensures users == old(users)
      ensures senderId !in users || recipientId !in users ==>
        && r == Failure(InvalidArgument)
        && chats == old(chats) && order == old(order) && Threads() == old(Threads())
      ensures senderId in users && recipientId in users ==>
        && r == Success(Message(id, senderId, text, false, timestamp))
        && chats.Keys == old(chats.Keys) + {recipientId}
        && (recipientId in old(chats) ==> chats == old(chats) && order == old(order))
        && (recipientId !in old(chats) ==>
              && chats == old(chats)[recipientId := chats[recipientId]] && fresh(chats[recipientId])
              && order == old(order) + [recipientId])
        && Threads() == old(Threads())[recipientId := ThreadOf(old(Threads()), recipientId) + [r.value]]
        && UnreadPartners(Threads()) == UnreadPartners(old(Threads())) + {recipientId}
    {
      if senderId !in users || recipientId !in users {
        return Failure(InvalidArgument);
      }
      var message := Message(id, senderId, text, false, timestamp);
      ghost var before := Threads();
      var chat := GetOrCreateChat(recipientId);
      assert Threads()[recipientId] == ThreadOf(before, recipientId);
      AppendToChat(recipientId, message);
      assert Threads() == before[recipientId := ThreadOf(before, recipientId) + [message]];
      UnreadPartnersAfterSend(before, recipientId, message);
      r := Success(message);
    }

    /** Appends `message` to the chat stored under `partnerId`; no other chat changes. */
    method AppendToChat(partnerId: string, message: Message)
      requires Valid() && partnerId in chats
      modifies chats[partnerId]
      ensures Threads() == old(Threads())[partnerId := old(Threads())[partnerId] + [message]]
    {
      var chat := chats[partnerId];
      chat.AddMessage(message);
      forall k | k in chats ensures Threads()[k] == old(Threads())[partnerId := old(Threads())[partnerId] + [message]][k] {
        assert k != partnerId ==> chats[k].partnerId != chat.partnerId;
      }
    }

    /** The chat keyed by `partnerId`, created empty and appended to the order when absent. */
    method GetOrCreateChat(partnerId: string) returns (chat: Chat)
      requires Valid()
      modifies this
      ensures Valid()
      ensures users == old(users)
      ensures partnerId in chats && chat == chats[partnerId]
      ensures partnerId in old(chats) ==> chats == old(chats) && order == old(order)
      ensures partnerId !in old(chats) ==>
        && chats == old(chats)[partnerId := chat] && fresh(chat) && chat.messages == []
        && order == old(order) + [partnerId]
      ensures Threads() == old(Threads())[partnerId := ThreadOf(old(Threads()), partnerId)]
    {
      ghost var before := chats;
      if partnerId in chats {
        chat := chats[partnerId];
      } else {
        chat := new Chat(partnerId);
        chats := chats[partnerId := chat];
        order := order + [partnerId];
        ThreadsOfStore(before, partnerId, chat);
      }
      ThreadsOfUnchanged(before);
    }

    /** Removes every message carrying `messageId` from the chat with `partnerId`. */
    method DeleteMessage(partnerId: string, messageId: string) returns (deleted: bool)
      requires Valid()
      modifies chats.Values
      ensures Valid()
      ensures users == old(users) && chats == old(chats) && order == old(order)
      ensures deleted <==> partnerId in chats && ContainsId(old(Threads())[partnerId], messageId)
      ensures partnerId in chats ==>
        Threads() == old(Threads())[partnerId := RemoveId(old(Threads())[partnerId], messageId)]
      ensures !deleted ==> Threads() == old(Threads())
    {
      if partnerId !in chats {
        return false;
      }
      var chat := chats[partnerId];
      ghost var before := chat.messages;
      deleted := chat.RemoveMessage(messageId);
      forall k | k in chats
        ensures Threads()[k] == old(Threads())[partnerId := RemoveId(before, messageId)][k]
      {
        assert k != partnerId ==> chats[k].partnerId != chat.partnerId;
      }
    }

    /** Makes sure a chat with `partnerId` exists; an existing chat is left as it is. */
    method CreateChatIfNotExists(partnerId: string)
      requires Valid()
      modifies this
      ensures Valid()
      ensures users == old(users)
      ensures partnerId in old(chats) ==>
        chats == old(chats) && order == old(order) && Threads() == old(Threads())
      ensures partnerId !in old(chats) ==>
        && partnerId in chats && chats == old(chats)[partnerId := chats[partnerId]] && fresh(chats[partnerId])
        && order == old(order) + [partnerId]
        && Threads() == old(Threads())[partnerId := []]
        && GetLastMessages() == old(GetLastMessages()) + [NoMessages]
    {
      ghost var threads := Threads();
      var chat := GetOrCreateChat(partnerId);
      if partnerId !in old(chats) {
        PreviewsNewChat(old(order), threads, partnerId);
      }
    }

    /** Removes the chat with `partnerId` and all its messages; reports whether it existed. */
    method DeleteChat(partnerId: string) returns (deleted: bool)
      requires Valid()
      modifies this
      ensures Valid()
      ensures users == old(users)
      ensures deleted <==> partnerId in old(chats)
      ensures chats == old(chats) - {partnerId}
      ensures order == Without(old(order), partnerId)
      ensures Threads() == old(Threads()) - {partnerId}
    {
      ThreadsOfRemove(chats, partnerId);
      deleted := partnerId in chats;
      chats := chats - {partnerId};
      order := Without(order, partnerId);
      ThreadsOfUnchanged(chats);
    }

    /** Replaces the text of the first message carrying `messageId` in the chat with `partnerId`. */
    method EditMessage(partnerId: string, messageId: string, newText: string) returns (edited: bool)
      requires Valid()
      modifies chats.Values
      ensures Valid()
      ensures users == old(users) && chats == old(chats) && order == old(order)
      ensures edited <==> partnerId in chats && ContainsId(old(Threads())[partnerId], messageId)
      ensures partnerId in chats ==>
        Threads() == old(Threads())[partnerId := UpdateFirst(old(Threads())[partnerId], messageId, newText)]
      ensures !edited ==> Threads() == old(Threads())
    {
      if partnerId !in chats {
        return false;
      }
      var chat := chats[partnerId];
      ghost var before := chat.messages;
      edited := chat.UpdateMessage(messageId, newText);
      forall k | k in chats
        ensures Threads()[k] == old(Threads())[partnerId := UpdateFirst(before, messageId, newText)][k]
      {
        assert k != partnerId ==> chats[k].partnerId != chat.partnerId;
      }
    }
  }
}
