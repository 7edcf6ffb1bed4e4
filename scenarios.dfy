/**
 * Client scenarios: what a caller can conclude from the service's contracts
 * alone, in the situations the repository's unit tests describe.
 */
module Scenarios {
  import opened Messages
  import opened Service

  /** A service with the two users "u1" and "u2" registered. */
  method TwoUsers() returns (service: MessagingService)
    ensures fresh(service) && service.Valid()
    ensures service.users.Keys == {"u1", "u2"} && service.chats == map[] && service.order == []
  {
    service := new MessagingService();
    service.AddUser(User("u1", "Alice"));
    service.AddUser(User("u2", "Bob"));
  }

  const First := Message("a", "u1", "1", false, 1)
  const Second := Message("b", "u1", "2", false, 2)
  const Third := Message("c", "u1", "3", false, 3)

  /** "u1" has sent `First` to "u2". */
  method OneSent() returns (service: MessagingService)
    ensures fresh(service) && service.Valid()
    ensures service.users.Keys == {"u1", "u2"}
    ensures service.chats.Keys == {"u2"} && fresh(service.chats["u2"]) && service.order == ["u2"]
    ensures service.Threads() == map["u2" := [First]]
  {
    service := TwoUsers();
    assert service.Threads() == map[];
    var _ := service.SendMessage("u1", "u2", "1", "a", 1);
    assert ThreadOf(map[], "u2") + [First] == [First];
  }

  /** "u1" has sent `First` and then `Second` to "u2". */
  method TwoSent() returns (service: MessagingService)
    ensures fresh(service) && service.Valid()
    ensures service.users.Keys == {"u1", "u2"}
    ensures service.chats.Keys == {"u2"} && fresh(service.chats["u2"]) && service.order == ["u2"]
    ensures service.Threads().Keys == {"u2"} && service.Threads()["u2"] == [First] + [Second]
  {
    service := OneSent();
    var _ := service.SendMessage("u1", "u2", "2", "b", 2);
  }

  /** "u1" has sent `First`, `Second` and `Third` to "u2", in that order. */
  method ThreeSent() returns (service: MessagingService)
    ensures fresh(service) && service.Valid()
    ensures service.chats.Keys == {"u2"} && fresh(service.chats["u2"]) && service.order == ["u2"]
    ensures service.Threads().Keys == {"u2"} && service.Threads()["u2"] == [First] + [Second] + [Third]
  {
    service := TwoSent();
    var _ := service.SendMessage("u1", "u2", "3", "c", 3);
  }

  /** Reading the last two of three returns the newest two, oldest first, and leaves nothing unread. */
  method ReadLastTwo()
  {
    var service := ThreeSent();
    assert service.Threads()["u2"] == [First, Second, Third];
    var got := service.GetMessagesFromChat("u2", 2);
    TakeLastAllRead([First, Second, Third], 2);
    assert TakeLast([First, Second, Third], 2) == [Second, Third];
    assert got == Success(AllRead([Second, Third]));
    assert UnreadPartners(service.Threads()) == {};
  }

  /** Asking for more messages than the chat holds returns all of them. */
  method ReadMoreThanHeld()
  {
    var service := ThreeSent();
    assert service.Threads()["u2"] == [First, Second, Third];
    var all := service.GetMessagesFromChat("u2", 10);
    assert all == Success(AllRead([First, Second, Third]));
  }

  /** An unregistered sender is refused and no chat comes into existence. */
  method UnknownSenderRejected()
  {
    var service := TwoUsers();
    var r := service.SendMessage("unknown", "u2", "x", "a", 1);
    assert r == Failure(InvalidArgument);
    assert service.chats == map[] && service.GetChats() == [];
  }

  /** Reading a chat that was never created is NotFound. */
  method ReadMissingChat()
  {
    var service := TwoUsers();
    var r := service.GetMessagesFromChat("unknown", 1);
    assert r == Failure(NotFound);
  }

  /** Three registered users; "u1" has sent one message to "u2". */
  method OneUnread() returns (service: MessagingService)
    ensures fresh(service) && service.Valid()
    ensures service.users.Keys == {"u1", "u2", "u3"}
    ensures service.chats.Keys == {"u2"} && fresh(service.chats["u2"])
    ensures UnreadPartners(service.Threads()) == {"u2"}
  {
    service := TwoUsers();
    service.AddUser(User("u3", "Carol"));
    assert UnreadPartners(service.Threads()) == {};
    var _ := service.SendMessage("u1", "u2", "hi", "a", 1);
  }

  /** Receiving one message makes one unread chat. */
  method UnreadAfterOneSend()
  {
    var service := OneUnread();
    assert service.GetUnreadChatsCount() == 1;
  }

  /** Three registered users; "u1" has sent one message to each of the other two. */
  method OneMessageToEach() returns (service: MessagingService)
    ensures fresh(service) && service.Valid()
    ensures service.chats.Keys == {"u2", "u3"}
    ensures forall k :: k in service.chats ==> fresh(service.chats[k])
    ensures UnreadPartners(service.Threads()) == {"u2", "u3"}
    ensures UnreadPartners(service.Threads()) - {"u2"} == {"u3"}
  {
    service := OneUnread();
    assert "u2" != "u3" by { assert "u2"[1] != "u3"[1]; }
    var _ := service.SendMessage("u1", "u3", "hi", "b", 2);
  }

  /** Two recipients with one message each make two unread chats; reading one leaves one. */
  method UnreadAggregation()
  {
    var service := OneMessageToEach();
    assert service.GetUnreadChatsCount() == 2;
    var _ := service.GetMessagesFromChat("u2", 1);
    assert UnreadPartners(service.Threads()) == {"u3"};
    assert service.GetUnreadChatsCount() == 1;
  }

  /** A deleted chat is gone; a chat created empty previews as the sentinel. */
  method DeleteThenCreateEmpty()
  {
    var service := TwoUsers();
    var _ := service.SendMessage("u1", "u2", "hi", "a", 1);
    var deleted := service.DeleteChat("u2");
    assert deleted && service.chats == map[] && service.order == [];
    var r := service.GetMessagesFromChat("u2", 5);
    assert r == Failure(NotFound);
    assert service.GetLastMessages() == [];
    service.CreateChatIfNotExists("u3");
    assert service.GetLastMessages() == [NoMessages];
    service.CreateChatIfNotExists("u3");
    assert service.GetLastMessages() == [NoMessages] && service.order == ["u3"];
  }

  /** A sent message can be edited and then deleted by its id; an unknown id changes nothing. */
  method EditThenDelete()
  {
    var service := OneSent();
    var edited := service.EditMessage("u2", "a", "new");
    assert ContainsId([First], "a") && UpdateFirst([First], "a", "new") == [First.(text := "new")];
    assert edited && service.Threads() == map["u2" := [First.(text := "new")]];
    var missing := service.DeleteMessage("u2", "invalid_id");
    assert !missing;
    var deleted := service.DeleteMessage("u2", "a");
    assert ContainsId([First.(text := "new")], "a") && RemoveId([First.(text := "new")], "a") == [];
    assert deleted && service.Threads() == map["u2" := []];
  }
}
