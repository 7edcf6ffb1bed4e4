/** The conversation thread with one partner: an ordered list of messages changed in place. */
module Chats {
  import opened Messages

  class Chat {
    /** The counterparty's user id; it never changes once the chat exists. */
    const partnerId: string
    /** Messages in the order they were added, oldest first. */
    var messages: seq<Message>

    constructor (partnerId: string)
      ensures this.partnerId == partnerId && messages == []
    {
      this.partnerId := partnerId;
      messages := [];
    }

    /** Appends `message` at the end; no deduplication. */
    method AddMessage(message: Message)
      modifies this
      ensures messages == old(messages) + [message]
    {
      messages := messages + [message];
    }

    /** Removes every message carrying `messageId`; reports whether any was removed. */
    method RemoveMessage(messageId: string) returns (removed: bool)
      modifies this
      ensures removed <==> ContainsId(old(messages), messageId)
      ensures messages == RemoveId(old(messages), messageId)
      ensures !removed ==> messages == old(messages)
    {
      var kept := RemoveId(messages, messageId);
      removed := |kept| < |messages|;
      messages := kept;
    }

    /** Replaces the text of the first message carrying `messageId`; reports whether one was found. */
    method UpdateMessage(messageId: string, newText: string) returns (found: bool)
      modifies this
      ensures found <==> ContainsId(old(messages), messageId)
      ensures messages == UpdateFirst(old(messages), messageId, newText)
    {
      if !ContainsId(messages, messageId) {
        return false;
      }
      var k := FirstIndex(messages, messageId);
      UpdateFirstSpec(messages, messageId, newText);
      messages := messages[k := messages[k].(text := newText)];
      found := true;
    }

    /** Number of unread messages in this chat. */
    function GetUnreadCount(): (n: nat)
      reads this
      ensures n <= |messages|
      ensures n > 0 <==> exists i :: 0 <= i < |messages| && !messages[i].isRead
    {
      UnreadCount(messages)
    }

    /** Sets the read flag of every message, one at a time. */
    method MarkAllAsRead()
      modifies this
      ensures messages == AllRead(old(messages))
      ensures UnreadCount(messages) == 0
    {
      var i := 0;
      while i < |messages|
        invariant 0 <= i <= |messages| == |old(messages)|
        invariant forall j :: 0 <= j < i ==> messages[j] == old(messages)[j].(isRead := true)
        invariant forall j :: i <= j < |messages| ==> messages[j] == old(messages)[j]
      {
        messages := messages[i := messages[i].(isRead := true)];
        i := i + 1;
      }
      AllReadSpec(old(messages));
    }

    /** Preview text: the newest message's text, or the sentinel when there is none. */
    function GetLastMessageText(): (s: string)
      reads this
      ensures messages == [] ==> s == NoMessages
      ensures messages != [] ==> s == messages[|messages| - 1].text
    {
      LastText(messages)
    }

    function IsEmpty(): (b: bool)
      reads this
      ensures b <==> |messages| == 0
    {
      messages == []
    }
  }
}
