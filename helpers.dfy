/** The three list helpers the source defines next to the service. */
module ListHelpers {
  import opened Sequences
  import opened Messages
  import opened Chats

  /** The chats that hold at least one unread message, in their original order. */
  function FilterUnread(cs: seq<Chat>): (r: seq<Chat>)
    reads cs
    ensures forall i :: 0 <= i < |r| ==> r[i] in cs && UnreadCount(r[i].messages) > 0
    ensures |r| <= |cs| && IsSubsequence(r, cs)
    ensures NoDuplicates(cs) ==> NoDuplicates(r)
  {
    if cs == [] then []
    else
      var rest := FilterUnread(cs[1..]);
      assert forall i :: 0 <= i < |rest| ==> rest[i] in cs;
      if UnreadCount(cs[0].messages) > 0 then
        assert NoDuplicates(cs) ==> cs[0] !in cs[1..];
        assert ([cs[0]] + rest)[1..] == rest;
        [cs[0]] + rest
      else rest
  }

  /** Nothing with an unread message is filtered out. */
  lemma {:induction false} FilterUnreadKeeps(cs: seq<Chat>, i: nat)
    requires i < |cs| && UnreadCount(cs[i].messages) > 0
    ensures cs[i] in FilterUnread(cs)
  {
    if i > 0 {
      assert cs[i] == cs[1..][i - 1];
      FilterUnreadKeeps(cs[1..], i - 1);
    }
  }

  /**
   * Like a list filter, the result keeps each chat with an unread message
   * exactly as often as it occurs in the input, and no other chat.
   */
  lemma {:induction false} FilterUnreadMultiset(cs: seq<Chat>)
    ensures forall c: Chat ::
              multiset(FilterUnread(cs))[c] == if UnreadCount(c.messages) > 0 then multiset(cs)[c] else 0
  {
    if cs != [] {
      FilterUnreadMultiset(cs[1..]);
      assert cs == [cs[0]] + cs[1..];
    }
  }

  /** Over distinct chats, the filter keeps exactly one entry per chat with unread messages. */
  lemma {:induction false} FilterUnreadCount(cs: seq<Chat>)
    requires NoDuplicates(cs)
    ensures |FilterUnread(cs)| == |set c | c in cs && UnreadCount(c.messages) > 0|
  {
    var r := FilterUnread(cs);
    DistinctCardinality(r);
    forall i | 0 <= i < |cs| && UnreadCount(cs[i].messages) > 0 ensures cs[i] in r {
      FilterUnreadKeeps(cs, i);
    }
    assert (set c | c in r) == (set c | c in cs && UnreadCount(c.messages) > 0);
  }

  /** The preview text of every chat, one entry per chat, in the same order. */
  function MapToLastTexts(cs: seq<Chat>): (r: seq<string>)
    reads cs
    ensures |r| == |cs|
    ensures forall i :: 0 <= i < |cs| ==> r[i] == LastText(cs[i].messages)
  {
    if cs == [] then []
    else [cs[0].GetLastMessageText()] + MapToLastTexts(cs[1..])
  }

  /** Sets the read flag of every message of the list and returns the list. */
  method MarkListRead(ms: seq<Message>) returns (r: seq<Message>)
    ensures r == AllRead(ms)
    ensures UnreadCount(r) == 0
  {
    r := ms;
    var i := 0;
    while i < |r|
      invariant 0 <= i <= |r| == |ms|
      invariant forall j :: 0 <= j < i ==> r[j] == ms[j].(isRead := true)
      invariant forall j :: i <= j < |r| ==> r[j] == ms[j]
    {
      r := r[i := r[i].(isRead := true)];
      i := i + 1;
    }
  }
}
