/**
 * Users, messages and the value-level semantics of a chat's message list:
 * what appending, removing by id, editing the first match, marking as read,
 * counting unread messages, the last-message preview and the last-N slice
 * do to a sequence of messages.
 */
module Messages {
  import opened Sequences

  /** A registered user; `name` is carried but takes no part in any rule. */
  datatype User = User(id: string, name: string)

  /**
   * One chat message. `text` and `isRead` are the fields the service changes;
   * `id` and `timestamp` are supplied by the caller of `SendMessage`.
   */
  datatype Message = Message(id: string, senderId: string, text: string, isRead: bool, timestamp: int)

  datatype Option<T> = None | Some(value: T)

  /** The two failures the service raises (a missing chat, a bad argument). */
  datatype ErrorKind = NotFound | InvalidArgument

  datatype Result<T> = Success(value: T) | Failure(error: ErrorKind)

  /** The preview shown for a chat without messages ("no messages"). */
  const NoMessages: string := "нет сообщений"

  /** Number of messages whose `isRead` flag is false. */
  function UnreadCount(ms: seq<Message>): (n: nat)
    ensures n <= |ms|
    ensures n == 0 <==> forall i :: 0 <= i < |ms| ==> ms[i].isRead
  {
    if ms == [] then 0
    else (if ms[0].isRead then 0 else 1) + UnreadCount(ms[1..])
  }

  /** Appending a message adds one to the unread count exactly when it is unread. */
  lemma {:induction false} UnreadCountAppend(ms: seq<Message>, m: Message)
    ensures UnreadCount(ms + [m]) == UnreadCount(ms) + (if m.isRead then 0 else 1)
  {
    if ms != [] {
      assert (ms + [m])[1..] == ms[1..] + [m];
      UnreadCountAppend(ms[1..], m);
    }
  }

  /** Every message with its `isRead` flag set; nothing else changes. */
  function AllRead(ms: seq<Message>): (r: seq<Message>)
    ensures |r| == |ms|
    ensures UnreadCount(r) == 0
  {
    seq(|ms|, i requires 0 <= i < |ms| => ms[i].(isRead := true))
  }

  /** Marking as read leaves no unread message and keeps every other field and the order. */
  lemma AllReadSpec(ms: seq<Message>)
    ensures |AllRead(ms)| == |ms|
    ensures UnreadCount(AllRead(ms)) == 0
    ensures forall i :: 0 <= i < |ms| ==>
      AllRead(ms)[i].isRead && AllRead(ms)[i].(isRead := ms[i].isRead) == ms[i]
  {
  }

  /** Marking as read twice is the same as marking once. */
  lemma AllReadIdempotent(ms: seq<Message>)
    ensures AllRead(AllRead(ms)) == AllRead(ms)
  {
  }

  /** Some message in `ms` carries the id `id`. */
  predicate ContainsId(ms: seq<Message>, id: string)
  {
    exists i :: 0 <= i < |ms| && ms[i].id == id
  }

  /** Number of messages in `ms` that carry the id `id`. */
  function IdCount(ms: seq<Message>, id: string): (n: nat)
    ensures n <= |ms|
    ensures n > 0 <==> ContainsId(ms, id)
  {
    if ms == [] then 0
    else (if ms[0].id == id then 1 else 0) + IdCount(ms[1..], id)
  }

  /** `ms` with EVERY message carrying `id` removed, the others in their order. */
  function RemoveId(ms: seq<Message>, id: string): (r: seq<Message>)
    ensures forall m :: m in r <==> m in ms && m.id != id
    ensures IsSubsequence(r, ms)
    ensures |r| == |ms| - IdCount(ms, id)
    ensures !ContainsId(ms, id) ==> r == ms
  {
    if ms == [] then []
    else if ms[0].id == id then RemoveId(ms[1..], id)
    else [ms[0]] + RemoveId(ms[1..], id)
  }

  /** Position of the first message carrying `id`. */
  function FirstIndex(ms: seq<Message>, id: string): (k: nat)
    requires ContainsId(ms, id)
    ensures k < |ms| && ms[k].id == id
    ensures forall j :: 0 <= j < k ==> ms[j].id != id
  {
    if ms[0].id == id then 0
    else
      assert ContainsId(ms[1..], id) by {
        var i :| 0 <= i < |ms| && ms[i].id == id;
        assert ms[1..][i - 1].id == id;
      }
      1 + FirstIndex(ms[1..], id)
  }

  /** `ms` with the text of the FIRST message carrying `id` replaced by `newText`. */
  function UpdateFirst(ms: seq<Message>, id: string, newText: string): (r: seq<Message>)
    ensures |r| == |ms|
    ensures !ContainsId(ms, id) ==> r == ms
  {
    if ms == [] then []
    else if ms[0].id == id then [ms[0].(text := newText)] + ms[1..]
    else [ms[0]] + UpdateFirst(ms[1..], id, newText)
  }

  /**
   * Editing changes exactly one message, the first with that id, and only
   * its text: id, sender, read flag and timestamp stay as they were.
   */
  lemma {:induction false} UpdateFirstSpec(ms: seq<Message>, id: string, newText: string)
    requires ContainsId(ms, id)
    ensures var k := FirstIndex(ms, id);
      && UpdateFirst(ms, id, newText)[k] == ms[k].(text := newText)
      && forall j :: 0 <= j < |ms| && j != k ==> UpdateFirst(ms, id, newText)[j] == ms[j]
  {
    if ms[0].id != id {
      assert ContainsId(ms[1..], id) by {
        var i :| 0 <= i < |ms| && ms[i].id == id;
        assert ms[1..][i - 1].id == id;
      }
      UpdateFirstSpec(ms[1..], id, newText);
    }
  }

  /**
   * The last `n` messages, oldest first; every message when `n` reaches the
   * length. Follows the branches of the library's `takeLast`.
   */
  function TakeLast(ms: seq<Message>, n: nat): (r: seq<Message>)
    ensures |r| == if n < |ms| then n else |ms|
    ensures r == ms[|ms| - |r|..]
  {
    if n == 0 then []
    else if n >= |ms| then ms
    else ms[|ms| - n..]
  }

  /** Taking the last `n` and marking them read commutes with marking the whole list first. */
  lemma TakeLastAllRead(ms: seq<Message>, n: nat)
    ensures TakeLast(AllRead(ms), n) == AllRead(TakeLast(ms, n))
  {
    var a, b := TakeLast(AllRead(ms), n), AllRead(TakeLast(ms, n));
    assert |a| == |b|;
    forall i | 0 <= i < |a| ensures a[i] == b[i] {
      assert a[i] == AllRead(ms)[|ms| - |a| + i];
    }
  }

  /** Text of the most recent message, or the sentinel for an empty list. */
  function LastText(ms: seq<Message>): (text: string)
    ensures ms == [] ==> text == NoMessages
    ensures ms != [] ==> text == ms[|ms| - 1].text
  {
    if ms == [] then NoMessages else ms[|ms| - 1].text
  }

  /** After an append the preview is the appended message's text. */
  lemma LastTextAppend(ms: seq<Message>, m: Message)
    ensures LastText(ms + [m]) == m.text
  {
  }

  /** Marking as read does not change the preview. */
  lemma LastTextAllRead(ms: seq<Message>)
    ensures LastText(AllRead(ms)) == LastText(ms)
  {
  }

  /** Removing a just-appended message whose id was new gives back the earlier list. */
  lemma {:induction false} RemoveAppended(ms: seq<Message>, m: Message)
    requires !ContainsId(ms, m.id)
    ensures RemoveId(ms + [m], m.id) == ms
  {
    if ms != [] {
      assert (ms + [m])[1..] == ms[1..] + [m];
      assert ms[0].id != m.id;
      RemoveAppended(ms[1..], m);
    }
  }

  /** Editing a just-appended message whose id was new changes that message's text only. */
  lemma {:induction false} UpdateAppended(ms: seq<Message>, m: Message, newText: string)
    requires !ContainsId(ms, m.id)
    ensures UpdateFirst(ms + [m], m.id, newText) == ms + [m.(text := newText)]
  {
    if ms != [] {
      assert (ms + [m])[1..] == ms[1..] + [m];
      assert ms[0].id != m.id;
      UpdateAppended(ms[1..], m, newText);
    }
  }
}
