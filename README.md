# MessageService in Dafny

A verified model of the in-memory messaging service in `src/main/kotlin/main.kt`. The service keeps two registries:

- registered users, keyed by user id;
- chats, keyed by the recipient's id.

A chat is an ordered, mutable list of messages. The service sends, reads, edits and deletes messages across these registries. It creates chats implicitly and deletes them whole.

The model follows the shape of the source:

- `messages.dfy` (module `Messages`) holds the records:
  - `User` and `Message`, as values;
  - the two failure kinds;
  - the `"нет сообщений"` sentinel;
  - what each list operation does to a sequence of messages, as pure functions with lemmas. The operations are `count { !isRead }`, `removeIf`, `find`-then-edit, `forEach { isRead = true }`, `takeLast` and `lastOrNull`.
- `chat.dfy` (module `Chats`) holds the class `Chat`:
  - a constant `partnerId`, and a `messages` field that its methods reassign;
  - one method per mutator and one function per query;
  - `markAllAsRead` is a loop that flags one message at a time.
- `helpers.dfy` (module `ListHelpers`) holds the three list extensions `filterUnread`, `mapToLastTexts` and `List<Message>.markAllAsRead`.
- `service.dfy` (module `Service`) holds the class `MessagingService`.
  - It has a `users` map and a `chats` map of `Chat` objects.
  - It also has an `order` sequence. Kotlin's `mutableMapOf` iterates in insertion order, and `order` records that order, so `getChats` and `getLastMessages` list chats in creation order. A chat that is deleted and created again goes to the end.
  - `Valid()` says three things: every chat is stored under its own partner id, `order` lists each key once, and `order` lists exactly the keys of `chats`.
  - The ghost function `Threads()` maps each partner id to that chat's messages. Every mutator, `AddUser` included, states its effect on `Threads()`. That includes what it leaves alone: the other chats, and the whole state when it fails or returns false.
- `sequences.dfy` (module `Sequences`) holds generic facts about duplicates, subsequences and removing one element.
- `scenarios.dfy` (module `Scenarios`) holds client code. It shows what a caller can conclude from the contracts alone, in the situations the repository's unit tests describe: three sends then a read of the last two, an unknown sender, a missing chat, the unread chat count, deleting and recreating a chat, and editing then deleting a message.

The source throws two exceptions. The model reports them as results instead:

- `sendMessage` with an unregistered sender or recipient gives `Failure(InvalidArgument)`.
- `getMessagesFromChat` on a missing chat gives `Failure(NotFound)`.

A negative `count` also gives `Failure(InvalidArgument)`, and the state is left unchanged. The chat lookup happens first and `takeLast` rejects the count before `markAllAsRead` runs (main.kt:69-71), so the model checks in that order. This follows what the code does; an empty result for a negative count is not what it does.

Kotlin's `getMessages()` copies the list but not the `Message` objects. The messages that `getMessagesFromChat` returns are therefore the same objects that `markAllAsRead` flags right afterwards. The model treats messages as values. It returns the requested suffix of the chat as it is after the read, so every returned message is already read. `Messages.TakeLastAllRead` shows that this equals marking the suffix that was there before the read.

## Model

| member | source | states |
|---|---|---|
| Messages.UnreadCount | src/main/kotlin/main.kt:36 | the unread count never exceeds the number of messages, and is zero exactly when every message is read |
| Messages.UnreadCountAppend | src/main/kotlin/main.kt:22-24 | appending a message raises the unread count by one exactly when the message is unread |
| Messages.AllRead | src/main/kotlin/main.kt:38-40 | marking every message of a list read keeps its length and leaves no unread message; the same meaning serves the list helper at main.kt:118-121 |
| Messages.AllReadSpec | src/main/kotlin/main.kt:38-40 | marking as read keeps the length and order, sets every read flag, changes no other field, and leaves no unread message |
| Messages.AllReadIdempotent | src/main/kotlin/main.kt:38-40 | marking as read twice gives the same messages as marking once |
| Messages.IdCount | src/main/kotlin/main.kt:27 | the number of messages carrying an id is positive exactly when some message carries it |
| Messages.RemoveId | src/main/kotlin/main.kt:26-28 | removal keeps exactly the messages with another id, in their relative order; the length drops by the number of matches; nothing changes when no message matches |
| Messages.FirstIndex | src/main/kotlin/main.kt:31 | `find` picks a position holding the id, and no earlier position holds it |
| Messages.UpdateFirst | src/main/kotlin/main.kt:30-34 | editing keeps the length, and changes nothing when no message carries the id |
| Messages.UpdateFirstSpec | src/main/kotlin/main.kt:30-34 | only the first message with the id changes, only in its text; every other message is as before |
| Messages.TakeLast | src/main/kotlin/main.kt:70 | `takeLast(n)` returns the last min(n, size) messages, as a suffix in their original order |
| Messages.TakeLastAllRead | src/main/kotlin/main.kt:70-71 | the suffix of the marked chat equals the marked suffix of the chat as it was before the read |
| Messages.LastText | src/main/kotlin/main.kt:42 | the preview of a list is the sentinel when it is empty and otherwise the newest message's text, as `lastOrNull()?.text ?: "нет сообщений"` gives |
| Messages.LastTextAppend | src/main/kotlin/main.kt:42 | after an append the preview is the appended message's text |
| Messages.LastTextAllRead | src/main/kotlin/main.kt:42 | marking as read does not change the preview |
| Messages.RemoveAppended | src/main/kotlin/main.kt:22-28 | removing a just-appended message whose id was new restores the earlier list |
| Messages.UpdateAppended | src/main/kotlin/main.kt:22-34 | editing a just-appended message whose id was new changes only that message's text |
| Sequences.Without | src/main/kotlin/main.kt:104 | removing a key from the iteration order keeps every other key once, in the same relative order |
| Chats.Chat.constructor | src/main/kotlin/main.kt:16-18 | a new chat has the given partner id and no messages |
| Chats.Chat.AddMessage | src/main/kotlin/main.kt:22-24 | the message is appended at the end and the earlier messages are kept |
| Chats.Chat.RemoveMessage | src/main/kotlin/main.kt:26-28 | returns true iff some message carries the id; every match is removed and the rest keep their order; on false the chat is unchanged |
| Chats.Chat.UpdateMessage | src/main/kotlin/main.kt:30-34 | returns true iff some message carries the id; the new list is the first-match edit of the old one |
| Chats.Chat.GetUnreadCount | src/main/kotlin/main.kt:36 | the count is at most the number of messages, and positive exactly when some message is unread |
| Chats.Chat.MarkAllAsRead | src/main/kotlin/main.kt:38-40 | the loop leaves every message flagged read and otherwise unchanged, and the unread count at zero |
| Chats.Chat.GetLastMessageText | src/main/kotlin/main.kt:42 | the sentinel for an empty chat, otherwise the newest message's text |
| Chats.Chat.IsEmpty | src/main/kotlin/main.kt:44 | true exactly when the chat has no messages |
| ListHelpers.FilterUnread | src/main/kotlin/main.kt:114 | keeps only chats with an unread message, as a subsequence of the input (same order, no duplicates introduced) |
| ListHelpers.FilterUnreadKeeps | src/main/kotlin/main.kt:114 | every chat with an unread message is kept |
| ListHelpers.FilterUnreadMultiset | src/main/kotlin/main.kt:114 | for any input, duplicates included, each chat with an unread message is kept exactly as often as it occurs and no other chat is kept |
| ListHelpers.FilterUnreadCount | src/main/kotlin/main.kt:114 | over distinct chats, the filtered length is the number of chats with an unread message |
| ListHelpers.MapToLastTexts | src/main/kotlin/main.kt:116 | one preview per chat, in the same order, each the chat's last text or the sentinel |
| ListHelpers.MarkListRead | src/main/kotlin/main.kt:118-121 | the loop returns the list with every message flagged read and otherwise unchanged, with no unread message left |
| Service.PreviewsNewChat | src/main/kotlin/main.kt:98-100 | registering a new empty chat adds one sentinel preview, at the end, and keeps the others |
| Service.UnreadPartnersAfterRead | src/main/kotlin/main.kt:68-73 | reading a chat removes exactly that partner from the set of partners with unread messages |
| Service.UnreadPartnersAfterSend | src/main/kotlin/main.kt:82-85 | delivering an unread message adds exactly the recipient to that set |
| Service.MessagingService.constructor | src/main/kotlin/main.kt:47-49 | a new service has no users and no chats |
| Service.MessagingService.AddUser | src/main/kotlin/main.kt:51-53 | the user is stored under its id, replacing any earlier one; the chats, their order and every thread are untouched |
| Service.MessagingService.GetUser | src/main/kotlin/main.kt:55 | a user is returned iff one is registered under the id, and it is that user |
| Service.MessagingService.GetChats | src/main/kotlin/main.kt:61 | one entry per chat, each chat exactly once, in creation order |
| Service.MessagingService.GetUnreadChatsCount | src/main/kotlin/main.kt:58 | equals the number of partners whose chat holds an unread message, hence at most the number of chats |
| Service.MessagingService.UnreadChatsAreUnreadPartners | src/main/kotlin/main.kt:58 | filtering the chat list keeps one chat per partner with unread messages |
| Service.MessagingService.KeptChatsHaveDistinctPartners | src/main/kotlin/main.kt:114 | the chats that the filter keeps belong to distinct partners |
| Service.MessagingService.UnreadPartnersAreKept | src/main/kotlin/main.kt:114 | every partner with unread messages has a chat that the filter keeps |
| Service.MessagingService.KeptPartnersAreUnread | src/main/kotlin/main.kt:114 | every chat that the filter keeps belongs to a partner with unread messages |
| Service.MessagingService.GetLastMessages | src/main/kotlin/main.kt:64 | one preview per chat, aligned with the creation order of `GetChats` |
| Service.MessagingService.LastMessagesArePreviews | src/main/kotlin/main.kt:61-64 | mapping the chat list to texts gives each chat's last text, or the sentinel, in creation order |
| Service.MessagingService.GetMessagesFromChat | src/main/kotlin/main.kt:68-73 | a missing chat is NotFound and a negative count is InvalidArgument, both with no change; otherwise returns the last min(count, size) messages, marks only that chat read, and removes it from the unread partners |
| Service.MessagingService.SendMessage | src/main/kotlin/main.kt:77-88 | an unknown sender or recipient fails with no change; otherwise one unread message with the given sender and text is appended to the recipient's chat, which is created first when absent, and no other chat changes |
| Service.MessagingService.AppendToChat | src/main/kotlin/main.kt:85 | appending to one chat leaves every other chat's messages alone |
| Service.MessagingService.GetOrCreateChat | src/main/kotlin/main.kt:84 | an existing chat is returned unchanged; otherwise a fresh empty chat is registered at the end of the order |
| Service.MessagingService.DeleteMessage | src/main/kotlin/main.kt:91-94 | returns true iff the chat exists and holds the id; then every match is removed from that chat only; on false nothing changes |
| Service.MessagingService.CreateChatIfNotExists | src/main/kotlin/main.kt:98-100 | an existing chat is left as it is, so a second call changes nothing; a new chat is empty, goes last, and adds one sentinel preview |
| Service.MessagingService.DeleteChat | src/main/kotlin/main.kt:103-105 | returns true iff the chat existed; afterwards its key is gone from the registry and the order, and every other chat is unchanged |
| Service.MessagingService.EditMessage | src/main/kotlin/main.kt:108-111 | returns true iff the chat exists and holds the id; then only the first match's text changes; on false nothing changes |

## Left out

- Message id and timestamp generation (`UUID.randomUUID()` and `System.currentTimeMillis()`, main.kt:9, 13) are foreign and nondeterministic. They are parameters of `SendMessage`. The lemmas that undo an append require the id to be new to the chat.
- The exception classes and their message strings (main.kt:69, 79). They become the result tags `NotFound` and `InvalidArgument`.
- Kotlin `Int` and `Long` widths. Counts and timestamps are unbounded integers; an overflow would need more than 2^31 messages.
- Aliasing of `Message` objects. Messages are values:
  - A message returned by `sendMessage` or `getMessagesFromChat` is not later updated by edits or reads through the chat.
  - ListHelpers.MarkListRead returns a new sequence. The Kotlin helper flags the shared message objects in place and returns the same list.
- `Chat.getMessages()` (main.kt:20) is the `messages` field, read directly.
- `getChats` returns the live `Chat` objects, as the source does. Mutations through those references outside the service are not modelled.
- Data-class `equals`, `hashCode` and `copy`. `User.name` is carried but takes no part in any rule.
- ListHelpers.FilterUnread: its own contract states that the filter keeps only chats with unread messages, in order. That it keeps every such chat, as often as it occurs, is the separate lemmas `ListHelpers.FilterUnreadKeeps` and `ListHelpers.FilterUnreadMultiset`.
- The unit tests in `src/test/kotlin/MessageServiceTest.kt` are not modelled. The `Scenarios` module only draws the same conclusions from the contracts.
- Concurrency: the source has none.
