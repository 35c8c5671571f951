# Messaging backend: gating, notification and query core

A Dafny model of the core of the `alx-backend-python` coursework
repository. The Python is Django and DB-API glue; the model covers these
parts of it:

- **The chats request middleware.** Three pieces are modelled:
  - the hour-of-day window;
  - the per-IP rate limiter for chat POSTs, a class whose per-IP deque is
    pruned by a loop, including how the client address is taken from
    `X-Forwarded-For`;
  - the role check for admin, moderation and mutating requests.
- **The view permission** `IsParticipantOfConversation`.
- **The messaging schema** (`Message`, `MessageHistory`, `Notification`):
  - the field defaults, `__str__` forms and the `timestamp` ordering;
  - `save()` as UPDATE-or-INSERT, with a foreign-key check;
  - the `on_delete` rules. CASCADE runs through threaded replies; SET_NULL
    applies to `edited_by`.

  The rows live in a `Store` class whose methods change them in place. Each
  method is stated against a pure function on `Tables` values, and every
  method keeps the tables consistent: unique ids, timestamp order, and no
  dangling foreign key.
- **The `post_save` receiver**, which files one notification per newly
  created message.
- **The unread-messages manager.**
- **Two copies of the chats serializers.** One is in `messaging_app`. The
  other is in the middleware project and has a `ConversationWriteSerializer`.
  The copies share the message validation and differ in how they validate
  and create a participant list.
- **The `cache_query` decorator**, as a class holding the module-level
  dictionary.
- **The page-by-page and batch-by-batch readers** of the `user_data`
  table, as methods with loops over a fixed table.

Files, one module each unless noted:

- `wrappers.dfy`: `Option` and `Result`.
- `seqs.dfy`: order-preserving filter, map, subsequence and flatten.
- `text.dfy`: the Python `str` operations used, such as `in`,
  `startswith`, `strip` and `split(",")[0]`.
- `middleware.dfy`
- `permissions.dfy`
- `messaging_models.dfy`
- `messaging_store.dfy`
- `messaging_signals.dfy`
- `messaging_managers.dfy`
- `serializers.dfy`: three modules.
- `query_cache.dfy`
- `generators.dfy`: two modules.

Modelling conventions:

- **Time.** Clocks are integer parameters: an hour of day for the time
  window, seconds for the rate limiter, and an opaque `now` for
  `auto_now_add`.
- **Database reads.** A database table being read is a sequence of rows.
  A query's answer is a parameter of the call that would run it.

## Model

| member | source | states |
|---|---|---|
| ChatsMiddleware.RestrictAccessByTime | Django-Middleware-0x03/chats/middleware.py:58-66 | The request is refused with 403 and the chat-hours message exactly when its path contains "chats" and the hour is 21 or later, or earlier than 6. Otherwise it is forwarded. |
| ChatsMiddleware.GetClientIp | Django-Middleware-0x03/chats/middleware.py:83-87 | When X-Forwarded-For is present and non-empty, the address contains no comma and neither starts nor ends with whitespace. Otherwise it is REMOTE_ADDR, or "" when that is missing too. |
| ChatsMiddleware.ClientIpIsTrimmedFirstEntry | Django-Middleware-0x03/chats/middleware.py:84-86 | With the header present, the address is the header's text before the first comma, with whitespace, and only whitespace, removed from both ends. |
| ChatsMiddleware.ClientIpIsFirstForwardedEntry | Django-Middleware-0x03/chats/middleware.py:84-86 | When the header's first entry is a bare address followed by a comma, that entry is the client IP. |
| ChatsMiddleware.FirstFieldStopsAtComma | Django-Middleware-0x03/chats/middleware.py:86 | `split(",")[0]` of an entry with no comma, followed by a comma, is that entry. |
| ChatsMiddleware.DropExpired | Django-Middleware-0x03/chats/middleware.py:96-97 | The pruned deque is a suffix of the old one. Every popped timestamp is at or before the cutoff, and the first one kept is after it. |
| ChatsMiddleware.DropExpiredKeepsExactlyRecent | Django-Middleware-0x03/chats/middleware.py:96-97 | On a chronological deque, popping from the front keeps exactly the timestamps after the cutoff, in order. |
| ChatsMiddleware.DropExpiredLeavesOnlyRecent | Django-Middleware-0x03/chats/middleware.py:96-97 | After pruning a chronological deque, no timestamp at or before `now - window` remains. |
| ChatsMiddleware.PopExpired | Django-Middleware-0x03/chats/middleware.py:96-97 | The `popleft` loop computes DropExpired. |
| ChatsMiddleware.NextHistoryWithinCapacity | Django-Middleware-0x03/chats/middleware.py:98-100 | An IP never holds more than `limit` timestamps. A refused request only prunes; an admitted one appends `now`. |
| ChatsMiddleware.PrunedThenAppended | Django-Middleware-0x03/chats/middleware.py:94-100 | Once the deque is pruned, the request is refused exactly when the pruned deque holds `limit` or more timestamps; the next deque is the pruned one, with `now` appended exactly when the request is admitted. |
| ChatsMiddleware.NextHistoryChronological | Django-Middleware-0x03/chats/middleware.py:96-100 | If the clock does not run backwards, every IP's deque stays in chronological order and no later than `now`. |
| ChatsMiddleware.OffensiveLanguageMiddleware.constructor | Django-Middleware-0x03/chats/middleware.py:76-81 | The defaults are 5 messages per 60 seconds, and there are no tracked IPs. |
| ChatsMiddleware.OffensiveLanguageMiddleware.Call | Django-Middleware-0x03/chats/middleware.py:89-102 | A request that is not a chat POST is forwarded and nothing changes. A chat POST is refused with 429 exactly when its pruned history holds `limit` or more timestamps. Only that IP's entry changes, and it becomes the next history. |
| ChatsMiddleware.OffensiveLanguageMiddleware.Admit | Django-Middleware-0x03/chats/middleware.py:91-100 | For one IP: its deque, empty for an unseen IP, is pruned in place, and `now` is appended unless the limit is reached. The response is 429 exactly when the limit is reached. |
| ChatsMiddleware.RolePermission | Django-Middleware-0x03/chats/middleware.py:120-143 | The request is refused with 403 exactly when it needs the role check and its user is not privileged. A user is privileged when authenticated and either staff, superuser, or of role admin or moderator. A request needs the check when its path starts with /chats/admin or /chats/moderate, or when it is a DELETE, PUT or PATCH on a chat path. |
| ChatsMiddleware.RoleCheckOnlyOnChatPaths | Django-Middleware-0x03/chats/middleware.py:122-129 | Every request that needs the role check has "chats" in its path. |
| ChatsMiddleware.RolePermissionPassesNonChatPaths | Django-Middleware-0x03/chats/middleware.py:125-143 | A request whose path lacks "chats" always passes the role check. |
| ChatsPermissions.HasPermission | Django-Middleware-0x03/chats/permissions.py:4-7 | PATCH, PUT and DELETE are always allowed. Any other method is allowed exactly when the user is authenticated. |
| ChatsPermissions.PermissionIgnoresView | Django-Middleware-0x03/chats/permissions.py:4 | The decision never depends on the view. |
| ChatsPermissions.AnonymousWritesStoppedEarlier | Django-Middleware-0x03/chats/permissions.py:5-6 | An anonymous PATCH, PUT or DELETE on a chat path passes the permission but is refused with 403 by the role middleware. |
| MessagingModels.Preview | Django-signals_orm-0x04/messaging/models.py:43 | `content[:30]` is the prefix of the content of length min(30, its length). |
| MessagingModels.MessageStr | Django-signals_orm-0x04/messaging/models.py:42-43 | `Message.__str__` is the sender, " → ", the receiver, ": " and the 30-character preview, in that order and nothing else. |
| MessagingModels.NewMessage | Django-signals_orm-0x04/messaging/models.py:19-40 | A new message carries the given sender, receiver, content, timestamp and parent, is not edited, has no editor, and is unread. |
| MessagingModels.NewNotification | Django-signals_orm-0x04/messaging/models.py:74-79 | A new notification carries the given user, message, text and creation time, and is unread. |
| MessagingModels.NotificationStr | Django-signals_orm-0x04/messaging/models.py:81-82 | `Notification.__str__` is "Notification for ", then the username, then ": " and the text. |
| MessagingModels.InsertByTimestamp | Django-signals_orm-0x04/messaging/models.py:45-46 | Placing a saved row in the listing adds exactly that row: the result is the old rows plus the new one, as a multiset. |
| MessagingModels.InsertKeepsOrder | Django-signals_orm-0x04/messaging/models.py:45-46 | Placing a row keeps the listing ordered by timestamp. |
| MessagingModels.InsertKeepsDistinct | Django-signals_orm-0x04/messaging/models.py:8 | Inserting a row whose id is new keeps primary keys unique. |
| MessagingModels.InsertedIds | Django-signals_orm-0x04/messaging/models.py:8-46 | After an insert the ids are the old ids plus the new one. Every old row stays, and no other row appears. |
| MessagingModels.ConsistentAfterSave | Django-signals_orm-0x04/messaging/models.py:8-46 | Saving a row whose foreign keys resolve keeps the tables consistent. The ids become the old ids plus the row's id, and the row is stored. |
| MessagingModels.Cascade | Django-signals_orm-0x04/messaging/models.py:34-39 | The parent_message CASCADE contains the deleted messages, adds only stored ids, and leaves no reply to a deleted message. |
| MessagingModels.CascadeLeast | Django-signals_orm-0x04/messaging/models.py:38 | The cascade deletes nothing it must not: it lies inside every reply-closed set that contains the starting messages. |
| MessagingModels.NothingToPurge | Django-signals_orm-0x04/messaging/models.py:38 | Deleting ids that no message carries leaves the message table unchanged. |
| MessagingModels.PurgedIds | Django-signals_orm-0x04/messaging/models.py:38 | After a purge, the message ids left are exactly those not deleted. |
| MessagingModels.ClearedIds | Django-signals_orm-0x04/messaging/models.py:29 | Nulling `edited_by` keeps every message id. |
| MessagingModels.AfterMessageDeleteSpec | Django-signals_orm-0x04/messaging/models.py:34-76 | Deleting a message removes it and, transitively, every reply to it, together with the history rows and notifications of each removed message. Every other row stays, no row appears, and the users are untouched. |
| MessagingModels.ConsistentAfterMessageDelete | Django-signals_orm-0x04/messaging/models.py:34-76 | Deleting a message keeps the tables consistent. |
| MessagingModels.AfterUserDeleteRemovesUser | Django-signals_orm-0x04/messaging/models.py:9-75 | After a user is deleted, no message has them as sender, receiver or editor. No history row has them as editor, and no notification is addressed to them. |
| MessagingModels.AfterUserDeleteKeepsOthers | Django-signals_orm-0x04/messaging/models.py:25-68 | Every message and history row not cascaded stays, with the deleted user cleared from `edited_by` (SET_NULL). The message ids shrink by exactly the cascade. |
| MessagingModels.AfterUserDeleteKeepsOnlyOthers | Django-signals_orm-0x04/messaging/models.py:9-76 | After a user is deleted, every remaining message and history row is an old row outside the cascade, with the user cleared from `edited_by`. A notification stays exactly when it is not addressed to the user and its message is not cascaded, and no notification appears. |
| MessagingModels.ConsistentAfterUserDelete | Django-signals_orm-0x04/messaging/models.py:9-76 | Deleting a user keeps the tables consistent. |
| MessagingModels.UserDeleteKeepsMessageOrder | Django-signals_orm-0x04/messaging/models.py:45-46 | After a user is deleted, the remaining messages keep unique ids and timestamp order. |
| MessagingModels.UserDeleteKeepsMessageRefs | Django-signals_orm-0x04/messaging/models.py:9-39 | After a user is deleted, every remaining message's sender, receiver, editor and parent still resolve. |
| MessagingModels.UserDeleteKeepsHistoryRefs | Django-signals_orm-0x04/messaging/models.py:53-68 | After a user is deleted, every remaining history row's message and editor still resolve. |
| MessagingStore.Store.constructor | Django-signals_orm-0x04/messaging/models.py:8-82 | The tables start empty and consistent. |
| MessagingStore.Store.AddUser | Django-signals_orm-0x04/messaging/models.py:10 | A new user takes a fresh id. Nothing else changes. |
| MessagingStore.Store.Save | Django-signals_orm-0x04/messaging/models.py:8-46 | An existing id is an UPDATE with `created` false; a new id is an INSERT stamped with `now`. The save is refused with an integrity error, changing nothing, exactly when a foreign key dangles. Otherwise the tables become SaveRow of the old ones, and they stay consistent. |
| MessagingStore.Store.WriteRow | Django-signals_orm-0x04/messaging/models.py:20-46 | A checked row replaces the row with its id, or is added, in timestamp order, and the tables stay consistent. |
| MessagingStore.Store.AddHistory | Django-signals_orm-0x04/messaging/models.py:49-68 | A history row stamped with `now` is appended exactly when its message and editor resolve. Otherwise nothing changes. |
| MessagingStore.Store.AddNotification | Django-signals_orm-0x04/messaging/models.py:74-79 | An unread notification stamped with `now` is appended exactly when its user and message resolve. Otherwise nothing changes. |
| MessagingStore.Store.DeleteMessage | Django-signals_orm-0x04/messaging/models.py:34-76 | The tables become AfterMessageDelete of the old tables, and they stay consistent. |
| MessagingStore.Store.DeleteUser | Django-signals_orm-0x04/messaging/models.py:9-75 | The tables become AfterUserDelete of the old tables, and they stay consistent. |
| MessagingSignals.NotificationText | Django-signals_orm-0x04/messaging/signals.py:15 | The text is "New message from " followed by exactly the sender's username. |
| MessagingSignals.NotificationNamesSender | Django-signals_orm-0x04/messaging/signals.py:15 | The sender's username occurs in the notification text. |
| MessagingSignals.NotificationFor | Django-signals_orm-0x04/messaging/signals.py:12-16 | The notification is for the message's receiver, points at the message, is unread, and names the sender. |
| MessagingSignals.CreateNotification | Django-signals_orm-0x04/messaging/signals.py:5-16 | On creation, exactly one notification is appended. Otherwise nothing changes, and no message or existing notification is touched. |
| MessagingSignals.SaveMessage | Django-signals_orm-0x04/messaging/signals.py:5-16 | A save followed by the post_save dispatch: an INSERT gains exactly one notification, an UPDATE none, and a refused save changes nothing. |
| MessagingSignals.SendMessage | Django-signals_orm-0x04/messaging/signals.py:5-16 | A new message with the schema defaults is created under a fresh id and placed in timestamp order, with exactly one notification for its receiver. It is refused, changing nothing, when a referenced row is missing. |
| MessagingManagers.UnreadForUser | Django-signals_orm-0x04/messaging/managers.py:8-10 | The result holds exactly the stored messages to that user that are unread, in stored order. |
| MessagingManagers.UnreadKeepsOrder | Django-signals_orm-0x04/messaging/managers.py:10 | The unread listing inherits the timestamp ordering. |
| MessagingManagers.MarkReadRemovesFromUnread | Django-signals_orm-0x04/messaging/managers.py:10 | Saving a message as read takes it out of every user's unread listing. |
| MessagingManagers.MarkReadKeepsOtherUnread | Django-signals_orm-0x04/messaging/managers.py:10 | Marking one message read leaves every other unread message listed. |
| ChatSerializers.ValidateMessage | messaging_app/chats/serializers.py:41-52 | A body that is present and blank after `strip()` is refused first. Next, the sender is refused when there is a request, its user is authenticated, and the named conversation lacks them. Otherwise the attributes come back unchanged. |
| ChatSerializers.AbsentBodySkipsBlankCheck | messaging_app/chats/serializers.py:43-44 | A message with no body is never refused as blank. |
| ChatSerializers.ParticipantCheckSkipped | messaging_app/chats/serializers.py:47-52 | With no request, an anonymous user or no conversation, a non-blank message is accepted unchanged. |
| ChatSerializers.Conversation.SetParticipants | messaging_app/chats/serializers.py:102 | `participants.set` makes the set exactly the given users. |
| ChatSerializers.UpdateConversation | messaging_app/chats/serializers.py:97-103 | When a participant list is supplied, the participants become exactly those users; otherwise they are unchanged. The same method is in the other copy, at Django-Middleware-0x03/0x03-MessagingApp-Django/chats/serializers.py:78-83. |
| ConversationSerializer.Validate | messaging_app/chats/serializers.py:81-87 | Refused with TooFewParticipants exactly when a list is supplied with fewer than two users, the empty list included. |
| ConversationSerializer.Create | messaging_app/chats/serializers.py:89-95 | A fresh conversation whose participants are the list's users when the list is non-empty, and none otherwise. |
| ConversationWriteSerializer.Validate | Django-Middleware-0x03/0x03-MessagingApp-Django/chats/serializers.py:64-70 | Refused exactly when a list of exactly one user is supplied: an empty list is falsy and passes. |
| ConversationWriteSerializer.Create | Django-Middleware-0x03/0x03-MessagingApp-Django/chats/serializers.py:72-76 | A fresh conversation whose participants are the list's users, possibly none. |
| ConversationWriteSerializer.ValidatorsDifferOnlyOnEmptyList | Django-Middleware-0x03/0x03-MessagingApp-Django/chats/serializers.py:64-70 | Whatever this copy refuses, the other refuses too. The copies disagree on exactly one input, the empty list. |
| ConversationWriteSerializer.CreatesAgree | Django-Middleware-0x03/0x03-MessagingApp-Django/chats/serializers.py:72-76 | Both copies' `create` leave the same participants: setting an empty list and skipping it agree. |
| QueryCache.CacheKey | python-decorators-0x01/4-cache_query.py:20 | The key is the `query` keyword when given. Otherwise it is the first positional argument, or None when there is none. |
| QueryCache.Lookup | python-decorators-0x01/4-cache_query.py:21-28 | The query runs exactly when its key is not cached. A hit returns the stored result and changes nothing. A miss stores the answer under the key. No existing entry is changed. |
| QueryCache.CachedKeyAnswersLater | python-decorators-0x01/4-cache_query.py:21-23 | Once a key is cached, every later call with it returns the cached entry. |
| QueryCache.SameQuerySameResult | python-decorators-0x01/4-cache_query.py:17-28 | Two calls with the same key return the same result, whatever the query would have answered the second time. |
| QueryCache.Cache.constructor | python-decorators-0x01/4-cache_query.py:5 | The module-level `query_cache` dictionary starts empty. |
| QueryCache.Cache.Call | python-decorators-0x01/4-cache_query.py:17-28 | One call against the module-level dictionary gives the result, the invoked flag and the new dictionary that Lookup gives. |
| LazyPaginate.PaginateUsers | python-generators-0x00/2-lazy_paginate.py:10-27 | `LIMIT page_size OFFSET offset` is the slice of at most page_size rows starting at the offset, and is empty past the end. |
| LazyPaginate.LazyPaginate | python-generators-0x00/2-lazy_paginate.py:30-47 | Page k is the fetch at offset k·page_size, non-empty and at most page_size long, and the fetch after the last page is empty. For a positive page size the pages concatenate to the whole table. A page size of 0 yields nothing. |
| LazyPaginate.NextPage | python-generators-0x00/2-lazy_paginate.py:41-46 | One loop round: yielding a non-empty page and advancing the offset by page_size keeps the pages read so far equal to the table's prefix. |
| LazyPaginate.PagesReadExtend | python-generators-0x00/2-lazy_paginate.py:42-46 | After one more non-empty fetch, page k is still the fetch at offset k·page_size for every k. |
| LazyPaginate.PagesJoin | python-generators-0x00/2-lazy_paginate.py:42-46 | Appending the page fetched at the offset extends the prefix read so far by that page. |
| BatchProcessing.FetchMany | python-generators-0x00/1-batch_processing.py:21 | `fetchmany(size)` returns the next min(size, remaining) rows in order. |
| BatchProcessing.StreamUsersInBatches | python-generators-0x00/1-batch_processing.py:5-32 | Every yielded batch is non-empty and at most batch_size long, all but the last are full, and together they are the whole table in order. |
| BatchProcessing.NextFetch | python-generators-0x00/1-batch_processing.py:20-24 | One loop round: a non-empty fetch at the cursor extends the batches yielded so far to the table's prefix up to the new cursor, and only the last batch can be short. |
| BatchProcessing.BatchProcessing | python-generators-0x00/1-batch_processing.py:35-43 | The users printed are exactly the rows whose age exceeds 25, in table order. |
| BatchProcessing.NextBatch | python-generators-0x00/1-batch_processing.py:41-43 | Finishing one batch extends the rows seen so far by exactly that batch. |
| BatchProcessing.FilterOneMore | python-generators-0x00/1-batch_processing.py:41-43 | Looking at one more user of a batch prints it exactly when its age exceeds 25. |

## Left out

- **Logging**: `RequestLoggingMiddleware` (middleware.py:11-44) writes to a log file, which is I/O.
- **Printing**: the `print` calls of the cache decorator and of `batch_processing` are I/O. `BatchProcessing` returns what it would print.
- **The middleware lock**: `OffensiveLanguageMiddleware` holds a `threading.Lock`. Each call is modelled as atomic, and concurrency is not modelled.
- **The database**: the connection, the SQL text and driver errors are not modelled. `PaginateUsers` and `FetchMany` read a fixed sequence of rows instead. `with_db_connection` only opens and closes a connection, so it is not modelled.
- **Laziness**: the generators are modelled as methods that collect every page or batch they would yield. The interleaving between a generator and its consumer is not captured.
- BatchProcessing.StreamUsersInBatches: requires `batch_size >= 1`. The driver is `mysql.connector`, whose `fetchmany(0)` falls back to the cursor's `arraysize`; that cursor setting is not modelled, and this file does not handle a smaller size itself.
- BatchProcessing.BatchProcessing: requires `batch_size >= 1` for the same reason.
- **`Notification.text` length**: the `max_length=255` limit of the field is not enforced, because whether it is enforced depends on the database backend.
- **`MessageHistory.__str__`**: it depends on Python's datetime formatting of `edited_at`, so it is not modelled.
- **The `read` field**: `UnreadMessagesManager` filters `Message` rows on `read`, but the `Message` model at models.py:8-46 declares no such field, and the manager is not attached to the model. The model gives `Message` an explicit `read` field, default false, so that the manager's filter has a meaning.
- **Signal receivers**: `messaging/signals.py` registers only the `post_save` receiver. No `pre_save` or `post_delete` receiver is defined in `messaging/`, although views.py:13 and views.py:20 say that `user.delete()` triggers `post_delete`, and models.py:51 and models.py:61 describe `MessageHistory` as filled by a signal before an edit. So history rows are created only through `AddHistory`, the plain `MessageHistory.objects.create`, and editing a message records nothing by itself. Deletion is exactly what the `on_delete` options do, and no reply-tree builder is modelled.
- **Edited history rows**: `MessageHistory.edited_by` is SET_NULL (models.py:62-68), so a user's deletion keeps the history rows that user edited, with the editor cleared.
- **Serializer field defaults**: `message_body` is a DRF `CharField`, whose defaults `trim_whitespace=True` and `allow_blank=False` refuse a blank body before `validate` runs. Through `is_valid()`, the `BlankMessageBody` path of `ChatSerializers.ValidateMessage` is reached only when those defaults are changed. The field layer is not modelled; `ValidateMessage` models `validate` alone.
- **Arbitrary field updates**: `super().update(instance, validated_data)` in both `update` methods applies the remaining scalar fields of a Conversation. Those fields are not modelled, only the participant set.
- **Read-only serializer parts**: `UserSerializer` and the `get_participants` and `get_messages` methods only render data, so they are not modelled.
- **Identifiers**: UUID primary keys of the chats app are modelled as natural numbers.
- **Users as strings**: a user's string form in `Message.__str__` is taken as a parameter.
