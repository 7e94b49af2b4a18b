# Messaging back end: a Dafny model

This project models the behaviour-bearing parts of a chat/messaging back end
built on a web framework with an ORM. There are two applications:

- **The REST chat application** (`messaging_app/chats`). Users take part in
  conversations, and messages are sent into them. The view-set actions create
  a conversation, add or remove a participant, send a message, mark a message
  read and list a user's unread messages. The serializers derive and validate
  fields.
- **The signals application** (`Django-signals_orm-0x04/messaging`). It has
  direct messages, their edit history and notifications. A post-save hook adds
  one notification for each new message. Foreign keys cascade or set null on
  delete. The admin pages have a preview column and two bulk actions.

The database is an in-memory store: one class per application. Each table is
a map from id to record, and the methods change the maps in place. Each view
action is a method over that store. The action's guards come in the source's
order, and each guard gives its own `Response` constructor. The pure
serializer fields and validators are functions. The post-save signal is an
explicit `PostSave(store, id, created)` step. `SaveNewMessage` and
`SaveExistingMessage` call it after writing the row.

Main invariants proved:
- Referential integrity (`Valid()`) of both stores is kept by every operation,
  including the cascading deletes.
- The notification rule (`NotifiedOnce`) holds in the signals application:
  every message has exactly one notification, and that notification is
  addressed to the message's receiver. Every save and every delete keeps this
  rule. `MessageNoticeCount` then shows that N messages come with exactly N
  message notifications.

Two naming points:
- **The receiver field.** The message model declares the receiver as the
  field `receiver`, whose database column is `recipient_id`. Both signal
  handlers instead read `instance.recipient`
  (Django-signals_orm-0x04/messaging/signals.py:22, 26 and 44). A column name
  does not create an attribute, so as written every created message raises
  `AttributeError` in the post-save hook, after its row is inserted. The tests
  (Django-signals_orm-0x04/messaging/tests.py:30-34) also create messages with
  `recipient=` and `message_body=`, which the model does not accept. This
  model follows the intent the tests state at tests.py:59-63: the
  notification goes to the message's receiver. It has a single field,
  `receiver`, and the hook reads it.
- **User keys.** In the chat application, the view actions look users up by
  `id` (messaging_app/chats/views.py:33, 61, 139, 155 and 185), while the
  serializers look them up by `user_id` (messaging_app/chats/serializers.py:71,
  139 and 141). This model merges both keys into one user `Id`.

## Model

| member | source | states |
|---|---|---|
| `Text.Preview` | messaging_app/chats/serializers.py:68 | A body of at most 50 characters is its own preview. A longer body becomes exactly 53 characters: its first 50 followed by `...`. Every preview is at most 53 characters long and starts with the body's first min(50, length) characters. |
| `Text.Truncate` | Django-signals_orm-0x04/messaging/models.py:128 | Python `s[:n]`: the result has length min(n, len) and is a prefix of `s`. |
| `Text.PreviewIdempotent` | messaging_app/chats/serializers.py:68 | Previewing a preview changes nothing. |
| `Text.PreviewForgetsTail` | messaging_app/chats/serializers.py:68 | Two long bodies that share their first 50 characters have the same preview. |
| `Collections.ExistingCountMatches` | messaging_app/chats/views.py:33-38 | The count of existing users among the ids equals the list length exactly when no id repeats and every id exists. So a list with duplicates is rejected even when every id is valid. |
| `ChatModels.AddParticipantFacts` | messaging_app/chats/views.py:62 | After `participants.add(u)`, `u` is a participant and nobody else changes. Adding `u` again changes nothing, and adding a member leaves the conversation as it was. |
| `ChatModels.RemoveParticipantFacts` | messaging_app/chats/views.py:86-92 | After `participants.remove(u)`, `u` is absent and every other participant remains. Removing from a conversation with more than one participant leaves at least one. |
| `ChatViews.StatusCode` | messaging_app/chats/views.py:27-225 | Each outcome gets its HTTP status, in both directions. 201 means a creation. 200 means a successful participant change, a successful mark-read or the unread listing. 400 means a missing field, invalid participants, the last participant or the reader's own message. 403 means a sender who is not a participant. 404 means an unknown conversation, message, user or sender. |
| `ChatViews.CreateConversation` | messaging_app/chats/views.py:21-46 | An empty list gives 400 (`MissingField`). Any other list that is not both duplicate-free and fully existing gives 400 (`InvalidParticipants`). In both cases no conversation is added. Otherwise exactly one fresh conversation is added, with the given title and with participant set equal to the listed ids, and the result is 201. |
| `ChatViews.AddParticipant` | messaging_app/chats/views.py:48-68 | The checks run in this order: unknown conversation gives 404, missing `user_id` gives 400, unknown user gives 404. All of these leave the store unchanged. Otherwise only this conversation changes, by adding the user. |
| `ChatViews.RemoveParticipant` | messaging_app/chats/views.py:70-98 | The 404 check for an unknown user comes before the last-participant guard. A participant count of at most 1 gives 400 and changes nothing. Otherwise only this conversation changes, by removing the user. |
| `ChatViews.Queryset` | messaging_app/chats/views.py:111-120 | Without a routed conversation the result is every message. With one, it is exactly the messages of that conversation. |
| `ChatViews.SendMessage` | messaging_app/chats/views.py:122-170 | The checks run in this order: a missing or empty field gives 400, an unknown sender gives 404, an unknown conversation gives 404, and a sender who is not a participant gives 403. Only when all pass is exactly one unread message added, with `message_type` defaulting to `text`. The routed conversation takes precedence over the one in the body. |
| `ChatViews.MarkRead` | messaging_app/chats/views.py:172-196 | An unknown message gives 404 and a missing `user_id` gives 400. The message's own sender gives 400, with `is_read` unchanged. Otherwise only this message's `is_read` becomes true. |
| `ChatViews.InsertNewestFirst` | messaging_app/chats/views.py:220 | Inserting into a listing ordered by `-sent_at` keeps it ordered and free of repeats, and adds exactly the new id. |
| `ChatViews.InsertedInOrder` | messaging_app/chats/views.py:220 | Splicing an id in before the first older message keeps the order newest first, keeps the listing free of repeats, and adds exactly that id. |
| `ChatViews.Unread` | messaging_app/chats/views.py:198-226 | A missing `user_id` gives 400 and an unknown user gives 404. Otherwise the listing holds exactly the unread messages, not sent by the user, of conversations the user takes part in. Each appears once, newest first, and `count` equals the listing's length. |
| `ChatSerializers.FullName` | messaging_app/chats/serializers.py:28-29 | The full name is the first name, one space, then the last name. |
| `ChatSerializers.Validate` | messaging_app/chats/serializers.py:34-40 | There is an error exactly when the request is a POST and `password` differs from `password_confirm`. Otherwise the attributes are returned unchanged. |
| `ChatSerializers.CreateUser` | messaging_app/chats/serializers.py:42-49 | Adds one fresh user with the given fields. A password is set only when a non-empty one is given. The confirmation is never stored. |
| `ChatSerializers.MessagePreview` | messaging_app/chats/serializers.py:67-68 | A body of at most 50 characters is its own preview. A longer body gives its first 50 characters followed by `...`, which is 53 characters. |
| `ChatSerializers.LastMessage` | messaging_app/chats/serializers.py:112-122 | With no last message the result is `None`. Otherwise the summary has the message's id, time and type, the sender's full name, and the same preview as the message serializer. |
| `ChatSerializers.UnreadCount` | messaging_app/chats/serializers.py:124-128 | Without an authenticated requester the count is 0. Otherwise it is the number of unread messages of the conversation not sent by the requester. |
| `ChatSerializers.UnreadCountAgreesWithListing` | messaging_app/chats/serializers.py:127 | For a participant, the unread count equals the number of messages of that conversation in the `unread` listing. |
| `ChatSerializers.ValidateParticipantIds` | messaging_app/chats/serializers.py:137-143 | The ids pass, de-duplicated, exactly when all of them exist. Otherwise the error names exactly the ids that do not exist, and that set is non-empty. |
| `ChatSerializers.ViewCheckStricterThanValidator` | messaging_app/chats/serializers.py:138-140 | Every list the create action accepts passes the validator with the same participants. A list such as `[a, a]` with `a` existing passes the validator but is rejected by the create action. |
| `ChatSerializers.InsertConversation` | messaging_app/chats/serializers.py:145-151 | Adds one fresh conversation with the given fields. Its participants are the existing users among the given ids, or none for an empty list. |
| `ChatSerializers.AssignAllEffect` | messaging_app/chats/serializers.py:155-156 | After the `setattr` loop, every supplied attribute holds its supplied value and every attribute not supplied is unchanged. The participants are untouched. |
| `ChatSerializers.UpdateConversation` | messaging_app/chats/serializers.py:153-161 | Only this conversation changes. Each supplied attribute is set. The participants are replaced, by the existing users among the ids, only when `participant_ids` is supplied; otherwise they are unchanged. |
| `MessagingModels.TypeValue` | Django-signals_orm-0x04/messaging/models.py:87-90 | The stored value of each of the two choices: `message` for the new-message kind and `system` for the system kind, and nothing else. |
| `MessagingModels.MessageNoticeCount` | Django-signals_orm-0x04/messaging/tests.py:67-86 | Under the notification rule, the number of notifications that point at messages equals the number of messages. |
| `MessagingModels.MessagingStore.InsertMessage` | Django-signals_orm-0x04/messaging/models.py:28-31 | A new message is added under a fresh id, with `edited` false and no `last_edited_at`. |
| `MessagingModels.MessagingStore.UpdateContent` | Django-signals_orm-0x04/messaging/tests.py:102-104 | An update changes only this message's content. |
| `MessagingModels.MessagingStore.InsertNotification` | Django-signals_orm-0x04/messaging/models.py:109-116 | A new notification is added under a fresh id, with `is_read` false. Its type is the one given, or `message` when none is given. The table grows by exactly one. |
| `MessagingModels.MessagingStore.MarkNotificationRead` | Django-signals_orm-0x04/messaging/models.py:130-133 | Sets `is_read` to true and changes no other field and no other row. It is idempotent. |
| `MessagingModels.MessagingStore.DeleteMessage` | Django-signals_orm-0x04/messaging/models.py:55-59 | Removes the message, all its history rows and every notification that points at it. Integrity and the notification rule are kept. |
| `MessagingModels.MessagingStore.MessagesOf` | Django-signals_orm-0x04/messaging/models.py:16-27 | Returns exactly the messages the user sent or received. |
| `MessagingModels.MessagingStore.DeleteUser` | Django-signals_orm-0x04/messaging/models.py:16-27 | Removes the user and every message they sent or received. Those messages' history rows and notifications go too, and so do the notifications addressed to the user. No surviving message involves the user. Integrity and the notification rule are kept. |
| `MessagingModels.HistoriesAfterUserDelete` | Django-signals_orm-0x04/messaging/models.py:62-67 | History rows of deleted messages are removed. Rows the deleted user edited survive with `edited_by` null. All other rows are unchanged. |
| `MessagingModels.NotificationsAfterUserDelete` | Django-signals_orm-0x04/messaging/models.py:97-108 | Notifications addressed to the user, and those pointing at a deleted message, are removed. All others are kept unchanged. |
| `MessagingModels.UserDeleteKeepsNotifiedOnce` | Django-signals_orm-0x04/messaging/models.py:97-101 | Deleting a user keeps the one-notification-per-message rule. |
| `MessagingModels.NotificationLabel` | Django-signals_orm-0x04/messaging/models.py:127-128 | The string is `Notification for `, then the username, then `: `, then the first min(50, length) characters of the content. Every piece is fixed by position. |
| `MessagingModels.MessageLabel` | Django-signals_orm-0x04/messaging/models.py:42-43 | The string is `Message from `, the sender's name, ` to `, the receiver's name, ` at `, then the time text. Every piece is fixed by position. |
| `MessagingModels.HistoryLabel` | Django-signals_orm-0x04/messaging/models.py:77-78 | The string is `History for message `, the id text, ` edited at `, then the time text. Every piece is fixed by position. |
| `MessagingSignals.NoticeText` | Django-signals_orm-0x04/messaging/signals.py:19 | The notification content is exactly `You have a new message from ` followed by the sender's user name. |
| `MessagingSignals.CreateMessageNotification` | Django-signals_orm-0x04/messaging/signals.py:6-28 | For a created message, exactly one notification is added. It is addressed to the receiver, points at the message, has type `message` and is unread. For an update, nothing is added. |
| `MessagingSignals.LogMessageCreation` | Django-signals_orm-0x04/messaging/signals.py:31-44 | Logs only for a created message and changes no table. |
| `MessagingSignals.PostSave` | Django-signals_orm-0x04/messaging/signals.py:6-44 | Running both handlers adds exactly one notification for a created message and none for an update. |
| `MessagingSignals.SaveNewMessage` | Django-signals_orm-0x04/messaging/tests.py:42-65 | Saving a new message adds it with default fields plus exactly one notification for its receiver. The one-notification-per-message rule is kept. |
| `MessagingSignals.SaveExistingMessage` | Django-signals_orm-0x04/messaging/tests.py:88-107 | Saving an existing message changes its content and adds no notification. |
| `MessagingSignals.NewNoticeKeepsNotifiedOnce` | Django-signals_orm-0x04/messaging/tests.py:142-172 | A new message plus its own notification, addressed to its receiver, keeps the rule. Each message has its own distinct notification. |
| `MessagingAdmin.MessageContentPreview` | Django-signals_orm-0x04/messaging/admin.py:26-28 | Content of at most 50 characters is shown unchanged. Longer content shows as its first 50 characters plus `...`, which is 53 characters. |
| `MessagingAdmin.NotificationContentPreview` | Django-signals_orm-0x04/messaging/admin.py:59-61 | The same rule for a notification's content. |
| `MessagingAdmin.ContentPreviewsAgree` | Django-signals_orm-0x04/messaging/admin.py:28 | The two admin previews compute the same function of the content. |
| `MessagingAdmin.SetReadFlag` | Django-signals_orm-0x04/messaging/admin.py:67 | The `queryset.update` sets the flag on every selected row and leaves the other rows unchanged. The reported count equals the number of selected rows. |
| `MessagingAdmin.MarkAsRead` | Django-signals_orm-0x04/messaging/admin.py:65-68 | Every selected notification becomes read. The others are unchanged, and the count equals the number selected. |
| `MessagingAdmin.MarkAsUnread` | Django-signals_orm-0x04/messaging/admin.py:72-75 | Every selected notification becomes unread. The others are unchanged, and the count equals the number selected. |

## Left out

- Ids and times: UUID generation is replaced by a counter in each store, and `auto_now_add` timestamps are a `now` parameter.
- Password hashing: `set_password` is left out, and a user's `password` field stands for the hash.
- Output and framework glue are not modelled: `print` and logging, response bodies, nested serializer output, URL routing, pagination, search filters and cache decorators.
- The chat application's own model definitions are not part of this model. Defaults are assumed for them: a new conversation is active (`ActiveByDefault`) and a new message is unread.
- `ChatSerializers.LastMessage`: the caller chooses which message is "last", because it depends on the model's default ordering, which is not part of this model.
- `ChatSerializers.ValidateParticipantIds`: it returns a set rather than a list, because the order of `list(set(value))` is unspecified.
- `MessagingSignals.LogMessageCreation`: it returns whether it logged, not the printed line, because output is not modelled.
- `MessagingModels.MessageLabel` and `MessagingModels.HistoryLabel`: they take the text forms of timestamps and ids as parameters, because datetime and UUID formatting are not modelled.
- Message edit history: no shown code writes history rows. The table appears only as a cascade target, and saving an existing message writes no history row.
- Serializer fields not listed above (`get_conversation_count`, `get_participant_count`, `get_message_count`, `get_recent_messages`) and `MessageSerializer.validate_sender_id`/`create` are left out. They are plain ORM counts and lookups with no rule of their own.
- Concurrency, transactions and rollback on a failing hook are left out.
- The `AttributeError` that the signal handlers raise as written, by reading `instance.recipient`, is not modelled. The hook here reads the receiver, as the tests intend.
- `MessagingModels.TypeValue`: "always `message` or `system`" holds only because the type is an enumeration here. The ORM does not check `choices` on `save()` or `objects.create()`, so the source can store any string of up to 20 characters.
