/** The post-save hooks on messages, made explicit: saving a message runs the
    registered handlers in order with the `created` flag. The first handler
    adds one notification for the receiver of a new message; the second only
    logs. */
module MessagingSignals {
  import opened Collections
  import opened MessagingModels

  const NoticePrefix := "You have a new message from "

  /** The content of the notification for a message from `senderName`. */
  function NoticeText(senderName: string): (r: string)
    ensures |r| == |NoticePrefix| + |senderName|
    ensures r[..|NoticePrefix|] == NoticePrefix
    ensures r[|NoticePrefix|..] == senderName
  {
    NoticePrefix + senderName
  }

  /** The notification row the first handler creates for message `id`. */
  function NoticeFor(store: MessagingStore, id: Id, now: int): Notification
    reads store
    requires store.Valid() && id in store.messages
  {
    var m := store.messages[id];
    Notification(m.receiver, Some(id), NewMessage, NoticeText(store.users[m.sender].username), false, now)
  }

  /** `create_message_notification`: for a created message, exactly one new
      notification addressed to the receiver; for an update, nothing. */
  method CreateMessageNotification(store: MessagingStore, id: Id, created: bool, now: int) returns (ghost notice: Id)
    requires store.Valid() && id in store.messages
    modifies store`notifications, store`nextId
    ensures store.Valid()
    ensures !created ==> store.notifications == old(store.notifications)
    ensures created ==>
      && notice !in old(store.notifications)
      && store.notifications == old(store.notifications)[notice := NoticeFor(store, id, now)]
      && |store.notifications| == |old(store.notifications)| + 1
  {
    notice := 0;
    if created {
      var m := store.messages[id];
      var text := NoticeText(store.users[m.sender].username);
      notice := store.InsertNotification(m.receiver, Some(id), Some(NewMessage), text, now);
    }
  }

  /** `log_message_creation`: logs a created message and touches no table.
      The log line itself is output and is not modelled. */
  method LogMessageCreation(store: MessagingStore, id: Id, created: bool) returns (logged: bool)
    requires store.Valid() && id in store.messages
    ensures logged == created
  {
    logged := created;
  }

  /** The post-save signal: both handlers in registration order. Together
      they add one notification for a created message and none otherwise. */
  method PostSave(store: MessagingStore, id: Id, created: bool, now: int) returns (ghost notice: Id)
    requires store.Valid() && id in store.messages
    modifies store`notifications, store`nextId
    ensures store.Valid()
    ensures !created ==> store.notifications == old(store.notifications)
    ensures created ==>
      && notice !in old(store.notifications)
      && store.notifications == old(store.notifications)[notice := NoticeFor(store, id, now)]
      && |store.notifications| == |old(store.notifications)| + 1
  {
    notice := CreateMessageNotification(store, id, created, now);
    var _ := LogMessageCreation(store, id, created);
  }

  /** Saving a new message: the row is inserted, then the hooks run with
      `created` true. The notification rule is kept. */
  method SaveNewMessage(store: MessagingStore, sender: Id, receiver: Id, content: string, now: int)
    returns (id: Id, ghost notice: Id)
    requires store.Valid() && sender in store.users && receiver in store.users
    modifies store`messages, store`notifications, store`nextId
    ensures store.Valid()
    ensures id !in old(store.messages)
    ensures store.messages == old(store.messages)[id := Message(sender, receiver, content, now, false, None)]
    ensures notice !in old(store.notifications)
    ensures store.notifications == old(store.notifications)[notice :=
      Notification(receiver, Some(id), NewMessage, NoticeText(store.users[sender].username), false, now)]
    ensures |store.notifications| == |old(store.notifications)| + 1
    ensures NotifiedOnce(old(store.messages), old(store.notifications)) ==> NotifiedOnce(store.messages, store.notifications)
  {
    id := store.InsertMessage(sender, receiver, content, now);
    notice := PostSave(store, id, true, now);
    NewNoticeKeepsNotifiedOnce(old(store.messages), old(store.notifications), id, store.messages[id], notice, store.notifications[notice]);
  }

  /** Saving an existing message with new content: the hooks run with
      `created` false and add no notification. */
  method SaveExistingMessage(store: MessagingStore, id: Id, content: string, now: int)
    requires store.Valid() && id in store.messages
    modifies store`messages, store`notifications, store`nextId
    ensures store.Valid()
    ensures store.messages == old(store.messages)[id := old(store.messages)[id].(content := content)]
    ensures store.notifications == old(store.notifications)
    ensures NotifiedOnce(old(store.messages), old(store.notifications)) ==> NotifiedOnce(store.messages, store.notifications)
  {
    store.UpdateContent(id, content);
    var _ := PostSave(store, id, false, now);
    assert forall n :: n in store.notifications && store.notifications[n].message.Some? && store.notifications[n].message.value in store.messages ==>
      store.messages[store.notifications[n].message.value].receiver == old(store.messages)[store.notifications[n].message.value].receiver;
  }

  /** Adding a new message together with one notification that points at it
      and is addressed to its receiver keeps the notification rule, provided
      no notification pointed at the new id before. */
  lemma NewNoticeKeepsNotifiedOnce(messages: map<Id, Message>, notifications: map<Id, Notification>,
                                   id: Id, m: Message, notice: Id, n: Notification)
    requires id !in messages && notice !in notifications
    requires forall k :: k in notifications && notifications[k].message.Some? ==> notifications[k].message.value in messages
    requires n.message == Some(id) && n.user == m.receiver
    ensures NotifiedOnce(messages, notifications) ==>
      NotifiedOnce(messages[id := m], notifications[notice := n])
  {
    var after := notifications[notice := n];
    if NotifiedOnce(messages, notifications) {
      assert NoticesOf(after, id) == {notice};
      forall k | k in messages ensures NoticesOf(after, k) == NoticesOf(notifications, k) {
      }
    }
  }
}
