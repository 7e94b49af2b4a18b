/** The tables of the messaging application (messages, their edit history and
    notifications, over the framework's user table) as an in-memory store,
    with the field defaults of a new row, the referential rules of each
    foreign key on delete, `Notification.mark_as_read` and the string forms
    of the three models. */
module MessagingModels {
  import opened Collections
  import opened Text

  /** Primary keys. UUID generation is replaced by a counter in the store. */
  type Id = nat

  /** The framework's user; only the user name is read by this application. */
  datatype User = User(username: string)

  /** A direct message. `receiver` is stored in the `recipient_id` column;
      `lastEditedAt` is `None` for a message never edited. */
  datatype Message = Message(
    sender: Id,
    receiver: Id,
    content: string,
    timestamp: int,
    edited: bool,
    lastEditedAt: Option<int>)

  /** A snapshot of a message's earlier content; `editedBy` is null once the
      editing user is deleted. */
  datatype MessageHistory = MessageHistory(message: Id, oldContent: string, editedAt: int, editedBy: Option<Id>)

  /** The two choices of `notification_type`. */
  datatype NotificationType = NewMessage | SystemNotice

  /** The value stored for a notification type. */
  function TypeValue(t: NotificationType): (v: string)
    ensures v == "message" || v == "system"
    ensures v == "message" <==> t == NewMessage
  {
    match t
    case NewMessage => "message"
    case SystemNotice => "system"
  }

  datatype Notification = Notification(
    user: Id,
    message: Option<Id>,
    notificationType: NotificationType,
    content: string,
    isRead: bool,
    createdAt: int)

  /** Notifications that point at message `m`. */
  function NoticesOf(notifications: map<Id, Notification>, m: Id): set<Id> {
    set n | n in notifications && notifications[n].message == Some(m)
  }

  /** The notification rule as a table invariant: every message has exactly
      one notification pointing at it, and a notification that points at a
      message is addressed to that message's receiver. */
  ghost predicate NotifiedOnce(messages: map<Id, Message>, notifications: map<Id, Notification>) {
    && (forall m :: m in messages ==> |NoticesOf(notifications, m)| == 1)
    && (forall n :: n in notifications && notifications[n].message.Some? && notifications[n].message.value in messages ==>
          notifications[n].user == messages[notifications[n].message.value].receiver)
  }

  /** Notifications that point at some message. */
  function MessageNotices(notifications: map<Id, Notification>): set<Id> {
    set n | n in notifications && notifications[n].message.Some?
  }

  /** With the notification rule in force, there are exactly as many
      notifications pointing at messages as there are messages: N messages
      came with N distinct notifications. */
  lemma {:induction false} MessageNoticeCount(messages: map<Id, Message>, notifications: map<Id, Notification>)
    requires NotifiedOnce(messages, notifications)
    requires forall n :: n in notifications && notifications[n].message.Some? ==> notifications[n].message.value in messages
    ensures |MessageNotices(notifications)| == |messages|
    decreases |messages|
  {
    if messages != map[] {
      var m :| m in messages;
      var single := NoticesOf(notifications, m);
      assert |single| == 1;
      var nm :| nm in single;
      SingletonOf(single, nm);
      var messages' := messages - {m};
      var notifications' := notifications - {nm};
      forall m' | m' in messages' ensures NoticesOf(notifications', m') == NoticesOf(notifications, m') {
      }
      assert NotifiedOnce(messages', notifications');
      MessageNoticeCount(messages', notifications');
      assert MessageNotices(notifications) == MessageNotices(notifications') + {nm};
      assert |messages'| == |messages| - 1;
    }
  }

  class MessagingStore {
    var users: map<Id, User>
    var messages: map<Id, Message>
    var histories: map<Id, MessageHistory>
    var notifications: map<Id, Notification>
    /** Every id handed out so far is below this counter. */
    var nextId: nat

    /** Every foreign key points at an existing row (or is null where the
        column allows null). */
    ghost predicate Valid()
      reads this
    {
      && (forall id :: id in users ==> id < nextId)
      && (forall id :: id in messages ==> id < nextId)
      && (forall id :: id in histories ==> id < nextId)
      && (forall id :: id in notifications ==> id < nextId)
      && (forall m :: m in messages ==> messages[m].sender in users && messages[m].receiver in users)
      && (forall h :: h in histories ==>
            histories[h].message in messages && (histories[h].editedBy.Some? ==> histories[h].editedBy.value in users))
      && (forall n :: n in notifications ==>
            notifications[n].user in users && (notifications[n].message.Some? ==> notifications[n].message.value in messages))
    }

    constructor ()
      ensures Valid()
      ensures users == map[] && messages == map[] && histories == map[] && notifications == map[]
    {
      users, messages, histories, notifications := map[], map[], map[], map[];
      nextId := 0;
    }

    /** A fresh primary key, unused in every table. */
    method NewId() returns (id: Id)
      requires Valid()
      modifies this`nextId
      ensures Valid()
      ensures id !in users && id !in messages && id !in histories && id !in notifications
      ensures id < nextId
    {
      id := nextId;
      nextId := nextId + 1;
    }

    /** The framework's `create_user`, reduced to the user name. */
    method CreateUser(username: string) returns (id: Id)
      requires Valid()
      modifies this`users, this`nextId
      ensures Valid()
      ensures id !in old(users) && users == old(users)[id := User(username)]
    {
      id := NewId();
      users := users[id := User(username)];
    }

    /** The row insert of `Message.objects.create`: a new message is not
        edited and has no last-edit time. Signals are dispatched separately. */
    method InsertMessage(sender: Id, receiver: Id, content: string, now: int) returns (id: Id)
      requires Valid() && sender in users && receiver in users
      modifies this`messages, this`nextId
      ensures Valid()
      ensures id !in old(messages) && messages == old(messages)[id := Message(sender, receiver, content, now, false, None)]
      ensures !messages[id].edited && messages[id].lastEditedAt.None?
    {
      id := NewId();
      messages := messages[id := Message(sender, receiver, content, now, false, None)];
    }

    /** Saving a changed content of an existing message. Edit-history capture
        is not part of the shown code, so no history row is written. */
    method UpdateContent(id: Id, content: string)
      requires Valid() && id in messages
      modifies this`messages
      ensures Valid()
      ensures messages == old(messages)[id := old(messages)[id].(content := content)]
    {
      messages := messages[id := messages[id].(content := content)];
    }

    /** The row insert of `Notification.objects.create`: a new notification
        is unread, and its type is `message` unless another is given. */
    method InsertNotification(user: Id, message: Option<Id>, kind: Option<NotificationType>, content: string, now: int)
      returns (id: Id)
      requires Valid() && user in users && (message.Some? ==> message.value in messages)
      modifies this`notifications, this`nextId
      ensures Valid()
      ensures id !in old(notifications)
      ensures notifications == old(notifications)[id := Notification(user, message, kind.GetOr(NewMessage), content, false, now)]
      ensures kind.None? ==> notifications[id].notificationType == NewMessage
      ensures |notifications| == |old(notifications)| + 1
    {
      id := NewId();
      notifications := notifications[id := Notification(user, message, kind.GetOr(NewMessage), content, false, now)];
    }

    /** `Notification.mark_as_read`: sets the read flag and nothing else;
        calling it again changes nothing. */
    method MarkNotificationRead(id: Id)
      requires Valid() && id in notifications
      modifies this`notifications
      ensures Valid()
      ensures notifications == old(notifications)[id := old(notifications)[id].(isRead := true)]
      ensures old(notifications)[id].isRead ==> notifications == old(notifications)
      ensures NotifiedOnce(messages, old(notifications)) ==> NotifiedOnce(messages, notifications)
    {
      notifications := notifications[id := notifications[id].(isRead := true)];
      forall m | m in messages ensures NoticesOf(notifications, m) == NoticesOf(old(notifications), m) {
      }
    }

    /** Deleting a message cascades to its history rows and to every
        notification pointing at it; nothing else changes. */
    method DeleteMessage(id: Id)
      requires Valid() && id in messages
      modifies this`messages, this`histories, this`notifications
      ensures Valid()
      ensures messages == old(messages) - {id}
      ensures histories == map h | h in old(histories) && old(histories)[h].message != id :: old(histories)[h]
      ensures notifications == map n | n in old(notifications) && old(notifications)[n].message != Some(id) :: old(notifications)[n]
      ensures NotifiedOnce(old(messages), old(notifications)) ==> NotifiedOnce(messages, notifications)
    {
      messages := messages - {id};
      histories := map h | h in histories && histories[h].message != id :: histories[h];
      notifications := map n | n in notifications && notifications[n].message != Some(id) :: notifications[n];
      forall m | m in messages ensures NoticesOf(notifications, m) == NoticesOf(old(notifications), m) {
      }
    }

    /** Messages that deleting user `u` removes: those `u` sent or received. */
    function MessagesOf(u: Id): (r: set<Id>)
      reads this
      ensures forall m :: m in r <==> m in messages && (messages[m].sender == u || messages[m].receiver == u)
    {
      set m | m in messages && (messages[m].sender == u || messages[m].receiver == u)
    }

    /** Deleting a user cascades to the messages they sent or received (and
        from those to their history rows and notifications) and to the
        notifications addressed to them; history rows they edited that
        survive keep existing with `editedBy` set to null. */
    method DeleteUser(u: Id)
      requires Valid() && u in users
      modifies this`users, this`messages, this`histories, this`notifications
      ensures Valid()
      ensures users == old(users) - {u}
      ensures messages == old(messages) - old(MessagesOf(u))
      ensures histories == HistoriesAfterUserDelete(old(histories), u, old(MessagesOf(u)))
      ensures notifications == NotificationsAfterUserDelete(old(notifications), u, old(MessagesOf(u)))
      ensures forall m :: m in messages ==> messages[m].sender != u && messages[m].receiver != u
      ensures NotifiedOnce(old(messages), old(notifications)) ==> NotifiedOnce(messages, notifications)
    {
      var gone := MessagesOf(u);
      UserDeleteKeepsNotifiedOnce(messages, notifications, u, gone);
      users := users - {u};
      messages := messages - gone;
      histories := HistoriesAfterUserDelete(histories, u, gone);
      notifications := NotificationsAfterUserDelete(notifications, u, gone);
    }
  }

  /** History rows after deleting user `u`, whose messages `gone` are
      deleted with them: rows of deleted messages go (cascade), rows `u`
      edited lose their editor (set null), the rest stay as they were. */
  function HistoriesAfterUserDelete(histories: map<Id, MessageHistory>, u: Id, gone: set<Id>): (r: map<Id, MessageHistory>)
    ensures forall h :: h in r <==> h in histories && histories[h].message !in gone
    ensures forall h :: h in r ==> r[h].editedBy != Some(u)
    ensures forall h :: h in r ==>
      r[h] == if histories[h].editedBy == Some(u) then histories[h].(editedBy := None) else histories[h]
  {
    map h | h in histories && histories[h].message !in gone ::
      if histories[h].editedBy == Some(u) then histories[h].(editedBy := None) else histories[h]
  }

  /** Notifications after deleting user `u`, whose messages `gone` are deleted
      with them: those addressed to `u` and those pointing at a deleted message
      go (cascade), the rest stay unchanged. */
  function NotificationsAfterUserDelete(notifications: map<Id, Notification>, u: Id, gone: set<Id>): (r: map<Id, Notification>)
    ensures forall n :: n in r <==>
      n in notifications && notifications[n].user != u && (notifications[n].message.None? || notifications[n].message.value !in gone)
    ensures forall n :: n in r ==> r[n] == notifications[n]
  {
    map n | n in notifications && notifications[n].user != u
                                 && (notifications[n].message.None? || notifications[n].message.value !in gone)
                                 :: notifications[n]
  }

  /** Deleting a user keeps the notification rule: every surviving message
      was neither sent to nor by the user, so its one notification, addressed
      to its receiver, survives too. */
  lemma UserDeleteKeepsNotifiedOnce(messages: map<Id, Message>, notifications: map<Id, Notification>, u: Id, gone: set<Id>)
    requires forall m :: m in gone <==> m in messages && (messages[m].sender == u || messages[m].receiver == u)
    ensures NotifiedOnce(messages, notifications) ==>
      NotifiedOnce(messages - gone, NotificationsAfterUserDelete(notifications, u, gone))
  {
    var after := NotificationsAfterUserDelete(notifications, u, gone);
    if NotifiedOnce(messages, notifications) {
      forall m | m in messages - gone ensures NoticesOf(after, m) == NoticesOf(notifications, m) {
        forall n | n in NoticesOf(notifications, m) ensures n in after {
          assert notifications[n].user == messages[m].receiver;
        }
      }
    }
  }

  const NotificationLabelPrefix := "Notification for "
  const NotificationLabelSeparator := ": "

  /** `Notification.__str__`: the recipient's name and at most the first 50
      characters of the content. */
  function NotificationLabel(recipient: User, n: Notification): (r: string)
    ensures |r| == |NotificationLabelPrefix| + |recipient.username| + |NotificationLabelSeparator| + Min(PreviewLimit, |n.content|)
    ensures r[..|NotificationLabelPrefix|] == NotificationLabelPrefix
    ensures r[|NotificationLabelPrefix|..|NotificationLabelPrefix| + |recipient.username|] == recipient.username
    ensures var at := |NotificationLabelPrefix| + |recipient.username|;
      r[at..at + |NotificationLabelSeparator|] == NotificationLabelSeparator
    ensures r[|r| - Min(PreviewLimit, |n.content|)..] == n.content[..Min(PreviewLimit, |n.content|)]
  {
    NotificationLabelPrefix + recipient.username + NotificationLabelSeparator + Truncate(n.content, PreviewLimit)
  }

  const MessageLabelPrefix := "Message from "
  const MessageLabelTo := " to "
  const MessageLabelAt := " at "

  /** `Message.__str__`; the timestamp's text form is given, since datetime
      formatting is not modelled. */
  function MessageLabel(sender: User, receiver: User, timestampText: string): (r: string)
    ensures |r| == |MessageLabelPrefix| + |sender.username| + |MessageLabelTo| + |receiver.username| + |MessageLabelAt| + |timestampText|
    ensures r[..|MessageLabelPrefix|] == MessageLabelPrefix
    ensures var a := |MessageLabelPrefix|;
      var b := a + |sender.username|;
      var c := b + |MessageLabelTo|;
      var d := c + |receiver.username|;
      && r[a..b] == sender.username
      && r[b..c] == MessageLabelTo
      && r[c..d] == receiver.username
      && r[d..d + |MessageLabelAt|] == MessageLabelAt
    ensures r[|r| - |timestampText|..] == timestampText
  {
    MessageLabelPrefix + sender.username + MessageLabelTo + receiver.username + MessageLabelAt + timestampText
  }

  const HistoryLabelPrefix := "History for message "
  const HistoryLabelEditedAt := " edited at "

  /** `MessageHistory.__str__`; the message id's and the time's text forms
      are given. */
  function HistoryLabel(messageIdText: string, editedAtText: string): (r: string)
    ensures |r| == |HistoryLabelPrefix| + |messageIdText| + |HistoryLabelEditedAt| + |editedAtText|
    ensures r[..|HistoryLabelPrefix|] == HistoryLabelPrefix
    ensures var a := |HistoryLabelPrefix|;
      var b := a + |messageIdText|;
      && r[a..b] == messageIdText
      && r[b..b + |HistoryLabelEditedAt|] == HistoryLabelEditedAt
    ensures r[|r| - |editedAtText|..] == editedAtText
  {
    HistoryLabelPrefix + messageIdText + HistoryLabelEditedAt + editedAtText
  }
}
