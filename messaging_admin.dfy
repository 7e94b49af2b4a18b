/** The admin pages of the messaging application: the content preview column
    of both list pages and the two bulk actions on notifications. */
module MessagingAdmin {
  import opened Text
  import opened MessagingModels

  /** `MessageAdmin.content_preview`. */
  function MessageContentPreview(m: Message): (r: string)
    ensures Min(PreviewLimit, |m.content|) <= |r| <= PreviewLimit + |Ellipsis|
    ensures |m.content| <= PreviewLimit ==> r == m.content
    ensures |m.content| > PreviewLimit ==> r == m.content[..PreviewLimit] + Ellipsis
  {
    Preview(m.content)
  }

  /** `NotificationAdmin.content_preview`. */
  function NotificationContentPreview(n: Notification): (r: string)
    ensures Min(PreviewLimit, |n.content|) <= |r| <= PreviewLimit + |Ellipsis|
    ensures |n.content| <= PreviewLimit ==> r == n.content
    ensures |n.content| > PreviewLimit ==> r == n.content[..PreviewLimit] + Ellipsis
  {
    Preview(n.content)
  }

  /** The two admin previews are one function of the content. */
  lemma ContentPreviewsAgree(m: Message, n: Notification)
    requires m.content == n.content
    ensures MessageContentPreview(m) == NotificationContentPreview(n)
  {
  }

  /** `queryset.update(is_read=flag)` over the selected notifications: the
      flag is set on every selected row, the other rows and every other field
      are unchanged, and the number of updated rows is returned. */
  method SetReadFlag(store: MessagingStore, selected: set<Id>, flag: bool) returns (updated: nat)
    requires store.Valid() && selected <= store.notifications.Keys
    modifies store`notifications
    ensures store.Valid()
    ensures updated == |selected|
    ensures store.notifications.Keys == old(store.notifications).Keys
    ensures forall n :: n in selected ==> store.notifications[n] == old(store.notifications)[n].(isRead := flag)
    ensures forall n :: n in old(store.notifications) && n !in selected ==> store.notifications[n] == old(store.notifications)[n]
    ensures NotifiedOnce(store.messages, old(store.notifications)) ==> NotifiedOnce(store.messages, store.notifications)
  {
    store.notifications := map n | n in store.notifications ::
      if n in selected then store.notifications[n].(isRead := flag) else store.notifications[n];
    updated := |selected|;
    forall m | m in store.messages ensures NoticesOf(store.notifications, m) == NoticesOf(old(store.notifications), m) {
    }
  }

  /** `NotificationAdmin.mark_as_read`. */
  method MarkAsRead(store: MessagingStore, selected: set<Id>) returns (updated: nat)
    requires store.Valid() && selected <= store.notifications.Keys
    modifies store`notifications
    ensures store.Valid()
    ensures updated == |selected|
    ensures store.notifications.Keys == old(store.notifications).Keys
    ensures forall n :: n in selected ==> store.notifications[n] == old(store.notifications)[n].(isRead := true)
    ensures forall n :: n in old(store.notifications) && n !in selected ==> store.notifications[n] == old(store.notifications)[n]
  {
    updated := SetReadFlag(store, selected, true);
  }

  /** `NotificationAdmin.mark_as_unread`. */
  method MarkAsUnread(store: MessagingStore, selected: set<Id>) returns (updated: nat)
    requires store.Valid() && selected <= store.notifications.Keys
    modifies store`notifications
    ensures store.Valid()
    ensures updated == |selected|
    ensures store.notifications.Keys == old(store.notifications).Keys
    ensures forall n :: n in selected ==> store.notifications[n] == old(store.notifications)[n].(isRead := false)
    ensures forall n :: n in old(store.notifications) && n !in selected ==> store.notifications[n] == old(store.notifications)[n]
  {
    updated := SetReadFlag(store, selected, false);
  }
}
