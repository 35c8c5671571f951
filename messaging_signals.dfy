/** The `post_save` receiver for Message: when a message is newly created,
    its receiver gets one unread notification naming the sender. Saving a
    message is modelled together with the dispatch of that signal, which
    Django performs right after the row is written. */
module MessagingSignals {
  import opened Wrappers
  import opened MessagingModels
  import opened MessagingStore
  import Text

  const NotificationPrefix := "New message from "

  /** The notification text for a message from `username`. */
  function NotificationText(username: string): (t: string)
    ensures Text.StartsWith(t, NotificationPrefix)
    ensures t[|NotificationPrefix|..] == username
  {
    NotificationPrefix + username
  }

  /** The text names the sender: the sender's username occurs in it. */
  lemma NotificationNamesSender(username: string)
    ensures Text.Contains(NotificationText(username), username)
  {
    var t := NotificationText(username);
    Text.ContainsAt(t, username, |NotificationPrefix|);
  }

  /** The notification the hook files for a stored message. */
  function NotificationFor(instance: Message, senderName: string, now: int): (n: Notification)
    ensures n.user == instance.receiver && n.message == instance.id && !n.read
    ensures Text.Contains(n.text, senderName)
  {
    NotificationNamesSender(senderName);
    NewNotification(instance.receiver, instance.id, NotificationText(senderName), now)
  }

  /** `create_notification(sender, instance, created)`: on creation, append
      exactly one notification for the receiver; otherwise do nothing. The
      message table and the existing notifications are never touched. */
  method CreateNotification(store: Store, instance: Message, created: bool, now: int)
    requires store.Valid() && instance in store.messages
    modifies store
    ensures store.Valid()
    ensures store.users == old(store.users) && store.messages == old(store.messages)
    ensures store.histories == old(store.histories)
    ensures store.notifications == old(store.notifications)
              + (if created then [NotificationFor(instance, old(store.users)[instance.sender], now)] else [])
    ensures store.nextUser == old(store.nextUser) && store.nextMessage == old(store.nextMessage)
  {
    if created {
      var _ := store.AddNotification(instance.receiver, instance.id,
                                     NotificationText(store.users[instance.sender]), now);
    }
  }

  /** `message.save()` followed by the `post_save` dispatch. */
  method SaveMessage(store: Store, m: Message, now: int) returns (r: Result<Message, StoreError>, created: bool)
    requires store.Valid()
    modifies store
    ensures store.Valid()
    ensures created == (m.id !in Ids(old(store.messages)))
    ensures r.Ok? <==> MessageRefsOk(if created then m.(timestamp := now) else m,
                                     old(store.users), Ids(old(store.messages)) + {m.id})
    ensures r.Ok? ==> r.value == (if created then m.(timestamp := now) else m)
    ensures r.Ok? ==> store.messages == SaveRow(old(store.State()), r.value).messages
    ensures r.Ok? && created ==>
              store.notifications == old(store.notifications) + [NotificationFor(r.value, old(store.users)[m.sender], now)]
    ensures r.Ok? && !created ==> store.notifications == old(store.notifications)
    ensures r.Err? ==> store.State() == old(store.State())
    ensures store.users == old(store.users) && store.histories == old(store.histories)
  {
    ghost var before := store.State();
    r, created := store.Save(m, now);
    if r.Ok? {
      ConsistentAfterSave(before, r.value);
      CreateNotification(store, r.value, created, now);
    }
  }

  /** `Message.objects.create(sender=…, receiver=…, content=…,
      parent_message=…)`: a new row under the next free id with the schema
      defaults (not edited, no editor, unread), saved and signalled. It is
      refused when the sender, the receiver or the parent is not stored. */
  method SendMessage(store: Store, sender: UserId, receiver: UserId, content: string,
                     parent: Option<MessageId>, now: int) returns (r: Result<Message, StoreError>)
    requires store.Valid()
    modifies store
    ensures store.Valid()
    ensures r.Ok? <==> sender in old(store.users) && receiver in old(store.users)
                       && (parent.Some? ==> parent.value in Ids(old(store.messages)) + {old(store.nextMessage)})
    ensures r.Ok? ==> r.value == NewMessage(old(store.nextMessage), sender, receiver, content, now, parent)
    ensures r.Ok? ==> r.value.id !in Ids(old(store.messages))
    ensures r.Ok? ==> store.messages == InsertByTimestamp(old(store.messages), r.value)
    ensures r.Ok? ==> store.notifications == old(store.notifications) + [NotificationFor(r.value, old(store.users)[sender], now)]
    ensures r.Err? ==> store.State() == old(store.State())
    ensures store.users == old(store.users) && store.histories == old(store.histories)
  {
    var m := NewMessage(store.nextMessage, sender, receiver, content, now, parent);
    forall x | x in store.messages ensures x.id !in {m.id} {
      assert x.id in Ids(store.messages);
    }
    NothingToPurge(store.State(), {m.id});
    var created;
    r, created := SaveMessage(store, m, now);
  }
}
