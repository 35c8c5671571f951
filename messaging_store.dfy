/** The messaging tables as the database keeps them, changed in place by
    the row operations the schema allows: creating users, saving, creating
    history and notification rows, and deleting messages and users with
    the `on_delete` rules of the schema applied. Each operation is stated
    against the pure rules of `MessagingModels`, and every operation keeps
    the tables consistent (no dangling foreign key, unique ids, timestamp
    order). */
module MessagingStore {
  import opened Wrappers
  import opened MessagingModels

  /** A write the database refuses: a foreign key naming no stored row. */
  datatype StoreError = IntegrityError

  /** Ids below a bound stay below the larger of that bound and one past
      an added id. */
  lemma IdsStayBelow(before: set<MessageId>, after: set<MessageId>, added: MessageId, bound: MessageId)
    requires after == before + {added}
    requires forall id | id in before :: id < bound
    ensures forall id | id in after :: id < (if bound <= added then added + 1 else bound)
  {
  }

  /** Removing users and messages keeps every remaining id below the
      next ones handed out. */
  lemma BoundsKept(users: map<UserId, string>, users': map<UserId, string>, nextUser: UserId,
                   ids: set<MessageId>, ids': set<MessageId>, nextMessage: MessageId)
    requires users'.Keys <= users.Keys && ids' <= ids
    requires forall x | x in users :: x < nextUser
    requires forall id | id in ids :: id < nextMessage
    ensures forall x | x in users' :: x < nextUser
    ensures forall id | id in ids' :: id < nextMessage
  {
  }

  class Store {
    var users: map<UserId, string>
    var messages: seq<Message>
    var histories: seq<MessageHistory>
    var notifications: seq<Notification>
    /** The next primary keys the auto-increment columns hand out. */
    var nextUser: UserId
    var nextMessage: MessageId

    /** The stored rows as one value. */
    function State(): Tables
      reads this
    {
      Tables(users, messages, histories, notifications)
    }

    ghost predicate Valid()
      reads this
    {
      && Consistent(State())
      && (forall u | u in users :: u < nextUser)
      && (forall id | id in Ids(messages) :: id < nextMessage)
    }

    constructor ()
      ensures Valid()
      ensures State() == Tables(map[], [], [], [])
    {
      users := map[];
      messages := [];
      histories := [];
      notifications := [];
      nextUser := 0;
      nextMessage := 0;
    }

    /** A new user account under the next free id. */
    method AddUser(username: string) returns (u: UserId)
      requires Valid()
      modifies this
      ensures Valid()
      ensures u !in old(users)
      ensures State() == old(State()).(users := old(users)[u := username])
      ensures nextMessage == old(nextMessage)
    {
      u := nextUser;
      users := users[u := username];
      nextUser := nextUser + 1;
    }

    /** `Model.save()` on a message whose primary key is `m.id`: an UPDATE
        when a row with that id is stored, otherwise an INSERT, which
        `auto_now_add` stamps with `now`; `created` tells the two apart.
        A row whose foreign keys name no stored user or message is refused
        and nothing changes. */
    method Save(m: Message, now: int) returns (r: Result<Message, StoreError>, created: bool)
      requires Valid()
      modifies this
      ensures Valid()
      ensures created == (m.id !in Ids(old(messages)))
      ensures r.Ok? <==> MessageRefsOk(if created then m.(timestamp := now) else m,
                                       old(users), Ids(old(messages)) + {m.id})
      ensures r.Ok? ==> r.value == (if created then m.(timestamp := now) else m)
      ensures r.Ok? ==> State() == SaveRow(old(State()), r.value)
      ensures r.Err? ==> State() == old(State())
      ensures nextUser == old(nextUser)
    {
      created := m.id !in Ids(messages);
      var row := if created then m.(timestamp := now) else m;
      if !MessageRefsOk(row, users, Ids(messages) + {m.id}) {
        return Err(IntegrityError), created;
      }
      WriteRow(row);
      r := Ok(row);
    }

    /** The write itself, once the row's foreign keys are known to resolve:
        the row replaces the one with its id, or is added. */
    method WriteRow(row: Message)
      requires Valid()
      requires MessageRefsOk(row, users, Ids(messages) + {row.id})
      modifies this
      ensures Valid()
      ensures State() == SaveRow(old(State()), row)
      ensures nextUser == old(nextUser)
    {
      var before := State();
      var after := SaveRow(before, row);
      var next := if nextMessage <= row.id then row.id + 1 else nextMessage;
      ConsistentAfterSave(before, row);
      IdsStayBelow(Ids(before.messages), Ids(after.messages), row.id, nextMessage);
      messages := after.messages;
      nextMessage := next;
      assert State() == after;
    }

    /** `MessageHistory.objects.create(...)`: `edited_at` is stamped with
        `now`; a dangling message or editor is refused. */
    method AddHistory(message: MessageId, oldContent: string, editedBy: Option<UserId>, now: int)
      returns (r: Result<MessageHistory, StoreError>)
      requires Valid()
      modifies this
      ensures Valid()
      ensures r.Ok? <==> HistoryRefsOk(MessageHistory(message, oldContent, now, editedBy),
                                       old(users), Ids(old(messages)))
      ensures r.Ok? ==> r.value == MessageHistory(message, oldContent, now, editedBy)
      ensures r.Ok? ==> State() == old(State()).(histories := old(histories) + [r.value])
      ensures r.Err? ==> State() == old(State())
      ensures nextUser == old(nextUser) && nextMessage == old(nextMessage)
    {
      var h := MessageHistory(message, oldContent, now, editedBy);
      if !HistoryRefsOk(h, users, Ids(messages)) {
        return Err(IntegrityError);
      }
      histories := histories + [h];
      r := Ok(h);
    }

    /** `Notification.objects.create(user=…, message=…, text=…)`: unread,
        stamped with `now`; a dangling user or message is refused. */
    method AddNotification(user: UserId, message: MessageId, text: string, now: int)
      returns (r: Result<Notification, StoreError>)
      requires Valid()
      modifies this
      ensures Valid()
      ensures r.Ok? <==> NotificationRefsOk(NewNotification(user, message, text, now),
                                            old(users), Ids(old(messages)))
      ensures r.Ok? ==> r.value == NewNotification(user, message, text, now)
      ensures r.Ok? ==> State() == old(State()).(notifications := old(notifications) + [r.value])
      ensures r.Err? ==> State() == old(State())
      ensures nextUser == old(nextUser) && nextMessage == old(nextMessage)
    {
      var n := NewNotification(user, message, text, now);
      if !NotificationRefsOk(n, users, Ids(messages)) {
        return Err(IntegrityError);
      }
      notifications := notifications + [n];
      r := Ok(n);
    }

    /** `message.delete()`: the message, its replies transitively, and the
        history rows and notifications of every removed message go. */
    method DeleteMessage(id: MessageId)
      requires Valid()
      modifies this
      ensures Valid()
      ensures State() == AfterMessageDelete(old(State()), id)
      ensures nextUser == old(nextUser) && nextMessage == old(nextMessage)
    {
      ConsistentAfterMessageDelete(State(), id);
      AfterMessageDeleteSpec(State(), id);
      var t := AfterMessageDelete(State(), id);
      messages := t.messages;
      histories := t.histories;
      notifications := t.notifications;
    }

    /** `user.delete()`: the user's sent and received messages go with
        everything that cascades from them and the user's notifications;
        rows the user merely edited stay with their editor set to null. */
    method DeleteUser(u: UserId)
      requires Valid()
      modifies this
      ensures Valid()
      ensures State() == AfterUserDelete(old(State()), u)
      ensures nextUser == old(nextUser) && nextMessage == old(nextMessage)
    {
      var before := State();
      var t := AfterUserDelete(before, u);
      ConsistentAfterUserDelete(before, u);
      AfterUserDeleteKeepsOthers(before, u);
      AfterUserDeleteKeepsOnlyOthers(before, u);
      assert Ids(t.messages) <= Ids(before.messages);
      assert t.users.Keys <= before.users.Keys;
      users := t.users;
      messages := t.messages;
      histories := t.histories;
      notifications := t.notifications;
      assert State() == t;
      BoundsKept(before.users, users, nextUser, Ids(before.messages), Ids(messages), nextMessage);
    }
  }
}
