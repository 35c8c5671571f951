/** The messaging schema: Message (with threaded replies), MessageHistory
    and Notification, their field defaults, string forms and default
    ordering, and what their `on_delete` rules do to the stored rows when a
    message or a user is deleted. Users are identified by id and carry a
    username; the user table itself belongs to the authentication layer. */
module MessagingModels {
  import opened Wrappers
  import Seqs

  type UserId = nat
  type MessageId = nat

  /** A Message row. `read` is the unread flag the unread-messages manager
      filters on. `editedBy` and `parent` are nullable foreign keys. */
  datatype Message = Message(
    id: MessageId,
    sender: UserId,
    receiver: UserId,
    content: string,
    timestamp: int,
    edited: bool,
    editedBy: Option<UserId>,
    parent: Option<MessageId>,
    read: bool)

  /** A MessageHistory row: an earlier content of `message`. */
  datatype MessageHistory = MessageHistory(
    message: MessageId,
    oldContent: string,
    editedAt: int,
    editedBy: Option<UserId>)

  /** A Notification row, addressed to `user`, about `message`. */
  datatype Notification = Notification(
    user: UserId,
    message: MessageId,
    text: string,
    createdAt: int,
    read: bool)

  /** The stored rows: users (id -> username), messages in listing order,
      history rows and notifications. */
  datatype Tables = Tables(
    users: map<UserId, string>,
    messages: seq<Message>,
    histories: seq<MessageHistory>,
    notifications: seq<Notification>)

  // ---------------------------------------------------------------------
  // Defaults and string forms

  /** A new message as the schema fills it in: not edited, no editor, unread. */
  function NewMessage(id: MessageId, sender: UserId, receiver: UserId, content: string,
                      timestamp: int, parent: Option<MessageId>): (r: Message)
    ensures r.id == id && r.sender == sender && r.receiver == receiver
    ensures r.content == content && r.timestamp == timestamp && r.parent == parent
    ensures !r.edited && r.editedBy == None && !r.read
  {
    Message(id, sender, receiver, content, timestamp, false, None, parent, false)
  }

  /** A new notification: unread. */
  function NewNotification(user: UserId, message: MessageId, text: string, createdAt: int): (r: Notification)
    ensures r.user == user && r.message == message && r.text == text && r.createdAt == createdAt
    ensures !r.read
  {
    Notification(user, message, text, createdAt, false)
  }

  const PreviewLength := 30

  /** `content[:30]`: at most the first thirty characters. */
  function Preview(content: string): (p: string)
    ensures |p| == if |content| <= PreviewLength then |content| else PreviewLength
    ensures p == content[..|p|]
  {
    if |content| <= PreviewLength then content else content[..PreviewLength]
  }

  /** `Message.__str__`: "<sender> → <receiver>: " then the preview of the
      content. `sender` and `receiver` are the users' own string forms. */
  function MessageStr(sender: string, receiver: string, content: string): (r: string)
    ensures |r| == |sender| + |receiver| + 5 + |Preview(content)| <= |sender| + |receiver| + 5 + PreviewLength
    ensures r[|r| - |Preview(content)|..] == Preview(content)
    ensures r[..|sender|] == sender
    ensures r[|sender|..|sender| + 3] == " → "
    ensures r[|sender| + 3..|sender| + 3 + |receiver|] == receiver
    ensures r[|sender| + 3 + |receiver|..|sender| + 5 + |receiver|] == ": "
  {
    sender + " → " + receiver + ": " + Preview(content)
  }

  /** `Notification.__str__`. */
  function NotificationStr(username: string, text: string): (r: string)
    ensures |r| == 19 + |username| + |text|
    ensures r[|r| - |text|..] == text
    ensures r[..17] == "Notification for "
    ensures r[17..17 + |username|] == username
    ensures r[17 + |username|..19 + |username|] == ": "
  {
    "Notification for " + username + ": " + text
  }

  /** `Meta.ordering = ['timestamp']`: messages are listed oldest first. */
  ghost predicate ByTimestamp(ms: seq<Message>)
  {
    Seqs.Pairwise(ms, (a: Message, b: Message) => a.timestamp <= b.timestamp)
  }

  /** Place a message in listing order: after every message with an equal
      or earlier timestamp, before the first later one. */
  function InsertByTimestamp(ms: seq<Message>, m: Message): (r: seq<Message>)
    ensures |r| == |ms| + 1
    ensures multiset(r) == multiset(ms) + multiset{m}
  {
    if ms == [] then [m]
    else if m.timestamp < ms[0].timestamp then [m] + ms
    else
      assert ms == [ms[0]] + ms[1..];
      [ms[0]] + InsertByTimestamp(ms[1..], m)
  }

  /** Inserting keeps the listing in timestamp order. */
  lemma {:induction false} InsertKeepsOrder(ms: seq<Message>, m: Message)
    requires ByTimestamp(ms)
    ensures ByTimestamp(InsertByTimestamp(ms, m))
  {
    if ms == [] {
    } else if m.timestamp < ms[0].timestamp {
      forall i, j | 0 <= i < j < |ms| + 1
        ensures ([m] + ms)[i].timestamp <= ([m] + ms)[j].timestamp
      {
        if i == 0 {
          assert ms[0].timestamp <= ms[j - 1].timestamp || j == 1;
        }
      }
    } else {
      var rest := InsertByTimestamp(ms[1..], m);
      TailByTimestamp(ms);
      InsertKeepsOrder(ms[1..], m);
      HeadBeforeInserted(ms, m);
      forall i, j | 0 <= i < j < |rest| + 1
        ensures ([ms[0]] + rest)[i].timestamp <= ([ms[0]] + rest)[j].timestamp
      {
        if i > 0 {
          assert ([ms[0]] + rest)[i] == rest[i - 1] && ([ms[0]] + rest)[j] == rest[j - 1];
        }
      }
    }
  }

  lemma TailByTimestamp(ms: seq<Message>)
    requires ms != [] && ByTimestamp(ms)
    ensures ByTimestamp(ms[1..])
  {
    forall i, j | 0 <= i < j < |ms[1..]| ensures ms[1..][i].timestamp <= ms[1..][j].timestamp {
      assert ms[1..][i] == ms[i + 1] && ms[1..][j] == ms[j + 1];
    }
  }

  /** The first message of a listing that the new one does not precede
      stays before everything inserted behind it. */
  lemma HeadBeforeInserted(ms: seq<Message>, m: Message)
    requires ms != [] && ByTimestamp(ms) && ms[0].timestamp <= m.timestamp
    ensures forall x | x in InsertByTimestamp(ms[1..], m) :: ms[0].timestamp <= x.timestamp
  {
    var rest := InsertByTimestamp(ms[1..], m);
    forall x | x in rest ensures ms[0].timestamp <= x.timestamp {
      assert x in multiset(rest);
      if x != m {
        assert x in multiset(ms[1..]);
        var k :| 0 <= k < |ms[1..]| && ms[1..][k] == x;
        assert ms[k + 1] == x;
      }
    }
  }

  // ---------------------------------------------------------------------
  // Referential integrity

  function Ids(ms: seq<Message>): set<MessageId>
  {
    set m | m in ms :: m.id
  }

  /** Primary keys are unique. */
  ghost predicate DistinctIds(ms: seq<Message>)
  {
    Seqs.Pairwise(ms, (a: Message, b: Message) => a.id != b.id)
  }

  predicate UserRefOk(u: Option<UserId>, users: map<UserId, string>)
  {
    u.Some? ==> u.value in users
  }

  /** Every foreign key of a message points at a stored row. */
  predicate MessageRefsOk(m: Message, users: map<UserId, string>, ids: set<MessageId>)
  {
    && m.sender in users && m.receiver in users
    && UserRefOk(m.editedBy, users)
    && (m.parent.Some? ==> m.parent.value in ids)
  }

  predicate HistoryRefsOk(h: MessageHistory, users: map<UserId, string>, ids: set<MessageId>)
  {
    h.message in ids && UserRefOk(h.editedBy, users)
  }

  predicate NotificationRefsOk(n: Notification, users: map<UserId, string>, ids: set<MessageId>)
  {
    n.user in users && n.message in ids
  }

  /** The tables as the database keeps them: unique message ids, messages
      in timestamp order, and no dangling foreign key. */
  ghost predicate Consistent(t: Tables)
  {
    && DistinctIds(t.messages)
    && ByTimestamp(t.messages)
    && (forall m | m in t.messages :: MessageRefsOk(m, t.users, Ids(t.messages)))
    && (forall h | h in t.histories :: HistoryRefsOk(h, t.users, Ids(t.messages)))
    && (forall n | n in t.notifications :: NotificationRefsOk(n, t.users, Ids(t.messages)))
  }

  // ---------------------------------------------------------------------
  // Saving a message row

  /** `Model.save()` on a message row that passed the foreign-key check:
      the row with the same id, if any, is replaced, and the new row takes
      its place in timestamp order. Nothing else changes. */
  function SaveRow(t: Tables, row: Message): Tables
  {
    t.(messages := InsertByTimestamp(PurgeMessages(t, {row.id}).messages, row))
  }

  lemma {:induction false} InsertKeepsDistinct(ms: seq<Message>, m: Message)
    requires DistinctIds(ms) && m.id !in Ids(ms)
    ensures DistinctIds(InsertByTimestamp(ms, m))
  {
    if ms == [] {
    } else if m.timestamp < ms[0].timestamp {
      forall i, j | 0 <= i < j < |ms| + 1
        ensures ([m] + ms)[i].id != ([m] + ms)[j].id
      {
        if i == 0 {
          assert ms[j - 1] in ms;
        }
      }
    } else {
      var rest := InsertByTimestamp(ms[1..], m);
      TailDistinct(ms, m);
      InsertKeepsDistinct(ms[1..], m);
      HeadIdNotInserted(ms, m);
      forall i, j | 0 <= i < j < |rest| + 1
        ensures ([ms[0]] + rest)[i].id != ([ms[0]] + rest)[j].id
      {
        if i > 0 {
          assert ([ms[0]] + rest)[i] == rest[i - 1] && ([ms[0]] + rest)[j] == rest[j - 1];
        } else {
          assert rest[j - 1] in rest;
        }
      }
    }
  }

  lemma TailDistinct(ms: seq<Message>, m: Message)
    requires ms != [] && DistinctIds(ms) && m.id !in Ids(ms)
    ensures DistinctIds(ms[1..]) && m.id !in Ids(ms[1..])
  {
    forall i, j | 0 <= i < j < |ms[1..]| ensures ms[1..][i].id != ms[1..][j].id {
      assert ms[1..][i] == ms[i + 1] && ms[1..][j] == ms[j + 1];
    }
    forall x | x in ms[1..] ensures x.id != m.id {
      assert x in ms;
    }
  }

  /** The first message's id occurs nowhere in what is inserted behind it. */
  lemma HeadIdNotInserted(ms: seq<Message>, m: Message)
    requires ms != [] && DistinctIds(ms) && m.id !in Ids(ms)
    ensures forall x | x in InsertByTimestamp(ms[1..], m) :: x.id != ms[0].id
  {
    var rest := InsertByTimestamp(ms[1..], m);
    forall x | x in rest ensures x.id != ms[0].id {
      assert x in multiset(rest);
      if x != m {
        assert x in multiset(ms[1..]);
        var k :| 0 <= k < |ms[1..]| && ms[1..][k] == x;
        assert ms[k + 1] == x;
      } else {
        assert ms[0] in ms;
      }
    }
  }

  lemma InsertedIds(ms: seq<Message>, m: Message)
    ensures Ids(InsertByTimestamp(ms, m)) == Ids(ms) + {m.id}
    ensures forall x | x in InsertByTimestamp(ms, m) :: x in ms || x == m
    ensures forall x | x in ms :: x in InsertByTimestamp(ms, m)
  {
    var r := InsertByTimestamp(ms, m);
    forall x | x in r ensures x in ms || x == m {
      assert x in multiset(r);
    }
    forall x | x in ms ensures x in r {
      assert x in multiset(ms);
      assert x in multiset(r);
    }
    assert m in multiset(r);
  }

  /** Saving a row whose foreign keys resolve keeps the tables consistent:
      an UPDATE keeps the id every reference points at, an INSERT adds one. */
  lemma ConsistentAfterSave(t: Tables, row: Message)
    requires Consistent(t)
    requires MessageRefsOk(row, t.users, Ids(t.messages) + {row.id})
    ensures Consistent(SaveRow(t, row))
    ensures Ids(SaveRow(t, row).messages) == Ids(t.messages) + {row.id}
    ensures row in SaveRow(t, row).messages
  {
    var others := PurgeMessages(t, {row.id}).messages;
    var r := SaveRow(t, row);
    PurgedIds(t, {row.id});
    InsertedIds(others, row);
    Seqs.SubsequencePairwise(others, t.messages, (a: Message, b: Message) => a.id != b.id);
    Seqs.SubsequencePairwise(others, t.messages, (a: Message, b: Message) => a.timestamp <= b.timestamp);
    InsertKeepsDistinct(others, row);
    InsertKeepsOrder(others, row);
    assert Ids(r.messages) == Ids(t.messages) + {row.id};
    forall m | m in r.messages ensures MessageRefsOk(m, r.users, Ids(r.messages)) {
      if m != row {
        assert m in t.messages;
      }
    }
  }

  // ---------------------------------------------------------------------
  // parent_message CASCADE: the replies that go with a deleted message

  /** The messages that reply directly to one in `doomed`. */
  function RepliesTo(ms: seq<Message>, doomed: set<MessageId>): set<MessageId>
  {
    set m | m in ms && m.parent.Some? && m.parent.value in doomed :: m.id
  }

  /** No message outside `doomed` replies to one inside it. */
  ghost predicate ClosedUnderReplies(ms: seq<Message>, doomed: set<MessageId>)
  {
    forall m | m in ms && m.parent.Some? && m.parent.value in doomed :: m.id in doomed
  }

  lemma SubsetCardinality<T>(a: set<T>, b: set<T>)
    requires a <= b
    ensures |a| <= |b|
  {
    assert b == a + (b - a);
    assert a * (b - a) == {};
  }

  lemma CascadeGrows(ms: seq<Message>, doomed: set<MessageId>, grown: set<MessageId>)
    requires grown == doomed + RepliesTo(ms, doomed) && !(grown <= doomed)
    ensures |Ids(ms) - grown| < |Ids(ms) - doomed|
  {
    var x :| x in grown && x !in doomed;
    assert x in Ids(ms) - doomed;
    assert Ids(ms) - grown <= (Ids(ms) - doomed) - {x};
    SubsetCardinality(Ids(ms) - grown, (Ids(ms) - doomed) - {x});
  }

  /** Every message deleted along with `doomed`: the messages of `doomed`
      and, repeatedly, every reply to a deleted message. */
  function Cascade(ms: seq<Message>, doomed: set<MessageId>): (r: set<MessageId>)
    ensures doomed <= r <= doomed + Ids(ms)
    ensures ClosedUnderReplies(ms, r)
    decreases |Ids(ms) - doomed|
  {
    var grown := doomed + RepliesTo(ms, doomed);
    if grown <= doomed then
      doomed
    else
      CascadeGrows(ms, doomed, grown);
      Cascade(ms, grown)
  }

  /** The cascade deletes nothing it must not: it is contained in every
      set of messages that includes `doomed` and is closed under replies. */
  lemma {:induction false} CascadeLeast(ms: seq<Message>, doomed: set<MessageId>, s: set<MessageId>)
    requires doomed <= s && ClosedUnderReplies(ms, s)
    ensures Cascade(ms, doomed) <= s
    decreases |Ids(ms) - doomed|
  {
    var grown := doomed + RepliesTo(ms, doomed);
    if !(grown <= doomed) {
      CascadeGrows(ms, doomed, grown);
      CascadeLeast(ms, grown, s);
    }
  }

  // ---------------------------------------------------------------------
  // The on_delete rules

  /** Delete the messages in `doomed` (already closed under replies) with
      the history rows and notifications that CASCADE from them. */
  function PurgeMessages(t: Tables, doomed: set<MessageId>): Tables
  {
    Tables(
      t.users,
      Seqs.Filter(t.messages, (m: Message) => m.id !in doomed),
      Seqs.Filter(t.histories, (h: MessageHistory) => h.message !in doomed),
      Seqs.Filter(t.notifications, (n: Notification) => n.message !in doomed))
  }

  /** Deleting message `id`. */
  function AfterMessageDelete(t: Tables, id: MessageId): Tables
  {
    PurgeMessages(t, Cascade(t.messages, {id}))
  }

  /** The messages a user sent or received. */
  function SentOrReceived(ms: seq<Message>, u: UserId): set<MessageId>
  {
    set m | m in ms && (m.sender == u || m.receiver == u) :: m.id
  }

  /** `edited_by` SET_NULL on a message. */
  function ClearEditor(m: Message, u: UserId): Message
  {
    if m.editedBy == Some(u) then m.(editedBy := None) else m
  }

  /** `edited_by` SET_NULL on a history row. */
  function ClearHistoryEditor(h: MessageHistory, u: UserId): MessageHistory
  {
    if h.editedBy == Some(u) then h.(editedBy := None) else h
  }

  /** The messages deleted with user `u`: what they sent or received, and
      every reply below those. */
  function DoomedWithUser(t: Tables, u: UserId): set<MessageId>
  {
    Cascade(t.messages, SentOrReceived(t.messages, u))
  }

  /** Deleting user `u`: sender and receiver CASCADE, notification user
      CASCADE, and the editor fields SET_NULL on what survives. */
  function AfterUserDelete(t: Tables, u: UserId): Tables
  {
    var purged := PurgeMessages(t, DoomedWithUser(t, u));
    Tables(
      t.users - {u},
      Seqs.Map(purged.messages, (m: Message) => ClearEditor(m, u)),
      Seqs.Map(purged.histories, (h: MessageHistory) => ClearHistoryEditor(h, u)),
      Seqs.Filter(purged.notifications, (n: Notification) => n.user != u))
  }

  // ---------------------------------------------------------------------
  // What deletion guarantees

  /** Purging ids no message carries leaves the message table as it is. */
  lemma NothingToPurge(t: Tables, doomed: set<MessageId>)
    requires forall m | m in t.messages :: m.id !in doomed
    ensures PurgeMessages(t, doomed).messages == t.messages
  {
    Seqs.FilterKeepsAll(t.messages, (m: Message) => m.id !in doomed);
  }

  /** The ids left after purging are exactly those not doomed. */
  lemma PurgedIds(t: Tables, doomed: set<MessageId>)
    ensures Ids(PurgeMessages(t, doomed).messages) == Ids(t.messages) - doomed
  {
    var kept := PurgeMessages(t, doomed).messages;
    forall id | id in Ids(t.messages) - doomed ensures id in Ids(kept) {
      var m :| m in t.messages && m.id == id;
      assert m in kept;
    }
  }

  lemma ClearedIds(ms: seq<Message>, u: UserId)
    ensures Ids(Seqs.Map(ms, (m: Message) => ClearEditor(m, u))) == Ids(ms)
  {
    var r := Seqs.Map(ms, (m: Message) => ClearEditor(m, u));
    forall id | id in Ids(r) ensures id in Ids(ms) {
      var i :| 0 <= i < |r| && r[i].id == id;
      assert ms[i].id == id;
    }
  }

  /** Deleting a message removes it and, transitively, every reply to it,
      with their history rows and notifications; everything else stays
      exactly as it was. */
  lemma AfterMessageDeleteSpec(t: Tables, id: MessageId)
    ensures var r := AfterMessageDelete(t, id);
      var doomed := Cascade(t.messages, {id});
      && id !in Ids(r.messages)
      && Ids(r.messages) == Ids(t.messages) - doomed
      && (forall m | m in t.messages && m.parent.Some? && m.parent.value in doomed :: m !in r.messages)
      && (forall m | m in t.messages :: m in r.messages <==> m.id !in doomed)
      && (forall h | h in t.histories :: h in r.histories <==> h.message !in doomed)
      && (forall n | n in t.notifications :: n in r.notifications <==> n.message !in doomed)
      && (forall m | m in r.messages :: m in t.messages)
      && (forall h | h in r.histories :: h in t.histories)
      && (forall n | n in r.notifications :: n in t.notifications)
      && r.users == t.users
  {
    PurgedIds(t, Cascade(t.messages, {id}));
  }

  /** Deleting a message keeps the tables consistent. */
  lemma ConsistentAfterMessageDelete(t: Tables, id: MessageId)
    requires Consistent(t)
    ensures Consistent(AfterMessageDelete(t, id))
  {
    var doomed := Cascade(t.messages, {id});
    var r := AfterMessageDelete(t, id);
    Seqs.SubsequencePairwise(r.messages, t.messages, (a: Message, b: Message) => a.id != b.id);
    Seqs.SubsequencePairwise(r.messages, t.messages, (a: Message, b: Message) => a.timestamp <= b.timestamp);
    PurgedIds(t, doomed);
    forall m | m in r.messages ensures MessageRefsOk(m, r.users, Ids(r.messages)) {
      assert MessageRefsOk(m, t.users, Ids(t.messages));
    }
  }

  /** Deleting a user leaves no row that names the user: the account,
      the messages the user sent or received, and the notifications
      addressed to the user are gone, and the user is no longer anyone's
      editor. */
  lemma AfterUserDeleteRemovesUser(t: Tables, u: UserId)
    ensures var r := AfterUserDelete(t, u);
      && u !in r.users
      && (forall m | m in r.messages :: m.sender != u && m.receiver != u && m.editedBy != Some(u))
      && (forall h | h in r.histories :: h.editedBy != Some(u))
      && (forall n | n in r.notifications :: n.user != u)
  {
    var doomed := DoomedWithUser(t, u);
    var purged := PurgeMessages(t, doomed);
    var r := AfterUserDelete(t, u);
    forall m | m in r.messages ensures m.sender != u && m.receiver != u && m.editedBy != Some(u) {
      var i :| 0 <= i < |r.messages| && r.messages[i] == m;
      var x := purged.messages[i];
      assert x in purged.messages;
      assert m == ClearEditor(x, u);
      assert x in t.messages && x.id !in doomed;
      assert x.id !in SentOrReceived(t.messages, u);
    }
    forall h | h in r.histories ensures h.editedBy != Some(u) {
      var i :| 0 <= i < |r.histories| && r.histories[i] == h;
      assert h == ClearHistoryEditor(purged.histories[i], u);
    }
  }

  /** Rows that do not go with the user stay, with the user cleared from
      their `edited_by`: SET_NULL nulls the editor of a message or history
      row and deletes nothing. */
  lemma AfterUserDeleteKeepsOthers(t: Tables, u: UserId)
    ensures var r := AfterUserDelete(t, u);
      var doomed := DoomedWithUser(t, u);
      && (forall m | m in t.messages && m.id !in doomed :: ClearEditor(m, u) in r.messages)
      && (forall h | h in t.histories && h.message !in doomed :: ClearHistoryEditor(h, u) in r.histories)
      && Ids(r.messages) == Ids(t.messages) - doomed
  {
    var doomed := DoomedWithUser(t, u);
    var purged := PurgeMessages(t, doomed);
    PurgedIds(t, doomed);
    ClearedIds(purged.messages, u);
  }

  /** And nothing else stays: every remaining message and history row is
      a survivor with its editor cleared, a notification stays exactly
      when it is addressed to another user about a surviving message, and
      the only account removed is the user's own. */
  lemma AfterUserDeleteKeepsOnlyOthers(t: Tables, u: UserId)
    ensures var r := AfterUserDelete(t, u);
      var doomed := DoomedWithUser(t, u);
      && r.users == t.users - {u}
      && (forall m | m in r.messages :: exists m0 | m0 in t.messages && m0.id !in doomed :: m == ClearEditor(m0, u))
      && (forall h | h in r.histories :: exists h0 | h0 in t.histories && h0.message !in doomed :: h == ClearHistoryEditor(h0, u))
      && (forall n | n in t.notifications :: n in r.notifications <==> n.user != u && n.message !in doomed)
      && (forall n | n in r.notifications :: n in t.notifications)
  {
    var doomed := DoomedWithUser(t, u);
    var purged := PurgeMessages(t, doomed);
    var r := AfterUserDelete(t, u);
    forall m | m in r.messages
      ensures exists m0 | m0 in t.messages && m0.id !in doomed :: m == ClearEditor(m0, u)
    {
      var i :| 0 <= i < |r.messages| && r.messages[i] == m;
      var m0 := purged.messages[i];
      assert m0 in purged.messages;
      assert m == ClearEditor(m0, u);
    }
    forall h | h in r.histories
      ensures exists h0 | h0 in t.histories && h0.message !in doomed :: h == ClearHistoryEditor(h0, u)
    {
      var i :| 0 <= i < |r.histories| && r.histories[i] == h;
      var h0 := purged.histories[i];
      assert h0 in purged.histories;
      assert h == ClearHistoryEditor(h0, u);
    }
  }

  /** Deleting a user keeps the tables consistent: the cascade leaves no
      dangling reference, to the user or to a deleted message. */
  lemma ConsistentAfterUserDelete(t: Tables, u: UserId)
    requires Consistent(t)
    ensures Consistent(AfterUserDelete(t, u))
  {
    var r := AfterUserDelete(t, u);
    AfterUserDeleteRemovesUser(t, u);
    AfterUserDeleteKeepsOthers(t, u);
    UserDeleteKeepsMessageOrder(t, u);
    UserDeleteKeepsMessageRefs(t, u);
    UserDeleteKeepsHistoryRefs(t, u);
    var doomed := DoomedWithUser(t, u);
    var purged := PurgeMessages(t, doomed);
    forall n | n in r.notifications ensures NotificationRefsOk(n, r.users, Ids(r.messages)) {
      assert n in purged.notifications;
      assert NotificationRefsOk(n, t.users, Ids(t.messages));
    }
  }

  lemma UserDeleteKeepsMessageOrder(t: Tables, u: UserId)
    requires DistinctIds(t.messages) && ByTimestamp(t.messages)
    ensures DistinctIds(AfterUserDelete(t, u).messages) && ByTimestamp(AfterUserDelete(t, u).messages)
  {
    var purged := PurgeMessages(t, DoomedWithUser(t, u));
    var r := AfterUserDelete(t, u);
    Seqs.SubsequencePairwise(purged.messages, t.messages, (a: Message, b: Message) => a.id != b.id);
    Seqs.SubsequencePairwise(purged.messages, t.messages, (a: Message, b: Message) => a.timestamp <= b.timestamp);
    forall i, j | 0 <= i < j < |r.messages|
      ensures r.messages[i].id != r.messages[j].id
      ensures r.messages[i].timestamp <= r.messages[j].timestamp
    {
      assert r.messages[i] == ClearEditor(purged.messages[i], u);
      assert r.messages[j] == ClearEditor(purged.messages[j], u);
    }
  }

  lemma UserDeleteKeepsMessageRefs(t: Tables, u: UserId)
    requires Consistent(t)
    ensures var r := AfterUserDelete(t, u);
      forall m | m in r.messages :: MessageRefsOk(m, r.users, Ids(r.messages))
  {
    var doomed := DoomedWithUser(t, u);
    var purged := PurgeMessages(t, doomed);
    var r := AfterUserDelete(t, u);
    PurgedIds(t, doomed);
    ClearedIds(purged.messages, u);
    var ids := Ids(r.messages);
    assert ids == Ids(t.messages) - doomed;
    forall i | 0 <= i < |r.messages| ensures MessageRefsOk(r.messages[i], r.users, ids) {
      var x := purged.messages[i];
      assert x in purged.messages;
      assert x in t.messages && x.id !in doomed;
      SurvivorRefsOk(t, u, doomed, x);
      assert r.messages[i] == ClearEditor(x, u);
    }
  }

  /** One surviving message: its foreign keys still resolve after user `u`
      and the messages in `doomed` are gone, once its editor mark is cleared. */
  lemma SurvivorRefsOk(t: Tables, u: UserId, doomed: set<MessageId>, x: Message)
    requires MessageRefsOk(x, t.users, Ids(t.messages))
    requires x in t.messages && x.id !in doomed
    requires SentOrReceived(t.messages, u) <= doomed && ClosedUnderReplies(t.messages, doomed)
    ensures MessageRefsOk(ClearEditor(x, u), t.users - {u}, Ids(t.messages) - doomed)
  {
    assert x.id !in SentOrReceived(t.messages, u);
  }

  lemma UserDeleteKeepsHistoryRefs(t: Tables, u: UserId)
    requires Consistent(t)
    ensures var r := AfterUserDelete(t, u);
      forall h | h in r.histories :: HistoryRefsOk(h, r.users, Ids(r.messages))
  {
    var doomed := DoomedWithUser(t, u);
    var purged := PurgeMessages(t, doomed);
    var r := AfterUserDelete(t, u);
    AfterUserDeleteRemovesUser(t, u);
    AfterUserDeleteKeepsOthers(t, u);
    forall h | h in r.histories ensures HistoryRefsOk(h, r.users, Ids(r.messages)) {
      var i :| 0 <= i < |r.histories| && r.histories[i] == h;
      var x := purged.histories[i];
      assert x in purged.histories;
      assert HistoryRefsOk(x, t.users, Ids(t.messages));
    }
  }
}
