/** `UnreadMessagesManager.unread_for_user`: the stored messages addressed
    to a user that are still unread, in the store's listing order. */
module MessagingManagers {
  import opened MessagingModels
  import Seqs

  /** `filter(receiver=user, read=False)` over the message table. */
  function UnreadForUser(messages: seq<Message>, user: UserId): (r: seq<Message>)
    ensures forall m | m in r :: m.receiver == user && !m.read
    ensures forall m | m in messages && m.receiver == user && !m.read :: m in r
    ensures Seqs.IsSubsequence(r, messages)
  {
    Seqs.Filter(messages, (m: Message) => m.receiver == user && !m.read)
  }

  /** The result is listed oldest first, like the table it filters. */
  lemma UnreadKeepsOrder(messages: seq<Message>, user: UserId)
    requires ByTimestamp(messages)
    ensures ByTimestamp(UnreadForUser(messages, user))
  {
    Seqs.SubsequencePairwise(UnreadForUser(messages, user), messages,
                             (a: Message, b: Message) => a.timestamp <= b.timestamp);
  }

  /** Saving a message with `read` set takes it out of every user's
      unread list. */
  lemma MarkReadRemovesFromUnread(t: Tables, m: Message, user: UserId)
    ensures forall x | x in UnreadForUser(SaveRow(t, m.(read := true)).messages, user) :: x.id != m.id
  {
    var row := m.(read := true);
    var others := PurgeMessages(t, {row.id}).messages;
    var unread := UnreadForUser(SaveRow(t, row).messages, user);
    InsertedIds(others, row);
    forall x | x in unread ensures x.id != m.id {
      assert x in SaveRow(t, row).messages && !x.read;
      assert x in others;
    }
  }

  /** Marking one message read leaves every other unread message listed. */
  lemma MarkReadKeepsOtherUnread(t: Tables, m: Message, user: UserId)
    ensures forall x | x in UnreadForUser(t.messages, user) && x.id != m.id ::
              x in UnreadForUser(SaveRow(t, m.(read := true)).messages, user)
  {
    var row := m.(read := true);
    var others := PurgeMessages(t, {row.id}).messages;
    InsertedIds(others, row);
    forall x | x in UnreadForUser(t.messages, user) && x.id != m.id
      ensures x in SaveRow(t, row).messages
    {
      assert x in t.messages;
      assert x in others;
    }
  }
}
