/**
 * What the statements of store.rs do and return, in terms of the columns of the rows. Everything
 * else about messages is derived from the functions these lemmas pin down.
 */
module Queries {
  import opened Common
  import opened Store
  import Receipts

  // ---------------------------------------------------------------------------------------------
  // Writes

  ghost predicate SameKey(a: Message, b: Message) {
    a.id == b.id && a.recipient == b.recipient
  }

  ghost predicate KeyIn(m: seq<Row>, msg: Message) {
    exists i :: 0 <= i < |m| && SameKey(m[i].msg, msg)
  }

  /** An unread row holding the first of the messages with its key. */
  ghost predicate IsNew(r: Row, msgs: seq<Message>) {
    r.readAt == None && exists k :: 0 <= k < |msgs| && r.msg == msgs[k] && FirstOf(msgs, k)
  }

  ghost predicate FirstOf(msgs: seq<Message>, k: nat)
    requires k < |msgs|
  {
    forall l :: 0 <= l < k ==> !SameKey(msgs[l], msgs[k])
  }

  lemma InsertDoes(m: seq<Row>, msg: Message)
    requires KeyUnique(m)
    ensures KeyUnique(Insert(m, msg)) && KeyIn(Insert(m, msg), msg)
    ensures Insert(m, msg) == if KeyIn(m, msg) then m else m + [Row(msg, None)]
  {
    if !KeyIn(m, msg) {
      assert forall i :: 0 <= i < |m| ==> !SameKey(m[i].msg, msg);
      assert SameKey(Insert(m, msg)[|m|].msg, msg);
    } else {
      var i :| 0 <= i < |m| && SameKey(m[i].msg, msg);
      assert HasKey(m, msg.id, msg.recipient);
    }
  }

  lemma KeyStays(m: seq<Row>, m': seq<Row>, msg: Message)
    requires m <= m' && KeyIn(m, msg)
    ensures KeyIn(m', msg)
  {
    var i :| 0 <= i < |m| && SameKey(m[i].msg, msg);
    assert m'[i] == m[i];
  }

  lemma {:induction false} InsertManyKeys(m: seq<Row>, msgs: seq<Message>)
    requires KeyUnique(m)
    ensures var m' := InsertMany(m, msgs); m <= m' && KeyUnique(m')
    ensures forall k :: 0 <= k < |msgs| ==> KeyIn(InsertMany(m, msgs), msgs[k])
  {
    if msgs == [] {
    } else {
      var front, last := msgs[..|msgs| - 1], msgs[|msgs| - 1];
      var was, m' := InsertMany(m, front), InsertMany(m, msgs);
      InsertManyKeys(m, front);
      InsertDoes(was, last);
      forall k | 0 <= k < |front| ensures KeyIn(m', msgs[k]) {
        assert front[k] == msgs[k] && KeyIn(was, front[k]);
        KeyStays(was, m', msgs[k]);
      }
    }
  }

  lemma StillNew(r: Row, msgs: seq<Message>, last: Message)
    requires IsNew(r, msgs)
    ensures IsNew(r, msgs + [last])
  {
    var k :| 0 <= k < |msgs| && r.msg == msgs[k] && FirstOf(msgs, k);
    var all := msgs + [last];
    assert forall l :: 0 <= l <= k ==> all[l] == msgs[l];
    assert FirstOf(all, k);
  }

  lemma LastIsNew(was: seq<Row>, msgs: seq<Message>, last: Message)
    requires !KeyIn(was, last) && forall k :: 0 <= k < |msgs| ==> KeyIn(was, msgs[k])
    ensures IsNew(Row(last, None), msgs + [last])
  {
    var all, n := msgs + [last], |msgs|;
    forall l | 0 <= l < n ensures !SameKey(all[l], all[n]) {
      assert KeyIn(was, msgs[l]);
      var i :| 0 <= i < |was| && SameKey(was[i].msg, msgs[l]);
      assert !SameKey(was[i].msg, last);
    }
    assert all[n] == last && FirstOf(all, n);
  }

  /**
   * `insert_many`, whatever keys are present: the rows of the table stay, the key stays unique, each
   * message's key is there afterwards, and a new row is unread and the first message with its key.
   */
  lemma {:induction false} InsertManyDoes(m: seq<Row>, msgs: seq<Message>)
    requires KeyUnique(m)
    ensures var m' := InsertMany(m, msgs); m <= m' && KeyUnique(m')
    ensures forall k :: 0 <= k < |msgs| ==> KeyIn(InsertMany(m, msgs), msgs[k])
    ensures forall i :: |m| <= i < |InsertMany(m, msgs)| ==> IsNew(InsertMany(m, msgs)[i], msgs)
  {
    InsertManyKeys(m, msgs);
    if msgs == [] {
    } else {
      var front, last := msgs[..|msgs| - 1], msgs[|msgs| - 1];
      var was := InsertMany(m, front);
      assert msgs == front + [last];
      InsertManyDoes(m, front);
      InsertDoes(was, last);
      forall i | |m| <= i < |InsertMany(m, msgs)| ensures IsNew(InsertMany(m, msgs)[i], msgs) {
        if i < |was| {
          StillNew(was[i], front, last);
        } else {
          LastIsNew(was, front, last);
        }
      }
    }
  }

  /**
   * `mark_read` stamps exactly the unread rows addressed to the reader in that room, sent by someone
   * else, with an id up to and including the watermark; afterwards none of those is unread, and a
   * second call with that watermark reports nothing and changes nothing.
   */
  lemma {:induction false} MarkReadDoes(
      m: seq<Row>, room: RoomId, reader: AccountId, upTo: MessageId, now: Time, later: Time)
    ensures var m' := Marked(m, room, reader, upTo, now);
            && (forall i :: 0 <= i < |m| ==>
                  && m'[i].msg == m[i].msg
                  && (if && m[i].msg.room == room && m[i].msg.recipient == reader && m[i].msg.from != reader
                         && m[i].msg.id <= upTo && m[i].readAt.None?
                      then m'[i].readAt == Some(now) else m'[i].readAt == m[i].readAt))
            && (forall i :: 0 <= i < |m'| && m'[i].msg.room == room && m'[i].msg.recipient == reader ==>
                  m'[i].msg.from != reader && m'[i].msg.id <= upTo ==> m'[i].readAt.Some?)
            && Marked(m', room, reader, upTo, later) == m' && Flipped(m', room, reader, upTo) == []
  {
    var m' := Marked(m, room, reader, upTo, now);
    NoneFlips(m', room, reader, upTo);
  }

  lemma {:induction false} NoneFlips(m: seq<Row>, room: RoomId, reader: AccountId, upTo: MessageId)
    requires forall i :: 0 <= i < |m| ==> !Flips(m[i], room, reader, upTo)
    ensures Flipped(m, room, reader, upTo) == []
  {
    if m == [] {
    } else {
      NoneFlips(m[..|m| - 1], room, reader, upTo);
    }
  }

  // ---------------------------------------------------------------------------------------------
  // Queries

  /** A row that the replay query selects: its room and recipient, and an id past the watermark if one was given. */
  ghost predicate Selected(msg: Message, room: RoomId, recipient: AccountId, since: Option<MessageId>) {
    msg.room == room && msg.recipient == recipient && (since == None || (since.Some? && msg.id > since.value))
  }

  ghost predicate RowOf(m: seq<Row>, msg: Message) {
    exists i :: 0 <= i < |m| && m[i].msg == msg
  }

  /** Another recipient's row of the message has a stamp. */
  ghost predicate StampedElsewhere(m: seq<Row>, id: MessageId, recipient: AccountId) {
    exists j :: 0 <= j < |m| && m[j].msg.id == id && m[j].msg.recipient != recipient && m[j].readAt.Some?
  }

  ghost predicate Returned(out: seq<Replayed>, msg: Message) {
    exists n :: 0 <= n < |out| && out[n].msg == msg
  }

  lemma ReturnedRow(m: seq<Row>, room: RoomId, recipient: AccountId, since: Option<MessageId>, n: nat)
    requires KeyUnique(m) && n < |MessagesForRecipient(m, room, recipient, since)|
    ensures var r := MessagesForRecipient(m, room, recipient, since)[n];
            && Selected(r.msg, room, recipient, since) && RowOf(m, r.msg)
            && (r.read <==> StampedElsewhere(m, r.msg.id, recipient))
  {
    ReplayFacts(m, room, recipient, since);
    assert Store.Replay(m, room, recipient, since)[n] in Store.Replay(m, room, recipient, since);
  }

  lemma SelectedIsReturned(m: seq<Row>, room: RoomId, recipient: AccountId, since: Option<MessageId>, i: nat)
    requires KeyUnique(m) && i < |m| && Selected(m[i].msg, room, recipient, since)
    ensures Returned(MessagesForRecipient(m, room, recipient, since), m[i].msg)
  {
    var msgs, out := Store.Replay(m, room, recipient, since), MessagesForRecipient(m, room, recipient, since);
    ReplayFacts(m, room, recipient, since);
    assert m[i].msg in msgs;
    var n :| 0 <= n < |msgs| && msgs[n] == m[i].msg;
    assert out[n].msg == m[i].msg;
  }

  lemma ReturnedRise(m: seq<Row>, room: RoomId, recipient: AccountId, since: Option<MessageId>)
    requires KeyUnique(m)
    ensures var out := MessagesForRecipient(m, room, recipient, since);
            forall n, k :: 0 <= n < k < |out| ==> out[n].msg.id < out[k].msg.id
  {
    ReplayFacts(m, room, recipient, since);
  }

  /**
   * `messages_for_recipient` returns the selected rows, each once, by rising id, with all their
   * columns; the read flag says whether another recipient's row of the message has a stamp.
   */
  lemma ReplayReturns(m: seq<Row>, room: RoomId, recipient: AccountId, since: Option<MessageId>)
    requires KeyUnique(m)
    ensures var out := MessagesForRecipient(m, room, recipient, since);
            && (forall n, k :: 0 <= n < k < |out| ==> out[n].msg.id < out[k].msg.id)
            && (forall n :: 0 <= n < |out| ==>
                  && Selected(out[n].msg, room, recipient, since) && RowOf(m, out[n].msg)
                  && (out[n].read <==> StampedElsewhere(m, out[n].msg.id, recipient)))
            && (forall i :: 0 <= i < |m| && Selected(m[i].msg, room, recipient, since) ==> Returned(out, m[i].msg))
  {
    var out := MessagesForRecipient(m, room, recipient, since);
    ReturnedRise(m, room, recipient, since);
    forall n | 0 <= n < |out|
      ensures Selected(out[n].msg, room, recipient, since) && RowOf(m, out[n].msg)
      ensures out[n].read <==> StampedElsewhere(m, out[n].msg.id, recipient)
    {
      ReturnedRow(m, room, recipient, since, n);
    }
    forall i | 0 <= i < |m| && Selected(m[i].msg, room, recipient, since) ensures Returned(out, m[i].msg) {
      SelectedIsReturned(m, room, recipient, since, i);
    }
  }

  /** `read_sent_message_ids`: the ids of the sender's rows in the room that another account has read, ascending. */
  lemma ReadSentReturns(m: seq<Row>, room: RoomId, sender: AccountId)
    ensures var ids := ReadSentMessageIds(m, room, sender);
            && (forall n, k :: 0 <= n < k < |ids| ==> ids[n] <= ids[k])
            && (forall id :: id in ids <==>
                  exists i :: 0 <= i < |m| && m[i].msg.id == id && m[i].msg.room == room && m[i].msg.from == sender
                              && m[i].msg.recipient != sender && m[i].readAt.Some?)
  {
    var ids := ReadSentMessageIds(m, room, sender);
    Receipts.ReadSentFacts(m, room, sender);
    AscendsById(SelectSentAndRead(m, room, sender));
    forall id ensures id in ids <==>
      exists i :: 0 <= i < |m| && m[i].msg.id == id && m[i].msg.room == room && m[i].msg.from == sender
                  && m[i].msg.recipient != sender && m[i].readAt.Some?
    {
      if id in ids {
        var i :| 0 <= i < |m| && m[i].msg.id == id && SentAndRead(m[i], room, sender);
      }
      if i :| 0 <= i < |m| && m[i].msg.id == id && m[i].msg.room == room && m[i].msg.from == sender
              && m[i].msg.recipient != sender && m[i].readAt.Some? {
        assert SentAndRead(m[i], room, sender);
      }
    }
  }

  ghost predicate Ascending(msgs: seq<Message>) {
    forall n, k :: 0 <= n < k < |msgs| ==> msgs[n].id <= msgs[k].id
  }

  lemma {:induction false} PlaceAscends(sorted: seq<Message>, msg: Message)
    requires Ascending(sorted)
    ensures Ascending(Place(sorted, msg))
  {
    if sorted == [] || msg.id < sorted[0].id {
    } else {
      PlaceAscends(sorted[1..], msg);
      PlaceElements(sorted[1..], msg);
      forall x | x in Place(sorted[1..], msg) ensures sorted[0].id <= x.id {
        assert x == msg || x in sorted[1..];
      }
    }
  }

  lemma {:induction false} AscendsById(msgs: seq<Message>)
    ensures Ascending(OrderById(msgs))
  {
    if msgs == [] {
    } else {
      AscendsById(msgs[..|msgs| - 1]);
      PlaceAscends(OrderById(msgs[..|msgs| - 1]), msgs[|msgs| - 1]);
    }
  }

  /** A row addressed to the reader in the room by someone else, with a stamp. */
  ghost predicate ReadThere(r: Row, room: RoomId, reader: AccountId) {
    r.msg.room == room && r.msg.recipient == reader && r.msg.from != reader && r.readAt.Some?
  }

  /** `newest_read_incoming_ts`: the largest timestamp among those rows, and none exactly if there is no such row. */
  lemma MarkerReturns(m: seq<Row>, room: RoomId, reader: AccountId)
    ensures var marker := NewestReadIncomingTs(m, room, reader);
            && (marker.None? <==> forall i :: 0 <= i < |m| ==> !ReadThere(m[i], room, reader))
            && (marker.Some? ==>
                  && (forall i :: 0 <= i < |m| && ReadThere(m[i], room, reader) ==> m[i].msg.ts <= marker.value)
                  && (exists i :: 0 <= i < |m| && ReadThere(m[i], room, reader) && m[i].msg.ts == marker.value))
  {
    Receipts.MarkerIsMaximum(m, room, reader);
    var marker := NewestReadIncomingTs(m, room, reader);
    if marker.Some? {
      var i :| 0 <= i < |m| && Incoming(m[i].msg, room, reader) && m[i].readAt.Some? && m[i].msg.ts == marker.value;
      assert ReadThere(m[i], room, reader);
    }
    forall i | 0 <= i < |m| && ReadThere(m[i], room, reader) ensures marker.Some? && m[i].msg.ts <= marker.value {
      assert Incoming(m[i].msg, room, reader);
    }
  }

  /** The positions of the account's unread rows from others, in all rooms. */
  ghost function UnreadAt(m: seq<Row>, account: AccountId): set<nat> {
    set i | 0 <= i < |m| && m[i].msg.recipient == account && m[i].msg.from != account && m[i].readAt.None?
  }

  /** `unread_count` counts them. */
  lemma {:induction false} BadgeReturns(m: seq<Row>, account: AccountId)
    ensures UnreadCount(m, account) == |UnreadAt(m, account)|
  {
    if m == [] {
    } else {
      var n, front := |m| - 1, m[..|m| - 1];
      var last := m[n].msg.recipient == account && m[n].msg.from != account && m[n].readAt.None?;
      BadgeReturns(front, account);
      assert UnreadAt(m, account) == UnreadAt(front, account) + (if last then {n} else {});
    }
  }
}
