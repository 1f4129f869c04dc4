/**
 * Read receipts: the views derived from `read_at` (the replayed read flag, the backfilled `Read`
 * frame, the unread marker and the badge) agree with it and with each other.
 */
module Receipts {
  import opened Common
  import opened Store

  // ---------------------------------------------------------------------------------------------
  // Read backfill on Subscribe

  lemma {:induction false} SelectSentAndReadFacts(m: seq<Row>, room: RoomId, sender: AccountId)
    ensures forall x :: x in SelectSentAndRead(m, room, sender) <==>
              exists i :: 0 <= i < |m| && m[i].msg == x && SentAndRead(m[i], room, sender)
  {
    if m == [] {
    } else {
      var front, last := m[..|m| - 1], m[|m| - 1];
      SelectSentAndReadFacts(front, room, sender);
      forall x ensures x in SelectSentAndRead(m, room, sender) <==>
        exists i :: 0 <= i < |m| && m[i].msg == x && SentAndRead(m[i], room, sender)
      {
        if x in SelectSentAndRead(front, room, sender) {
          var i :| 0 <= i < |front| && front[i].msg == x && SentAndRead(front[i], room, sender);
          assert m[i] == front[i];
        }
        if i :| 0 <= i < |m| && m[i].msg == x && SentAndRead(m[i], room, sender) {
          assert i < |front| ==> front[i] == m[i];
        }
      }
    }
  }

  /** `read_sent_message_ids` lists exactly the ids of my messages that someone else has read. */
  lemma ReadSentFacts(m: seq<Row>, room: RoomId, sender: AccountId)
    ensures forall id :: id in ReadSentMessageIds(m, room, sender) <==>
              exists i :: 0 <= i < |m| && m[i].msg.id == id && SentAndRead(m[i], room, sender)
  {
    var selected := SelectSentAndRead(m, room, sender);
    var msgs, ids := OrderById(selected), ReadSentMessageIds(m, room, sender);
    SelectSentAndReadFacts(m, room, sender);
    OrderByIdElements(selected);
    forall id ensures id in ids <==> exists i :: 0 <= i < |m| && m[i].msg.id == id && SentAndRead(m[i], room, sender) {
      if id in ids {
        var k :| 0 <= k < |ids| && ids[k] == id;
        assert msgs[k] in msgs;
      }
      if i :| 0 <= i < |m| && m[i].msg.id == id && SentAndRead(m[i], room, sender) {
        assert m[i].msg in msgs;
        var k :| 0 <= k < |msgs| && msgs[k] == m[i].msg;
        assert ids[k] == id;
      }
    }
  }

  /** What a client keeps per room: the messages it received, in order, and the ids it shows as read. */
  datatype Device = Device(log: seq<Message>, read: set<MessageId>) {
    /** A `Message` frame adds its message once; a set read flag is applied, a clear one is not. */
    function Receive(r: Replayed): Device {
      Device(if r.msg in log then log else log + [r.msg], if r.read then read + {r.msg.id} else read)
    }

    function ApplyReplay(out: seq<Replayed>): Device {
      if out == [] then this else ApplyReplay(out[..|out| - 1]).Receive(out[|out| - 1])
    }

    /** A `Read` frame marks ids read, whether or not they are held yet. */
    function ApplyRead(ids: seq<MessageId>): Device {
      Device(log, read + (set id | id in ids))
    }
  }

  lemma ReceiveFacts(d: Device, r: Replayed)
    ensures forall x :: x in d.Receive(r).log <==> x in d.log || x == r.msg
    ensures forall id :: id in d.Receive(r).read <==> id in d.read || (r.read && r.msg.id == id)
  {
  }

  /** The messages a device holds after some frames, whatever it held before. */
  lemma {:induction false} ApplyReplayHolds(d: Device, out: seq<Replayed>)
    ensures forall x :: x in d.ApplyReplay(out).log <==> x in d.log || x in Messages(out)
  {
    if out == [] {
    } else {
      var front, last := out[..|out| - 1], out[|out| - 1];
      ApplyReplayHolds(d, front);
      ReceiveFacts(d.ApplyReplay(front), last);
      assert Messages(out) == Messages(front) + [last.msg];
    }
  }

  predicate SelfCopy(msg: Message, room: RoomId, me: AccountId) {
    Addressed(msg, room, me) && msg.from == me
  }

  /** The device shows nothing as read that the database does not. */
  ghost predicate Sound(d: Device, m: seq<Row>, me: AccountId) {
    forall id :: id in d.read ==> ReadFlag(m, id, me)
  }

  /** The frames are among those of this replay query. */
  ghost predicate FromReplay(sent: seq<Replayed>, m: seq<Row>, room: RoomId, me: AccountId, since: Option<MessageId>) {
    forall r :: r in sent ==> r in MessagesForRecipient(m, room, me, since)
  }

  lemma SoundLater(d: Device, m: seq<Row>, m': seq<Row>, me: AccountId)
    requires Sound(d, m, me) && Later(m, m')
    ensures Sound(d, m', me)
  {
    forall id | id in d.read ensures ReadFlag(m', id, me) {
      LaterKeepsReadFlags(m, m', id, me);
    }
  }

  lemma {:induction false} ReplayKeepsSound(
      d: Device, m: seq<Row>, sent: seq<Replayed>, room: RoomId, me: AccountId, since: Option<MessageId>)
    requires Sound(d, m, me) && FromReplay(sent, m, room, me, since)
    ensures Sound(d.ApplyReplay(sent), m, me)
  {
    if sent == [] {
    } else {
      var front, last := sent[..|sent| - 1], sent[|sent| - 1];
      assert forall r :: r in front ==> r in sent;
      ReplayKeepsSound(d, m, front, room, me, since);
      FrameKeepsSound(d.ApplyReplay(front), m, last, room, me, since);
    }
  }

  lemma FrameKeepsSound(
      d: Device, m: seq<Row>, r: Replayed, room: RoomId, me: AccountId, since: Option<MessageId>)
    requires Sound(d, m, me) && r in MessagesForRecipient(m, room, me, since)
    ensures Sound(d.Receive(r), m, me)
  {
    ReceiveFacts(d, r);
  }

  lemma BackfillKeepsSound(d: Device, m: seq<Row>, room: RoomId, me: AccountId)
    requires Sound(d, m, me)
    ensures Sound(d.ApplyRead(ReadSentMessageIds(m, room, me)), m, me)
  {
    ReadSentFacts(m, room, me);
    forall id | id in ReadSentMessageIds(m, room, me) ensures ReadFlag(m, id, me) {
      var i :| 0 <= i < |m| && m[i].msg.id == id && SentAndRead(m[i], room, me);
    }
  }

  lemma IdsFromSnoc(flipped: seq<(MessageId, AccountId)>, id: MessageId, from: AccountId, sender: AccountId)
    ensures IdsFrom(flipped + [(id, from)], sender) == IdsFrom(flipped, sender) + (if from == sender then [id] else [])
  {
    assert (flipped + [(id, from)])[..|flipped|] == flipped;
  }

  ghost predicate AllFlagged(m: seq<Row>, ids: seq<MessageId>, me: AccountId) {
    forall k :: 0 <= k < |ids| ==> ReadFlag(m, ids[k], me)
  }

  /** Every id a MarkRead relays to its sender has been read, by someone else than the sender. */
  lemma {:induction false} RelayedAreFlagged(
      m: seq<Row>, room: RoomId, reader: AccountId, upTo: MessageId, now: Time, me: AccountId)
    ensures AllFlagged(Marked(m, room, reader, upTo, now), IdsFrom(Flipped(m, room, reader, upTo), me), me)
  {
    if m == [] {
    } else {
      var front, last := m[..|m| - 1], m[|m| - 1];
      var m', front' := Marked(m, room, reader, upTo, now), Marked(front, room, reader, upTo, now);
      var ids, ids' := IdsFrom(Flipped(m, room, reader, upTo), me), IdsFrom(Flipped(front, room, reader, upTo), me);
      RelayedAreFlagged(front, room, reader, upTo, now, me);
      assert AllFlagged(front', ids', me);
      if Flips(last, room, reader, upTo) {
        IdsFromSnoc(Flipped(front, room, reader, upTo), last.msg.id, last.msg.from, me);
      } else {
        assert Flipped(m, room, reader, upTo) == Flipped(front, room, reader, upTo);
      }
      forall k | 0 <= k < |ids| ensures ReadFlag(m', ids[k], me) {
        if k < |ids'| {
          assert Later(front', m');
          LaterKeepsReadFlags(front', m', ids'[k], me);
        } else {
          assert m'[|m| - 1] == Row(last.msg, Some(now)) && ids[k] == last.msg.id;
        }
      }
    }
  }

  /** A Subscribe whose read-state queries answer: the replayed frames, then the backfilled ids. */
  function Subscribed(d: Device, sent: seq<Replayed>, m2: seq<Row>, room: RoomId, me: AccountId): Device {
    d.ApplyReplay(sent).ApplyRead(ReadSentMessageIds(m2, room, me))
  }

  /**
   * After a Subscribe the device shows each self-copy the replay query saw as read exactly when the
   * database says so at the later backfill query. It holds for the messages at or below the
   * watermark and for those whose frames were not sent, and the device stays sound.
   */
  lemma SubscribeRestoresReadState(
      d: Device, m1: seq<Row>, m2: seq<Row>, sent: seq<Replayed>, room: RoomId, me: AccountId, since: Option<MessageId>)
    requires Valid(m2) && Later(m1, m2)
    requires Sound(d, m1, me) && FromReplay(sent, m1, room, me, since)
    ensures var d' := Subscribed(d, sent, m2, room, me);
            && Sound(d', m2, me)
            && forall i :: 0 <= i < |m1| && SelfCopy(m1[i].msg, room, me) ==>
                 (m1[i].msg.id in d'.read <==> ReadFlag(m2, m1[i].msg.id, me))
  {
    ReplayKeepsSound(d, m1, sent, room, me, since);
    SoundLater(d.ApplyReplay(sent), m1, m2, me);
    BackfillKeepsSound(d.ApplyReplay(sent), m2, room, me);
    var d' := Subscribed(d, sent, m2, room, me);
    forall i | 0 <= i < |m1| && SelfCopy(m1[i].msg, room, me)
      ensures m1[i].msg.id in d'.read <==> ReadFlag(m2, m1[i].msg.id, me)
    {
      assert m2[i].msg == m1[i].msg;
      BackfillListsFlagged(m2, room, me, i);
    }
  }

  /** For a self-copy, being in the backfilled frame and the EXISTS flag are the same thing. */
  lemma BackfillListsFlagged(m: seq<Row>, room: RoomId, me: AccountId, i: nat)
    requires Valid(m) && i < |m| && SelfCopy(m[i].msg, room, me)
    ensures m[i].msg.id in ReadSentMessageIds(m, room, me) <==> ReadFlag(m, m[i].msg.id, me)
  {
    ReadSentFacts(m, room, me);
    var id := m[i].msg.id;
    if ReadFlag(m, id, me) {
      var j :| 0 <= j < |m| && m[j].msg.id == id && m[j].msg.recipient != me && m[j].readAt.Some?;
      assert m[i].msg.id == m[j].msg.id;
      assert SentAndRead(m[j], room, me);
    }
  }

  // ---------------------------------------------------------------------------------------------
  // Reads form a prefix

  /** A read incoming row has only read incoming rows at or below its id. */
  ghost predicate ReadPrefix(m: seq<Row>, room: RoomId, reader: AccountId) {
    forall i, j :: 0 <= i < |m| && 0 <= j < |m|
      && Incoming(m[i].msg, room, reader) && Incoming(m[j].msg, room, reader)
      && m[i].msg.id <= m[j].msg.id && m[j].readAt.Some?
      ==> m[i].readAt.Some?
  }

  /** `mark_read` keeps the prefix for every room and reader, whatever watermark it is given. */
  lemma MarkedKeepsPrefix(
      m: seq<Row>, room: RoomId, reader: AccountId, r: RoomId, a: AccountId, upTo: MessageId, now: Time)
    requires ReadPrefix(m, room, reader)
    ensures ReadPrefix(Marked(m, r, a, upTo, now), room, reader)
  {
    var m' := Marked(m, r, a, upTo, now);
    forall i, j | 0 <= i < |m'| && 0 <= j < |m'|
      && Incoming(m'[i].msg, room, reader) && Incoming(m'[j].msg, room, reader)
      && m'[i].msg.id <= m'[j].msg.id && m'[j].readAt.Some?
      ensures m'[i].readAt.Some?
    {
      assert m'[i].msg == m[i].msg && m'[j].msg == m[j].msg;
    }
  }

  ghost predicate NoneReadAbove(m: seq<Row>, msgs: seq<Message>, room: RoomId, reader: AccountId) {
    forall i, k :: 0 <= i < |m| && 0 <= k < |msgs|
      && Incoming(m[i].msg, room, reader) && Incoming(msgs[k], room, reader) && m[i].readAt.Some?
      ==> m[i].msg.id < msgs[k].id
  }

  /** A Send keeps the prefix exactly when its id is above everything the recipient has read there. */
  lemma InsertKeepsPrefixIff(m: seq<Row>, msgs: seq<Message>, room: RoomId, reader: AccountId)
    requires ReadPrefix(m, room, reader)
    ensures ReadPrefix(m + NewRows(msgs), room, reader) <==> NoneReadAbove(m, msgs, room, reader)
  {
    var m' := m + NewRows(msgs);
    if NoneReadAbove(m, msgs, room, reader) {
      forall i, j | 0 <= i < |m'| && 0 <= j < |m'|
        && Incoming(m'[i].msg, room, reader) && Incoming(m'[j].msg, room, reader)
        && m'[i].msg.id <= m'[j].msg.id && m'[j].readAt.Some?
        ensures m'[i].readAt.Some?
      {
        if |m| <= i {
          assert false;
        }
      }
    } else {
      var i, k :| 0 <= i < |m| && 0 <= k < |msgs|
        && Incoming(m[i].msg, room, reader) && Incoming(msgs[k], room, reader) && m[i].readAt.Some?
        && !(m[i].msg.id < msgs[k].id);
      assert m'[i] == m[i] && m'[|m| + k].msg == msgs[k] && m'[|m| + k].readAt.None?;
    }
  }

  // ---------------------------------------------------------------------------------------------
  // The unread marker

  ghost predicate AboveMarker(msg: Message, marker: Option<Time>) {
    marker.Some? ==> msg.ts > marker.value
  }

  /** What a client counts from the marker: incoming messages sent after it. */
  ghost function CountAbove(m: seq<Row>, room: RoomId, reader: AccountId, marker: Option<Time>): nat {
    if m == [] then 0
    else CountAbove(m[..|m| - 1], room, reader, marker)
         + (if Incoming(m[|m| - 1].msg, room, reader) && AboveMarker(m[|m| - 1].msg, marker) then 1 else 0)
  }

  ghost function UnreadIn(m: seq<Row>, room: RoomId, reader: AccountId): nat {
    if m == [] then 0
    else UnreadIn(m[..|m| - 1], room, reader)
         + (if Incoming(m[|m| - 1].msg, room, reader) && m[|m| - 1].readAt.None? then 1 else 0)
  }

  lemma {:induction false} MarkerIsMaximum(m: seq<Row>, room: RoomId, reader: AccountId)
    ensures var marker := NewestReadIncomingTs(m, room, reader);
            forall i :: 0 <= i < |m| && Incoming(m[i].msg, room, reader) && m[i].readAt.Some? ==>
              marker.Some? && m[i].msg.ts <= marker.value
    ensures var marker := NewestReadIncomingTs(m, room, reader);
            marker.Some? ==> exists i :: 0 <= i < |m| && Incoming(m[i].msg, room, reader) && m[i].readAt.Some?
                                         && m[i].msg.ts == marker.value
  {
    if m == [] {
    } else {
      var front := m[..|m| - 1];
      MarkerIsMaximum(front, room, reader);
      var marker, rest := NewestReadIncomingTs(m, room, reader), NewestReadIncomingTs(front, room, reader);
      forall i | 0 <= i < |m| && Incoming(m[i].msg, room, reader) && m[i].readAt.Some?
        ensures marker.Some? && m[i].msg.ts <= marker.value
      {
        if i < |front| { assert front[i] == m[i]; }
      }
      if marker.Some? && marker == rest {
        var i :| 0 <= i < |front| && Incoming(front[i].msg, room, reader) && front[i].readAt.Some?
                 && front[i].msg.ts == marker.value;
        assert m[i] == front[i];
      }
    }
  }

  ghost predicate UnreadBelow(m: seq<Row>, room: RoomId, reader: AccountId, marker: Option<Time>) {
    exists i :: 0 <= i < |m| && Incoming(m[i].msg, room, reader) && m[i].readAt.None? && !AboveMarker(m[i].msg, marker)
  }

  lemma {:induction false} CountAboveVersusUnread(m: seq<Row>, room: RoomId, reader: AccountId, marker: Option<Time>)
    requires forall i :: 0 <= i < |m| && Incoming(m[i].msg, room, reader) && m[i].readAt.Some? ==>
               !AboveMarker(m[i].msg, marker)
    ensures CountAbove(m, room, reader, marker) <= UnreadIn(m, room, reader)
    ensures CountAbove(m, room, reader, marker) == UnreadIn(m, room, reader) <==> !UnreadBelow(m, room, reader, marker)
  {
    if m == [] {
    } else {
      var front := m[..|m| - 1];
      assert forall i :: 0 <= i < |front| ==> front[i] == m[i];
      CountAboveVersusUnread(front, room, reader, marker);
      if UnreadBelow(front, room, reader, marker) {
        var i :| 0 <= i < |front| && Incoming(front[i].msg, room, reader) && front[i].readAt.None?
                 && !AboveMarker(front[i].msg, marker);
        assert m[i] == front[i];
      }
    }
  }

  /**
   * Counting incoming messages newer than the marker gives the room's unread count exactly when no
   * unread message was sent at or before the newest read one; it never gives more.
   */
  lemma MarkerCountsUnreadIff(m: seq<Row>, room: RoomId, reader: AccountId)
    ensures var marker := NewestReadIncomingTs(m, room, reader);
            && CountAbove(m, room, reader, marker) <= UnreadIn(m, room, reader)
            && (CountAbove(m, room, reader, marker) == UnreadIn(m, room, reader)
                <==> !UnreadBelow(m, room, reader, marker))
  {
    MarkerIsMaximum(m, room, reader);
    CountAboveVersusUnread(m, room, reader, NewestReadIncomingTs(m, room, reader));
  }

  ghost predicate TsFollowsId(m: seq<Row>, room: RoomId, reader: AccountId) {
    forall i, j :: 0 <= i < |m| && 0 <= j < |m|
      && Incoming(m[i].msg, room, reader) && Incoming(m[j].msg, room, reader)
      && m[i].msg.id > m[j].msg.id
      ==> m[i].msg.ts > m[j].msg.ts
  }

  /** With reads a prefix and timestamps following ids, the marker counts the unread messages. */
  lemma MarkerCountsUnread(m: seq<Row>, room: RoomId, reader: AccountId)
    requires ReadPrefix(m, room, reader) && TsFollowsId(m, room, reader)
    ensures CountAbove(m, room, reader, NewestReadIncomingTs(m, room, reader)) == UnreadIn(m, room, reader)
  {
    var marker := NewestReadIncomingTs(m, room, reader);
    MarkerCountsUnreadIff(m, room, reader);
    MarkerIsMaximum(m, room, reader);
  }

  // ---------------------------------------------------------------------------------------------
  // Conservation over any run of writes

  datatype Write =
    | Sent(msgs: seq<Message>)
    | Read(room: RoomId, reader: AccountId, upTo: MessageId, now: Time)

  function Apply(m: seq<Row>, w: Write): seq<Row> {
    match w
    case Sent(msgs) => m + NewRows(msgs)
    case Read(room, reader, upTo, now) => Marked(m, room, reader, upTo, now)
  }

  function Run(ws: seq<Write>): seq<Row> {
    if ws == [] then [] else Apply(Run(ws[..|ws| - 1]), ws[|ws| - 1])
  }

  lemma RunAppends(ws: seq<Write>, w: Write)
    ensures Run(ws + [w]) == Apply(Run(ws), w)
  {
    assert (ws + [w])[..|ws|] == ws;
  }

  /** Incoming rows for `account` that a write inserts. */
  function Delivered(msgs: seq<Message>, account: AccountId): nat {
    if msgs == [] then 0
    else
      var last := msgs[|msgs| - 1];
      Delivered(msgs[..|msgs| - 1], account) + (if last.recipient == account && last.from != account then 1 else 0)
  }

  function Arrived(ws: seq<Write>, account: AccountId): nat {
    if ws == [] then 0
    else Arrived(ws[..|ws| - 1], account)
         + (if ws[|ws| - 1].Sent? then Delivered(ws[|ws| - 1].msgs, account) else 0)
  }

  /** Rows that `account`'s own `mark_read` calls flipped. */
  function FlippedBy(ws: seq<Write>, account: AccountId): nat {
    if ws == [] then 0
    else
      var front, w := ws[..|ws| - 1], ws[|ws| - 1];
      FlippedBy(front, account)
      + (if w.Read? && w.reader == account then |Flipped(Run(front), w.room, w.reader, w.upTo)| else 0)
  }

  lemma {:induction false} DeliveredCounts(m: seq<Row>, msgs: seq<Message>, account: AccountId)
    ensures UnreadCount(m + NewRows(msgs), account) == UnreadCount(m, account) + Delivered(msgs, account)
  {
    var m' := m + NewRows(msgs);
    if msgs == [] {
      assert m' == m;
    } else {
      var front := msgs[..|msgs| - 1];
      DeliveredCounts(m, front, account);
      assert m'[..|m'| - 1] == m + NewRows(front);
      assert m'[|m'| - 1] == Row(msgs[|msgs| - 1], None);
    }
  }

  lemma {:induction false} MarkedCounts(
      m: seq<Row>, room: RoomId, reader: AccountId, upTo: MessageId, now: Time, account: AccountId)
    ensures UnreadCount(Marked(m, room, reader, upTo, now), account)
         == UnreadCount(m, account) - (if reader == account then |Flipped(m, room, reader, upTo)| else 0)
  {
    if m == [] {
    } else {
      var front, m' := m[..|m| - 1], Marked(m, room, reader, upTo, now);
      MarkedCounts(front, room, reader, upTo, now, account);
      assert m'[..|m'| - 1] == Marked(front, room, reader, upTo, now);
    }
  }

  /** The badge is what arrived minus what was flipped; nothing else ever changes it. */
  lemma {:induction false} UnreadIsConserved(ws: seq<Write>, account: AccountId)
    ensures UnreadCount(Run(ws), account) == Arrived(ws, account) - FlippedBy(ws, account)
  {
    if ws == [] {
    } else {
      var front, w := ws[..|ws| - 1], ws[|ws| - 1];
      UnreadIsConserved(front, account);
      match w {
        case Sent(msgs) => DeliveredCounts(Run(front), msgs, account);
        case Read(room, reader, upTo, now) => MarkedCounts(Run(front), room, reader, upTo, now, account);
      }
    }
  }

  /** How often the run's `mark_read` calls reported message `id` as newly read by `reader`. */
  function TimesFlipped(ws: seq<Write>, id: MessageId, reader: AccountId): nat {
    if ws == [] then 0
    else
      var front, w := ws[..|ws| - 1], ws[|ws| - 1];
      TimesFlipped(front, id, reader)
      + (if w.Read? && w.reader == reader then Occurrences(Flipped(Run(front), w.room, w.reader, w.upTo), id) else 0)
  }

  function Occurrences(flipped: seq<(MessageId, AccountId)>, id: MessageId): nat {
    if flipped == [] then 0
    else Occurrences(flipped[..|flipped| - 1], id) + (if flipped[|flipped| - 1].0 == id then 1 else 0)
  }

  function CountRead(m: seq<Row>, id: MessageId, reader: AccountId): nat {
    if m == [] then 0
    else
      var last := m[|m| - 1];
      CountRead(m[..|m| - 1], id, reader)
      + (if last.msg.id == id && last.msg.recipient == reader && last.readAt.Some? then 1 else 0)
  }

  lemma {:induction false} NewRowsAreUnread(m: seq<Row>, msgs: seq<Message>, id: MessageId, reader: AccountId)
    ensures CountRead(m + NewRows(msgs), id, reader) == CountRead(m, id, reader)
  {
    var m' := m + NewRows(msgs);
    if msgs == [] {
      assert m' == m;
    } else {
      var front := msgs[..|msgs| - 1];
      NewRowsAreUnread(m, front, id, reader);
      assert m'[..|m'| - 1] == m + NewRows(front);
    }
  }

  lemma {:induction false} MarkedFlips(
      m: seq<Row>, room: RoomId, reader: AccountId, upTo: MessageId, now: Time, id: MessageId, account: AccountId)
    ensures CountRead(Marked(m, room, reader, upTo, now), id, account)
         == CountRead(m, id, account) + (if reader == account then Occurrences(Flipped(m, room, reader, upTo), id) else 0)
  {
    if m == [] {
    } else {
      var front, m' := m[..|m| - 1], Marked(m, room, reader, upTo, now);
      MarkedFlips(front, room, reader, upTo, now, id, account);
      assert m'[..|m'| - 1] == Marked(front, room, reader, upTo, now);
      if Flips(m[|m| - 1], room, reader, upTo) {
        var flipped := Flipped(m, room, reader, upTo);
        assert flipped[..|flipped| - 1] == Flipped(front, room, reader, upTo);
      } else {
        assert Flipped(m, room, reader, upTo) == Flipped(front, room, reader, upTo);
      }
    }
  }

  /** The reader has a copy of the message and it is stamped. */
  predicate IsRead(m: seq<Row>, id: MessageId, reader: AccountId) {
    exists i :: 0 <= i < |m| && m[i].msg.id == id && m[i].msg.recipient == reader && m[i].readAt.Some?
  }

  lemma {:induction false} AtMostOneRow(m: seq<Row>, id: MessageId, reader: AccountId)
    requires KeyUnique(m)
    ensures CountRead(m, id, reader) <= 1
    ensures CountRead(m, id, reader) == 1 <==>
              IsRead(m, id, reader)
  {
    if m == [] {
    } else {
      var front := m[..|m| - 1];
      AtMostOneRow(front, id, reader);
      if i :| 0 <= i < |front| && front[i].msg.id == id && front[i].msg.recipient == reader && front[i].readAt.Some? {
        assert m[i] == front[i];
      }
    }
  }

  lemma {:induction false} FlipsAreReads(ws: seq<Write>, id: MessageId, reader: AccountId)
    ensures TimesFlipped(ws, id, reader) == CountRead(Run(ws), id, reader)
  {
    if ws == [] {
    } else {
      var front, w := ws[..|ws| - 1], ws[|ws| - 1];
      FlipsAreReads(front, id, reader);
      match w {
        case Sent(msgs) => NewRowsAreUnread(Run(front), msgs, id, reader);
        case Read(room, r, upTo, now) => MarkedFlips(Run(front), room, r, upTo, now, id, reader);
      }
    }
  }

  /** Over a whole run a (message, reader) row is reported read once if it is read, else never. */
  lemma EachRowFlipsOnce(ws: seq<Write>, id: MessageId, reader: AccountId)
    requires KeyUnique(Run(ws))
    ensures TimesFlipped(ws, id, reader) <= 1
    ensures TimesFlipped(ws, id, reader) == 1 <==> IsRead(Run(ws), id, reader)
  {
    FlipsAreReads(ws, id, reader);
    AtMostOneRow(Run(ws), id, reader);
  }

  // ---------------------------------------------------------------------------------------------
  // One Read frame per sender

  function IdsFrom(flipped: seq<(MessageId, AccountId)>, sender: AccountId): seq<MessageId> {
    if flipped == [] then []
    else
      var last := flipped[|flipped| - 1];
      IdsFrom(flipped[..|flipped| - 1], sender) + (if last.1 == sender then [last.0] else [])
  }

  /** Every flipped id is in its sender's group, at its place among that sender's ids. */
  ghost predicate Grouped(groups: map<AccountId, seq<MessageId>>, flipped: seq<(MessageId, AccountId)>) {
    && (forall s :: s in groups <==> IdsFrom(flipped, s) != [])
    && (forall s :: s in groups ==> groups[s] == IdsFrom(flipped, s))
  }

  /** `entry(from).or_default().push(id)`. */
  function Added(groups: map<AccountId, seq<MessageId>>, id: MessageId, from: AccountId): map<AccountId, seq<MessageId>> {
    groups[from := (if from in groups then groups[from] else []) + [id]]
  }

  lemma GroupedStep(groups: map<AccountId, seq<MessageId>>, flipped: seq<(MessageId, AccountId)>, id: MessageId, from: AccountId)
    requires Grouped(groups, flipped)
    ensures Grouped(Added(groups, id, from), flipped + [(id, from)])
  {
    forall s ensures IdsFrom(flipped + [(id, from)], s) == IdsFrom(flipped, s) + (if from == s then [id] else []) {
      IdsFromSnoc(flipped, id, from, s);
    }
  }

  /** The grouping loop of `handle_mark_read`: every flipped id joins its sender's group, once. */
  method GroupBySender(flipped: seq<(MessageId, AccountId)>) returns (bySender: map<AccountId, seq<MessageId>>)
    ensures Grouped(bySender, flipped)
  {
    bySender := map[];
    for k := 0 to |flipped|
      invariant Grouped(bySender, flipped[..k])
    {
      var (id, from) := flipped[k];
      GroupedStep(bySender, flipped[..k], id, from);
      assert flipped[..k + 1] == flipped[..k] + [(id, from)];
      bySender := Added(bySender, id, from);
    }
    assert flipped[..|flipped|] == flipped;
  }

  /** The groups partition the flips: a pair (id, sender) is in that sender's group as often as it flipped. */
  lemma {:induction false} GroupsPartition(flipped: seq<(MessageId, AccountId)>, id: MessageId, sender: AccountId)
    ensures multiset(IdsFrom(flipped, sender))[id] == multiset(flipped)[(id, sender)]
  {
    if flipped == [] {
    } else {
      var front, last := flipped[..|flipped| - 1], flipped[|flipped| - 1];
      GroupsPartition(front, id, sender);
      assert flipped == front + [last];
    }
  }
}
