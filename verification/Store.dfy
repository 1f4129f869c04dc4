/**
 * The `messages` table: one row per (message, recipient), kept in commit order. Rows are only ever
 * appended, and the only column that changes afterwards is `read_at`.
 */
module Store {
  import opened Common

  /** The columns of a row that never change once it is inserted. */
  datatype Message = Message(
    id: MessageId,
    room: RoomId,
    from: AccountId,
    recipient: AccountId,
    body: string,
    ts: Time)

  datatype Row = Row(msg: Message, readAt: Option<Time>)

  /** What `messages_for_recipient` returns for one row: the message and its computed read flag. */
  datatype Replayed = Replayed(msg: Message, read: bool)

  // ---------------------------------------------------------------------------------------------
  // Writes

  predicate HasKey(m: seq<Row>, id: MessageId, recipient: AccountId) {
    exists i :: 0 <= i < |m| && m[i].msg.id == id && m[i].msg.recipient == recipient
  }

  /** `INSERT … ON CONFLICT (id, recipient_account_id) DO NOTHING`; `read_at` starts out NULL. */
  function Insert(m: seq<Row>, msg: Message): seq<Row> {
    if HasKey(m, msg.id, msg.recipient) then m else m + [Row(msg, None)]
  }

  function InsertMany(m: seq<Row>, msgs: seq<Message>): seq<Row> {
    if msgs == [] then m else Insert(InsertMany(m, msgs[..|msgs| - 1]), msgs[|msgs| - 1])
  }

  /** The WHERE clause of `mark_read`. */
  predicate Flips(r: Row, room: RoomId, reader: AccountId, upTo: MessageId) {
    && r.msg.room == room
    && r.msg.recipient == reader
    && r.msg.from != reader
    && r.readAt.None?
    && r.msg.id <= upTo
  }

  function Marked(m: seq<Row>, room: RoomId, reader: AccountId, upTo: MessageId, now: Time): (m': seq<Row>)
    ensures |m'| == |m|
  {
    seq(|m|, i requires 0 <= i < |m| => if Flips(m[i], room, reader, upTo) then Row(m[i].msg, Some(now)) else m[i])
  }

  /** The `RETURNING id, from_account_id` rows of `mark_read`. */
  function Flipped(m: seq<Row>, room: RoomId, reader: AccountId, upTo: MessageId): seq<(MessageId, AccountId)> {
    if m == [] then []
    else
      var last := m[|m| - 1];
      Flipped(m[..|m| - 1], room, reader, upTo)
      + (if Flips(last, room, reader, upTo) then [(last.msg.id, last.msg.from)] else [])
  }

  // ---------------------------------------------------------------------------------------------
  // Queries

  predicate After(id: MessageId, since: Option<MessageId>) {
    since.Some? ==> id > since.value
  }

  predicate Addressed(msg: Message, room: RoomId, recipient: AccountId) {
    msg.room == room && msg.recipient == recipient
  }

  function Select(m: seq<Row>, room: RoomId, recipient: AccountId, since: Option<MessageId>): seq<Message> {
    if m == [] then []
    else
      var last := m[|m| - 1].msg;
      Select(m[..|m| - 1], room, recipient, since)
      + (if Addressed(last, room, recipient) && After(last.id, since) then [last] else [])
  }

  function Place(sorted: seq<Message>, msg: Message): seq<Message> {
    if sorted == [] then [msg]
    else if msg.id < sorted[0].id then [msg] + sorted
    else [sorted[0]] + Place(sorted[1..], msg)
  }

  /** `ORDER BY id ASC`. */
  function OrderById(msgs: seq<Message>): seq<Message> {
    if msgs == [] then [] else Place(OrderById(msgs[..|msgs| - 1]), msgs[|msgs| - 1])
  }

  /** The correlated EXISTS: some other recipient of the same message id has it marked read. */
  predicate ReadFlag(m: seq<Row>, id: MessageId, recipient: AccountId) {
    exists i :: 0 <= i < |m| && m[i].msg.id == id && m[i].msg.recipient != recipient && m[i].readAt.Some?
  }

  /** `messages_for_recipient`, without the read flag. */
  function Replay(m: seq<Row>, room: RoomId, recipient: AccountId, since: Option<MessageId>): seq<Message> {
    OrderById(Select(m, room, recipient, since))
  }

  function MessagesForRecipient(m: seq<Row>, room: RoomId, recipient: AccountId, since: Option<MessageId>)
    : (out: seq<Replayed>)
    ensures |out| == |Replay(m, room, recipient, since)|
  {
    var msgs := Replay(m, room, recipient, since);
    seq(|msgs|, i requires 0 <= i < |msgs| => Replayed(msgs[i], ReadFlag(m, msgs[i].id, recipient)))
  }

  /** The messages of replayed frames. */
  function Messages(out: seq<Replayed>): (msgs: seq<Message>)
    ensures |msgs| == |out|
  {
    seq(|out|, i requires 0 <= i < |out| => out[i].msg)
  }

  predicate SentAndRead(r: Row, room: RoomId, sender: AccountId) {
    r.msg.room == room && r.msg.from == sender && r.msg.recipient != sender && r.readAt.Some?
  }

  function SelectSentAndRead(m: seq<Row>, room: RoomId, sender: AccountId): seq<Message> {
    if m == [] then []
    else
      var last := m[|m| - 1];
      SelectSentAndRead(m[..|m| - 1], room, sender)
      + (if SentAndRead(last, room, sender) then [last.msg] else [])
  }

  function ReadSentMessageIds(m: seq<Row>, room: RoomId, sender: AccountId): (ids: seq<MessageId>)
    ensures |ids| == |OrderById(SelectSentAndRead(m, room, sender))|
  {
    var msgs := OrderById(SelectSentAndRead(m, room, sender));
    seq(|msgs|, i requires 0 <= i < |msgs| => msgs[i].id)
  }

  predicate Incoming(msg: Message, room: RoomId, reader: AccountId) {
    Addressed(msg, room, reader) && msg.from != reader
  }

  /** `MAX(ts)` over the incoming rows the reader has read, NULL when there are none. */
  function NewestReadIncomingTs(m: seq<Row>, room: RoomId, reader: AccountId): Option<Time> {
    if m == [] then None
    else
      var last := m[|m| - 1];
      var rest := NewestReadIncomingTs(m[..|m| - 1], room, reader);
      if !(Incoming(last.msg, room, reader) && last.readAt.Some?) then rest
      else if rest.Some? && rest.value > last.msg.ts then rest
      else Some(last.msg.ts)
  }

  predicate Unread(r: Row, account: AccountId) {
    r.msg.recipient == account && r.msg.from != account && r.readAt.None?
  }

  /** The badge: unread incoming rows across all rooms. */
  function UnreadCount(m: seq<Row>, account: AccountId): nat {
    if m == [] then 0
    else UnreadCount(m[..|m| - 1], account) + (if Unread(m[|m| - 1], account) then 1 else 0)
  }

  // ---------------------------------------------------------------------------------------------
  // What every table reachable through the handlers satisfies

  /** The composite primary key. */
  ghost predicate KeyUnique(m: seq<Row>) {
    forall i, j :: 0 <= i < j < |m| ==> m[i].msg.id != m[j].msg.id || m[i].msg.recipient != m[j].msg.recipient
  }

  /** Rows that share an id are the copies of one Send. */
  ghost predicate OneSendPerId(m: seq<Row>) {
    forall i, j :: 0 <= i < |m| && 0 <= j < |m| && m[i].msg.id == m[j].msg.id ==>
      && m[i].msg.room == m[j].msg.room
      && m[i].msg.from == m[j].msg.from
      && m[i].msg.ts == m[j].msg.ts
  }

  ghost predicate SelfCopiesUnread(m: seq<Row>) {
    forall i :: 0 <= i < |m| && m[i].msg.from == m[i].msg.recipient ==> m[i].readAt.None?
  }

  ghost predicate Valid(m: seq<Row>) {
    KeyUnique(m) && OneSendPerId(m) && SelfCopiesUnread(m)
  }

  /** `m'` is a later state of the table `m`: rows stay, in place, and a read stamp never changes. */
  ghost predicate Later(m: seq<Row>, m': seq<Row>) {
    && |m| <= |m'|
    && forall i :: 0 <= i < |m| ==> m'[i].msg == m[i].msg && (m[i].readAt.Some? ==> m'[i].readAt == m[i].readAt)
  }

  ghost predicate FreshId(m: seq<Row>, id: MessageId) {
    forall i :: 0 <= i < |m| ==> m[i].msg.id != id
  }

  /** The rows `handle_send` builds: copies of one message, at most one per recipient. */
  ghost predicate OneSend(msgs: seq<Message>, id: MessageId, room: RoomId, from: AccountId, ts: Time) {
    && (forall i :: 0 <= i < |msgs| ==>
          msgs[i].id == id && msgs[i].room == room && msgs[i].from == from && msgs[i].ts == ts)
    && (forall i, j :: 0 <= i < j < |msgs| ==> msgs[i].recipient != msgs[j].recipient)
  }

  function NewRows(msgs: seq<Message>): (rows: seq<Row>)
    ensures |rows| == |msgs|
  {
    seq(|msgs|, i requires 0 <= i < |msgs| => Row(msgs[i], None))
  }

  /** With a fresh id the conflict clause never fires: every row of the Send lands. */
  lemma {:induction false} InsertManyAppends(m: seq<Row>, msgs: seq<Message>, id: MessageId, room: RoomId, from: AccountId, ts: Time)
    requires FreshId(m, id) && OneSend(msgs, id, room, from, ts)
    ensures InsertMany(m, msgs) == m + NewRows(msgs)
  {
    if msgs == [] {
    } else {
      var front, last := msgs[..|msgs| - 1], msgs[|msgs| - 1];
      InsertManyAppends(m, front, id, room, from, ts);
      assert !HasKey(m + NewRows(front), last.id, last.recipient);
      assert NewRows(msgs) == NewRows(front) + [Row(last, None)];
    }
  }

  lemma InsertManyKeepsValid(m: seq<Row>, msgs: seq<Message>, id: MessageId, room: RoomId, from: AccountId, ts: Time)
    requires Valid(m) && FreshId(m, id) && OneSend(msgs, id, room, from, ts)
    ensures Valid(InsertMany(m, msgs)) && Later(m, InsertMany(m, msgs))
  {
    InsertManyAppends(m, msgs, id, room, from, ts);
  }

  lemma MarkedKeepsValid(m: seq<Row>, room: RoomId, reader: AccountId, upTo: MessageId, now: Time)
    requires Valid(m)
    ensures Valid(Marked(m, room, reader, upTo, now)) && Later(m, Marked(m, room, reader, upTo, now))
  {
    var m' := Marked(m, room, reader, upTo, now);
    assert forall i :: 0 <= i < |m| ==> m'[i].msg == m[i].msg;
  }

  predicate NewlyRead(before: Row, after: Row) {
    before.readAt.None? && after.readAt.Some?
  }

  /** What `mark_read` reports are the rows whose stamp it set. */
  lemma {:induction false} FlippedFacts(m: seq<Row>, room: RoomId, reader: AccountId, upTo: MessageId, now: Time)
    ensures var m' := Marked(m, room, reader, upTo, now);
            forall x :: x in Flipped(m, room, reader, upTo) <==>
              exists i :: 0 <= i < |m| && NewlyRead(m[i], m'[i]) && x == (m'[i].msg.id, m'[i].msg.from)
  {
    if m == [] {
    } else {
      var front, last := m[..|m| - 1], m[|m| - 1];
      var m', front' := Marked(m, room, reader, upTo, now), Marked(front, room, reader, upTo, now);
      FlippedFacts(front, room, reader, upTo, now);
      assert m' == front' + [m'[|m| - 1]];
      forall x ensures x in Flipped(m, room, reader, upTo) <==>
        exists i :: 0 <= i < |m| && NewlyRead(m[i], m'[i]) && x == (m'[i].msg.id, m'[i].msg.from)
      {
        if x in Flipped(front, room, reader, upTo) {
          var i :| 0 <= i < |front| && NewlyRead(front[i], front'[i]) && x == (front'[i].msg.id, front'[i].msg.from);
          assert m[i] == front[i] && m'[i] == front'[i];
        }
        if i :| 0 <= i < |m| && NewlyRead(m[i], m'[i]) && x == (m'[i].msg.id, m'[i].msg.from) {
          assert i < |front| ==> m[i] == front[i] && m'[i] == front'[i];
        }
      }
    }
  }

  lemma LaterTransitive(m1: seq<Row>, m2: seq<Row>, m3: seq<Row>)
    requires Later(m1, m2) && Later(m2, m3)
    ensures Later(m1, m3)
  {
  }

  lemma LaterKeepsReadFlags(m: seq<Row>, m': seq<Row>, id: MessageId, recipient: AccountId)
    requires Later(m, m') && ReadFlag(m, id, recipient)
    ensures ReadFlag(m', id, recipient)
  {
    var i :| 0 <= i < |m| && m[i].msg.id == id && m[i].msg.recipient != recipient && m[i].readAt.Some?;
    assert m'[i].msg.id == id;
  }

  // ---------------------------------------------------------------------------------------------
  // ORDER BY and filters, characterised by their elements

  ghost predicate SortedById(msgs: seq<Message>) {
    forall i, j :: 0 <= i < j < |msgs| ==> msgs[i].id < msgs[j].id
  }

  ghost predicate DistinctIds(msgs: seq<Message>) {
    forall i, j :: 0 <= i < j < |msgs| ==> msgs[i].id != msgs[j].id
  }

  lemma {:induction false} PlaceElements(sorted: seq<Message>, msg: Message)
    ensures forall x :: x in Place(sorted, msg) <==> x in sorted || x == msg
  {
    if sorted == [] || msg.id < sorted[0].id {
    } else {
      PlaceElements(sorted[1..], msg);
      assert sorted == [sorted[0]] + sorted[1..];
    }
  }

  lemma {:induction false} PlaceSorts(sorted: seq<Message>, msg: Message)
    requires SortedById(sorted)
    requires forall x :: x in sorted ==> x.id != msg.id
    ensures SortedById(Place(sorted, msg))
  {
    if sorted == [] || msg.id < sorted[0].id {
    } else {
      PlaceSorts(sorted[1..], msg);
      PlaceElements(sorted[1..], msg);
      forall x | x in Place(sorted[1..], msg) ensures sorted[0].id < x.id {
        assert x == msg || x in sorted[1..];
      }
    }
  }

  lemma {:induction false} OrderByIdElements(msgs: seq<Message>)
    ensures forall x :: x in OrderById(msgs) <==> x in msgs
  {
    if msgs == [] {
    } else {
      var front, last := msgs[..|msgs| - 1], msgs[|msgs| - 1];
      OrderByIdElements(front);
      assert msgs == front + [last];
      PlaceElements(OrderById(front), last);
    }
  }

  lemma {:induction false} OrderByIdSorts(msgs: seq<Message>)
    requires DistinctIds(msgs)
    ensures SortedById(OrderById(msgs))
  {
    if msgs == [] {
    } else {
      var front, last := msgs[..|msgs| - 1], msgs[|msgs| - 1];
      OrderByIdSorts(front);
      OrderByIdElements(front);
      PlaceSorts(OrderById(front), last);
    }
  }

  /** A strictly sorted sequence is determined by its elements. */
  lemma {:induction false} SortedUnique(a: seq<Message>, b: seq<Message>)
    requires SortedById(a) && SortedById(b)
    requires forall x :: x in a <==> x in b
    ensures a == b
  {
    assert (a != [] ==> a[0] in b) && (b != [] ==> b[0] in a);
    if a == [] {
    } else {
      assert a[0] == b[0];
      assert a == [a[0]] + a[1..] && b == [b[0]] + b[1..];
      forall x ensures x in a[1..] <==> x in b[1..] {
        if x in a[1..] { assert x in a; assert x.id > a[0].id; }
        if x in b[1..] { assert x in b; assert x.id > b[0].id; }
      }
      SortedUnique(a[1..], b[1..]);
    }
  }

  lemma {:induction false} SelectFacts(m: seq<Row>, room: RoomId, recipient: AccountId, since: Option<MessageId>)
    requires KeyUnique(m)
    ensures forall x :: x in Select(m, room, recipient, since) <==>
              (exists i :: 0 <= i < |m| && m[i].msg == x) && Addressed(x, room, recipient) && After(x.id, since)
    ensures DistinctIds(Select(m, room, recipient, since))
  {
    if m == [] {
    } else {
      var front, last := m[..|m| - 1], m[|m| - 1].msg;
      SelectFacts(front, room, recipient, since);
      var s, s' := Select(m, room, recipient, since), Select(front, room, recipient, since);
      forall x ensures x in s <==>
        (exists i :: 0 <= i < |m| && m[i].msg == x) && Addressed(x, room, recipient) && After(x.id, since)
      {
        if x in s' {
          var i :| 0 <= i < |front| && front[i].msg == x;
          assert m[i].msg == x;
        }
        if (exists i :: 0 <= i < |m| && m[i].msg == x) && x != last {
          var i :| 0 <= i < |m| && m[i].msg == x;
          assert front[i].msg == x;
        }
      }
      if Addressed(last, room, recipient) {
        forall k | 0 <= k < |s'| ensures s'[k].id != last.id {
          assert s'[k] in s';
          var i :| 0 <= i < |front| && front[i].msg == s'[k];
          assert m[i].msg == s'[k];
        }
      }
    }
  }

  /**
   * `messages_for_recipient` returns exactly the rows addressed to the recipient after the
   * watermark, once each, in id order.
   */
  lemma ReplayFacts(m: seq<Row>, room: RoomId, recipient: AccountId, since: Option<MessageId>)
    requires KeyUnique(m)
    ensures SortedById(Replay(m, room, recipient, since))
    ensures forall x :: x in Replay(m, room, recipient, since) <==>
              (exists i :: 0 <= i < |m| && m[i].msg == x) && Addressed(x, room, recipient) && After(x.id, since)
  {
    SelectFacts(m, room, recipient, since);
    OrderByIdSorts(Select(m, room, recipient, since));
    OrderByIdElements(Select(m, room, recipient, since));
  }
}
