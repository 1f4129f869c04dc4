/**
 * Resumable replay: a client that reconnects with the largest id it holds. The store compares ids
 * only, so this recovers every row exactly when no row was committed below that id in the meantime.
 */
module Replay {
  import opened Common
  import opened Store

  function AtMost(msgs: seq<Message>, s: MessageId): seq<Message> {
    if msgs == [] then []
    else AtMost(msgs[..|msgs| - 1], s) + (if msgs[|msgs| - 1].id <= s then [msgs[|msgs| - 1]] else [])
  }

  lemma {:induction false} AtMostFacts(msgs: seq<Message>, s: MessageId)
    requires SortedById(msgs)
    ensures SortedById(AtMost(msgs, s))
    ensures forall x :: x in AtMost(msgs, s) <==> x in msgs && x.id <= s
  {
    if msgs == [] {
    } else {
      var front, last := msgs[..|msgs| - 1], msgs[|msgs| - 1];
      AtMostFacts(front, s);
      assert msgs == front + [last];
      forall x | x in AtMost(front, s) ensures x.id < last.id {
        assert x in front;
      }
    }
  }

  lemma SinceIsTheRest(m: seq<Row>, room: RoomId, recipient: AccountId, s: MessageId)
    requires KeyUnique(m)
    ensures forall x :: x in Store.Replay(m, room, recipient, Some(s))
                   <==> x in Store.Replay(m, room, recipient, None) && x.id > s
  {
    ReplayFacts(m, room, recipient, None);
    ReplayFacts(m, room, recipient, Some(s));
  }

  lemma SplitAt(full: seq<Message>, low: seq<Message>, rest: seq<Message>, s: MessageId)
    requires SortedById(full) && SortedById(low) && SortedById(rest)
    requires forall x :: x in low <==> x in full && x.id <= s
    requires forall x :: x in rest <==> x in full && x.id > s
    ensures full == low + rest
  {
    forall i, j | 0 <= i < |low| && 0 <= j < |rest| ensures low[i].id < rest[j].id {
      assert low[i] in low && rest[j] in rest;
    }
    assert forall x :: x in low + rest <==> x in low || x in rest;
    SortedUnique(full, low + rest);
  }

  /** A full replay is its part up to any watermark, then the replay since that watermark. */
  lemma ReplaySplits(m: seq<Row>, room: RoomId, recipient: AccountId, s: MessageId)
    requires KeyUnique(m)
    ensures Store.Replay(m, room, recipient, None)
         == AtMost(Store.Replay(m, room, recipient, None), s) + Store.Replay(m, room, recipient, Some(s))
  {
    var full, rest := Store.Replay(m, room, recipient, None), Store.Replay(m, room, recipient, Some(s));
    ReplayFacts(m, room, recipient, None);
    ReplayFacts(m, room, recipient, Some(s));
    AtMostFacts(full, s);
    SinceIsTheRest(m, room, recipient, s);
    SplitAt(full, AtMost(full, s), rest, s);
  }

  /** The largest id the client holds, which it sends as `since_message_id`. */
  function Watermark(log: seq<Message>): Option<MessageId> {
    if log == [] then None
    else
      var rest := Watermark(log[..|log| - 1]);
      var id := log[|log| - 1].id;
      if rest.Some? && rest.value > id then rest else Some(id)
  }

  lemma {:induction false} WatermarkIsLast(log: seq<Message>)
    requires SortedById(log)
    ensures Watermark(log) == if log == [] then None else Some(log[|log| - 1].id)
  {
    if log == [] {
    } else {
      WatermarkIsLast(log[..|log| - 1]);
    }
  }

  /** One Subscribe: the replayed messages are added to what the client already holds. */
  function Reconnect(log: seq<Message>, m: seq<Row>, room: RoomId, recipient: AccountId): seq<Message> {
    log + Store.Replay(m, room, recipient, Watermark(log))
  }

  /** No row for the recipient was committed since `m` with an id the client would skip. */
  ghost predicate NothingCommittedBelow(m: seq<Row>, m': seq<Row>, room: RoomId, recipient: AccountId, s: Option<MessageId>) {
    forall j :: |m| <= j < |m'| && Addressed(m'[j].msg, room, recipient) ==> After(m'[j].msg.id, s)
  }

  /**
   * A client in sync with `m` that reconnects at the later table `m'` is in sync again exactly
   * when every row committed for it in between has an id above its watermark.
   */
  lemma {:induction false} ReconnectExact(m: seq<Row>, m': seq<Row>, room: RoomId, recipient: AccountId)
    requires KeyUnique(m) && KeyUnique(m') && Later(m, m')
    ensures var log := Store.Replay(m, room, recipient, None);
            Reconnect(log, m', room, recipient) == Store.Replay(m', room, recipient, None)
            <==> NothingCommittedBelow(m, m', room, recipient, Watermark(log))
  {
    if NothingCommittedBelow(m, m', room, recipient, Watermark(Store.Replay(m, room, recipient, None))) {
      ReconnectComplete(m, m', room, recipient);
    } else {
      ReconnectMisses(m, m', room, recipient);
    }
  }

  lemma ReconnectComplete(m: seq<Row>, m': seq<Row>, room: RoomId, recipient: AccountId)
    requires KeyUnique(m) && KeyUnique(m') && Later(m, m')
    requires NothingCommittedBelow(m, m', room, recipient, Watermark(Store.Replay(m, room, recipient, None)))
    ensures Reconnect(Store.Replay(m, room, recipient, None), m', room, recipient) == Store.Replay(m', room, recipient, None)
  {
    var log, full := Store.Replay(m, room, recipient, None), Store.Replay(m', room, recipient, None);
    ReplayFacts(m, room, recipient, None);
    ReplayFacts(m', room, recipient, None);
    WatermarkIsLast(log);
    if log == [] {
      assert Reconnect(log, m', room, recipient) == full;
    } else {
      var s := log[|log| - 1].id;
      ReplaySplits(m', room, recipient, s);
      AtMostFacts(full, s);
      HeldIsPrefix(m, m', room, recipient, s);
      SortedUnique(log, AtMost(full, s));
    }
  }

  lemma ReconnectMisses(m: seq<Row>, m': seq<Row>, room: RoomId, recipient: AccountId)
    requires KeyUnique(m) && KeyUnique(m') && Later(m, m')
    requires !NothingCommittedBelow(m, m', room, recipient, Watermark(Store.Replay(m, room, recipient, None)))
    ensures exists x :: x in Store.Replay(m', room, recipient, None)
                        && x !in Reconnect(Store.Replay(m, room, recipient, None), m', room, recipient)
  {
    var log := Store.Replay(m, room, recipient, None);
    ReplayFacts(m, room, recipient, None);
    ReplayFacts(m', room, recipient, None);
    ReplayFacts(m', room, recipient, Watermark(log));
    var j :| |m| <= j < |m'| && Addressed(m'[j].msg, room, recipient) && !After(m'[j].msg.id, Watermark(log));
    NewRowIsNew(m, m', j);
    assert m'[j].msg !in log;
  }

  lemma NewRowIsNew(m: seq<Row>, m': seq<Row>, j: int)
    requires KeyUnique(m') && Later(m, m') && |m| <= j < |m'|
    ensures forall i :: 0 <= i < |m| ==> m[i].msg != m'[j].msg
  {
    forall i | 0 <= i < |m| ensures m[i].msg != m'[j].msg {
      assert m'[i].msg == m[i].msg;
    }
  }

  lemma HeldIsPrefix(m: seq<Row>, m': seq<Row>, room: RoomId, recipient: AccountId, s: MessageId)
    requires KeyUnique(m) && KeyUnique(m') && Later(m, m')
    requires NothingCommittedBelow(m, m', room, recipient, Some(s))
    requires forall x :: x in Store.Replay(m, room, recipient, None) ==> x.id <= s
    ensures forall x :: x in Store.Replay(m, room, recipient, None)
                   <==> x in Store.Replay(m', room, recipient, None) && x.id <= s
  {
    ReplayFacts(m, room, recipient, None);
    ReplayFacts(m', room, recipient, None);
    forall x ensures x in Store.Replay(m, room, recipient, None)
                <==> x in Store.Replay(m', room, recipient, None) && x.id <= s
    {
      if x in Store.Replay(m, room, recipient, None) {
        var i :| 0 <= i < |m| && m[i].msg == x;
        assert m'[i].msg == x;
      }
      if x in Store.Replay(m', room, recipient, None) && x.id <= s {
        var i :| 0 <= i < |m'| && m'[i].msg == x;
        assert i < |m|;
        assert m[i].msg == x;
      }
    }
  }

  // ---------------------------------------------------------------------------------------------
  // What the watermark relies on

  /** In this room, ids reach the table in increasing order. */
  ghost predicate CommittedInIdOrder(m: seq<Row>, room: RoomId) {
    forall i, j :: 0 <= i < j < |m| && m[i].msg.room == m[j].msg.room == room ==> m[i].msg.id <= m[j].msg.id
  }

  /** The watermark is the id of a held message, and none is larger. */
  lemma {:induction false} WatermarkIsMaximum(log: seq<Message>)
    ensures Watermark(log).None? <==> log == []
    ensures forall i :: 0 <= i < |log| ==> log[i].id <= Watermark(log).value
    ensures log != [] ==> exists i :: 0 <= i < |log| && log[i].id == Watermark(log).value
  {
    if log == [] {
    } else {
      var front := log[..|log| - 1];
      WatermarkIsMaximum(front);
      if front != [] && Watermark(log) == Watermark(front) {
        var i :| 0 <= i < |front| && front[i].id == Watermark(front).value;
        assert log[i] == front[i];
      }
    }
  }

  ghost predicate Stored(m: seq<Row>, x: Message) {
    exists i :: 0 <= i < |m| && m[i].msg == x
  }

  lemma StoredLater(m: seq<Row>, m': seq<Row>, x: Message)
    requires Later(m, m') && Stored(m, x)
    ensures Stored(m', x)
  {
    var i :| 0 <= i < |m| && m[i].msg == x;
    assert m'[i].msg == x;
  }
}
