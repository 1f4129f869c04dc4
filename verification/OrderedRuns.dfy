/**
 * Runs in which message ids reach the table in increasing order in a room. The id is drawn
 * before the insert, so the database does not enforce this order; what the server promises about
 * resuming from a watermark (`Client`) and about the unread marker holds in the runs that have it.
 */
module OrderedRuns {
  import opened Common
  import opened Store
  import opened Server
  import Receipts
  import Replay

  /** The system after the first `k` events of a run. */
  ghost function StateAt(es: seq<Event>, k: nat): System
    requires IsRun(es) && k <= |es|
    ensures IsRun(es[..k])
  {
    RunsGrow(es, k);
    StateAfter(es[..k])
  }

  lemma {:induction false} AtPrefix(es: seq<Event>, n: nat, k: nat)
    requires IsRun(es) && k <= n <= |es|
    ensures IsRun(es[..n]) && StateAt(es[..n], k) == StateAt(es, k)
  {
    RunsGrow(es, n);
    assert es[..n][..k] == es[..k];
  }

  lemma {:induction false} AtEnd(es: seq<Event>)
    requires IsRun(es)
    ensures StateAt(es, |es|) == StateAfter(es)
  {
    assert es[..|es|] == es;
  }

  ghost function MessagesAt(es: seq<Event>, k: nat): seq<Row>
    requires IsRun(es) && k <= |es|
  {
    StateAt(es, k).w.t.messages
  }

  lemma {:induction false} MessagesOnlyGrow(es: seq<Event>, j: nat, k: nat)
    requires IsRun(es) && j <= k <= |es|
    ensures Later(MessagesAt(es, j), MessagesAt(es, k)) && KeyUnique(MessagesAt(es, k))
  {
    RunsGrow(es, k);
    var prefix := es[..k];
    assert prefix[..j] == es[..j];
    RunsGrow(prefix, j);
    ConsistentKeys(StateAfter(prefix));
  }

  lemma {:induction false} ConsistentKeys(s: System)
    requires Inductive(s)
    ensures KeyUnique(s.w.t.messages)
  {
  }

  /** An earlier table has no key or order violation that the later one does not have. */
  lemma EarlierIsOrdered(m: seq<Row>, m': seq<Row>, room: RoomId)
    requires Later(m, m') && KeyUnique(m') && Replay.CommittedInIdOrder(m', room)
    ensures KeyUnique(m) && Replay.CommittedInIdOrder(m, room)
  {
    forall i, j | 0 <= i < j < |m|
      ensures m[i].msg.id != m[j].msg.id || m[i].msg.recipient != m[j].msg.recipient
      ensures m[i].msg.room == m[j].msg.room == room ==> m[i].msg.id <= m[j].msg.id
    {
      assert m'[i].msg == m[i].msg && m'[j].msg == m[j].msg;
    }
  }

  lemma WriteIsLater(m: seq<Row>, w: Receipts.Write)
    ensures Later(m, Receipts.Apply(m, w))
  {
    if w.Read? {
      var m' := Marked(m, w.room, w.reader, w.upTo, w.now);
      assert forall i :: 0 <= i < |m| ==> m'[i].msg == m[i].msg;
    }
  }

  lemma {:induction false} OrderedWritesKeepPrefix(ws: seq<Receipts.Write>, room: RoomId, reader: AccountId)
    requires KeyUnique(Receipts.Run(ws)) && Replay.CommittedInIdOrder(Receipts.Run(ws), room)
    ensures Receipts.ReadPrefix(Receipts.Run(ws), room, reader)
  {
    if ws == [] {
    } else {
      var m, m', w := Receipts.Run(ws[..|ws| - 1]), Receipts.Run(ws), ws[|ws| - 1];
      WriteIsLater(m, w);
      EarlierIsOrdered(m, m', room);
      OrderedWritesKeepPrefix(ws[..|ws| - 1], room, reader);
      match w {
        case Read(r, a, upTo, now) => Receipts.MarkedKeepsPrefix(m, room, reader, r, a, upTo, now);
        case Sent(msgs) =>
          SentLandsAbove(m, msgs, room, reader);
          Receipts.InsertKeepsPrefixIff(m, msgs, room, reader);
      }
    }
  }

  lemma SentLandsAbove(m: seq<Row>, msgs: seq<Message>, room: RoomId, reader: AccountId)
    requires KeyUnique(m + NewRows(msgs)) && Replay.CommittedInIdOrder(m + NewRows(msgs), room)
    ensures Receipts.NoneReadAbove(m, msgs, room, reader)
  {
    var m' := m + NewRows(msgs);
    forall i, k | 0 <= i < |m| && 0 <= k < |msgs|
      && Incoming(m[i].msg, room, reader) && Incoming(msgs[k], room, reader)
      ensures m[i].msg.id < msgs[k].id
    {
      assert m'[i] == m[i] && m'[|m| + k].msg == msgs[k];
    }
  }

  /**
   * What a reader has read of a room's incoming messages is always a prefix of them in id order,
   * whatever watermarks the MarkReads of the run carried.
   */
  lemma {:induction false} ReadsAreAPrefix(es: seq<Event>, room: RoomId, reader: AccountId)
    requires IsRun(es) && Replay.CommittedInIdOrder(StateAfter(es).w.t.messages, room)
    ensures Receipts.ReadPrefix(StateAfter(es).w.t.messages, room, reader)
  {
    RunsAreInductive(es);
    OrderedWritesKeepPrefix(StateAfter(es).writes, room, reader);
  }

  /**
   * With timestamps following ids too, a client that counts the incoming messages newer than the
   * marker it is given gets the room's unread count.
   */
  lemma {:induction false} MarkerGivesUnreadCount(es: seq<Event>, room: RoomId, reader: AccountId)
    requires IsRun(es) && Replay.CommittedInIdOrder(StateAfter(es).w.t.messages, room)
    requires Receipts.TsFollowsId(StateAfter(es).w.t.messages, room, reader)
    ensures var m := StateAfter(es).w.t.messages;
            Receipts.CountAbove(m, room, reader, NewestReadIncomingTs(m, room, reader))
              == Receipts.UnreadIn(m, room, reader)
  {
    ReadsAreAPrefix(es, room, reader);
    Receipts.MarkerCountsUnread(StateAfter(es).w.t.messages, room, reader);
  }
}
