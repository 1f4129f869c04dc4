/**
 * Which messages a client holds: exactly when one is lost to it, what a Subscribe recovers, and
 * what a client that lost none holds.
 */
module ClientMessages {
  import opened Common
  import opened Store
  import opened Handlers
  import opened Server
  import opened Subscriptions
  import opened OrderedRuns
  import opened Client
  import Invariant
  import Receipts
  import Replay

  /** The message is missing, and asking with the device's watermark will not bring it. */
  ghost predicate Lost(d: Receipts.Device, x: Message) {
    x !in d.log && !Store.After(x.id, Replay.Watermark(d.log))
  }

  /** No stored message for the client is lost to it. */
  ghost predicate Gapless(d: Receipts.Device, c: Client, m: seq<Row>) {
    forall i :: 0 <= i < |m| && Addressed(m[i].msg, c.room, c.me) ==> !Lost(d, m[i].msg)
  }

  /** The client holds every stored message for it of lower id. */
  ghost predicate HoldsBelow(d: Receipts.Device, c: Client, m: seq<Row>, x: Message) {
    forall i :: 0 <= i < |m| && Addressed(m[i].msg, c.room, c.me) && m[i].msg.id < x.id ==> m[i].msg in d.log
  }

  lemma ReceivedWatermark(d: Receipts.Device, r: Replayed)
    ensures var w, w' := Replay.Watermark(d.log), Replay.Watermark(d.Receive(r).log);
            forall id :: !Store.After(id, w') <==> !Store.After(id, w) || id <= r.msg.id
  {
    var log, log' := d.log, d.Receive(r).log;
    Replay.WatermarkIsMaximum(log);
    Replay.WatermarkIsMaximum(log');
    if r.msg in log {
      var i :| 0 <= i < |log| && log[i] == r.msg;
    } else {
      assert log'[..|log'| - 1] == log;
    }
  }

  /** A message frame opens a gap if and only if something below it is missing. */
  lemma ReceiveKeepsGaplessIff(d: Receipts.Device, c: Client, m: seq<Row>, r: Replayed)
    requires KeyUnique(m) && Gapless(d, c, m) && Replay.Stored(m, r.msg) && Addressed(r.msg, c.room, c.me)
    ensures Gapless(d.Receive(r), c, m) <==> HoldsBelow(d, c, m, r.msg)
  {
    var d' := d.Receive(r);
    Receipts.ReceiveFacts(d, r);
    ReceivedWatermark(d, r);
    var k :| 0 <= k < |m| && m[k].msg == r.msg;
    if Gapless(d', c, m) {
      forall i | 0 <= i < |m| && Addressed(m[i].msg, c.room, c.me) && m[i].msg.id < r.msg.id ensures m[i].msg in d.log {
        assert !Lost(d', m[i].msg) && !Store.After(m[i].msg.id, Replay.Watermark(d'.log));
        assert m[i].msg in d'.log && m[i].msg != r.msg;
      }
    }
    if HoldsBelow(d, c, m, r.msg) {
      forall i | 0 <= i < |m| && Addressed(m[i].msg, c.room, c.me) ensures !Lost(d', m[i].msg) {
        assert !Lost(d, m[i].msg);
        if m[i].msg.id == r.msg.id {
          SameKey(m, i, k);
        }
      }
    }
  }

  lemma SameKey(m: seq<Row>, i: nat, k: nat)
    requires KeyUnique(m) && i < |m| && k < |m| && m[i].msg.id == m[k].msg.id && m[i].msg.recipient == m[k].msg.recipient
    ensures i == k
  {
  }

  /** Every message frame that reached the client found all lower messages held. */
  ghost predicate InStep(es: seq<Event>, c: Client, gs: seq<Action>)
    requires IsRun(es)
  {
    gs == []
    || (var front, g := gs[..|gs| - 1], gs[|gs| - 1];
        && InStep(es, c, front)
        && (Received(es, c, front, g).Some? ==>
              HoldsBelow(DeviceOf(es, c, front), c, MessagesAt(es, |es|), Received(es, c, front, g).value.msg)))
  }

  /** At no point was a stored message for the client lost to it. */
  ghost predicate NeverGapped(es: seq<Event>, c: Client, gs: seq<Action>)
    requires IsRun(es)
  {
    Gapless(DeviceOf(es, c, gs), c, MessagesAt(es, |es|)) && (gs == [] || NeverGapped(es, c, gs[..|gs| - 1]))
  }

  lemma {:induction false} ActionKeepsGaplessIff(es: seq<Event>, c: Client, gs: seq<Action>, g: Action)
    requires IsRun(es) && Possible(es, c, gs, g) && Gapless(DeviceOf(es, c, gs), c, MessagesAt(es, |es|))
    ensures Gapless(DeviceOf(es, c, gs + [g]), c, MessagesAt(es, |es|))
            <==> (Received(es, c, gs, g).Some? ==>
                    HoldsBelow(DeviceOf(es, c, gs), c, MessagesAt(es, |es|), Received(es, c, gs, g).value.msg))
  {
    var d, r := DeviceOf(es, c, gs), Received(es, c, gs, g);
    assert (gs + [g])[..|gs|] == gs;
    ApplyFacts(d, r, ReadIds(es, c, g));
    if r.Some? {
      MessageFacts(es, c, gs, g);
      MessagesOnlyGrow(es, |es|, |es|);
      ReceiveKeepsGaplessIff(d, c, MessagesAt(es, |es|), r.value);
    }
  }

  /**
   * Exactly when a client never loses a message, whatever commits out of order, whichever lookups
   * fail and whenever live frames overtake replayed ones: it does if and only if every message frame
   * that reaches it finds all stored messages for it of lower id already held.
   */
  lemma {:induction false} NeverGappedIff(es: seq<Event>, c: Client, gs: seq<Action>)
    requires IsRun(es) && ClientRun(es, c, gs)
    ensures NeverGapped(es, c, gs) <==> InStep(es, c, gs)
  {
    if gs == [] {
    } else {
      var front, g := gs[..|gs| - 1], gs[|gs| - 1];
      NeverGappedIff(es, c, front);
      assert gs == front + [g];
      if NeverGapped(es, c, front) {
        ActionKeepsGaplessIff(es, c, front, g);
      }
    }
  }

  /**
   * What a client that never lost a message holds: exactly the full replay of the present table up
   * to its largest id, each message once, in id order.
   */
  lemma {:induction false} GaplessClientHoldsReplay(es: seq<Event>, c: Client, gs: seq<Action>)
    requires IsRun(es) && ClientRun(es, c, gs) && NeverGapped(es, c, gs)
    ensures KeyUnique(MessagesAt(es, |es|)) && SortedById(DeviceOf(es, c, gs).log)
    ensures var log, full := DeviceOf(es, c, gs).log, Store.Replay(MessagesAt(es, |es|), c.room, c.me, None);
            log == if log == [] then [] else Replay.AtMost(full, log[|log| - 1].id)
  {
    var log, now := DeviceOf(es, c, gs).log, MessagesAt(es, |es|);
    MessagesOnlyGrow(es, |es|, |es|);
    LogIsSorted(es, c, gs);
    LogIsStored(es, c, gs);
    if log != [] {
      HeldUpTo(log, now, c);
    }
  }

  /** Nothing but stored messages for the client is ever held. */
  lemma {:induction false} LogIsStored(es: seq<Event>, c: Client, gs: seq<Action>)
    requires IsRun(es) && ClientRun(es, c, gs)
    ensures forall x :: x in DeviceOf(es, c, gs).log ==>
              Replay.Stored(MessagesAt(es, |es|), x) && Addressed(x, c.room, c.me)
  {
    if gs == [] {
    } else {
      var front, g := gs[..|gs| - 1], gs[|gs| - 1];
      LogIsStored(es, c, front);
      ApplyFacts(DeviceOf(es, c, front), Received(es, c, front, g), ReadIds(es, c, g));
      if Received(es, c, front, g).Some? {
        MessageFacts(es, c, front, g);
        Receipts.ReceiveFacts(DeviceOf(es, c, front), Received(es, c, front, g).value);
      }
    }
  }

  lemma {:induction false} LogIsSorted(es: seq<Event>, c: Client, gs: seq<Action>)
    requires IsRun(es) && ClientRun(es, c, gs) && NeverGapped(es, c, gs)
    ensures SortedById(DeviceOf(es, c, gs).log)
  {
    if gs == [] {
    } else {
      var front, g := gs[..|gs| - 1], gs[|gs| - 1];
      LogIsSorted(es, c, front);
      ApplyFacts(DeviceOf(es, c, front), Received(es, c, front, g), ReadIds(es, c, g));
      if Received(es, c, front, g).Some? {
        MessageFacts(es, c, front, g);
        NewMessageIsAbove(DeviceOf(es, c, front), c, MessagesAt(es, |es|), Received(es, c, front, g).value);
      }
    }
  }

  lemma NewMessageIsAbove(d: Receipts.Device, c: Client, m: seq<Row>, r: Replayed)
    requires SortedById(d.log) && Gapless(d, c, m) && Replay.Stored(m, r.msg) && Addressed(r.msg, c.room, c.me)
    ensures SortedById(d.Receive(r).log)
  {
    var i :| 0 <= i < |m| && m[i].msg == r.msg;
    assert !Lost(d, r.msg);
    Replay.WatermarkIsMaximum(d.log);
  }

  lemma HeldUpTo(log: seq<Message>, now: seq<Row>, c: Client)
    requires log != [] && SortedById(log) && KeyUnique(now)
    requires forall x :: x in log ==> Replay.Stored(now, x) && Addressed(x, c.room, c.me)
    requires forall i :: 0 <= i < |now| && Addressed(now[i].msg, c.room, c.me) ==>
               now[i].msg in log || Store.After(now[i].msg.id, Replay.Watermark(log))
    ensures log == Replay.AtMost(Store.Replay(now, c.room, c.me, None), log[|log| - 1].id)
  {
    var full, last := Store.Replay(now, c.room, c.me, None), log[|log| - 1].id;
    ReplayFacts(now, c.room, c.me, None);
    Replay.AtMostFacts(full, last);
    Replay.WatermarkIsLast(log);
    forall x | x in log ensures x in full && x.id <= last {
      var i :| 0 <= i < |log| && log[i] == x;
      assert Replay.Stored(now, x);
    }
    forall x | x in full && x.id <= last ensures x in log {
      var i :| 0 <= i < |now| && now[i].msg == x;
    }
    SortedUnique(log, Replay.AtMost(full, last));
  }

  // ---------------------------------------------------------------------------------------------
  // One Subscribe

  /** All frames of the Subscribe have been sent and received, and none of its lookups failed. */
  ghost predicate Complete(es: seq<Event>, c: Client, gs: seq<Action>, h: nat)
    requires IsRun(es)
  {
    && IsSubscribe(es, c, h) && IsSubscribed(es, h) && Got(gs, h) == |StateAfter(es).handlers[h].sent|
    && forall i: nat :: !RowFaulted(es, h, i)
  }

  /** The replay query of the Subscribe saw this message for the client. */
  ghost predicate Saw(es: seq<Event>, c: Client, h: nat, x: Message)
    requires IsRun(es)
  {
    IsSubscribe(es, c, h) && Replay.Stored(StateAfter(es).handlers[h].seen, x) && Addressed(x, c.room, c.me)
  }

  /** The i-th frame of a Subscribe is held once it was received. */
  lemma {:induction false} GotIsHeld(es: seq<Event>, c: Client, gs: seq<Action>, h: nat, i: nat)
    requires IsRun(es) && ClientRun(es, c, gs) && IsSubscribe(es, c, h)
    requires i < Got(gs, h)
    ensures i < |StateAfter(es).handlers[h].sent| && StateAfter(es).handlers[h].sent[i].msg in DeviceOf(es, c, gs).log
  {
    if gs == [] {
    } else {
      var front, g := gs[..|gs| - 1], gs[|gs| - 1];
      ApplyFacts(DeviceOf(es, c, front), Received(es, c, front, g), ReadIds(es, c, g));
      if i < Got(front, h) {
        GotIsHeld(es, c, front, h, i);
      }
    }
  }

  /** A Subscribe brings everything it saw that was not lost when it was asked. */
  lemma {:induction false} NotLostIsHeld(es: seq<Event>, c: Client, gs: seq<Action>, n: nat, h: nat, x: Message)
    requires IsRun(es) && ClientRun(es, c, gs) && n < |gs| && gs[n] == Ask(h) && Complete(es, c, gs, h)
    requires Saw(es, c, h, x)
    requires !Lost(DeviceOf(es, c, gs[..n]), x)
    ensures x in DeviceOf(es, c, gs).log
  {
    PrefixIsClientRun(es, c, gs, n);
    DeviceOnlyGrows(es, c, gs, n);
    if x !in DeviceOf(es, c, gs[..n]).log {
      var s := StateAfter(es).handlers[h];
      SubscribeFacts(es, c, h);
      RowsAreSentUnlessFaulted(es, h);
      var i := SeenIsSent(s, x);
      GotIsHeld(es, c, gs, h, i);
    }
  }

  lemma SeenIsSent(s: Handler, x: Message) returns (i: nat)
    requires s.Subscribed? && KeyUnique(s.seen) && s.sent == RowsOf(s)
    requires Replay.Stored(s.seen, x) && Addressed(x, s.room, s.me) && Store.After(x.id, s.since)
    ensures i < |s.sent| && s.sent[i].msg == x
  {
    ReplayFacts(s.seen, s.room, s.me, s.since);
    assert x in Store.Replay(s.seen, s.room, s.me, s.since);
    i :| 0 <= i < |s.sent| && Store.Replay(s.seen, s.room, s.me, s.since)[i] == x;
  }

  /** The last action received `x`. */
  ghost predicate LastBrings(es: seq<Event>, c: Client, gs: seq<Action>, x: Message)
    requires IsRun(es) && gs != []
  {
    var r := Received(es, c, gs[..|gs| - 1], gs[|gs| - 1]);
    r.Some? && r.value.msg == x
  }

  /** From position `n` on, `x` came as a live frame or from a Subscribe asked before `n`. */
  ghost predicate CameOtherwise(es: seq<Event>, c: Client, gs: seq<Action>, n: nat, x: Message)
    requires IsRun(es)
  {
    n < |gs|
    && (|| CameOtherwise(es, c, gs[..|gs| - 1], n, x)
        || (LastBrings(es, c, gs, x) && IsOther(gs[|gs| - 1], gs[..n])))
  }

  ghost predicate IsOther(g: Action, before: seq<Action>) {
    g.Live? || (g.Frame? && Ask(g.h) in before)
  }

  lemma {:induction false} WatermarkOnlyGrows(es: seq<Event>, c: Client, gs: seq<Action>, n: nat, id: MessageId)
    requires IsRun(es) && n <= |gs| && !Store.After(id, Replay.Watermark(DeviceOf(es, c, gs[..n]).log))
    ensures !Store.After(id, Replay.Watermark(DeviceOf(es, c, gs).log))
  {
    DeviceOnlyGrows(es, c, gs, n);
    var log, log' := DeviceOf(es, c, gs[..n]).log, DeviceOf(es, c, gs).log;
    Replay.WatermarkIsMaximum(log);
    Replay.WatermarkIsMaximum(log');
    var i :| 0 <= i < |log| && log[i].id == Replay.Watermark(log).value;
    assert log'[i] == log[i];
  }

  lemma {:induction false} OneMoreMessage(es: seq<Event>, c: Client, gs: seq<Action>, x: Message)
    requires IsRun(es) && gs != []
    ensures x in DeviceOf(es, c, gs).log <==> x in DeviceOf(es, c, gs[..|gs| - 1]).log || LastBrings(es, c, gs, x)
  {
    var front, g := gs[..|gs| - 1], gs[|gs| - 1];
    ApplyFacts(DeviceOf(es, c, front), Received(es, c, front, g), ReadIds(es, c, g));
    if Received(es, c, front, g).Some? {
      Receipts.ReceiveFacts(DeviceOf(es, c, front), Received(es, c, front, g).value);
    }
  }

  lemma {:induction false} BroughtOtherwise(es: seq<Event>, c: Client, gs: seq<Action>, n: nat, x: Message)
    requires IsRun(es) && ClientRun(es, c, gs) && n < |gs| && Lost(DeviceOf(es, c, gs[..n]), x)
    ensures LastBrings(es, c, gs, x) ==> IsOther(gs[|gs| - 1], gs[..n])
  {
    var front, g := gs[..|gs| - 1], gs[|gs| - 1];
    assert front[..n] == gs[..n];
    if g.Frame? && Ask(g.h) !in gs[..n] {
      LaterSubscribeSkips(es, c, front, n, g.h, x);
    }
  }

  lemma {:induction false} HeldAfterLossIff(es: seq<Event>, c: Client, gs: seq<Action>, n: nat, x: Message)
    requires IsRun(es) && ClientRun(es, c, gs) && n <= |gs| && Lost(DeviceOf(es, c, gs[..n]), x)
    ensures x in DeviceOf(es, c, gs).log <==> CameOtherwise(es, c, gs, n, x)
  {
    if n == |gs| {
      assert gs[..n] == gs;
    } else {
      var front := gs[..|gs| - 1];
      assert front[..n] == gs[..n];
      HeldAfterLossIff(es, c, front, n, x);
      OneMoreMessage(es, c, gs, x);
      BroughtOtherwise(es, c, gs, n, x);
    }
  }

  /**
   * A message once lost stays lost, unless it comes as a live frame or from a Subscribe that was
   * asked before: no Subscribe asked from then on brings it.
   */
  lemma {:induction false} LostForGoodIff(es: seq<Event>, c: Client, gs: seq<Action>, n: nat, x: Message)
    requires IsRun(es) && ClientRun(es, c, gs) && n <= |gs| && Lost(DeviceOf(es, c, gs[..n]), x)
    ensures Lost(DeviceOf(es, c, gs), x) <==> !CameOtherwise(es, c, gs, n, x)
  {
    WatermarkOnlyGrows(es, c, gs, n, x.id);
    HeldAfterLossIff(es, c, gs, n, x);
  }

  /** A Subscribe asked at a time when `x` was at or below the watermark has no frame for `x`. */
  lemma {:induction false} LaterSubscribeSkips(es: seq<Event>, c: Client, gs: seq<Action>, n: nat, h: nat, x: Message)
    requires IsRun(es) && ClientRun(es, c, gs) && n <= |gs| && Possible(es, c, gs, Frame(h)) && Ask(h) !in gs[..n]
    requires !Store.After(x.id, Replay.Watermark(DeviceOf(es, c, gs[..n]).log))
    ensures StateAfter(es).handlers[h].sent[Got(gs, h)].msg != x
  {
    assert forall i :: 0 <= i < n ==> gs[i] == gs[..n][i] && gs[i] in gs[..n];
    var j :| 0 <= j < |gs| && gs[j] == Ask(h);
    PrefixIsClientRun(es, c, gs, j);
    assert gs[..j][..n] == gs[..n];
    WatermarkOnlyGrows(es, c, gs[..j], n, x.id);
    SubscribeFacts(es, c, h);
    FrameFacts(StateAfter(es).handlers[h], MessagesAt(es, |es|), Got(gs, h));
  }

  /**
   * What a Subscribe recovers, whatever the client held and however it got it. After a Subscribe
   * without failed lookups whose frames were all received, a message it saw is held if and only if
   * it was not lost when the Subscribe was asked, or has come otherwise since.
   */
  lemma {:induction false} HeldIff(es: seq<Event>, c: Client, gs: seq<Action>, n: nat, h: nat, x: Message)
    requires IsRun(es) && ClientRun(es, c, gs) && n < |gs| && gs[n] == Ask(h) && Complete(es, c, gs, h)
    requires Saw(es, c, h, x)
    ensures x in DeviceOf(es, c, gs).log <==> !Lost(DeviceOf(es, c, gs[..n]), x) || CameOtherwise(es, c, gs, n, x)
  {
    if Lost(DeviceOf(es, c, gs[..n]), x) {
      HeldAfterLossIff(es, c, gs, n, x);
    } else {
      NotLostIsHeld(es, c, gs, n, h, x);
    }
  }

  // ---------------------------------------------------------------------------------------------
  // With ids committed in order

  ghost predicate NoRowFaulted(es: seq<Event>, gs: seq<Action>)
    requires IsRun(es)
  {
    forall h, i: nat :: Ask(h) in gs ==> !RowFaulted(es, h, i)
  }

  /** Every live frame found all messages of lower id that were stored before it already held. */
  ghost predicate LiveInStep(es: seq<Event>, c: Client, gs: seq<Action>)
    requires IsRun(es)
  {
    gs == []
    || (var front, g := gs[..|gs| - 1], gs[|gs| - 1];
        && LiveInStep(es, c, front)
        && (g.Live? && g.k < |es| ==> HoldsBelow(DeviceOf(es, c, front), c, MessagesAt(es, g.k + 1), g.x)))
  }

  /** In a table with ordered ids, what is below a message was stored before it. */
  lemma BelowIsEarlier(m: seq<Row>, m': seq<Row>, c: Client, x: Message, y: Message)
    requires Later(m, m') && Replay.CommittedInIdOrder(m', c.room)
    requires Replay.Stored(m, x) && Replay.Stored(m', y) && x.room == y.room == c.room && y.id < x.id
    ensures Replay.Stored(m, y)
  {
    var i :| 0 <= i < |m| && m[i].msg == x;
    var j :| 0 <= j < |m'| && m'[j].msg == y;
    assert m'[i].msg == x;
    assert j < |m|;
    assert m[j].msg == y;
  }

  lemma HoldsBelowEarlier(d: Receipts.Device, c: Client, m: seq<Row>, m': seq<Row>, x: Message)
    requires Later(m, m') && Replay.CommittedInIdOrder(m', c.room) && Replay.Stored(m, x) && x.room == c.room
    ensures HoldsBelow(d, c, m, x) <==> HoldsBelow(d, c, m', x)
  {
    if HoldsBelow(d, c, m, x) {
      forall j | 0 <= j < |m'| && Addressed(m'[j].msg, c.room, c.me) && m'[j].msg.id < x.id ensures m'[j].msg in d.log {
        BelowIsEarlier(m, m', c, x, m'[j].msg);
        var i :| 0 <= i < |m| && m[i].msg == m'[j].msg;
      }
    }
    if HoldsBelow(d, c, m', x) {
      forall i | 0 <= i < |m| && Addressed(m[i].msg, c.room, c.me) && m[i].msg.id < x.id ensures m[i].msg in d.log {
        assert m'[i].msg == m[i].msg;
      }
    }
  }

  /** Without failed lookups the frames sent so far are the first rows. */
  lemma {:induction false} SentAreFirstRows(es: seq<Event>, c: Client, h: nat)
    requires IsRun(es) && IsSubscribe(es, c, h) && forall i: nat :: !RowFaulted(es, h, i)
    ensures var s := StateAfter(es).handlers[h];
            var rows := MessagesForRecipient(s.seen, c.room, c.me, s.since);
            |s.sent| <= |rows| && s.sent == rows[..|s.sent|]
  {
    RunsAreInductive(es);
    RunsAreTracked(es, h);
    var w, s := StateAfter(es).w, StateAfter(es).handlers[h];
    var rows := MessagesForRecipient(s.seen, c.room, c.me, s.since);
    assert Invariant.HandlerOk(w, s) && Tracked(s, FaultPoints(es, h));
    var n := if s.SubRows? then s.next else |rows|;
    forall i, j | 0 <= i < j < |rows| ensures rows[i] != rows[j] {
      RowsAreDistinct(s.seen, c.room, c.me, s.since, j);
      assert rows[..j][i] == rows[i];
    }
    forall i | 0 <= i < n ensures rows[i] in s.sent {
      assert !RowFaulted(es, h, i);
    }
    PartWithAllRows(s.sent, rows, n);
  }

  /** A row of the Subscribe below its next frame has been received, or was below the watermark. */
  lemma EarlierRow(s: Handler, n: nat, y: Message) returns (j: nat)
    requires HasSeen(s) && KeyUnique(s.seen)
    requires var rows := MessagesForRecipient(s.seen, s.room, s.me, s.since);
             |s.sent| <= |rows| && s.sent == rows[..|s.sent|]
    requires n < |s.sent| && y.id < s.sent[n].msg.id
    requires Replay.Stored(s.seen, y) && Addressed(y, s.room, s.me) && Store.After(y.id, s.since)
    ensures j < n && s.sent[j].msg == y
  {
    var rows, msgs := MessagesForRecipient(s.seen, s.room, s.me, s.since), Store.Replay(s.seen, s.room, s.me, s.since);
    ReplayFacts(s.seen, s.room, s.me, s.since);
    assert y in msgs;
    j :| 0 <= j < |msgs| && msgs[j] == y;
    assert rows[n] == s.sent[n] && rows[n].msg == msgs[n] && rows[j].msg == y;
    assert j < n;
  }

  /** With ordered ids and no failed lookup, a replayed frame never opens a gap. */
  lemma {:induction false} FrameIsInStep(es: seq<Event>, c: Client, gs: seq<Action>, h: nat)
    requires IsRun(es) && ClientRun(es, c, gs) && NeverGapped(es, c, gs) && Possible(es, c, gs, Frame(h))
    requires Replay.CommittedInIdOrder(MessagesAt(es, |es|), c.room) && forall i: nat :: !RowFaulted(es, h, i)
    ensures HoldsBelow(DeviceOf(es, c, gs), c, MessagesAt(es, |es|), StateAfter(es).handlers[h].sent[Got(gs, h)].msg)
  {
    var s, n := StateAfter(es).handlers[h], Got(gs, h);
    var d, now, x := DeviceOf(es, c, gs), MessagesAt(es, |es|), s.sent[n].msg;
    SubscribeFacts(es, c, h);
    SentAreFirstRows(es, c, h);
    FrameFacts(s, now, n);
    forall i | 0 <= i < |now| && Addressed(now[i].msg, c.room, c.me) && now[i].msg.id < x.id ensures now[i].msg in d.log {
      var y := now[i].msg;
      assert Replay.Stored(now, y);
      BelowIsEarlier(s.seen, now, c, x, y);
      if Store.After(y.id, s.since) {
        var j := EarlierRow(s, n, y);
        GotIsHeld(es, c, gs, h, j);
      } else {
        HeldWhenAsked(es, c, gs, h, i);
      }
    }
  }

  lemma {:induction false} HeldWhenAsked(es: seq<Event>, c: Client, gs: seq<Action>, h: nat, i: nat)
    requires IsRun(es) && ClientRun(es, c, gs) && NeverGapped(es, c, gs) && Ask(h) in gs
    requires i < |MessagesAt(es, |es|)| && Addressed(MessagesAt(es, |es|)[i].msg, c.room, c.me)
    requires IsSubscribe(es, c, h) && !Store.After(MessagesAt(es, |es|)[i].msg.id, StateAfter(es).handlers[h].since)
    ensures MessagesAt(es, |es|)[i].msg in DeviceOf(es, c, gs).log
  {
    var n :| 0 <= n < |gs| && gs[n] == Ask(h);
    PrefixIsClientRun(es, c, gs, n);
    PrefixIsGapless(es, c, gs, n);
    assert !Lost(DeviceOf(es, c, gs[..n]), MessagesAt(es, |es|)[i].msg);
    DeviceOnlyGrows(es, c, gs, n);
  }

  lemma {:induction false} PrefixIsGapless(es: seq<Event>, c: Client, gs: seq<Action>, n: nat)
    requires IsRun(es) && NeverGapped(es, c, gs) && n <= |gs|
    ensures Gapless(DeviceOf(es, c, gs[..n]), c, MessagesAt(es, |es|))
  {
    if n == |gs| {
      assert gs[..n] == gs;
    } else {
      PrefixIsGapless(es, c, gs[..|gs| - 1], n);
      assert gs[..|gs| - 1][..n] == gs[..n];
    }
  }

  /** One action of such a client opens a gap only as a live frame that came too early. */
  lemma {:induction false} OrderedActionKeepsGaplessIff(es: seq<Event>, c: Client, gs: seq<Action>, g: Action)
    requires IsRun(es) && ClientRun(es, c, gs) && NeverGapped(es, c, gs) && Possible(es, c, gs, g)
    requires g.Frame? ==> forall i: nat :: !RowFaulted(es, g.h, i)
    requires Replay.CommittedInIdOrder(MessagesAt(es, |es|), c.room)
    ensures Gapless(DeviceOf(es, c, gs + [g]), c, MessagesAt(es, |es|))
            <==> (g.Live? && g.k < |es| ==> HoldsBelow(DeviceOf(es, c, gs), c, MessagesAt(es, g.k + 1), g.x))
  {
    ActionKeepsGaplessIff(es, c, gs, g);
    if g.Frame? {
      FrameIsInStep(es, c, gs, g.h);
    } else if g.Live? {
      LiveIsStored(es, c, g.k, g.x);
      MessagesOnlyGrow(es, g.k + 1, |es|);
      HoldsBelowEarlier(DeviceOf(es, c, gs), c, MessagesAt(es, g.k + 1), MessagesAt(es, |es|), g.x);
    }
  }

  /**
   * With ids of the room committed in order and no failed lookup, a client never loses a message if
   * and only if no live frame overtakes an earlier message it has not received yet.
   */
  lemma {:induction false} OrderedClientNeverGappedIff(es: seq<Event>, c: Client, gs: seq<Action>)
    requires IsRun(es) && ClientRun(es, c, gs) && NoRowFaulted(es, gs)
    requires Replay.CommittedInIdOrder(MessagesAt(es, |es|), c.room)
    ensures NeverGapped(es, c, gs) <==> LiveInStep(es, c, gs)
  {
    if gs == [] {
    } else {
      var front, g := gs[..|gs| - 1], gs[|gs| - 1];
      assert gs == front + [g] && forall a :: a in front ==> a in gs;
      OrderedClientNeverGappedIff(es, c, front);
      if NeverGapped(es, c, front) {
        OrderedActionKeepsGaplessIff(es, c, front, g);
      }
    }
  }

  /**
   * A client that reconnects any number of times, at any moments of a run, and never sees a live
   * frame overtake an earlier message, holds the messages for it up to its largest id, each once, in
   * id order, and everything that any of its completed Subscribes saw.
   */
  lemma {:induction false} ReconnectingClientIsComplete(es: seq<Event>, c: Client, gs: seq<Action>)
    requires IsRun(es) && ClientRun(es, c, gs) && NoRowFaulted(es, gs) && LiveInStep(es, c, gs)
    requires Replay.CommittedInIdOrder(MessagesAt(es, |es|), c.room)
    ensures KeyUnique(MessagesAt(es, |es|)) && SortedById(DeviceOf(es, c, gs).log)
    ensures var log, full := DeviceOf(es, c, gs).log, Store.Replay(MessagesAt(es, |es|), c.room, c.me, None);
            log == if log == [] then [] else Replay.AtMost(full, log[|log| - 1].id)
    ensures forall h, x :: Ask(h) in gs && Complete(es, c, gs, h) && Saw(es, c, h, x) ==> x in DeviceOf(es, c, gs).log
  {
    OrderedClientNeverGappedIff(es, c, gs);
    GaplessClientHoldsReplay(es, c, gs);
    forall h, x | Ask(h) in gs && Complete(es, c, gs, h) && Saw(es, c, h, x)
      ensures x in DeviceOf(es, c, gs).log
    {
      SeenIsHeld(es, c, gs, h, x);
    }
  }

  lemma {:induction false} SeenIsHeld(es: seq<Event>, c: Client, gs: seq<Action>, h: nat, x: Message)
    requires IsRun(es) && ClientRun(es, c, gs) && NeverGapped(es, c, gs) && Ask(h) in gs && Complete(es, c, gs, h)
    requires Saw(es, c, h, x)
    ensures x in DeviceOf(es, c, gs).log
  {
    var n :| 0 <= n < |gs| && gs[n] == Ask(h);
    SubscribeFacts(es, c, h);
    Replay.StoredLater(StateAfter(es).handlers[h].seen, MessagesAt(es, |es|), x);
    PrefixIsGapless(es, c, gs, n);
    NotLostIsHeld(es, c, gs, n, h, x);
  }

  // ---------------------------------------------------------------------------------------------
  // The table a Subscribe saw

  lemma SeenByEvent(s: System, e: Event, h: nat)
    requires Enabled(s, e) && h in Next(s, e).handlers && HasSeen(Next(s, e).handlers[h])
    ensures h in s.handlers
    ensures var c, c' := s.handlers[h], Next(s, e).handlers[h];
            (HasSeen(c) && c'.seen == c.seen) || (!HasSeen(c) && c'.seen == s.w.t.messages)
  {
    if e == Fault(h) {
      SeenByFault(s.handlers[h]);
    } else if e.Run? && e.h == h {
      SeenByRun(s, h, e.env);
    }
  }

  lemma SeenByRun(s: System, h: nat, env: Env)
    requires Enabled(s, Run(h, env))
    ensures var c, c' := s.handlers[h], Next(s, Run(h, env)).handlers[h];
            HasSeen(c') ==> (HasSeen(c) && c'.seen == c.seen) || (c.SubReplay? && c'.seen == s.w.t.messages)
  {
    if !InSubscribe(s.handlers[h]) {
      OthersStayOthers(s.w.t, s.handlers[h], env);
    }
  }

  lemma SeenByFault(c: Handler)
    requires !Handlers.Done(c)
    ensures HasSeen(AfterFault(c)) ==> HasSeen(c) && AfterFault(c).seen == c.seen
  {
  }

  /** The replay query of a Subscribe saw the table of some moment after the Subscribe was asked. */
  lemma {:induction false} SeenIsATable(es: seq<Event>, h: nat, asked: nat) returns (j: nat)
    requires IsRun(es) && asked <= |es| && h !in StateAt(es, asked).handlers
    requires h in StateAfter(es).handlers && HasSeen(StateAfter(es).handlers[h])
    ensures asked <= j <= |es| && StateAfter(es).handlers[h].seen == MessagesAt(es, j)
  {
    AtEnd(es);
    if asked == |es| {
      assert false;
    } else {
      var n := |es| - 1;
      AtPrefix(es, n, asked);
      SeenByEvent(StateAfter(es[..n]), es[n], h);
      if HasSeen(StateAfter(es[..n]).handlers[h]) {
        j := SeenIsATable(es[..n], h, asked);
        AtPrefix(es, n, j);
      } else {
        j := n;
      }
    }
  }

  /** So what was stored for the client before it asked was seen, and is held if it was not lost then. */
  lemma {:induction false} StoredBeforeAskingIsHeld(
      es: seq<Event>, c: Client, gs: seq<Action>, n: nat, h: nat, asked: nat, x: Message)
    requires IsRun(es) && ClientRun(es, c, gs) && n < |gs| && gs[n] == Ask(h) && Complete(es, c, gs, h)
    requires asked <= |es| && h !in StateAt(es, asked).handlers
    requires Replay.Stored(MessagesAt(es, asked), x) && Addressed(x, c.room, c.me) && !Lost(DeviceOf(es, c, gs[..n]), x)
    ensures x in DeviceOf(es, c, gs).log
  {
    var j := SeenIsATable(es, h, asked);
    MessagesOnlyGrow(es, asked, j);
    Replay.StoredLater(MessagesAt(es, asked), MessagesAt(es, j), x);
    NotLostIsHeld(es, c, gs, n, h, x);
  }

  // ---------------------------------------------------------------------------------------------
  // A failed lookup

  /** The rows of a Subscribe are above what the device held when it asked, and strictly ordered. */
  lemma RowsAreNew(d: Receipts.Device, s: Handler)
    requires s.Subscribed? && s.since == Replay.Watermark(d.log) && KeyUnique(s.seen)
    ensures forall i, k :: 0 <= i < |RowsOf(s)| && 0 <= k < |d.log| ==> d.log[k].id < RowsOf(s)[i].msg.id
    ensures forall i, j :: 0 <= i < j < |RowsOf(s)| ==> RowsOf(s)[i].msg.id < RowsOf(s)[j].msg.id
  {
    ReplayFacts(s.seen, s.room, s.me, s.since);
    Replay.WatermarkIsMaximum(d.log);
    forall i, k | 0 <= i < |RowsOf(s)| && 0 <= k < |d.log| ensures d.log[k].id < RowsOf(s)[i].msg.id {
      assert RowsOf(s)[i].msg in Store.Replay(s.seen, s.room, s.me, s.since);
    }
  }

  /** After all its frames the device holds what it held, and the messages of sent rows. */
  lemma HeldAfterFrames(d: Receipts.Device, s: Handler, x: Message)
    requires s.Subscribed? && Receipts.FromReplay(s.sent, s.seen, s.room, s.me, s.since)
    ensures x in d.ApplyReplay(s.sent).log
            <==> x in d.log || exists j :: 0 <= j < |RowsOf(s)| && RowsOf(s)[j] in s.sent && RowsOf(s)[j].msg == x
  {
    Receipts.ApplyReplayHolds(d, s.sent);
    if x in Messages(s.sent) {
      var k :| 0 <= k < |s.sent| && Messages(s.sent)[k] == x;
      assert s.sent[k] in s.sent && s.sent[k] in RowsOf(s);
      var j :| 0 <= j < |RowsOf(s)| && RowsOf(s)[j] == s.sent[k];
    }
    if j :| 0 <= j < |RowsOf(s)| && RowsOf(s)[j] in s.sent && RowsOf(s)[j].msg == x {
      var k :| 0 <= k < |s.sent| && s.sent[k] == RowsOf(s)[j];
      assert Messages(s.sent)[k] == x;
    }
  }

  lemma UnsentIsMissing(d: Receipts.Device, s: Handler, i: nat)
    requires s.Subscribed? && s.since == Replay.Watermark(d.log) && KeyUnique(s.seen)
    requires Receipts.FromReplay(s.sent, s.seen, s.room, s.me, s.since)
    requires i < |RowsOf(s)| && RowsOf(s)[i] !in s.sent
    ensures RowsOf(s)[i].msg !in d.ApplyReplay(s.sent).log
  {
    var x := RowsOf(s)[i].msg;
    RowsAreNew(d, s);
    HeldAfterFrames(d, s, x);
    forall j | 0 <= j < |RowsOf(s)| && RowsOf(s)[j] in s.sent ensures RowsOf(s)[j].msg.id != x.id {
      assert j != i;
    }
    assert x !in d.log;
  }

  lemma LaterFrameLosesIt(d: Receipts.Device, s: Handler, i: nat, j: nat)
    requires s.Subscribed? && s.since == Replay.Watermark(d.log) && KeyUnique(s.seen)
    requires Receipts.FromReplay(s.sent, s.seen, s.room, s.me, s.since)
    requires i < j < |RowsOf(s)| && RowsOf(s)[j] in s.sent
    ensures !Store.After(RowsOf(s)[i].msg.id, Replay.Watermark(d.ApplyReplay(s.sent).log))
  {
    var log := d.ApplyReplay(s.sent).log;
    RowsAreNew(d, s);
    HeldAfterFrames(d, s, RowsOf(s)[j].msg);
    Replay.WatermarkIsMaximum(log);
    var k :| 0 <= k < |log| && log[k] == RowsOf(s)[j].msg;
  }

  lemma WithoutLaterFrameItIsAsked(d: Receipts.Device, s: Handler, i: nat)
    requires s.Subscribed? && s.since == Replay.Watermark(d.log) && KeyUnique(s.seen)
    requires Receipts.FromReplay(s.sent, s.seen, s.room, s.me, s.since)
    requires i < |RowsOf(s)| && forall j :: i <= j < |RowsOf(s)| ==> RowsOf(s)[j] !in s.sent
    ensures Store.After(RowsOf(s)[i].msg.id, Replay.Watermark(d.ApplyReplay(s.sent).log))
  {
    var log := d.ApplyReplay(s.sent).log;
    RowsAreNew(d, s);
    Replay.WatermarkIsMaximum(log);
    forall k | 0 <= k < |log| ensures log[k].id < RowsOf(s)[i].msg.id {
      HeldAfterFrames(d, s, log[k]);
      assert log[k] in log;
      if log[k] in d.log {
        var k' :| 0 <= k' < |d.log| && d.log[k'] == log[k];
      } else {
        var j :| 0 <= j < |RowsOf(s)| && RowsOf(s)[j] in s.sent && RowsOf(s)[j].msg == log[k];
        assert j < i;
      }
    }
  }

  /**
   * A replayed row whose sender lookup failed is lost, to any client that asked with its watermark
   * and received the frames, if and only if a later row of the same Subscribe got through; otherwise
   * the next Subscribe asks for it again.
   */
  lemma {:induction false} FaultedRowIsLostIff(es: seq<Event>, d: Receipts.Device, h: nat, i: nat)
    requires IsSubscribed(es, h) && StateAfter(es).handlers[h].since == Replay.Watermark(d.log)
    requires i < |RowsOf(StateAfter(es).handlers[h])| && RowFaulted(es, h, i)
    ensures var s := StateAfter(es).handlers[h];
            Lost(d.ApplyReplay(s.sent), RowsOf(s)[i].msg) <==> exists j :: i < j < |RowsOf(s)| && !RowFaulted(es, h, j)
  {
    var s := StateAfter(es).handlers[h];
    SubscribeFacts(es, Client(s.me, s.room), h);
    RowsAreSentUnlessFaulted(es, h);
    UnsentIsMissing(d, s, i);
    if j :| i < j < |RowsOf(s)| && !RowFaulted(es, h, j) {
      LaterFrameLosesIt(d, s, i, j);
    } else {
      forall j | i <= j < |RowsOf(s)| ensures RowsOf(s)[j] !in s.sent {
        assert RowFaulted(es, h, j);
      }
      WithoutLaterFrameItIsAsked(d, s, i);
    }
  }
}
