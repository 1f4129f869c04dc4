/**
 * What a finished Subscribe has sent, in any run: the replayed rows whose sender lookup did not
 * fail, and the `Read` frame unless a read-state query failed.
 */
module Subscriptions {
  import opened Common
  import opened Store
  import opened Tables
  import opened Handlers
  import opened Invariant
  import opened Server
  import Queries
  import Receipts

  /** The points at which a database call of handler `h` failed, in the order of the run. */
  ghost function FaultPoints(es: seq<Event>, h: nat): seq<Handler>
    requires IsRun(es)
  {
    if es == [] then []
    else
      var front := es[..|es| - 1];
      FaultPoints(front, h) + (if es[|es| - 1] == Fault(h) then [StateAfter(front).handlers[h]] else [])
  }

  ghost predicate FaultedAtRow(faults: seq<Handler>, i: nat) {
    exists c :: c in faults && c.SubRows? && c.next == i
  }

  ghost predicate FaultedAtReadState(faults: seq<Handler>) {
    exists c :: c in faults && (c.SubBackfill? || c.SubReader?)
  }

  /** The sender lookup of replayed row `i` failed. */
  ghost predicate RowFaulted(es: seq<Event>, h: nat, i: nat)
    requires IsRun(es)
  {
    FaultedAtRow(FaultPoints(es, h), i)
  }

  /** The backfill query or the partner lookup failed. */
  ghost predicate ReadStateFaulted(es: seq<Event>, h: nat)
    requires IsRun(es)
  {
    FaultedAtReadState(FaultPoints(es, h))
  }

  ghost predicate RowsTracked(sent: seq<Replayed>, rows: seq<Replayed>, n: nat, faults: seq<Handler>) {
    && n <= |rows|
    && (forall i :: 0 <= i < n ==> (rows[i] in sent <==> !FaultedAtRow(faults, i)))
    && (forall i: nat :: i >= n ==> !FaultedAtRow(faults, i))
  }

  /** What the failures of a Subscribe say about the point it has reached. */
  ghost predicate Tracked(c: Handler, faults: seq<Handler>) {
    match c
    case SubCheck(_, _, _) => faults == []
    case SubReplay(_, _, _) => faults == []
    case SubRows(me, room, since, seen, next, sent) =>
      RowsTracked(sent, MessagesForRecipient(seen, room, me, since), next, faults) && !FaultedAtReadState(faults)
    case SubBackfill(me, room, since, seen, sent) =>
      AllTracked(sent, MessagesForRecipient(seen, room, me, since), faults) && !FaultedAtReadState(faults)
    case SubReader(me, room, since, seen, sent, _) =>
      AllTracked(sent, MessagesForRecipient(seen, room, me, since), faults) && !FaultedAtReadState(faults)
    case Subscribed(me, room, since, seen, sent, _, answered, _) =>
      AllTracked(sent, MessagesForRecipient(seen, room, me, since), faults) && (answered <==> !FaultedAtReadState(faults))
    case _ => true
  }

  ghost predicate AllTracked(sent: seq<Replayed>, rows: seq<Replayed>, faults: seq<Handler>) {
    RowsTracked(sent, rows, |rows|, faults)
  }

  lemma OneMoreFault(faults: seq<Handler>, c: Handler)
    ensures forall i: nat :: FaultedAtRow(faults + [c], i) <==> FaultedAtRow(faults, i) || (c.SubRows? && c.next == i)
    ensures FaultedAtReadState(faults + [c]) <==> FaultedAtReadState(faults) || c.SubBackfill? || c.SubReader?
  {
    assert forall x :: x in faults + [c] <==> x in faults || x == c;
    assert c in faults + [c];
  }

  /** A replay returns no row twice. */
  lemma RowsAreDistinct(m: seq<Row>, room: RoomId, me: AccountId, since: Option<MessageId>, n: nat)
    requires KeyUnique(m) && n < |MessagesForRecipient(m, room, me, since)|
    ensures var rows := MessagesForRecipient(m, room, me, since); rows[n] !in rows[..n]
  {
    ReplayFacts(m, room, me, since);
    var rows := MessagesForRecipient(m, room, me, since);
    forall i | 0 <= i < n ensures rows[i] != rows[n] {
      assert rows[i].msg.id < rows[n].msg.id;
    }
  }

  lemma RowSent(sent: seq<Replayed>, rows: seq<Replayed>, n: nat, faults: seq<Handler>)
    requires RowsTracked(sent, rows, n, faults) && n < |rows| && PartOf(sent, rows, n)
    requires forall i :: 0 <= i < n ==> rows[i] != rows[n]
    ensures RowsTracked(sent + [rows[n]], rows, n + 1, faults)
  {
    var sent' := sent + [rows[n]];
    forall i | 0 <= i < n ensures rows[i] in sent' <==> rows[i] in sent {
    }
    assert sent'[|sent|] == rows[n];
  }

  lemma RowSkipped(sent: seq<Replayed>, rows: seq<Replayed>, n: nat, faults: seq<Handler>, c: Handler)
    requires RowsTracked(sent, rows, n, faults) && n < |rows| && PartOf(sent, rows, n)
    requires rows[n] !in rows[..n] && c.SubRows? && c.next == n
    ensures RowsTracked(sent, rows, n + 1, faults + [c])
  {
    OneMoreFault(faults, c);
    PartOfFacts(sent, rows, n);
  }

  /** The arm that skips a row without a failure is dead: a stored message's sender exists. */
  lemma SenderExists(w: World, h: Handler)
    requires Consistent(w) && HandlerOk(w, h) && h.SubRows?
    ensures MessagesForRecipient(h.seen, h.room, h.me, h.since)[h.next].msg.from in w.t.keys
  {
    ReplayFacts(h.seen, h.room, h.me, h.since);
    var msg := MessagesForRecipient(h.seen, h.room, h.me, h.since)[h.next].msg;
    assert msg in Store.Replay(h.seen, h.room, h.me, h.since);
    var i :| 0 <= i < |h.seen| && h.seen[i].msg == msg;
    assert RowOk(w, w.t.messages[i].msg);
  }

  lemma StepIsTracked(w: World, h: Handler, env: Env, faults: seq<Handler>)
    requires Consistent(w) && HandlerOk(w, h) && InSubscribe(h) && Tracked(h, faults)
    ensures Tracked(SubscribeStep(w.t, h, env).1, faults)
  {
    if h.SubRows? {
      var rows := MessagesForRecipient(h.seen, h.room, h.me, h.since);
      SenderExists(w, h);
      RowsAreDistinct(h.seen, h.room, h.me, h.since, h.next);
      assert forall i :: 0 <= i < h.next ==> rows[i] == rows[..h.next][i];
      RowSent(h.sent, rows, h.next, faults);
    }
  }

  lemma FaultIsTracked(w: World, h: Handler, faults: seq<Handler>)
    requires HandlerOk(w, h) && InSubscribe(h) && Tracked(h, faults)
    ensures Tracked(AfterFault(h), faults + [h])
  {
    OneMoreFault(faults, h);
    if h.SubRows? {
      RowsAreDistinct(h.seen, h.room, h.me, h.since, h.next);
      RowSkipped(h.sent, MessagesForRecipient(h.seen, h.room, h.me, h.since), h.next, faults, h);
    }
  }

  ghost predicate Outside(h: Handler) {
    !InSubscribe(h) && !h.Subscribed?
  }

  lemma ConsumeStaysOutside(t: Tables, h: Handler, env: Env)
    requires InConsumeInvite(h)
    ensures Outside(ConsumeInviteStep(t, h, env).1)
  {
  }

  lemma InvitingStaysOutside(t: Tables, h: Handler, env: Env)
    requires InCreateInvite(h)
    ensures Outside(CreateInviteStep(t, h, env).1)
  {
  }

  lemma CreatingStaysOutside(t: Tables, h: Handler, env: Env)
    requires InCreateRoom(h)
    ensures Outside(CreateRoomStep(t, h, env).1)
  {
  }

  lemma LeavingStaysOutside(t: Tables, h: Handler, env: Env)
    requires InLeaveRoom(h)
    ensures Outside(LeaveRoomStep(t, h, env).1)
  {
  }

  lemma SendingStaysOutside(t: Tables, h: Handler, env: Env)
    requires InSend(h)
    ensures Outside(SendStep(t, h, env).1)
  {
  }

  lemma ReadingStaysOutside(t: Tables, h: Handler, env: Env)
    requires InMarkRead(h)
    ensures Outside(MarkReadStep(t, h, env).1)
  {
  }

  lemma OthersStayOthers(t: Tables, h: Handler, env: Env)
    requires !Handlers.Done(h) && !InSubscribe(h)
    ensures Outside(Advance(t, h, env).1)
  {
    if InConsumeInvite(h) {
      ConsumeStaysOutside(t, h, env);
    } else if InCreateInvite(h) {
      InvitingStaysOutside(t, h, env);
    } else if InCreateRoom(h) {
      CreatingStaysOutside(t, h, env);
    } else if InLeaveRoom(h) {
      LeavingStaysOutside(t, h, env);
    } else if InSend(h) {
      SendingStaysOutside(t, h, env);
    } else {
      ReadingStaysOutside(t, h, env);
    }
  }

  lemma {:induction false} RunsAreTracked(es: seq<Event>, h: nat)
    requires IsRun(es)
    ensures h !in StateAfter(es).handlers ==> FaultPoints(es, h) == []
    ensures h in StateAfter(es).handlers ==> Tracked(StateAfter(es).handlers[h], FaultPoints(es, h))
  {
    if es == [] {
    } else {
      var front, e := es[..|es| - 1], es[|es| - 1];
      var s, faults := StateAfter(front), FaultPoints(front, h);
      RunsAreInductive(front);
      RunsAreTracked(front, h);
      if e == Fault(h) {
        assert FaultPoints(es, h) == faults + [s.handlers[h]];
        FailureIsTracked(s, h, faults);
      } else {
        assert FaultPoints(es, h) == faults;
        if e.Run? && e.h == h {
          RunIsTracked(s, h, e.env, faults);
        }
      }
    }
  }

  lemma RunIsTracked(s: System, h: nat, env: Env, faults: seq<Handler>)
    requires Inductive(s) && Enabled(s, Run(h, env)) && Tracked(s.handlers[h], faults)
    ensures Tracked(Next(s, Run(h, env)).handlers[h], faults)
  {
    var c := s.handlers[h];
    assert HandlerOk(s.w, c);
    if InSubscribe(c) {
      StepIsTracked(s.w, c, env, faults);
    } else {
      OthersStayOthers(s.w.t, c, env);
    }
  }

  lemma FailureIsTracked(s: System, h: nat, faults: seq<Handler>)
    requires Inductive(s) && Enabled(s, Fault(h)) && Tracked(s.handlers[h], faults)
    ensures Tracked(Next(s, Fault(h)).handlers[h], faults + [s.handlers[h]])
  {
    var c := s.handlers[h];
    assert HandlerOk(s.w, c);
    if InSubscribe(c) {
      FaultIsTracked(s.w, c, faults);
    }
  }

  // ---------------------------------------------------------------------------------------------
  // What a finished Subscribe has sent

  ghost predicate IsSubscribed(es: seq<Event>, h: nat) {
    IsRun(es) && h in StateAfter(es).handlers && StateAfter(es).handlers[h].Subscribed?
  }

  function RowsOf(c: Handler): seq<Replayed>
    requires c.Subscribed?
  {
    MessagesForRecipient(c.seen, c.room, c.me, c.since)
  }

  /** The frames of a part that contains every row are all the rows. */
  lemma {:induction false} PartWithAllRows(sent: seq<Replayed>, rows: seq<Replayed>, n: nat)
    requires n <= |rows| && PartOf(sent, rows, n)
    requires forall i :: 0 <= i < n ==> rows[i] in sent
    requires forall i, j :: 0 <= i < j < |rows| ==> rows[i] != rows[j]
    ensures sent == rows[..n]
  {
    if n == 0 {
    } else {
      assert rows[n - 1] in sent && rows[n - 1] !in rows[..n - 1];
      if PartOf(sent, rows, n - 1) {
        PartOfFacts(sent, rows, n - 1);
        assert false;
      }
      var front := sent[..|sent| - 1];
      assert sent == front + [rows[n - 1]];
      assert forall i :: 0 <= i < n - 1 ==> rows[i] in front;
      PartWithAllRows(front, rows, n - 1);
      assert rows[..n] == rows[..n - 1] + [rows[n - 1]];
    }
  }

  /**
   * A finished Subscribe has sent exactly the replayed rows whose sender lookup did not fail, in
   * order; so it has sent them all if and only if none failed.
   */
  lemma {:induction false} RowsAreSentUnlessFaulted(es: seq<Event>, h: nat)
    requires IsSubscribed(es, h)
    ensures var c := StateAfter(es).handlers[h];
            && PartOfAll(c.sent, RowsOf(c))
            && (forall i :: 0 <= i < |RowsOf(c)| ==> (RowsOf(c)[i] in c.sent <==> !RowFaulted(es, h, i)))
            && (c.sent == RowsOf(c) <==> forall i :: 0 <= i < |RowsOf(c)| ==> !RowFaulted(es, h, i))
  {
    RunsAreInductive(es);
    RunsAreTracked(es, h);
    var c := StateAfter(es).handlers[h];
    var rows := RowsOf(c);
    assert HandlerOk(StateAfter(es).w, c) && Tracked(c, FaultPoints(es, h));
    if forall i :: 0 <= i < |rows| ==> !RowFaulted(es, h, i) {
      forall i, j | 0 <= i < j < |rows| ensures rows[i] != rows[j] {
        RowsAreDistinct(c.seen, c.room, c.me, c.since, j);
        assert rows[..j][i] == rows[i];
      }
      forall i | 0 <= i < |rows| ensures rows[i] in c.sent {
        assert !RowFaulted(es, h, i);
      }
      PartWithAllRows(c.sent, rows, |rows|);
      assert rows[..|rows|] == rows;
    } else {
      var i :| 0 <= i < |rows| && RowFaulted(es, h, i);
      assert rows[i] !in c.sent && rows[i] in rows;
    }
  }

  ghost predicate ReadBy(m: seq<Row>, id: MessageId, sender: AccountId, reader: AccountId) {
    exists i :: 0 <= i < |m| && m[i].msg.id == id && m[i].msg.from == sender && m[i].msg.recipient == reader && m[i].readAt.Some?
  }

  /**
   * A finished Subscribe sent a `Read` frame if and only if neither read-state query failed and
   * someone had read a message of mine; then every listed message was read by the named account and
   * every other copy of a message of mine is theirs.
   */
  lemma {:induction false} BackfillNamesTheReader(es: seq<Event>, h: nat)
    requires IsSubscribed(es, h)
    ensures var c := StateAfter(es).handlers[h];
            && (c.frame.Some? <==> !ReadStateFaulted(es, h) && ReadSentMessageIds(c.seen2, c.room, c.me) != [])
            && (c.frame.Some? ==>
                  && c.frame.value.ids == ReadSentMessageIds(c.seen2, c.room, c.me)
                  && (forall id :: id in c.frame.value.ids ==> ReadBy(c.seen2, id, c.me, c.frame.value.reader))
                  && (forall i :: 0 <= i < |c.seen2| && c.seen2[i].msg.from == c.me && c.seen2[i].msg.recipient != c.me ==>
                        c.seen2[i].msg.recipient == c.frame.value.reader))
  {
    RunsAreInductive(es);
    RunsAreTracked(es, h);
    var s, c := StateAfter(es), StateAfter(es).handlers[h];
    assert HandlerOk(s.w, c) && Tracked(c, FaultPoints(es, h));
    ReadMessagesHaveAPartner(s.w, c.seen2, c.room, c.me);
    Receipts.ReadSentFacts(c.seen2, c.room, c.me);
    if c.frame.Some? {
      forall id | id in c.frame.value.ids ensures ReadBy(c.seen2, id, c.me, c.frame.value.reader) {
        var i :| 0 <= i < |c.seen2| && c.seen2[i].msg.id == id && SentAndRead(c.seen2[i], c.room, c.me);
        assert c.seen2[i].msg.recipient == c.frame.value.reader;
      }
    }
  }

  /** What a device holds after a finished Subscribe: the replay, then the `Read` frame if one was sent. */
  ghost function DeviceAfter(d: Receipts.Device, c: Handler): Receipts.Device
    requires c.Subscribed?
  {
    var d' := d.ApplyReplay(c.sent);
    if c.frame.Some? then d'.ApplyRead(c.frame.value.ids) else d'
  }

  lemma {:induction false} SentIsFromReplay(es: seq<Event>, h: nat)
    requires IsSubscribed(es, h)
    ensures var c := StateAfter(es).handlers[h];
            Receipts.FromReplay(c.sent, c.seen, c.room, c.me, c.since) && Valid(c.seen2) && Later(c.seen, c.seen2)
  {
    RunsAreInductive(es);
    var c := StateAfter(es).handlers[h];
    assert HandlerOk(StateAfter(es).w, c);
    PartOfFacts(c.sent, RowsOf(c), |RowsOf(c)|);
  }

  /**
   * The frame is a stored message for this account in this room, past the watermark, and carries the
   * read flag exactly when another recipient's row of that message has a stamp.
   */
  ghost predicate FrameIsTrue(r: Replayed, seen: seq<Row>, room: RoomId, me: AccountId, since: Option<MessageId>) {
    && Queries.Selected(r.msg, room, me, since) && Queries.RowOf(seen, r.msg)
    && (r.read <==> Queries.StampedElsewhere(seen, r.msg.id, me))
  }

  lemma RowIsTrue(seen: seq<Row>, room: RoomId, me: AccountId, since: Option<MessageId>, r: Replayed)
    requires KeyUnique(seen) && r in MessagesForRecipient(seen, room, me, since)
    ensures FrameIsTrue(r, seen, room, me, since)
  {
    var out := MessagesForRecipient(seen, room, me, since);
    var n :| 0 <= n < |out| && out[n] == r;
    Queries.ReturnedRow(seen, room, me, since, n);
  }

  lemma {:induction false} SeenIsKeyed(es: seq<Event>, h: nat)
    requires IsSubscribed(es, h)
    ensures KeyUnique(StateAfter(es).handlers[h].seen)
  {
    RunsAreInductive(es);
    assert HandlerOk(StateAfter(es).w, StateAfter(es).handlers[h]);
  }

  /**
   * Every frame a finished Subscribe sent is true of the table its replay query saw: a self-copy
   * carries the read flag exactly when somebody had read it there.
   */
  lemma {:induction false} SentFramesAreTrue(es: seq<Event>, h: nat)
    requires IsSubscribed(es, h)
    ensures var c := StateAfter(es).handlers[h];
            forall n :: 0 <= n < |c.sent| ==> FrameIsTrue(c.sent[n], c.seen, c.room, c.me, c.since)
  {
    SentIsFromReplay(es, h);
    SeenIsKeyed(es, h);
    var c := StateAfter(es).handlers[h];
    forall n | 0 <= n < |c.sent| ensures FrameIsTrue(c.sent[n], c.seen, c.room, c.me, c.since) {
      assert c.sent[n] in c.sent;
      RowIsTrue(c.seen, c.room, c.me, c.since, c.sent[n]);
    }
  }

  /** With or without failures, a Subscribe never makes a device show as read what nobody has read. */
  lemma {:induction false} SubscribeKeepsSound(es: seq<Event>, h: nat, d: Receipts.Device)
    requires IsSubscribed(es, h)
    requires var c := StateAfter(es).handlers[h]; Receipts.Sound(d, c.seen, c.me)
    ensures var c := StateAfter(es).handlers[h]; Receipts.Sound(DeviceAfter(d, c), c.seen2, c.me)
  {
    var c := StateAfter(es).handlers[h];
    SentIsFromReplay(es, h);
    BackfillNamesTheReader(es, h);
    Receipts.ReplayKeepsSound(d, c.seen, c.sent, c.room, c.me, c.since);
    Receipts.SoundLater(d.ApplyReplay(c.sent), c.seen, c.seen2, c.me);
    if c.frame.Some? {
      Receipts.BackfillKeepsSound(d.ApplyReplay(c.sent), c.seen2, c.room, c.me);
    }
  }

  /**
   * Read state survives being offline: after a finished Subscribe whose read-state queries answered,
   * from any watermark, a sound device shows each of its own messages as read exactly when the table
   * says so, whether or not every replayed row was sent.
   */
  lemma {:induction false} SubscribeSyncsReadState(es: seq<Event>, h: nat, d: Receipts.Device)
    requires IsSubscribed(es, h) && !ReadStateFaulted(es, h)
    requires var c := StateAfter(es).handlers[h]; Receipts.Sound(d, c.seen, c.me)
    ensures var c := StateAfter(es).handlers[h];
            forall i :: 0 <= i < |c.seen| && Receipts.SelfCopy(c.seen[i].msg, c.room, c.me) ==>
              (c.seen[i].msg.id in DeviceAfter(d, c).read <==> ReadFlag(c.seen2, c.seen[i].msg.id, c.me))
  {
    var c := StateAfter(es).handlers[h];
    SentIsFromReplay(es, h);
    BackfillNamesTheReader(es, h);
    Receipts.SubscribeRestoresReadState(d, c.seen, c.seen2, c.sent, c.room, c.me, c.since);
    SameDevice(d, c);
  }

  lemma SameDevice(d: Receipts.Device, c: Handler)
    requires c.Subscribed?
    requires c.frame.Some? <==> ReadSentMessageIds(c.seen2, c.room, c.me) != []
    requires c.frame.Some? ==> c.frame.value.ids == ReadSentMessageIds(c.seen2, c.room, c.me)
    ensures DeviceAfter(d, c).read == Receipts.Subscribed(d, c.sent, c.seen2, c.room, c.me).read
  {
  }
}
