/**
 * A device of one account in one room, over a whole run of the server. It starts empty, asks for
 * what is new with the largest id it holds, and applies whatever frames reach it: those of its
 * Subscribes, as far as they reach it, and live `Message` and `Read` frames in any order.
 */
module Client {
  import opened Common
  import opened Store
  import opened Handlers
  import opened Server
  import opened Subscriptions
  import opened OrderedRuns
  import Invariant
  import Receipts
  import Replay

  datatype Client = Client(me: AccountId, room: RoomId)

  /**
   * What a device does: it asks for Subscribe `h`, receives the next replayed frame of `h` or its
   * `Read` frame, or receives the live frame of the Send or MarkRead that was event `k`.
   */
  datatype Action = Ask(h: nat) | Frame(h: nat) | Backfill(h: nat) | Live(k: nat, x: Message) | LiveRead(k: nat)

  const NEW_DEVICE := Receipts.Device([], {})

  ghost predicate HasSeen(h: Handler) {
    h.SubRows? || h.SubBackfill? || h.SubReader? || h.Subscribed?
  }

  /** `h` is a Subscribe of this client that has got as far as its replay query. */
  ghost predicate IsSubscribe(es: seq<Event>, c: Client, h: nat)
    requires IsRun(es)
  {
    && h in StateAfter(es).handlers && HasSeen(StateAfter(es).handlers[h])
    && StateAfter(es).handlers[h].me == c.me && StateAfter(es).handlers[h].room == c.room
  }

  /** How many replayed frames of `h` have been received. */
  function Got(gs: seq<Action>, h: nat): nat {
    if gs == [] then 0 else Got(gs[..|gs| - 1], h) + (if gs[|gs| - 1] == Frame(h) then 1 else 0)
  }

  /** Event `k` is the inserting step of a Send that got through, and `x` a copy of it for this client. */
  ghost predicate IsSend(es: seq<Event>, c: Client, k: nat, x: Message)
    requires IsRun(es)
  {
    && k < |es| && es[k].Run? && es[k].h in StateAt(es, k).handlers
    && (var s, h := StateAt(es, k), StateAt(es, k).handlers[es[k].h];
        h.SendWrite? && Advance(s.w.t, h, es[k].env).1.Finished? && x in SentCopies(s.w.t, h))
    && Addressed(x, c.room, c.me)
  }

  /** Event `k` is the writing step of a MarkRead in this room. */
  ghost predicate IsMarkRead(es: seq<Event>, c: Client, k: nat)
    requires IsRun(es)
  {
    && k < |es| && es[k].Run? && es[k].h in StateAt(es, k).handlers
    && StateAt(es, k).handlers[es[k].h].MarkWrite? && StateAt(es, k).handlers[es[k].h].room == c.room
  }

  /** The ids in the `Read` frame that MarkRead sends to `me`. */
  ghost function RelayedIds(es: seq<Event>, c: Client, k: nat): seq<MessageId>
    requires IsRun(es) && IsMarkRead(es, c, k)
  {
    var h := StateAt(es, k).handlers[es[k].h];
    Receipts.IdsFrom(Flipped(MessagesAt(es, k), c.room, h.me, h.upTo), c.me)
  }

  /** The action is possible after those in `gs`. Frames of one Subscribe arrive in the order they were sent. */
  ghost predicate Possible(es: seq<Event>, c: Client, gs: seq<Action>, g: Action)
    requires IsRun(es)
  {
    match g
    case Ask(h) =>
      && IsSubscribe(es, c, h) && g !in gs
      && StateAfter(es).handlers[h].since == Replay.Watermark(DeviceOf(es, c, gs).log)
    case Frame(h) => Ask(h) in gs && IsSubscribe(es, c, h) && Got(gs, h) < |StateAfter(es).handlers[h].sent|
    case Backfill(h) =>
      && Ask(h) in gs && IsSubscribe(es, c, h) && Got(gs, h) == |StateAfter(es).handlers[h].sent|
      && StateAfter(es).handlers[h].Subscribed? && StateAfter(es).handlers[h].frame.Some?
    case Live(k, x) => IsSend(es, c, k, x)
    case LiveRead(k) => IsMarkRead(es, c, k)
  }

  ghost predicate ClientRun(es: seq<Event>, c: Client, gs: seq<Action>)
    requires IsRun(es)
  {
    gs == [] || (ClientRun(es, c, gs[..|gs| - 1]) && Possible(es, c, gs[..|gs| - 1], gs[|gs| - 1]))
  }

  /** The `Message` frame received by the action, if it receives one. */
  ghost function Received(es: seq<Event>, c: Client, gs: seq<Action>, g: Action): Option<Replayed>
    requires IsRun(es)
  {
    match g
    case Frame(h) =>
      if IsSubscribe(es, c, h) && Got(gs, h) < |StateAfter(es).handlers[h].sent|
      then Some(StateAfter(es).handlers[h].sent[Got(gs, h)]) else None
    case Live(_, x) => Some(Replayed(x, false))
    case _ => None
  }

  ghost function ReadIds(es: seq<Event>, c: Client, g: Action): seq<MessageId>
    requires IsRun(es)
  {
    match g
    case Backfill(h) =>
      if IsSubscribe(es, c, h) && StateAfter(es).handlers[h].Subscribed? && StateAfter(es).handlers[h].frame.Some?
      then StateAfter(es).handlers[h].frame.value.ids else []
    case LiveRead(k) => if IsMarkRead(es, c, k) then RelayedIds(es, c, k) else []
    case _ => []
  }

  ghost function Apply(d: Receipts.Device, message: Option<Replayed>, read: seq<MessageId>): Receipts.Device {
    (if message.Some? then d.Receive(message.value) else d).ApplyRead(read)
  }

  ghost function DeviceOf(es: seq<Event>, c: Client, gs: seq<Action>): Receipts.Device
    requires IsRun(es)
  {
    if gs == [] then NEW_DEVICE
    else
      var front, g := gs[..|gs| - 1], gs[|gs| - 1];
      Apply(DeviceOf(es, c, front), Received(es, c, front, g), ReadIds(es, c, g))
  }

  lemma ApplyFacts(d: Receipts.Device, message: Option<Replayed>, read: seq<MessageId>)
    ensures var d' := Apply(d, message, read);
            && (message.None? ==> d'.log == d.log)
            && (message.Some? ==> d'.log == d.Receive(message.value).log)
            && (forall id :: id in d'.read <==>
                  id in d.read || id in read || (message.Some? && message.value.read && message.value.msg.id == id))
  {
  }

  // ---------------------------------------------------------------------------------------------
  // What the handlers of a run say about the frames

  lemma {:induction false} SubscribeFacts(es: seq<Event>, c: Client, h: nat)
    requires IsRun(es) && IsSubscribe(es, c, h)
    ensures var s := StateAfter(es).handlers[h];
            && Valid(s.seen) && Later(s.seen, MessagesAt(es, |es|))
            && Invariant.PartOfAll(s.sent, MessagesForRecipient(s.seen, c.room, c.me, s.since))
            && Receipts.FromReplay(s.sent, s.seen, c.room, c.me, s.since)
            && (s.Subscribed? ==> Valid(s.seen2) && Later(s.seen2, MessagesAt(es, |es|)))
  {
    RunsAreInductive(es);
    AtEnd(es);
    PartsOfHandler(StateAfter(es).w, StateAfter(es).handlers[h]);
  }

  lemma PartsOfHandler(w: Invariant.World, s: Handler)
    requires Invariant.HandlerOk(w, s) && HasSeen(s)
    ensures Valid(s.seen) && Later(s.seen, w.t.messages)
    ensures var rows := MessagesForRecipient(s.seen, s.room, s.me, s.since);
            Invariant.PartOfAll(s.sent, rows) && forall r :: r in s.sent ==> r in rows
    ensures s.Subscribed? ==> Valid(s.seen2) && Later(s.seen2, w.t.messages)
  {
    var rows := MessagesForRecipient(s.seen, s.room, s.me, s.since);
    if s.SubRows? {
      Invariant.PartOfMore(s.sent, rows, s.next, |rows|);
    }
    if !s.SubRows? && !s.SubBackfill? {
      LaterTransitive(s.seen, s.seen2, w.t.messages);
    }
    Invariant.PartOfFacts(s.sent, rows, |rows|);
    assert rows[..|rows|] == rows;
  }

  /** A live frame's message is stored by then. */
  lemma {:induction false} LiveIsStored(es: seq<Event>, c: Client, k: nat, x: Message)
    requires IsRun(es) && IsSend(es, c, k, x)
    ensures Replay.Stored(MessagesAt(es, k + 1), x) && Replay.Stored(MessagesAt(es, |es|), x)
  {
    var s := StateAt(es, k);
    var h := s.handlers[es[k].h];
    RunsAreInductive(es[..k]);
    assert es[..k + 1][..k] == es[..k];
    assert Invariant.HandlerOk(s.w, h) && Invariant.Storable(s.w, h);
    SendAppends(s.w, h, es[k].env);
    StoredCopy(s.w.t.messages, SentCopies(s.w.t, h), x);
    MessagesOnlyGrow(es, k + 1, |es|);
    Replay.StoredLater(MessagesAt(es, k + 1), MessagesAt(es, |es|), x);
  }

  lemma StoredCopy(m: seq<Row>, copies: seq<Message>, x: Message)
    requires x in copies
    ensures Replay.Stored(m + NewRows(copies), x)
  {
    var i :| 0 <= i < |copies| && copies[i] == x;
    assert (m + NewRows(copies))[|m| + i].msg == x;
  }

  /** A message a client receives is stored and addressed to it, and its read flag was set in some table. */
  lemma {:induction false} MessageFacts(es: seq<Event>, c: Client, gs: seq<Action>, g: Action)
    requires IsRun(es) && Possible(es, c, gs, g) && Received(es, c, gs, g).Some?
    ensures var r := Received(es, c, gs, g).value;
            && Replay.Stored(MessagesAt(es, |es|), r.msg) && Addressed(r.msg, c.room, c.me)
            && (r.read ==> ReadFlag(MessagesAt(es, |es|), r.msg.id, c.me))
  {
    if g.Live? {
      LiveIsStored(es, c, g.k, g.x);
    } else {
      var s := StateAfter(es).handlers[g.h];
      SubscribeFacts(es, c, g.h);
      FrameFacts(s, MessagesAt(es, |es|), Got(gs, g.h));
    }
  }

  lemma FrameFacts(s: Handler, now: seq<Row>, i: nat)
    requires HasSeen(s) && i < |s.sent| && KeyUnique(s.seen) && Later(s.seen, now)
    requires Receipts.FromReplay(s.sent, s.seen, s.room, s.me, s.since)
    ensures Replay.Stored(s.seen, s.sent[i].msg) && Replay.Stored(now, s.sent[i].msg)
    ensures Addressed(s.sent[i].msg, s.room, s.me) && Store.After(s.sent[i].msg.id, s.since)
    ensures s.sent[i].read ==> ReadFlag(now, s.sent[i].msg.id, s.me)
  {
    ReplayFacts(s.seen, s.room, s.me, s.since);
    var r := s.sent[i];
    assert r in s.sent && r in MessagesForRecipient(s.seen, s.room, s.me, s.since);
    assert r.msg in Store.Replay(s.seen, s.room, s.me, s.since);
    Replay.StoredLater(s.seen, now, r.msg);
    if r.read {
      LaterKeepsReadFlags(s.seen, now, r.msg.id, s.me);
    }
  }

  // ---------------------------------------------------------------------------------------------
  // Read state

  ghost predicate AllRead(m: seq<Row>, ids: seq<MessageId>, me: AccountId) {
    forall id :: id in ids ==> ReadFlag(m, id, me)
  }

  lemma {:induction false} LiveReadIsSound(es: seq<Event>, c: Client, k: nat)
    requires IsRun(es) && IsMarkRead(es, c, k)
    ensures AllRead(MessagesAt(es, |es|), RelayedIds(es, c, k), c.me)
  {
    var h, m, m' := StateAt(es, k).handlers[es[k].h], MessagesAt(es, k), MessagesAt(es, k + 1);
    assert es[..k + 1][..k] == es[..k];
    assert m' == Marked(m, c.room, h.me, h.upTo, es[k].env.now);
    Receipts.RelayedAreFlagged(m, c.room, h.me, h.upTo, es[k].env.now, c.me);
    MessagesOnlyGrow(es, k + 1, |es|);
    var ids := RelayedIds(es, c, k);
    forall id | id in ids ensures ReadFlag(MessagesAt(es, |es|), id, c.me) {
      var i :| 0 <= i < |ids| && ids[i] == id;
      LaterKeepsReadFlags(m', MessagesAt(es, |es|), ids[i], c.me);
    }
  }

  lemma {:induction false} BackfillIsSound(es: seq<Event>, c: Client, h: nat)
    requires IsRun(es) && IsSubscribe(es, c, h)
    requires StateAfter(es).handlers[h].Subscribed? && StateAfter(es).handlers[h].frame.Some?
    ensures AllRead(MessagesAt(es, |es|), StateAfter(es).handlers[h].frame.value.ids, c.me)
  {
    var s := StateAfter(es).handlers[h];
    SubscribeFacts(es, c, h);
    BackfillNamesTheReader(es, h);
    Receipts.ReadSentFacts(s.seen2, c.room, c.me);
    forall id | id in s.frame.value.ids ensures ReadFlag(MessagesAt(es, |es|), id, c.me) {
      var i :| 0 <= i < |s.seen2| && s.seen2[i].msg.id == id && SentAndRead(s.seen2[i], c.room, c.me);
      assert ReadFlag(s.seen2, id, c.me);
      LaterKeepsReadFlags(s.seen2, MessagesAt(es, |es|), id, c.me);
    }
  }

  /** A client never shows as read what nobody has read, whatever reaches it and whatever failed. */
  lemma {:induction false} ClientIsSound(es: seq<Event>, c: Client, gs: seq<Action>)
    requires IsRun(es) && ClientRun(es, c, gs)
    ensures Receipts.Sound(DeviceOf(es, c, gs), MessagesAt(es, |es|), c.me)
  {
    if gs == [] {
    } else {
      var front, g := gs[..|gs| - 1], gs[|gs| - 1];
      ClientIsSound(es, c, front);
      if Received(es, c, front, g).Some? {
        MessageFacts(es, c, front, g);
      }
      ReadIdsAreSound(es, c, front, g);
      ApplyKeepsSound(DeviceOf(es, c, front), Received(es, c, front, g), ReadIds(es, c, g), MessagesAt(es, |es|), c.me);
    }
  }

  lemma {:induction false} ReadIdsAreSound(es: seq<Event>, c: Client, gs: seq<Action>, g: Action)
    requires IsRun(es) && Possible(es, c, gs, g)
    ensures AllRead(MessagesAt(es, |es|), ReadIds(es, c, g), c.me)
  {
    if g.Backfill? {
      BackfillIsSound(es, c, g.h);
    } else if g.LiveRead? {
      LiveReadIsSound(es, c, g.k);
    }
  }

  lemma ApplyKeepsSound(d: Receipts.Device, message: Option<Replayed>, read: seq<MessageId>, m: seq<Row>, me: AccountId)
    requires Receipts.Sound(d, m, me) && AllRead(m, read, me)
    requires message.Some? && message.value.read ==> ReadFlag(m, message.value.msg.id, me)
    ensures Receipts.Sound(Apply(d, message, read), m, me)
  {
    ApplyFacts(d, message, read);
  }

  /** Nothing that reaches a client takes a message or a read mark away. */
  lemma {:induction false} DeviceOnlyGrows(es: seq<Event>, c: Client, gs: seq<Action>, n: nat)
    requires IsRun(es) && n <= |gs|
    ensures var d, d' := DeviceOf(es, c, gs[..n]), DeviceOf(es, c, gs); d.read <= d'.read && d.log <= d'.log
  {
    if n == |gs| {
      assert gs[..n] == gs;
    } else {
      DeviceOnlyGrows(es, c, gs[..|gs| - 1], n);
      assert gs[..|gs| - 1][..n] == gs[..n];
    }
  }

  lemma {:induction false} PrefixIsClientRun(es: seq<Event>, c: Client, gs: seq<Action>, n: nat)
    requires IsRun(es) && ClientRun(es, c, gs) && n <= |gs|
    ensures ClientRun(es, c, gs[..n])
    ensures n < |gs| ==> Possible(es, c, gs[..n], gs[n])
  {
    if n == |gs| {
      assert gs[..n] == gs;
    } else {
      var front := gs[..|gs| - 1];
      PrefixIsClientRun(es, c, front, n);
      assert front[..n] == gs[..n];
    }
  }

  /** The ids that came with a received `Read` frame are shown as read. */
  lemma {:induction false} ReadIdsAreShown(es: seq<Event>, c: Client, gs: seq<Action>, n: nat, id: MessageId)
    requires IsRun(es) && n < |gs| && id in ReadIds(es, c, gs[n])
    ensures id in DeviceOf(es, c, gs).read
  {
    var upTo := gs[..n + 1];
    assert upTo[..n] == gs[..n];
    ApplyFacts(DeviceOf(es, c, gs[..n]), Received(es, c, gs[..n], gs[n]), ReadIds(es, c, gs[n]));
    DeviceOnlyGrows(es, c, gs, n + 1);
  }

  /**
   * Read state survives being offline. Take any Subscribe whose read-state queries answered and
   * whose `Read` frame, if there was one, the client received. Of its own messages the client shows
   * every one that was read by the time of the backfill query and none that is not read now.
   */
  lemma {:induction false} ClientShowsReadState(es: seq<Event>, c: Client, gs: seq<Action>, h: nat)
    requires IsRun(es) && ClientRun(es, c, gs) && IsSubscribe(es, c, h) && IsSubscribed(es, h)
    requires !ReadStateFaulted(es, h) && (StateAfter(es).handlers[h].frame.Some? ==> Backfill(h) in gs)
    ensures var m, now, read := StateAfter(es).handlers[h].seen2, MessagesAt(es, |es|), DeviceOf(es, c, gs).read;
            forall i :: 0 <= i < |m| && Receipts.SelfCopy(m[i].msg, c.room, c.me) ==>
              && (ReadFlag(m, m[i].msg.id, c.me) ==> m[i].msg.id in read)
              && (m[i].msg.id in read ==> ReadFlag(now, m[i].msg.id, c.me))
  {
    var s := StateAfter(es).handlers[h];
    ClientIsSound(es, c, gs);
    SubscribeFacts(es, c, h);
    BackfillNamesTheReader(es, h);
    forall i | 0 <= i < |s.seen2| && Receipts.SelfCopy(s.seen2[i].msg, c.room, c.me) && ReadFlag(s.seen2, s.seen2[i].msg.id, c.me)
      ensures s.seen2[i].msg.id in DeviceOf(es, c, gs).read
    {
      Receipts.BackfillListsFlagged(s.seen2, c.room, c.me, i);
      var n :| 0 <= n < |gs| && gs[n] == Backfill(h);
      ReadIdsAreShown(es, c, gs, n, s.seen2[i].msg.id);
    }
  }
}
