/**
 * Three ways to lose a message for good, in runs of the server: two Sends that commit in the other
 * order, one failed lookup, and a live frame that arrives before the client has caught up. One
 * account, alone in its room and keeping copies of its own messages, is enough.
 */
module LostMessages {
  import opened Common
  import opened Store
  import opened Tables
  import opened Handlers
  import opened Invariant
  import opened Server
  import opened Subscriptions
  import opened OrderedRuns
  import opened Client
  import opened ClientMessages
  import opened Scenarios
  import FanOut
  import Receipts
  import Replay

  ghost predicate OwnRows(m: seq<Row>, a: AccountId) {
    KeyUnique(m) && forall i :: 0 <= i < |m| ==> m[i].msg.from == m[i].msg.recipient == a
  }

  /** Account `a` is alone in the room, with the messages it sent itself. */
  ghost predicate Solo(s: System, a: AccountId, key: string, room: RoomId, m: seq<Row>) {
    At(s, map[a := key], room, [a], m) && OwnRows(m, a)
  }

  // ---------------------------------------------------------------------------------------------
  // A Subscribe of the account

  lemma AskSteps(t: Tables, a: AccountId, room: RoomId, since: Option<MessageId>, env: Env)
    requires t.rooms == map[room := [a]]
    ensures Advance(t, SubCheck(a, room, since), env) == (t, SubReplay(a, room, since))
    ensures Advance(t, SubReplay(a, room, since), env) == (t, AtRow(a, room, since, t.messages, 0, []))
  {
  }

  /** Up to its first row. */
  lemma {:induction false} Begins(
      es: seq<Event>, s: System, h: nat, env: Env, a: AccountId, key: string, room: RoomId, m: seq<Row>,
      since: Option<MessageId>)
    returns (es': seq<Event>, s': System)
    requires Reaches(es, s) && Solo(s, a, key, room, m) && h !in s.handlers && Fresh(s.w, env)
    ensures Onward(es, es') && Reaches(es', s') && s'.w == s.w
    ensures s'.handlers == s.handlers[h := AtRow(a, room, since, m, 0, [])]
  {
    AskSteps(s.w.t, a, room, since, env);
    es', s' := Begin(es, s, h, SubCheck(a, room, since));
    es', s' := Look(es', s', h, env, SubReplay(a, room, since));
    es', s' := Look(es', s', h, env, AtRow(a, room, since, m, 0, []));
  }

  lemma RowStep(
      t: Tables, a: AccountId, room: RoomId, since: Option<MessageId>, m: seq<Row>, n: nat, sent: seq<Replayed>, env: Env)
    requires n < |MessagesForRecipient(m, room, a, since)|
    requires MessagesForRecipient(m, room, a, since)[n].msg.from in t.keys
    ensures Advance(t, SubRows(a, room, since, m, n, sent), env)
         == (t, AtRow(a, room, since, m, n + 1, sent + [MessagesForRecipient(m, room, a, since)[n]]))
  {
  }

  /** The sender lookup of row `n` succeeds. */
  lemma {:induction false} RowGoes(
      es: seq<Event>, s: System, h: nat, env: Env, a: AccountId, room: RoomId, since: Option<MessageId>, m: seq<Row>,
      rows: seq<Replayed>, n: nat, sent: seq<Replayed>)
    returns (es': seq<Event>, s': System)
    requires Reaches(es, s) && Fresh(s.w, env) && h in s.handlers && s.handlers[h] == SubRows(a, room, since, m, n, sent)
    requires rows == MessagesForRecipient(m, room, a, since) && n < |rows| && rows[n].msg.from in s.w.t.keys
    ensures Onward(es, es') && Reaches(es', s') && s'.w == s.w
    ensures s'.handlers == s.handlers[h := AtRow(a, room, since, m, n + 1, sent + [rows[n]])]
  {
    RowStep(s.w.t, a, room, since, m, n, sent, env);
    es', s' := Look(es, s, h, env, AtRow(a, room, since, m, n + 1, sent + [rows[n]]));
  }

  lemma RestOfRows(sent: seq<Replayed>, rows: seq<Replayed>, n: nat)
    requires n <= |rows|
    ensures sent + rows[n..] == if n == |rows| then sent else sent + [rows[n]] + rows[n + 1..]
  {
  }

  /** The sender lookups of the rows from `n` on all succeed. */
  lemma {:induction false} RowsGo(
      es: seq<Event>, s: System, h: nat, env: Env, a: AccountId, room: RoomId, since: Option<MessageId>, m: seq<Row>,
      rows: seq<Replayed>, n: nat, sent: seq<Replayed>)
    returns (es': seq<Event>, s': System)
    requires Reaches(es, s) && Fresh(s.w, env) && h in s.handlers && s.handlers[h] == AtRow(a, room, since, m, n, sent)
    requires rows == MessagesForRecipient(m, room, a, since) && n <= |rows|
    requires forall i :: 0 <= i < |rows| ==> rows[i].msg.from in s.w.t.keys
    ensures Onward(es, es') && Reaches(es', s') && s'.w == s.w
    ensures s'.handlers == s.handlers[h := SubBackfill(a, room, since, m, sent + rows[n..])]
    decreases |rows| - n
  {
    RestOfRows(sent, rows, n);
    if n == |rows| {
      es', s' := es, s;
      assert s.handlers == s.handlers[h := s.handlers[h]];
    } else {
      es', s' := RowGoes(es, s, h, env, a, room, since, m, rows, n, sent);
      es', s' := RowsGo(es', s', h, env, a, room, since, m, rows, n + 1, sent + [rows[n]]);
    }
  }

  lemma {:induction false} NobodyElseRead(m: seq<Row>, room: RoomId, a: AccountId)
    requires forall i :: 0 <= i < |m| ==> m[i].msg.recipient == a
    ensures SelectSentAndRead(m, room, a) == []
  {
    if m == [] {
    } else {
      NobodyElseRead(m[..|m| - 1], room, a);
    }
  }

  lemma OwnReplay(m: seq<Row>, a: AccountId, room: RoomId, since: Option<MessageId>)
    requires OwnRows(m, a)
    ensures ReadSentMessageIds(m, room, a) == []
    ensures var rows := MessagesForRecipient(m, room, a, since); forall i :: 0 <= i < |rows| ==> rows[i].msg.from == a
  {
    NobodyElseRead(m, room, a);
    ReplayFacts(m, room, a, since);
    var rows := MessagesForRecipient(m, room, a, since);
    forall i | 0 <= i < |rows| ensures rows[i].msg.from == a {
      assert rows[i].msg in Store.Replay(m, room, a, since);
    }
  }

  /** At the end nobody else could have read anything, so there is no `Read` frame. */
  lemma {:induction false} Finish(
      es: seq<Event>, s: System, h: nat, env: Env, a: AccountId, room: RoomId, since: Option<MessageId>, m: seq<Row>,
      sent: seq<Replayed>)
    returns (es': seq<Event>, s': System)
    requires Reaches(es, s) && Fresh(s.w, env) && s.w.t.messages == m && ReadSentMessageIds(m, room, a) == []
    requires h in s.handlers && s.handlers[h] == SubBackfill(a, room, since, m, sent)
    ensures Onward(es, es') && Reaches(es', s') && s'.w == s.w
    ensures s'.handlers == s.handlers[h := Subscribed(a, room, since, m, sent, m, true, None)]
  {
    es', s' := Look(es, s, h, env, Subscribed(a, room, since, m, sent, m, true, None));
  }

  /** From row `n` to the end. */
  lemma {:induction false} Ends(
      es: seq<Event>, s: System, h: nat, env: Env, a: AccountId, key: string, room: RoomId, m: seq<Row>,
      since: Option<MessageId>, rows: seq<Replayed>, n: nat)
    returns (es': seq<Event>, s': System)
    requires Reaches(es, s) && Solo(s, a, key, room, m) && Fresh(s.w, env)
    requires rows == MessagesForRecipient(m, room, a, since) && n <= |rows|
    requires h in s.handlers && s.handlers[h] == AtRow(a, room, since, m, n, [])
    ensures Onward(es, es') && Reaches(es', s') && s'.w == s.w
    ensures s'.handlers == s.handlers[h := Subscribed(a, room, since, m, rows[n..], m, true, None)]
  {
    OwnReplay(m, a, room, since);
    es', s' := RowsGo(es, s, h, env, a, room, since, m, rows, n, []);
    assert [] + rows[n..] == rows[n..];
    es', s' := Finish(es', s', h, env, a, room, since, m, rows[n..]);
  }

  lemma {:induction false} Subscribe(
      es: seq<Event>, s: System, h: nat, env: Env, a: AccountId, key: string, room: RoomId, m: seq<Row>,
      since: Option<MessageId>)
    returns (es': seq<Event>, s': System)
    requires Reaches(es, s) && Solo(s, a, key, room, m) && h !in s.handlers && Fresh(s.w, env)
    ensures Onward(es, es') && Reaches(es', s') && s'.w == s.w
    ensures s'.handlers
         == s.handlers[h := Subscribed(a, room, since, m, MessagesForRecipient(m, room, a, since), m, true, None)]
  {
    var rows := MessagesForRecipient(m, room, a, since);
    es', s' := Begins(es, s, h, env, a, key, room, m, since);
    es', s' := Ends(es', s', h, env, a, key, room, m, since, rows, 0);
    assert rows[0..] == rows;
  }

  lemma {:induction false} SkipFirst(
      es: seq<Event>, s: System, h: nat, env: Env, a: AccountId, key: string, room: RoomId, m: seq<Row>,
      since: Option<MessageId>)
    returns (es': seq<Event>, s': System, k: nat)
    requires Reaches(es, s) && Solo(s, a, key, room, m) && h !in s.handlers && Fresh(s.w, env)
    requires MessagesForRecipient(m, room, a, since) != []
    ensures |es'| == k + 1 && Onward(es, es'[..k]) && es'[k] == Fault(h)
    ensures Reaches(es', s') && s'.w == s.w && s'.handlers == s.handlers[h := AtRow(a, room, since, m, 1, [])]
    ensures h in StateAt(es', k).handlers && StateAt(es', k).handlers[h] == SubRows(a, room, since, m, 0, [])
  {
    var es0, s0 := Begins(es, s, h, env, a, key, room, m, since);
    k := |es0|;
    es', s' := Fail(es0, s0, h);
    AtOf(es0, s0, es');
  }

  /** The same, but the sender lookup of the first row fails, at event `k`. */
  lemma {:induction false} SubscribeSkippingFirst(
      es: seq<Event>, s: System, h: nat, env: Env, a: AccountId, key: string, room: RoomId, m: seq<Row>,
      since: Option<MessageId>)
    returns (es': seq<Event>, s': System, k: nat)
    requires Reaches(es, s) && Solo(s, a, key, room, m) && h !in s.handlers && Fresh(s.w, env)
    requires MessagesForRecipient(m, room, a, since) != []
    ensures OneFault(es, es', h, k) && Reaches(es', s') && s'.w == s.w
    ensures s'.handlers
         == s.handlers[h := Subscribed(a, room, since, m, MessagesForRecipient(m, room, a, since)[1..], m, true, None)]
    ensures h in StateAt(es', k).handlers && StateAt(es', k).handlers[h].SubRows?
  {
    var es1, s1;
    es1, s1, k := SkipFirst(es, s, h, env, a, key, room, m, since);
    es', s' := Ends(es1, s1, h, env, a, key, room, m, since, MessagesForRecipient(m, room, a, since), 1);
    SamePrefix(es1, es', k);
    assert forall i :: 0 <= i < k ==> es'[i] == es1[..k][i];
    assert es <= es';
  }

  /** The run goes on with a failure of handler `h` at event `k` and no other. */
  ghost predicate OneFault(es: seq<Event>, es': seq<Event>, h: nat, k: nat) {
    && es <= es' && |es| <= k < |es'| && es'[k] == Fault(h)
    && forall i :: |es| <= i < |es'| && i != k ==> !es'[i].Fault?
  }

  // ---------------------------------------------------------------------------------------------
  // Its device

  lemma {:induction false} OneMoreAction(es: seq<Event>, c: Client, gs: seq<Action>, g: Action, h: nat)
    requires IsRun(es) && ClientRun(es, c, gs) && Possible(es, c, gs, g)
    ensures ClientRun(es, c, gs + [g])
    ensures DeviceOf(es, c, gs + [g]) == Apply(DeviceOf(es, c, gs), Received(es, c, gs, g), ReadIds(es, c, g))
    ensures Got(gs + [g], h) == Got(gs, h) + if g == Frame(h) then 1 else 0
  {
    assert (gs + [g])[..|gs|] == gs;
  }

  /** The device after a first Subscribe that brought only `y`. */
  lemma {:induction false} FirstFrame(es: seq<Event>, c: Client, h: nat, y: Message, other: nat)
    requires IsRun(es) && IsSubscribe(es, c, h) && StateAfter(es).handlers[h].since == None && h != other
    requires |StateAfter(es).handlers[h].sent| == 1 && StateAfter(es).handlers[h].sent[0].msg == y
    ensures var gs := [Ask(h), Frame(h)];
            ClientRun(es, c, gs) && DeviceOf(es, c, gs).log == [y] && Got(gs, h) == 1 && Got(gs, other) == 0
  {
    var gs0, gs1: seq<Action> := [], [Ask(h)];
    assert gs0 + [Ask(h)] == gs1 && gs1 + [Frame(h)] == [Ask(h), Frame(h)];
    assert ClientRun(es, c, gs0) && DeviceOf(es, c, gs0) == NEW_DEVICE && Got(gs0, h) == 0 && Got(gs0, other) == 0;
    OneMoreAction(es, c, gs0, Ask(h), h);
    OneMoreAction(es, c, gs0, Ask(h), other);
    OneMoreAction(es, c, gs1, Frame(h), h);
    OneMoreAction(es, c, gs1, Frame(h), other);
    ApplyFacts(DeviceOf(es, c, gs1), Received(es, c, gs1, Frame(h)), ReadIds(es, c, Frame(h)));
    assert gs0 + [Ask(h)] == gs1 && [] + [y] == [y];
  }

  /** Then it asks again, with the id of `y`. */
  lemma {:induction false} AskAgain(es: seq<Event>, c: Client, gs: seq<Action>, h: nat, y: Message, other: nat)
    requires IsRun(es) && ClientRun(es, c, gs) && DeviceOf(es, c, gs).log == [y]
    requires IsSubscribe(es, c, h) && Ask(h) !in gs && StateAfter(es).handlers[h].since == Some(y.id)
    ensures ClientRun(es, c, gs + [Ask(h)]) && DeviceOf(es, c, gs + [Ask(h)]).log == [y]
    ensures Got(gs + [Ask(h)], h) == Got(gs, h) && Got(gs + [Ask(h)], other) == Got(gs, other)
  {
    Replay.WatermarkIsLast([y]);
    assert Possible(es, c, gs, Ask(h));
    OneMoreAction(es, c, gs, Ask(h), h);
    OneMoreAction(es, c, gs, Ask(h), other);
    ApplyFacts(DeviceOf(es, c, gs), Received(es, c, gs, Ask(h)), ReadIds(es, c, Ask(h)));
  }

  /** It does not hold a message of lower id, and will not ask for it. */
  lemma LowerIsLost(d: Receipts.Device, y: Message, x: Message)
    requires d.log == [y] && x.id < y.id
    ensures Lost(d, x)
  {
    Replay.WatermarkIsLast(d.log);
  }

  lemma {:induction false} NoFaultPoints(es: seq<Event>, h: nat)
    requires IsRun(es) && forall i :: 0 <= i < |es| ==> es[i] != Fault(h)
    ensures FaultPoints(es, h) == []
  {
    if es == [] {
    } else {
      NoFaultPoints(es[..|es| - 1], h);
    }
  }

  // ---------------------------------------------------------------------------------------------
  // Two messages

  lemma OneRow(m: seq<Row>, y: Message, a: AccountId, room: RoomId)
    requires m == [Row(y, None)] && y.from == y.recipient == a && y.room == room
    ensures OwnRows(m, a)
    ensures var rows := MessagesForRecipient(m, room, a, None); |rows| == 1 && rows[0].msg == y
  {
    ReplayFacts(m, room, a, None);
    assert m[0].msg == y;
    SortedUnique(Store.Replay(m, room, a, None), [y]);
  }

  ghost predicate AreBoth(m: seq<Row>, a: AccountId, room: RoomId, x: Message, y: Message) {
    && |m| == 2 && x.id < y.id
    && x.from == x.recipient == y.from == y.recipient == a && x.room == y.room == room
    && (m == [Row(x, None), Row(y, None)] || m == [Row(y, None), Row(x, None)])
  }

  /** A full replay has both. */
  lemma BothRows(m: seq<Row>, a: AccountId, room: RoomId, x: Message, y: Message)
    requires AreBoth(m, a, room, x, y)
    ensures OwnRows(m, a) && Replay.Stored(m, x)
    ensures var rows := MessagesForRecipient(m, room, a, None); |rows| == 2 && rows[0].msg == x && rows[1].msg == y
  {
    var msgs := Store.Replay(m, room, a, None);
    ReplayFacts(m, room, a, None);
    assert m[0].msg in msgs && m[1].msg in msgs;
    forall z | z in msgs ensures z in [x, y] {
    }
    SortedUnique(msgs, [x, y]);
  }

  /** One since the larger id has neither. */
  lemma NoNewRows(m: seq<Row>, a: AccountId, room: RoomId, x: Message, y: Message)
    requires AreBoth(m, a, room, x, y)
    ensures MessagesForRecipient(m, room, a, Some(y.id)) == []
  {
    var rest := Store.Replay(m, room, a, Some(y.id));
    HeadIsIn(rest);
    ReplayFacts(m, room, a, Some(y.id));
  }

  lemma HeadIsIn<T>(s: seq<T>)
    ensures s == [] || s[0] in s
  {
  }

  // ---------------------------------------------------------------------------------------------
  // Lost through the order of commits

  /** A Send of the account to itself passes its checks, and its id and timestamp are drawn. */
  lemma {:induction false} PrepareOwn(
      es: seq<Event>, s: System, h: nat, a: AccountId, key: string, room: RoomId, m: seq<Row>, x: Message)
    returns (es': seq<Event>, s': System)
    requires Reaches(es, s) && At(s, map[a := key], room, [a], m) && Unused(s, h, room, x.id) && IsOwn(x, a, room)
    ensures Onward(es, es') && Reaches(es', s') && At(s', map[a := key], room, [a], m) && Unused(s', h + 1, room, x.id + 1)
    ensures Waits(s', h, a, key, room, x) && s'.handlers == s.handlers[h := s'.handlers[h]]
  {
    OwnSend(s.w.t, a, key, x.body);
    es', s' := Prepare(es, s, h, a, map[a := key], room, [a], m, map[key := x.body], NextEnv(room, x.id));
    StillUnused(s, s', h, room, x.id);
  }

  /** A message of the account to itself. */
  ghost predicate IsOwn(x: Message, a: AccountId, room: RoomId) {
    x == Message(x.id, room, a, a, x.body, 0) && |x.body| <= FanOut.MAX_BODY_BYTES
  }

  /** Handler `h` waits to store `x`, the account's message to itself. */
  ghost predicate Waits(s: System, h: nat, a: AccountId, key: string, room: RoomId, x: Message) {
    h in s.handlers && s.handlers[h] == SendWrite(a, room, map[key := x.body], [FanOut.Member(a, key)], x.id, 0)
  }

  /** It is stored, at the last event. */
  lemma {:induction false} CommitOwn(
      es: seq<Event>, s: System, h: nat, n: nat, a: AccountId, key: string, room: RoomId, m: seq<Row>, x: Message, id: MessageId)
    returns (es': seq<Event>, s': System)
    requires Reaches(es, s) && At(s, map[a := key], room, [a], m) && Unused(s, n, room, id) && IsOwn(x, a, room)
    requires Waits(s, h, a, key, room, x) && FreshId(m, x.id)
    ensures Onward(es, es') && Reaches(es', s') && At(s', map[a := key], room, [a], m + [Row(x, None)])
    ensures Unused(s', n, room, id) && s'.handlers == s.handlers[h := Finished] && |es'| == |es| + 1
    ensures IsSend(es', Client(a, room), |es|, x)
  {
    assert Roster(s.w.t, [a]) == [FanOut.Member(a, key)];
    OwnCopies(s.w.t, s.handlers[h], a, key, room, x.body, x.id, 0);
    es', s' := CommitSend(es, s, h, room, [a], x, NextEnv(room, id));
    AtOf(es, s, es');
  }

  lemma {:induction false} FirstWaits(a: AccountId, key: string, room: RoomId, m0: seq<Row>, x: Message)
    returns (es: seq<Event>, s: System)
    requires IsOwn(x, a, room) && m0 == []
    ensures Reaches(es, s) && FaultFree(es) && At(s, map[a := key], room, [a], m0) && Unused(s, 2, room, x.id + 1)
    ensures Waits(s, 1, a, key, room, x)
  {
    var es0, s0 := SoloRoom(a, key, room, x.id);
    es, s := PrepareOwn(es0, s0, 1, a, key, room, m0, x);
  }

  /** Two Sends of the account have passed their checks. */
  lemma {:induction false} BothWait(a: AccountId, key: string, room: RoomId, m0: seq<Row>, x: Message, y: Message)
    returns (es: seq<Event>, s: System, drawn: nat)
    requires IsOwn(x, a, room) && IsOwn(y, a, room) && x.id < y.id && m0 == []
    ensures Reaches(es, s) && FaultFree(es) && At(s, map[a := key], room, [a], m0) && Unused(s, 3, room, y.id + 1)
    ensures Waits(s, 1, a, key, room, x) && Waits(s, 2, a, key, room, y)
    ensures drawn <= |es| && Waits(StateAt(es, drawn), 1, a, key, room, x) && MessagesAt(es, drawn) == []
  {
    var es1, s1 := FirstWaits(a, key, room, m0, x);
    drawn := |es1|;
    es, s := PrepareOwn(es1, s1, 2, a, key, room, m0, y);
    AtOf(es1, s1, es);
  }

  /** The second has the larger id and is stored first. */
  lemma {:induction false} SendsOverlap(a: AccountId, key: string, room: RoomId, m0: seq<Row>, m1: seq<Row>, x: Message, y: Message)
    returns (es: seq<Event>, s: System, drawn: nat)
    requires IsOwn(x, a, room) && IsOwn(y, a, room) && x.id < y.id && m0 == [] && m1 == m0 + [Row(y, None)]
    ensures Reaches(es, s) && FaultFree(es) && At(s, map[a := key], room, [a], m1) && Unused(s, 3, room, y.id + 1)
    ensures Waits(s, 1, a, key, room, x)
    ensures drawn <= |es| && Waits(StateAt(es, drawn), 1, a, key, room, x) && MessagesAt(es, drawn) == []
  {
    var es1, s1;
    es1, s1, drawn := BothWait(a, key, room, m0, x, y);
    es, s := CommitOwn(es1, s1, 2, 3, a, key, room, m0, y, y.id + 1);
    SamePrefix(es1, es, drawn);
  }

  /** A finished Subscribe without failures whose frames the client has received. */
  lemma {:induction false} UnfaultedIsComplete(es: seq<Event>, c: Client, gs: seq<Action>, h: nat)
    requires IsRun(es) && IsSubscribe(es, c, h) && StateAfter(es).handlers[h].Subscribed?
    requires Got(gs, h) == |StateAfter(es).handlers[h].sent|
    requires forall i :: 0 <= i < |es| ==> es[i] != Fault(h)
    ensures Complete(es, c, gs, h)
  {
    NoFaultPoints(es, h);
  }

  /** The late Send commits, and a Subscribe is asked after that. */
  lemma {:induction false} CommitAndAsk(
      es: seq<Event>, s: System, a: AccountId, key: string, room: RoomId, m1: seq<Row>, m2: seq<Row>, x: Message, y: Message)
    returns (es': seq<Event>, s': System, asked: nat)
    requires Reaches(es, s) && At(s, map[a := key], room, [a], m1) && Unused(s, 4, room, y.id + 1) && AreBoth(m2, a, room, x, y)
    requires m2 == m1 + [Row(x, None)] && FreshId(m1, x.id) && IsOwn(x, a, room) && Waits(s, 1, a, key, room, x)
    ensures Onward(es, es') && Reaches(es', s') && s'.w.t.messages == m2
    ensures 3 in s.handlers ==> 3 in s'.handlers && s'.handlers[3] == s.handlers[3]
    ensures 4 in s'.handlers
    ensures s'.handlers[4]
         == Subscribed(a, room, Some(y.id), m2, MessagesForRecipient(m2, room, a, Some(y.id)), m2, true, None)
    ensures |es| <= asked <= |es'| && 4 !in StateAt(es', asked).handlers && MessagesAt(es', asked) == m2
  {
    BothRows(m2, a, room, x, y);
    var es1, s1 := CommitOwn(es, s, 1, 4, a, key, room, m1, x, y.id + 1);
    asked := |es1|;
    es', s' := Subscribe(es1, s1, 4, NextEnv(room, y.id + 1), a, key, room, m2, Some(y.id));
    AtOf(es1, s1, es');
  }

  /** The two Sends overlap, with a Subscribe between their commits. */
  lemma {:induction false} SubscribeBetween(
      a: AccountId, key: string, room: RoomId, m0: seq<Row>, m1: seq<Row>, x: Message, y: Message)
    returns (es: seq<Event>, s: System, drawn: nat)
    requires IsOwn(x, a, room) && IsOwn(y, a, room) && x.id < y.id && m0 == [] && m1 == m0 + [Row(y, None)]
    ensures Reaches(es, s) && FaultFree(es) && At(s, map[a := key], room, [a], m1) && Unused(s, 4, room, y.id + 1)
    ensures Waits(s, 1, a, key, room, x) && 3 in s.handlers
    ensures s.handlers[3] == Subscribed(a, room, None, m1, MessagesForRecipient(m1, room, a, None), m1, true, None)
    ensures drawn <= |es| && Waits(StateAt(es, drawn), 1, a, key, room, x) && MessagesAt(es, drawn) == []
  {
    OneRow(m1, y, a, room);
    var es0, s0;
    es0, s0, drawn := SendsOverlap(a, key, room, m0, m1, x, y);
    es, s := Subscribe(es0, s0, 3, NextEnv(room, y.id + 1), a, key, room, m1, None);
    SamePrefix(es0, es, drawn);
  }

  /** A first Subscribe brought only `y`, a second one since `y` brought nothing: what is below `y` is lost. */
  lemma {:induction false} SecondBringsNothing(es: seq<Event>, c: Client, h1: nat, h2: nat, x: Message, y: Message)
    returns (gs: seq<Action>)
    requires IsRun(es) && h1 != h2 && x.id < y.id
    requires BroughtFirst(StateAfter(es), c.me, c.room, h1, y) && BroughtNothing(StateAfter(es), c.me, c.room, h2, y)
    ensures gs == [Ask(h1), Frame(h1), Ask(h2)] && ClientRun(es, c, gs) && Lost(DeviceOf(es, c, gs), x)
    ensures Got(gs, h1) == |StateAfter(es).handlers[h1].sent| && Got(gs, h2) == |StateAfter(es).handlers[h2].sent|
  {
    FirstFrame(es, c, h1, y, h2);
    gs := AskInVain(es, c, [Ask(h1), Frame(h1)], h2, x, y, h1);
  }

  lemma {:induction false} AskInVain(
      es: seq<Event>, c: Client, gs: seq<Action>, h: nat, x: Message, y: Message, other: nat)
    returns (gs': seq<Action>)
    requires IsRun(es) && ClientRun(es, c, gs) && DeviceOf(es, c, gs).log == [y] && x.id < y.id
    requires BroughtNothing(StateAfter(es), c.me, c.room, h, y) && Ask(h) !in gs
    ensures gs' == gs + [Ask(h)] && ClientRun(es, c, gs') && Lost(DeviceOf(es, c, gs'), x)
    ensures Got(gs', h) == Got(gs, h) && Got(gs', other) == Got(gs, other)
  {
    AskAgain(es, c, gs, h, y, other);
    gs' := gs + [Ask(h)];
    LowerIsLost(DeviceOf(es, c, gs'), y, x);
  }

  /** The run of the two Sends and the two Subscribes. */
  lemma {:induction false} LateRun(a: AccountId, key: string, room: RoomId, x: Message, y: Message)
    returns (es: seq<Event>, s: System, drawn: nat, asked: nat)
    requires IsOwn(x, a, room) && IsOwn(y, a, room) && x.id < y.id
    ensures Reaches(es, s) && FaultFree(es) && drawn <= asked <= |es|
    ensures Waits(StateAt(es, drawn), 1, a, key, room, x) && MessagesAt(es, drawn) == []
    ensures Replay.Stored(MessagesAt(es, asked), x) && 4 !in StateAt(es, asked).handlers
    ensures BroughtFirst(s, a, room, 3, y) && BroughtNothing(s, a, room, 4, y)
    ensures s.w.t.messages == [Row(y, None), Row(x, None)]
  {
    var m0: seq<Row> := [];
    var m1 := m0 + [Row(y, None)];
    var m2 := m1 + [Row(x, None)];
    assert m1 == [Row(y, None)] && m2 == [Row(y, None), Row(x, None)];
    OneRow(m1, y, a, room);
    BothRows(m2, a, room, x, y);
    NoNewRows(m2, a, room, x, y);
    var es0, s0;
    es0, s0, drawn := SubscribeBetween(a, key, room, m0, m1, x, y);
    es, s, asked := CommitAndAsk(es0, s0, a, key, room, m1, m2, x, y);
    SamePrefix(es0, es, drawn);
  }

  /** Subscribe `h` of the account was asked without a watermark, and `y` is all it sent. */
  ghost predicate BroughtFirst(s: System, a: AccountId, room: RoomId, h: nat, y: Message) {
    && h in s.handlers && s.handlers[h].Subscribed? && s.handlers[h].me == a && s.handlers[h].room == room
    && s.handlers[h].since == None && |s.handlers[h].sent| == 1 && s.handlers[h].sent[0].msg == y
  }

  /** Subscribe `h` was asked with the id of `y` and sent nothing. */
  ghost predicate BroughtNothing(s: System, a: AccountId, room: RoomId, h: nat, y: Message) {
    && h in s.handlers && s.handlers[h].Subscribed? && s.handlers[h].me == a && s.handlers[h].room == room
    && s.handlers[h].since == Some(y.id) && s.handlers[h].sent == []
  }

  /**
   * Lost through the order of commits, with no failure at all: the id of `x` is drawn first, `y` of
   * larger id is stored and replayed to the client, and then `x` is stored. A Subscribe
   * asked after that is answered completely and does not bring it; by `LostForGoodIff` no later one
   * does.
   */
  lemma {:induction false} LateSendIsLost(
      a: AccountId, key: string, room: RoomId, body: string, low: MessageId, high: MessageId)
    returns (es: seq<Event>, gs: seq<Action>, x: Message, y: Message, drawn: nat, asked: nat)
    requires low < high && |body| <= FanOut.MAX_BODY_BYTES
    ensures IsRun(es) && FaultFree(es) && drawn <= asked <= |es|
    ensures MessagesAt(es, drawn) == [] && 1 in StateAt(es, drawn).handlers
    ensures StateAt(es, drawn).handlers[1].SendWrite? && StateAt(es, drawn).handlers[1].id == x.id
    ensures Addressed(x, room, a) && Replay.Stored(MessagesAt(es, asked), x) && 4 !in StateAt(es, asked).handlers
    ensures x.id < y.id && StateAfter(es).w.t.messages == [Row(y, None), Row(x, None)]
    ensures var c := Client(a, room);
            && gs == [Ask(3), Frame(3), Ask(4)] && ClientRun(es, c, gs)
            && Complete(es, c, gs, 3) && Complete(es, c, gs, 4)
            && Lost(DeviceOf(es, c, gs), x)
  {
    x, y := Message(low, room, a, a, body, 0), Message(high, room, a, a, body, 0);
    var c := Client(a, room);
    var s: System;
    es, s, drawn, asked := LateRun(a, key, room, x, y);
    gs := SecondBringsNothing(es, c, 3, 4, x, y);
    UnfaultedIsComplete(es, c, gs, 3);
    UnfaultedIsComplete(es, c, gs, 4);
  }

  // ---------------------------------------------------------------------------------------------
  // With ids committed in order

  /** A whole Send of the account to itself; event `k` stores the copy. */
  lemma {:induction false} SendOwn(
      es: seq<Event>, s: System, h: nat, a: AccountId, key: string, room: RoomId, m: seq<Row>, x: Message)
    returns (es': seq<Event>, s': System, k: nat)
    requires Reaches(es, s) && At(s, map[a := key], room, [a], m) && Unused(s, h, room, x.id) && IsOwn(x, a, room)
    requires FreshId(m, x.id)
    ensures Onward(es, es') && Reaches(es', s') && At(s', map[a := key], room, [a], m + [Row(x, None)])
    ensures Unused(s', h + 1, room, x.id + 1) && k < |es'| && IsSend(es', Client(a, room), k, x)
  {
    var es1, s1 := PrepareOwn(es, s, h, a, key, room, m, x);
    k := |es1|;
    es', s' := CommitOwn(es1, s1, h, h + 1, a, key, room, m, x, x.id + 1);
  }

  lemma {:induction false} IsStillSend(es: seq<Event>, all: seq<Event>, c: Client, k: nat, x: Message)
    requires IsRun(es) && IsRun(all) && es <= all && k < |es| && IsSend(es, c, k, x)
    ensures IsSend(all, c, k, x)
  {
    SamePrefix(es, all, k);
  }

  ghost predicate InOrder(m: seq<Row>, a: AccountId, room: RoomId, x: Message, y: Message) {
    AreBoth(m, a, room, x, y) && m[0].msg == x && IsOwn(x, a, room) && IsOwn(y, a, room)
  }

  lemma {:induction false} SendFirst(a: AccountId, key: string, room: RoomId, x: Message)
    returns (es: seq<Event>, s: System)
    requires IsOwn(x, a, room)
    ensures Reaches(es, s) && FaultFree(es) && At(s, map[a := key], room, [a], [Row(x, None)]) && Unused(s, 2, room, x.id + 1)
  {
    var m0: seq<Row> := [];
    var es0, s0 := SoloRoom(a, key, room, x.id);
    var k;
    es, s, k := SendOwn(es0, s0, 1, a, key, room, m0, x);
    assert m0 + [Row(x, None)] == [Row(x, None)];
  }

  /** Two Sends whose ids are drawn and committed in order, the second one at event `k`. */
  lemma {:induction false} SendTwo(a: AccountId, key: string, room: RoomId, m: seq<Row>, x: Message, y: Message)
    returns (es: seq<Event>, s: System, k: nat)
    requires InOrder(m, a, room, x, y)
    ensures Reaches(es, s) && FaultFree(es) && At(s, map[a := key], room, [a], m) && Unused(s, 3, room, y.id + 1)
    ensures k < |es| && IsSend(es, Client(a, room), k, y)
  {
    var m1 := [Row(x, None)];
    var es1, s1 := SendFirst(a, key, room, x);
    es, s, k := SendOwn(es1, s1, 2, a, key, room, m1, y);
    assert m1 + [Row(y, None)] == m;
  }

  lemma BothAreOrdered(m: seq<Row>, a: AccountId, room: RoomId, x: Message, y: Message)
    requires InOrder(m, a, room, x, y)
    ensures Replay.CommittedInIdOrder(m, room)
  {
  }

  /** The sender lookup of the first row fails in the first Subscribe, and nothing fails in the second. */
  lemma {:induction false} SkipThenAsk(
      es: seq<Event>, s: System, a: AccountId, key: string, room: RoomId, m: seq<Row>, x: Message, y: Message, env: Env)
    returns (es': seq<Event>, s': System, k: nat)
    requires Reaches(es, s) && FaultFree(es) && Solo(s, a, key, room, m) && AreBoth(m, a, room, x, y)
    requires 3 !in s.handlers && 4 !in s.handlers && Fresh(s.w, env)
    ensures es <= es' && Reaches(es', s') && s'.w == s.w && 3 in s'.handlers && 4 in s'.handlers
    ensures k < |es'| && es'[k] == Fault(3) && forall i :: 0 <= i < |es'| && i != k ==> !es'[i].Fault?
    ensures 3 in StateAt(es', k).handlers && StateAt(es', k).handlers[3].SubRows?
    ensures s'.handlers[3] == Subscribed(a, room, None, m, MessagesForRecipient(m, room, a, None)[1..], m, true, None)
    ensures s'.handlers[4]
         == Subscribed(a, room, Some(y.id), m, MessagesForRecipient(m, room, a, Some(y.id)), m, true, None)
  {
    BothRows(m, a, room, x, y);
    var es1, s1;
    es1, s1, k := SubscribeSkippingFirst(es, s, 3, env, a, key, room, m, None);
    es', s' := Subscribe(es1, s1, 4, env, a, key, room, m, Some(y.id));
    SamePrefix(es1, es', k);
  }

  /** The run of the two Sends and the two Subscribes. */
  lemma {:induction false} FaultedRun(a: AccountId, key: string, room: RoomId, m: seq<Row>, x: Message, y: Message)
    returns (es: seq<Event>, s: System, asked: nat, k: nat)
    requires InOrder(m, a, room, x, y)
    ensures Reaches(es, s) && s.w.t.messages == m && 3 in s.handlers && 4 in s.handlers
    ensures k < |es| && es[k] == Fault(3) && forall i :: 0 <= i < |es| && i != k ==> !es[i].Fault?
    ensures 3 in StateAt(es, k).handlers && StateAt(es, k).handlers[3].SubRows?
    ensures asked <= |es| && MessagesAt(es, asked) == m
    ensures 3 !in StateAt(es, asked).handlers && 4 !in StateAt(es, asked).handlers
    ensures s.handlers[3] == Subscribed(a, room, None, m, MessagesForRecipient(m, room, a, None)[1..], m, true, None)
    ensures s.handlers[4]
         == Subscribed(a, room, Some(y.id), m, MessagesForRecipient(m, room, a, Some(y.id)), m, true, None)
  {
    BothRows(m, a, room, x, y);
    var es1, s1, k1 := SendTwo(a, key, room, m, x, y);
    asked := |es1|;
    es, s, k := SkipThenAsk(es1, s1, a, key, room, m, x, y, NextEnv(room, y.id + 1));
    AtOf(es1, s1, es);
  }

  /**
   * Lost through one failed lookup: ids drawn and committed in order, and a single failure in the
   * whole run, of the sender lookup of the first row of a Subscribe. A second Subscribe, in which
   * nothing fails, does not bring the message, which was stored before either was asked.
   */
  lemma {:induction false} FaultedLookupLosesMessage(
      a: AccountId, key: string, room: RoomId, body: string, low: MessageId, high: MessageId)
    returns (es: seq<Event>, gs: seq<Action>, x: Message, asked: nat, k: nat)
    requires low < high && |body| <= FanOut.MAX_BODY_BYTES
    ensures IsRun(es) && Replay.CommittedInIdOrder(MessagesAt(es, |es|), room)
    ensures k < |es| && es[k] == Fault(3) && forall i :: 0 <= i < |es| && i != k ==> !es[i].Fault?
    ensures 3 in StateAt(es, k).handlers && StateAt(es, k).handlers[3].SubRows?
    ensures asked <= |es| && Addressed(x, room, a) && Replay.Stored(MessagesAt(es, asked), x)
    ensures 3 !in StateAt(es, asked).handlers && 4 !in StateAt(es, asked).handlers
    ensures 3 in StateAfter(es).handlers && StateAfter(es).handlers[3].Subscribed?
    ensures var c := Client(a, room);
            && gs == [Ask(3), Frame(3), Ask(4)] && ClientRun(es, c, gs) && Complete(es, c, gs, 4)
            && Got(gs, 3) == |StateAfter(es).handlers[3].sent| && Lost(DeviceOf(es, c, gs), x)
  {
    x := Message(low, room, a, a, body, 0);
    var c, y := Client(a, room), Message(high, room, a, a, body, 0);
    var m := [Row(x, None), Row(y, None)];
    BothRows(m, a, room, x, y);
    NoNewRows(m, a, room, x, y);
    BothAreOrdered(m, a, room, x, y);
    var s: System;
    es, s, asked, k := FaultedRun(a, key, room, m, x, y);
    AtEnd(es);
    gs := SecondBringsNothing(es, c, 3, 4, x, y);
    UnfaultedIsComplete(es, c, gs, 4);
  }

  // ---------------------------------------------------------------------------------------------
  // A live frame first

  /** A live copy of `y` is the first thing a new device receives. */
  lemma {:induction false} FirstLive(es: seq<Event>, c: Client, gs: seq<Action>, k: nat, y: Message, h: nat)
    requires IsRun(es) && IsSend(es, c, k, y) && gs == [Live(k, y)]
    ensures ClientRun(es, c, gs) && DeviceOf(es, c, gs).log == [y] && Got(gs, h) == 0
  {
    var gs0 := gs[..0];
    assert gs0 == [] && gs0 + [Live(k, y)] == gs;
    assert Possible(es, c, gs0, Live(k, y));
    OneMoreAction(es, c, gs0, Live(k, y), h);
    ApplyFacts(NEW_DEVICE, Received(es, c, gs0, Live(k, y)), ReadIds(es, c, Live(k, y)));
    assert [] + [y] == [y];
  }

  /** Then it asks with the id of `y`. */
  lemma {:induction false} LiveThenAsk(es: seq<Event>, c: Client, k: nat, y: Message, h: nat)
    returns (gs: seq<Action>)
    requires IsRun(es) && IsSend(es, c, k, y) && BroughtNothing(StateAfter(es), c.me, c.room, h, y)
    ensures gs == [Live(k, y), Ask(h)] && ClientRun(es, c, gs) && DeviceOf(es, c, gs).log == [y] && Got(gs, h) == 0
  {
    gs := [Live(k, y)];
    FirstLive(es, c, gs, k, y, h);
    AskAgain(es, c, gs, h, y, h);
    gs := gs + [Ask(h)];
  }

  /** The run of the two Sends and the Subscribe. */
  lemma {:induction false} LiveRun(a: AccountId, key: string, room: RoomId, m: seq<Row>, x: Message, y: Message)
    returns (es: seq<Event>, s: System, k: nat, asked: nat)
    requires InOrder(m, a, room, x, y)
    ensures Reaches(es, s) && FaultFree(es) && s.w.t.messages == m && k < asked <= |es| && IsSend(es, Client(a, room), k, y)
    ensures MessagesAt(es, asked) == m && 3 !in StateAt(es, asked).handlers && 3 in s.handlers
    ensures s.handlers[3]
         == Subscribed(a, room, Some(y.id), m, MessagesForRecipient(m, room, a, Some(y.id)), m, true, None)
  {
    BothRows(m, a, room, x, y);
    var es1, s1, k1 := SendTwo(a, key, room, m, x, y);
    k, asked := k1, |es1|;
    es, s := Subscribe(es1, s1, 3, NextEnv(room, y.id + 1), a, key, room, m, Some(y.id));
    AtOf(es1, s1, es);
    IsStillSend(es1, es, Client(a, room), k, y);
  }

  /**
   * Lost through a live frame, with nothing failed and ids drawn and committed in order: `x` is sent
   * while the client is offline, `y` while it is connected and has not asked yet. Its Subscribe,
   * asked with the id of `y` and answered completely, does not bring `x`.
   */
  lemma {:induction false} LiveFrameLosesMessage(
      a: AccountId, key: string, room: RoomId, body: string, low: MessageId, high: MessageId)
    returns (es: seq<Event>, gs: seq<Action>, x: Message, y: Message, k: nat, asked: nat)
    requires low < high && |body| <= FanOut.MAX_BODY_BYTES
    ensures IsRun(es) && FaultFree(es) && Replay.CommittedInIdOrder(MessagesAt(es, |es|), room)
    ensures k < asked <= |es| && Addressed(x, room, a) && Replay.Stored(MessagesAt(es, asked), x)
    ensures 3 !in StateAt(es, asked).handlers
    ensures var c := Client(a, room);
            && gs == [Live(k, y), Ask(3)] && ClientRun(es, c, gs) && Complete(es, c, gs, 3)
            && Lost(DeviceOf(es, c, gs), x)
  {
    x, y := Message(low, room, a, a, body, 0), Message(high, room, a, a, body, 0);
    var c, m := Client(a, room), [Row(x, None), Row(y, None)];
    BothRows(m, a, room, x, y);
    NoNewRows(m, a, room, x, y);
    BothAreOrdered(m, a, room, x, y);
    var s: System;
    es, s, k, asked := LiveRun(a, key, room, m, x, y);
    AtEnd(es);
    gs := LiveThenAsk(es, c, k, y, 3);
    UnfaultedIsComplete(es, c, gs, 3);
    LowerIsLost(DeviceOf(es, c, gs), y, x);
  }
}
