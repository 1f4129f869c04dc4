/**
 * A run between two linked partners, with no failure, after which what the reader has read is not a
 * prefix of its incoming messages and the unread marker hides an unread one: the sender's second
 * message is stored and read before its first one, whose id and timestamp were drawn earlier, is
 * stored.
 */
module UnreadGap {
  import opened Common
  import opened Store
  import opened Tables
  import opened Handlers
  import opened Invariant
  import opened Server
  import opened OrderedRuns
  import opened Scenarios
  import FanOut
  import Receipts

  const INVITE: Token := -1

  // ---------------------------------------------------------------------------------------------
  // Pairing

  function Issued1(a: AccountId, room: RoomId): map<Token, Invite> {
    map[INVITE := Invite(a, DefaultExpiry(0), None, Some(room))]
  }

  /** Account `a` has created the room, with a pending invite for it. */
  ghost predicate Inviting(s: System, keys: map<AccountId, string>, a: AccountId, room: RoomId) {
    s.w.t == Tables(keys, map[], Issued1(a, room), map[room := [a]], []) && room in s.w.host
  }

  lemma InviteStep(w: World, a: AccountId, room: RoomId, env: Env)
    requires a in w.t.keys && w.t.rooms == map[room := [a]] && w.t.invites == map[]
    requires env.room != room && env.token == INVITE && INVITE !in w.issued && env.now == 0
    ensures Step(w, RoomInvite(a, room), env)
         == (w.(t := w.t.(invites := Issued1(a, room)), issued := w.issued[INVITE := a]), Finished)
  {
    assert WithoutOutstanding(w.t.invites, a) == map[];
  }

  lemma {:induction false} CreateAndInvite(
      es: seq<Event>, s: System, keys: map<AccountId, string>, a: AccountId, room: RoomId, id: MessageId)
    returns (es': seq<Event>, s': System)
    requires Reaches(es, s) && s.w == World(Tables(keys, map[], map[], map[], []), map[], map[], {}) && a in keys
    requires s.handlers == map[]
    ensures Onward(es, es') && Reaches(es', s') && Inviting(s', keys, a, room) && Unused(s', 1, room, id)
  {
    var env := Env(0, true, room, INVITE, id);
    es', s' := CreateRoom(es, s, 0, a, true, env);
    InviteStep(s'.w, a, room, env.(room := room + 1));
    es', s' := Go(es', s', 0, env.(room := room + 1));
  }

  /** The invitee's checks pass. */
  lemma {:induction false} LookUp(
      es: seq<Event>, s: System, keys: map<AccountId, string>, a: AccountId, b: AccountId, room: RoomId, env: Env)
    returns (es': seq<Event>, s': System)
    requires Reaches(es, s) && Inviting(s, keys, a, room) && Fresh(s.w, env) && env.now == 0 && env.signatureOk
    requires 1 !in s.handlers && a in keys && b in keys && a != b
    ensures Onward(es, es') && Reaches(es', s') && s'.w == s.w
    ensures s'.handlers == s.handlers[1 := ConsumeLink(b, INVITE, a)]
  {
    es', s' := Begin(es, s, 1, ConsumeLookup(b, INVITE));
    es', s' := Look(es', s', 1, env, ConsumeInviter(b, INVITE, a));
    es', s' := Look(es', s', 1, env, ConsumeLink(b, INVITE, a));
  }

  ghost predicate Coupled(t: Tables, keys: map<AccountId, string>, a: AccountId, b: AccountId, room: RoomId, members: seq<AccountId>) {
    && t.keys == keys && Linked(t.partner, a, b) && t.rooms == map[room := members] && t.messages == []
    && INVITE in t.invites && t.invites[INVITE].room == Some(room)
  }

  /** They are linked. */
  lemma {:induction false} Link(
      es: seq<Event>, s: System, keys: map<AccountId, string>, a: AccountId, b: AccountId, room: RoomId, env: Env)
    returns (es': seq<Event>, s': System)
    requires Reaches(es, s) && Inviting(s, keys, a, room) && Fresh(s.w, env) && env.token == 0 && env.room != room
    requires 1 in s.handlers && s.handlers[1] == ConsumeLink(b, INVITE, a) && a in keys && b in keys && a != b
    ensures Onward(es, es') && Reaches(es', s') && Coupled(s'.w.t, keys, a, b, room, [a]) && s'.w == s.w.(t := s'.w.t)
    ensures s'.handlers == s.handlers[1 := ConsumeRoom(b, INVITE, a)]
  {
    var t' := s.w.t.(partner := s.w.t.partner[b := a][a := b]);
    es', s' := Write(es, s, 1, env, t', ConsumeRoom(b, INVITE, a));
  }

  lemma JoinStep(
      t: Tables, keys: map<AccountId, string>, a: AccountId, b: AccountId, room: RoomId, env: Env)
    requires Coupled(t, keys, a, b, room, [a]) && a in keys && b in keys && a != b
    ensures Advance(t, ConsumeRoom(b, INVITE, a), env) == (t, ConsumeJoin(b, INVITE, a, room))
    ensures Advance(t, ConsumeJoin(b, INVITE, a, room), env)
         == (t.(rooms := map[room := [a, b]]), ConsumeMark(b, INVITE, a, room))
  {
    assert Join([a], b) == [a, b];
    assert t.rooms[room := [a, b]] == map[room := [a, b]];
  }

  /** The invitee joins the inviter's room. */
  lemma {:induction false} JoinTheRoom(
      es: seq<Event>, s: System, keys: map<AccountId, string>, a: AccountId, b: AccountId, room: RoomId, env: Env)
    returns (es': seq<Event>, s': System)
    requires Reaches(es, s) && Coupled(s.w.t, keys, a, b, room, [a]) && Fresh(s.w, env) && env.token == 0 && env.room != room
    requires 1 in s.handlers && s.handlers[1] == ConsumeRoom(b, INVITE, a) && a in keys && b in keys && a != b
    ensures Onward(es, es') && Reaches(es', s') && Coupled(s'.w.t, keys, a, b, room, [a, b]) && s'.w == s.w.(t := s'.w.t)
    ensures s'.handlers == s.handlers[1 := ConsumeMark(b, INVITE, a, room)]
  {
    JoinStep(s.w.t, keys, a, b, room, env);
    es', s' := Look(es, s, 1, env, ConsumeJoin(b, INVITE, a, room));
    es', s' := Write(es', s', 1, env, s.w.t.(rooms := map[room := [a, b]]), ConsumeMark(b, INVITE, a, room));
  }

  lemma {:induction false} StampInvite(
      es: seq<Event>, s: System, keys: map<AccountId, string>, a: AccountId, b: AccountId, room: RoomId, env: Env)
    returns (es': seq<Event>, s': System)
    requires Reaches(es, s) && Coupled(s.w.t, keys, a, b, room, [a, b]) && Fresh(s.w, env) && env.token == 0 && env.room != room
    requires 1 in s.handlers && s.handlers[1] == ConsumeMark(b, INVITE, a, room)
    ensures Onward(es, es') && Reaches(es', s') && Coupled(s'.w.t, keys, a, b, room, [a, b]) && s'.w == s.w.(t := s'.w.t)
    ensures s'.handlers == s.handlers[1 := Paired(b, INVITE, room)]
  {
    var t' := MarkConsumed(s.w.t, INVITE, env.now);
    es', s' := Write(es, s, 1, env, t', Paired(b, INVITE, room));
  }

  lemma {:induction false} Accept(
      es: seq<Event>, s: System, keys: map<AccountId, string>, a: AccountId, b: AccountId, room: RoomId, env: Env)
    returns (es': seq<Event>, s': System)
    requires Reaches(es, s) && Inviting(s, keys, a, room) && Fresh(s.w, env) && env == NextEnv(room, env.id)
    requires 1 !in s.handlers && a in keys && b in keys && a != b
    ensures Onward(es, es') && Reaches(es', s') && Coupled(s'.w.t, keys, a, b, room, [a]) && s'.w == s.w.(t := s'.w.t)
    ensures s'.handlers == s.handlers[1 := ConsumeRoom(b, INVITE, a)]
  {
    var es1, s1 := LookUp(es, s, keys, a, b, room, env);
    es', s' := Link(es1, s1, keys, a, b, room, env);
  }

  lemma {:induction false} MoveIn(
      es: seq<Event>, s: System, keys: map<AccountId, string>, a: AccountId, b: AccountId, room: RoomId, env: Env)
    returns (es': seq<Event>, s': System)
    requires Reaches(es, s) && Coupled(s.w.t, keys, a, b, room, [a]) && Fresh(s.w, env) && env == NextEnv(room, env.id)
    requires 1 in s.handlers && s.handlers[1] == ConsumeRoom(b, INVITE, a) && a in keys && b in keys && a != b
    ensures Onward(es, es') && Reaches(es', s') && Coupled(s'.w.t, keys, a, b, room, [a, b]) && s'.w == s.w.(t := s'.w.t)
    ensures s'.handlers == s.handlers[1 := Paired(b, INVITE, room)]
  {
    var es1, s1 := JoinTheRoom(es, s, keys, a, b, room, env);
    es', s' := StampInvite(es1, s1, keys, a, b, room, env);
  }

  lemma {:induction false} ConsumeInvite(
      es: seq<Event>, s: System, keys: map<AccountId, string>, a: AccountId, b: AccountId, room: RoomId, id: MessageId)
    returns (es': seq<Event>, s': System)
    requires Reaches(es, s) && Inviting(s, keys, a, room) && Unused(s, 1, room, id) && a in keys && b in keys && a != b
    ensures Onward(es, es') && Reaches(es', s') && At(s', keys, room, [a, b], []) && Unused(s', 2, room, id)
    ensures Linked(s'.w.t.partner, a, b)
  {
    var env := NextEnv(room, id);
    var es1, s1 := Accept(es, s, keys, a, b, room, env);
    es', s' := MoveIn(es1, s1, keys, a, b, room, env);
  }

  /** Two accounts register, and the second one accepts the first one's invite to its room. */
  lemma {:induction false} Couple(a: AccountId, b: AccountId, ka: string, kb: string, room: RoomId, id: MessageId)
    returns (es: seq<Event>, s: System)
    requires a != b
    ensures Reaches(es, s) && FaultFree(es) && At(s, map[a := ka, b := kb], room, [a, b], []) && Unused(s, 2, room, id)
    ensures Linked(s.w.t.partner, a, b)
  {
    var keys := map[a := ka, b := kb];
    es, s := [], INIT;
    assert Reaches(es, s);
    es, s := SignUp(es, s, a, ka);
    es, s := SignUp(es, s, b, kb);
    assert s.w.t.keys == keys;
    es, s := CreateAndInvite(es, s, keys, a, room, id);
    es, s := ConsumeInvite(es, s, keys, a, b, room, id);
  }

  // ---------------------------------------------------------------------------------------------
  // Two messages

  /** A body for the partner is all a Send needs. */
  lemma PartnerSend(t: Tables, a: AccountId, b: AccountId, ka: string, kb: string, body: string)
    requires t.keys == map[a := ka, b := kb] && a != b && ka != kb && |body| <= FanOut.MAX_BODY_BYTES
    ensures Roster(t, [a, b]) == [FanOut.Member(a, ka), FanOut.Member(b, kb)]
    ensures var bodies := map[kb := body];
            FanOut.WithinLimits(bodies) && bodies.Keys == FanOut.RequiredKeys(a, ka, Roster(t, [a, b]), bodies)
  {
    var bodies, members := map[kb := body], [FanOut.Member(a, ka), FanOut.Member(b, kb)];
    assert |bodies| == 1 by { assert bodies.Keys == {kb}; }
    assert Roster(t, [a, b]) == members;
    assert members[1] in members;
    assert FanOut.OtherKeys(a, members) == {kb};
  }

  lemma PartnerCopy(t: Tables, c: Handler, a: AccountId, b: AccountId, ka: string, kb: string, room: RoomId, x: Message)
    requires t.keys == map[a := ka, b := kb] && a != b && ka != kb
    requires x.from == a && x.recipient == b && x.room == room
    requires c == SendWrite(a, room, map[kb := x.body], [FanOut.Member(a, ka), FanOut.Member(b, kb)], x.id, x.ts)
    ensures SentCopies(t, c) == [x]
  {
    var members := c.members;
    assert members[..1] == [FanOut.Member(a, ka)] && members[..1][..0] == [];
    assert FanOut.CopiesForOthers(a, members[..1], c.bodies, x.id, room, x.ts) == [];
    assert FanOut.CopiesForOthers(a, members, c.bodies, x.id, room, x.ts) == [x];
  }

  ghost predicate IsFor(x: Message, a: AccountId, b: AccountId, room: RoomId) {
    x.from == a && x.recipient == b && x.room == room && |x.body| <= FanOut.MAX_BODY_BYTES
  }

  /** Handler `h` waits to store the message to the partner. */
  ghost predicate Waits(s: System, h: nat, a: AccountId, b: AccountId, ka: string, kb: string, room: RoomId, x: Message) {
    h in s.handlers
    && s.handlers[h] == SendWrite(a, room, map[kb := x.body], [FanOut.Member(a, ka), FanOut.Member(b, kb)], x.id, x.ts)
  }

  lemma {:induction false} PrepareFor(
      es: seq<Event>, s: System, h: nat, a: AccountId, b: AccountId, ka: string, kb: string, room: RoomId, m: seq<Row>, x: Message)
    returns (es': seq<Event>, s': System)
    requires Reaches(es, s) && At(s, map[a := ka, b := kb], room, [a, b], m) && Unused(s, h, room, x.id)
    requires a != b && ka != kb && IsFor(x, a, b, room)
    ensures Onward(es, es') && Reaches(es', s') && At(s', map[a := ka, b := kb], room, [a, b], m)
    ensures Unused(s', h + 1, room, x.id + 1) && s'.w.t == s.w.t
    ensures Waits(s', h, a, b, ka, kb, room, x) && s'.handlers == s.handlers[h := s'.handlers[h]]
  {
    PartnerSend(s.w.t, a, b, ka, kb, x.body);
    es', s' := Prepare(es, s, h, a, map[a := ka, b := kb], room, [a, b], m, map[kb := x.body], NextEnv(room, x.id).(now := x.ts));
    StillUnused(s, s', h, room, x.id);
  }

  lemma {:induction false} CommitFor(
      es: seq<Event>, s: System, h: nat, n: nat, a: AccountId, b: AccountId, ka: string, kb: string, room: RoomId, m: seq<Row>,
      x: Message, id: MessageId)
    returns (es': seq<Event>, s': System)
    requires Reaches(es, s) && At(s, map[a := ka, b := kb], room, [a, b], m) && Unused(s, n, room, id)
    requires a != b && ka != kb && IsFor(x, a, b, room) && Waits(s, h, a, b, ka, kb, room, x) && FreshId(m, x.id)
    ensures Onward(es, es') && Reaches(es', s') && At(s', map[a := ka, b := kb], room, [a, b], m + [Row(x, None)])
    ensures Unused(s', n, room, id) && s'.handlers == s.handlers[h := Finished] && s'.w.t.partner == s.w.t.partner
  {
    PartnerCopy(s.w.t, s.handlers[h], a, b, ka, kb, room, x);
    es', s' := CommitSend(es, s, h, room, [a, b], x, NextEnv(room, id));
  }

  /** The partner marks the room as read up to the id of `y`. */
  lemma {:induction false} ReadUpTo(
      es: seq<Event>, s: System, h: nat, keys: map<AccountId, string>, accounts: seq<AccountId>, b: AccountId, room: RoomId,
      m: seq<Row>, upTo: MessageId, id: MessageId)
    returns (es': seq<Event>, s': System)
    requires Reaches(es, s) && At(s, keys, room, accounts, m) && Unused(s, h, room, id) && b in keys && b in accounts
    ensures Onward(es, es') && Reaches(es', s') && At(s', keys, room, accounts, Marked(m, room, b, upTo, 0))
    ensures Unused(s', h + 1, room, id) && s'.w.t.partner == s.w.t.partner && s'.handlers == s.handlers[h := Finished]
  {
    var es1, s1 := AskToRead(es, s, h, b, room, upTo, NextEnv(room, id));
    es', s' := Write(es1, s1, h, NextEnv(room, id), s.w.t.(messages := Marked(m, room, b, upTo, 0)), Finished);
  }

  lemma {:induction false} AskToRead(es: seq<Event>, s: System, h: nat, b: AccountId, room: RoomId, upTo: MessageId, env: Env)
    returns (es': seq<Event>, s': System)
    requires Reaches(es, s) && h !in s.handlers && Fresh(s.w, env) && b in s.w.t.keys && IsMember(s.w.t, room, b)
    ensures Onward(es, es') && Reaches(es', s') && s'.w == s.w && s'.handlers == s.handlers[h := MarkWrite(b, room, upTo)]
  {
    es', s' := Begin(es, s, h, MarkCheck(b, room, upTo));
    es', s' := Look(es', s', h, env, MarkWrite(b, room, upTo));
  }

  // ---------------------------------------------------------------------------------------------
  // The gap

  lemma ReadFirst(y: Message, a: AccountId, b: AccountId, room: RoomId)
    requires IsFor(y, a, b, room) && a != b
    ensures Marked([Row(y, None)], room, b, y.id, 0) == [Row(y, Some(0))]
  {
  }

  /** Both Sends have passed their checks. */
  lemma {:induction false} BothWait(
      a: AccountId, b: AccountId, ka: string, kb: string, room: RoomId, m0: seq<Row>, x: Message, y: Message)
    returns (es: seq<Event>, s: System, drawn: nat)
    requires a != b && ka != kb && IsFor(x, a, b, room) && IsFor(y, a, b, room) && x.id < y.id && m0 == []
    ensures Reaches(es, s) && FaultFree(es) && At(s, map[a := ka, b := kb], room, [a, b], m0) && Unused(s, 4, room, y.id + 1)
    ensures Waits(s, 2, a, b, ka, kb, room, x) && Waits(s, 3, a, b, ka, kb, room, y) && Linked(s.w.t.partner, a, b)
    ensures drawn <= |es| && Waits(StateAt(es, drawn), 2, a, b, ka, kb, room, x) && MessagesAt(es, drawn) == []
  {
    var es0, s0 := Couple(a, b, ka, kb, room, x.id);
    var es1, s1 := PrepareFor(es0, s0, 2, a, b, ka, kb, room, m0, x);
    drawn := |es1|;
    es, s := PrepareFor(es1, s1, 3, a, b, ka, kb, room, m0, y);
    AtOf(es1, s1, es);
  }

  /** The second one is stored and read, then the first one is stored. */
  lemma {:induction false} ReadBetween(
      es: seq<Event>, s: System, a: AccountId, b: AccountId, ka: string, kb: string, room: RoomId, m0: seq<Row>, m1: seq<Row>,
      x: Message, y: Message)
    returns (es': seq<Event>, s': System)
    requires a != b && ka != kb && IsFor(x, a, b, room) && IsFor(y, a, b, room) && x.id < y.id
    requires m0 == [] && m1 == [Row(y, Some(0))]
    requires Reaches(es, s) && At(s, map[a := ka, b := kb], room, [a, b], m0) && Unused(s, 4, room, y.id + 1)
    requires Waits(s, 2, a, b, ka, kb, room, x) && Waits(s, 3, a, b, ka, kb, room, y)
    ensures Onward(es, es') && Reaches(es', s') && s'.w.t.messages == m1 + [Row(x, None)] && s'.w.t.partner == s.w.t.partner
  {
    var keys := map[a := ka, b := kb];
    var es1, s1 := CommitFor(es, s, 3, 4, a, b, ka, kb, room, m0, y, y.id + 1);
    assert m0 + [Row(y, None)] == [Row(y, None)];
    ReadFirst(y, a, b, room);
    var es2, s2 := ReadUpTo(es1, s1, 4, keys, [a, b], b, room, m0 + [Row(y, None)], y.id, y.id + 1);
    es', s' := CommitFor(es2, s2, 2, 5, a, b, ka, kb, room, m1, x, y.id + 1);
  }

  lemma LaterRowIsUnread(m: seq<Row>, a: AccountId, b: AccountId, room: RoomId, x: Message, y: Message)
    requires a != b && IsFor(x, a, b, room) && IsFor(y, a, b, room) && x.id < y.id && x.ts <= y.ts
    requires |m| == 2 && m[0] == Row(y, Some(0)) && m[1] == Row(x, None)
    ensures !Receipts.ReadPrefix(m, room, b)
    ensures Receipts.CountAbove(m, room, b, NewestReadIncomingTs(m, room, b)) < Receipts.UnreadIn(m, room, b)
  {
    assert m[1].msg.id <= m[0].msg.id;
    Receipts.MarkerIsMaximum(m, room, b);
    Receipts.MarkerCountsUnreadIff(m, room, b);
    assert Receipts.UnreadBelow(m, room, b, NewestReadIncomingTs(m, room, b));
  }

  /** The whole run. */
  lemma {:induction false} GapRun(
      a: AccountId, b: AccountId, ka: string, kb: string, room: RoomId, m1: seq<Row>, x: Message, y: Message)
    returns (es: seq<Event>, s: System, drawn: nat)
    requires a != b && ka != kb && IsFor(x, a, b, room) && IsFor(y, a, b, room) && x.id < y.id && m1 == [Row(y, Some(0))]
    ensures Reaches(es, s) && FaultFree(es) && Linked(s.w.t.partner, a, b) && s.w.t.messages == m1 + [Row(x, None)]
    ensures drawn <= |es| && Waits(StateAt(es, drawn), 2, a, b, ka, kb, room, x) && MessagesAt(es, drawn) == []
  {
    var m0: seq<Row> := [];
    var es1, s1;
    es1, s1, drawn := BothWait(a, b, ka, kb, room, m0, x, y);
    es, s := ReadBetween(es1, s1, a, b, ka, kb, room, m0, m1, x, y);
    SamePrefix(es1, es, drawn);
  }

  /**
   * Two linked partners and no failure: the id and timestamp of `x` are drawn first; `y`, of larger
   * id and no earlier timestamp, is stored and read up to its id; then `x` is stored. The reads are
   * not a prefix in id order, and the client that counts what is newer than its marker misses `x`.
   */
  lemma {:induction false} LateSendBreaksUnread(
      a: AccountId, b: AccountId, ka: string, kb: string, room: RoomId, x: Message, y: Message)
    returns (es: seq<Event>, drawn: nat)
    requires a != b && ka != kb && IsFor(x, a, b, room) && IsFor(y, a, b, room) && x.id < y.id && x.ts <= y.ts
    ensures IsRun(es) && FaultFree(es) && Linked(StateAfter(es).w.t.partner, a, b)
    ensures drawn <= |es| && Waits(StateAt(es, drawn), 2, a, b, ka, kb, room, x) && MessagesAt(es, drawn) == []
    ensures var m := StateAfter(es).w.t.messages;
            && m == [Row(y, Some(0)), Row(x, None)]
            && !Receipts.ReadPrefix(m, room, b)
            && Receipts.CountAbove(m, room, b, NewestReadIncomingTs(m, room, b)) < Receipts.UnreadIn(m, room, b)
  {
    var m1 := [Row(y, Some(0))];
    var s: System;
    es, s, drawn := GapRun(a, b, ka, kb, room, m1, x, y);
    LaterRowIsUnread(m1 + [Row(x, None)], a, b, room, x, y);
  }
}
