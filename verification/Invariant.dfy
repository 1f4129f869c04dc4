/**
 * The invariant behind the server's guarantees. No single check enforces it: it needs, besides the
 * tables, who created each room and who issued each invite, and it makes a claim about every point
 * a handler can be suspended at.
 */
module Invariant {
  import opened Common
  import opened Store
  import opened Tables
  import opened Handlers
  import FanOut
  import Receipts

  /**
   * The tables with three histories: the creator of every room that ever existed, the inviter of
   * every invite ever issued, and the message ids drawn so far, stored or not. Handlers never read
   * them, except that new ids are new.
   */
  datatype World = World(t: Tables, host: map<RoomId, AccountId>, issued: map<Token, AccountId>, drawn: set<MessageId>)

  /** ULIDs and random tokens are never generated twice. */
  ghost predicate Fresh(w: World, env: Env) {
    env.room !in w.host && env.token !in w.issued && env.id !in w.drawn
  }

  /** A message id waiting to be stored is not stored yet. */
  ghost predicate Storable(w: World, h: Handler) {
    h.SendWrite? ==> FreshId(w.t.messages, h.id)
  }

  ghost function Extended(w: World, h: Handler, env: Env, t': Tables): World {
    World(
      t',
      if env.room in t'.rooms && env.room !in w.t.rooms then w.host[env.room := Creator(h)] else w.host,
      if env.token in t'.invites && env.token !in w.t.invites then w.issued[env.token := Creator(h)] else w.issued,
      if h.SendRoster? then w.drawn + {env.id} else w.drawn)
  }

  /** On whose behalf a creating step acts: the inviter's when a consumer creates the couple's room. */
  function Creator(h: Handler): AccountId {
    match h
    case ConsumeCreate(_, _, inviter) => inviter
    case InviteWrite(me) => me
    case RoomWrite(me, _, _) => me
    case RoomInvite(me, _) => me
    case _ => 0
  }

  ghost function Step(w: World, h: Handler, env: Env): (World, Handler)
    requires !Done(h)
  {
    var (t', h') := Advance(w.t, h, env);
    (Extended(w, h, env, t'), h')
  }

  // ---------------------------------------------------------------------------------------------
  // The invariant

  /** `a` is the room's creator or the creator's partner. */
  ghost predicate Belongs(w: World, room: RoomId, a: AccountId) {
    room in w.host && a in w.t.keys && (a == w.host[room] || Linked(w.t.partner, a, w.host[room]))
  }

  ghost predicate RoomOk(w: World, room: RoomId)
    requires room in w.t.rooms
  {
    && room in w.host
    && NoDuplicates(w.t.rooms[room])
    && w.t.rooms[room] != []
    && forall a :: a in w.t.rooms[room] ==> Belongs(w, room, a)
  }

  ghost predicate InviteOk(w: World, token: Token)
    requires token in w.t.invites
  {
    var invite := w.t.invites[token];
    && token in w.issued && w.issued[token] == invite.inviter
    && invite.inviter in w.t.keys
    && (invite.room.Some? ==>
          invite.room.value in w.t.rooms && invite.room.value in w.host && w.host[invite.room.value] == invite.inviter)
    && (invite.consumedAt.Some? ==> invite.inviter in w.t.partner)
  }

  ghost predicate RowOk(w: World, msg: Message) {
    && msg.room in w.t.rooms && msg.id in w.drawn
    && msg.from in w.t.keys && msg.recipient in w.t.keys
    && (msg.from != msg.recipient ==> Linked(w.t.partner, msg.from, msg.recipient))
  }

  ghost predicate MessagesOk(w: World) {
    && Valid(w.t.messages)
    && forall i :: 0 <= i < |w.t.messages| ==> RowOk(w, w.t.messages[i].msg)
  }

  ghost predicate Consistent(w: World) {
    && Matching(w.t.keys, w.t.partner)
    && (forall r :: r in w.host ==> w.host[r] in w.t.keys)
    && (forall r :: r in w.t.rooms ==> RoomOk(w, r))
    && (forall k :: k in w.t.invites ==> InviteOk(w, k))
    && MessagesOk(w)
  }

  ghost predicate Issued(w: World, token: Token, inviter: AccountId) {
    token in w.issued && w.issued[token] == inviter && inviter in w.t.keys
  }

  ghost predicate HostedBy(w: World, room: RoomId, a: AccountId) {
    room in w.host && w.host[room] == a
  }

  /** What is known about a handler at each of its points, whatever the others have done since. */
  ghost predicate HandlerOk(w: World, h: Handler) {
    match h
    case ConsumeLookup(me, token) => me in w.t.keys
    case ConsumeInviter(me, token, inviter) => me in w.t.keys && Issued(w, token, inviter)
    case ConsumeLink(me, token, inviter) => me in w.t.keys && Issued(w, token, inviter) && me != inviter
    case ConsumeRoom(me, token, inviter) => Issued(w, token, inviter) && Linked(w.t.partner, me, inviter)
    case ConsumeCreate(me, token, inviter) => Issued(w, token, inviter) && Linked(w.t.partner, me, inviter)
    case ConsumeJoin(me, token, inviter, room) =>
      Issued(w, token, inviter) && Linked(w.t.partner, me, inviter) && HostedBy(w, room, inviter)
    case ConsumeMark(me, token, inviter, room) =>
      Issued(w, token, inviter) && Linked(w.t.partner, me, inviter) && HostedBy(w, room, inviter)
    case Paired(me, token, room) =>
      token in w.issued && Linked(w.t.partner, me, w.issued[token])
    case InviteCheck(me) => me in w.t.keys
    case InviteWrite(me) => me in w.t.keys
    case RoomCheck(me, _) => me in w.t.keys
    case RoomWrite(me, _, autoPartner) =>
      me in w.t.keys && (autoPartner.Some? ==> Linked(w.t.partner, me, autoPartner.value))
    case RoomInvite(me, room) => me in w.t.keys && HostedBy(w, room, me)
    case SendRoster(me, room, _) => Belongs(w, room, me)
    case SendWrite(me, room, bodies, members, id, _) =>
      && Belongs(w, room, me) && FanOut.DistinctMembers(members) && (forall m :: m in members ==> Belongs(w, room, m.account))
      && bodies.Keys == FanOut.RequiredKeys(me, KeyOf(w.t, me), members, bodies)
      && id in w.drawn
    case SubRows(me, room, since, seen, next, sent) =>
      && Valid(seen) && Later(seen, w.t.messages)
      && next < |MessagesForRecipient(seen, room, me, since)|
      && PartOf(sent, MessagesForRecipient(seen, room, me, since), next)
    case SubBackfill(me, room, since, seen, sent) =>
      Valid(seen) && Later(seen, w.t.messages) && PartOfAll(sent, MessagesForRecipient(seen, room, me, since))
    case SubReader(me, room, since, seen, sent, seen2) =>
      && Valid(seen) && Valid(seen2) && Later(seen, seen2) && Later(seen2, w.t.messages)
      && PartOfAll(sent, MessagesForRecipient(seen, room, me, since))
      && ReadSentMessageIds(seen2, room, me) != []
    case Subscribed(me, room, since, seen, sent, seen2, answered, frame) =>
      && Valid(seen) && Valid(seen2) && Later(seen, seen2) && Later(seen2, w.t.messages)
      && PartOfAll(sent, MessagesForRecipient(seen, room, me, since))
      && frame == if answered then BackfillFrame(w.t.partner, seen2, room, me) else None
    case Failed(at, _) => HandlerOk(w, at)
    case _ => true
  }

  /** The frames are some of the first `n` rows, in their order. */
  ghost predicate PartOf(sent: seq<Replayed>, rows: seq<Replayed>, n: nat)
    requires n <= |rows|
    decreases n
  {
    if n == 0 then sent == []
    else PartOf(sent, rows, n - 1) || (sent != [] && sent[|sent| - 1] == rows[n - 1] && PartOf(sent[..|sent| - 1], rows, n - 1))
  }

  ghost predicate PartOfAll(sent: seq<Replayed>, rows: seq<Replayed>) {
    PartOf(sent, rows, |rows|)
  }

  lemma PartOfNext(sent: seq<Replayed>, rows: seq<Replayed>, n: nat)
    requires n < |rows| && PartOf(sent, rows, n)
    ensures PartOf(sent, rows, n + 1) && PartOf(sent + [rows[n]], rows, n + 1)
  {
    assert (sent + [rows[n]])[..|sent|] == sent;
  }

  lemma {:induction false} PartOfMore(sent: seq<Replayed>, rows: seq<Replayed>, n: nat, m: nat)
    requires n <= m <= |rows| && PartOf(sent, rows, n)
    ensures PartOf(sent, rows, m)
  {
    if n == m {
    } else {
      PartOfMore(sent, rows, n, m - 1);
    }
  }

  lemma {:induction false} PartOfFacts(sent: seq<Replayed>, rows: seq<Replayed>, n: nat)
    requires n <= |rows| && PartOf(sent, rows, n)
    ensures |sent| <= n && (|sent| == n ==> sent == rows[..n])
    ensures forall r :: r in sent ==> r in rows[..n]
  {
    if n == 0 {
    } else if PartOf(sent, rows, n - 1) {
      PartOfFacts(sent, rows, n - 1);
      assert forall r :: r in rows[..n - 1] ==> r in rows[..n];
    } else {
      PartOfFacts(sent[..|sent| - 1], rows, n - 1);
      assert sent == sent[..|sent| - 1] + [rows[n - 1]];
      assert rows[..n] == rows[..n - 1] + [rows[n - 1]];
    }
  }

  /** The frame the backfill should send: my partner has read these messages of mine. */
  function BackfillFrame(partner: map<AccountId, AccountId>, m: seq<Row>, room: RoomId, me: AccountId): Option<ReadFrame> {
    var ids := ReadSentMessageIds(m, room, me);
    if ids != [] && me in partner then Some(ReadFrame(ids, partner[me])) else None
  }

  // ---------------------------------------------------------------------------------------------
  // What only ever grows

  ghost predicate MapGrows<K(!new), V(!new)>(m: map<K, V>, m': map<K, V>) {
    forall k :: k in m ==> k in m' && m'[k] == m[k]
  }

  /** A consumed invite keeps its first stamp until its room is deleted. */
  ghost predicate StampsStay(t: Tables, t': Tables) {
    forall k :: k in t.invites && t.invites[k].consumedAt.Some? ==>
      if k in t'.invites then t'.invites[k] == t.invites[k]
      else t.invites[k].room.Some? && t.invites[k].room.value !in t'.rooms
  }

  /** Links, accounts, histories and messages only grow; rooms and invites never come back. */
  ghost predicate Grows(w: World, w': World) {
    && MapGrows(w.t.keys, w'.t.keys)
    && MapGrows(w.t.partner, w'.t.partner)
    && MapGrows(w.host, w'.host)
    && MapGrows(w.issued, w'.issued)
    && w.drawn <= w'.drawn
    && Later(w.t.messages, w'.t.messages)
    && StampsStay(w.t, w'.t)
    && (forall r :: r in w.host && r !in w.t.rooms ==> r !in w'.t.rooms)
    && (forall k :: k in w.issued && k !in w.t.invites ==> k !in w'.t.invites)
  }

  lemma GrowsTransitive(w1: World, w2: World, w3: World)
    requires Consistent(w1) && Grows(w1, w2) && Grows(w2, w3)
    ensures Grows(w1, w3)
  {
    LaterTransitive(w1.t.messages, w2.t.messages, w3.t.messages);
    forall k | k in w1.t.invites && w1.t.invites[k].consumedAt.Some?
      ensures if k in w3.t.invites then w3.t.invites[k] == w1.t.invites[k]
              else w1.t.invites[k].room.Some? && w1.t.invites[k].room.value !in w3.t.rooms
    {
      assert InviteOk(w1, k);
      assert k in w2.issued;
      if k !in w2.t.invites {
        var r := w1.t.invites[k].room.value;
        assert r in w1.host && r in w2.host && r !in w2.t.rooms && r !in w3.t.rooms;
      }
    }
  }

  /** Nothing another handler does invalidates what is known about a suspended one. */
  lemma {:induction false} HandlerOkStable(w: World, w': World, h: Handler)
    requires Consistent(w) && Consistent(w') && Grows(w, w') && HandlerOk(w, h)
    ensures HandlerOk(w', h)
  {
    match h {
      case Failed(at, _) => HandlerOkStable(w, w', at);
      case SubRows(_, _, _, seen, _, _) => LaterTransitive(seen, w.t.messages, w'.t.messages);
      case SubBackfill(_, _, _, seen, _) => LaterTransitive(seen, w.t.messages, w'.t.messages);
      case SubReader(_, _, _, _, _, seen2) => LaterTransitive(seen2, w.t.messages, w'.t.messages);
      case Subscribed(me, room, _, _, _, seen2, answered, _) =>
        LaterTransitive(seen2, w.t.messages, w'.t.messages);
        if answered && ReadSentMessageIds(seen2, room, me) != [] {
          ReadMessagesHaveAPartner(w, seen2, room, me);
        }
      case _ =>
    }
  }

  /** If anyone read a message of mine, I have a partner and every reader is that partner. */
  lemma ReadMessagesHaveAPartner(w: World, m: seq<Row>, room: RoomId, me: AccountId)
    requires Consistent(w) && Later(m, w.t.messages)
    ensures forall i :: 0 <= i < |m| && m[i].msg.from == me && m[i].msg.recipient != me ==>
              me in w.t.partner && w.t.partner[me] == m[i].msg.recipient
    ensures ReadSentMessageIds(m, room, me) != [] ==> me in w.t.partner
  {
    forall i | 0 <= i < |m| && m[i].msg.from == me && m[i].msg.recipient != me
      ensures me in w.t.partner && w.t.partner[me] == m[i].msg.recipient
    {
      assert RowOk(w, w.t.messages[i].msg);
    }
    Receipts.ReadSentFacts(m, room, me);
    var ids := ReadSentMessageIds(m, room, me);
    if ids != [] {
      assert ids[0] in ids;
    }
  }
}
