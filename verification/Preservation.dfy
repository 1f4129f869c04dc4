/** Every step of every handler keeps the invariant, for the tables and for the handler itself. */
module Preservation {
  import opened Common
  import opened Store
  import opened Tables
  import opened Handlers
  import opened Invariant
  import FanOut

  /** Under the invariant the app-level check is complete: no index or CHECK backstop ever fires. */
  lemma LinkNeverHitsAnIndex(w: World, a: AccountId, b: AccountId)
    requires Consistent(w)
    ensures SetPartnerLink(w.t, a, b) != Err(UniqueViolation)
    ensures a != b ==> SetPartnerLink(w.t, a, b) != Err(CheckViolation)
  {
    if x :| x in w.t.partner && (w.t.partner[x] == a || w.t.partner[x] == b) {
      assert Linked(w.t.partner, x, w.t.partner[x]);
    }
  }

  lemma LinkKeeps(w: World, a: AccountId, b: AccountId)
    requires Consistent(w) && a != b && SetPartnerLink(w.t, a, b).Ok?
    ensures var w' := w.(t := SetPartnerLink(w.t, a, b).value);
            Consistent(w') && Grows(w, w') && Linked(w'.t.partner, a, b)
  {
    var w' := w.(t := SetPartnerLink(w.t, a, b).value);
    assert MapGrows(w.t.partner, w'.t.partner);
    assert Matching(w'.t.keys, w'.t.partner);
    forall r | r in w'.t.rooms ensures RoomOk(w', r) { assert RoomOk(w, r); }
    forall k | k in w'.t.invites ensures InviteOk(w', k) { assert InviteOk(w, k); }
    forall i | 0 <= i < |w'.t.messages| ensures RowOk(w', w'.t.messages[i].msg) { assert RowOk(w, w.t.messages[i].msg); }
  }

  lemma CreateRoomKeeps(w: World, room: RoomId, host: AccountId, partner: Option<AccountId>)
    requires Consistent(w) && room !in w.host
    requires partner.Some? ==> Linked(w.t.partner, host, partner.value)
    requires CreateRoomWithMembers(w.t, room, host, partner).Ok?
    ensures var w' := w.(t := CreateRoomWithMembers(w.t, room, host, partner).value, host := w.host[room := host]);
            Consistent(w') && Grows(w, w')
  {
    var w' := w.(t := CreateRoomWithMembers(w.t, room, host, partner).value, host := w.host[room := host]);
    forall r | r in w'.t.rooms ensures RoomOk(w', r) {
      if r != room { assert RoomOk(w, r); }
    }
    forall k | k in w'.t.invites ensures InviteOk(w', k) { assert InviteOk(w, k); }
    forall i | 0 <= i < |w'.t.messages| ensures RowOk(w', w'.t.messages[i].msg) { assert RowOk(w, w.t.messages[i].msg); }
  }

  lemma JoinKeeps(w: World, room: RoomId, a: AccountId, inviter: AccountId)
    requires Consistent(w) && HostedBy(w, room, inviter) && Linked(w.t.partner, a, inviter)
    requires JoinRoom(w.t, room, a).Ok?
    ensures var w' := w.(t := JoinRoom(w.t, room, a).value);
            Consistent(w') && Grows(w, w')
  {
    var w' := w.(t := JoinRoom(w.t, room, a).value);
    forall r | r in w'.t.rooms ensures RoomOk(w', r) { assert RoomOk(w, r); }
    forall k | k in w'.t.invites ensures InviteOk(w', k) { assert InviteOk(w, k); }
    forall i | 0 <= i < |w'.t.messages| ensures RowOk(w', w'.t.messages[i].msg) { assert RowOk(w, w.t.messages[i].msg); }
  }

  lemma CreateInviteKeeps(w: World, inviter: AccountId, token: Token, expiresAt: Time, room: Option<RoomId>)
    requires Consistent(w) && token !in w.issued
    requires room.Some? ==> HostedBy(w, room.value, inviter)
    requires CreateInviteRecord(w.t, inviter, token, expiresAt, room).Ok?
    ensures var w' := w.(t := CreateInviteRecord(w.t, inviter, token, expiresAt, room).value, issued := w.issued[token := inviter]);
            Consistent(w') && Grows(w, w')
  {
    var w' := w.(t := CreateInviteRecord(w.t, inviter, token, expiresAt, room).value, issued := w.issued[token := inviter]);
    forall r | r in w'.t.rooms ensures RoomOk(w', r) { assert RoomOk(w, r); }
    forall k | k in w'.t.invites ensures InviteOk(w', k) {
      if k != token { assert InviteOk(w, k); }
    }
    forall k | k in w.t.invites && w.t.invites[k].consumedAt.Some? ensures k in w'.t.invites && w'.t.invites[k] == w.t.invites[k] {
      assert InviteOk(w, k);
    }
    forall i | 0 <= i < |w'.t.messages| ensures RowOk(w', w'.t.messages[i].msg) { assert RowOk(w, w.t.messages[i].msg); }
  }

  lemma MarkConsumedKeeps(w: World, token: Token, now: Time)
    requires Consistent(w) && token in w.issued && w.issued[token] in w.t.partner
    ensures var w' := w.(t := MarkConsumed(w.t, token, now));
            Consistent(w') && Grows(w, w')
  {
    var w' := w.(t := MarkConsumed(w.t, token, now));
    forall r | r in w'.t.rooms ensures RoomOk(w', r) { assert RoomOk(w, r); }
    forall k | k in w'.t.invites ensures InviteOk(w', k) { assert InviteOk(w, k); }
    forall i | 0 <= i < |w'.t.messages| ensures RowOk(w', w'.t.messages[i].msg) { assert RowOk(w, w.t.messages[i].msg); }
  }

  lemma LeaveKeeps(w: World, room: RoomId, a: AccountId)
    requires Consistent(w) && LeaveRoom(w.t, room, a).Ok?
    ensures var w' := w.(t := LeaveRoom(w.t, room, a).value);
            Consistent(w') && Grows(w, w')
  {
    var w' := w.(t := LeaveRoom(w.t, room, a).value);
    if room in w.t.rooms {
      WithoutFacts(w.t.rooms[room], a);
    }
    forall r | r in w'.t.rooms ensures RoomOk(w', r) { assert RoomOk(w, r); }
    forall k | k in w'.t.invites ensures InviteOk(w', k) { assert InviteOk(w, k); }
    forall r | r in w.host && r !in w.t.rooms ensures r !in w'.t.rooms { }
    forall i | 0 <= i < |w'.t.messages| ensures RowOk(w', w'.t.messages[i].msg) { assert RowOk(w, w.t.messages[i].msg); }
  }

  lemma SendKeeps(w: World, h: Handler)
    requires Consistent(w) && h.SendWrite? && HandlerOk(w, h) && FreshId(w.t.messages, h.id)
    requires InsertMessages(w.t, SentCopies(w.t, h)).Ok?
    ensures var w' := w.(t := InsertMessages(w.t, SentCopies(w.t, h)).value);
            Consistent(w') && Grows(w, w') && w'.t.messages == w.t.messages + NewRows(SentCopies(w.t, h))
  {
    var copies := SentCopies(w.t, h);
    var w' := w.(t := InsertMessages(w.t, copies).value);
    CopiesAppend(w, h);
    forall r | r in w'.t.rooms ensures RoomOk(w', r) { assert RoomOk(w, r); }
    forall k | k in w'.t.invites ensures InviteOk(w', k) { assert InviteOk(w, k); }
    forall i | 0 <= i < |w'.t.messages| ensures RowOk(w', w'.t.messages[i].msg) {
      if i < |w.t.messages| {
        assert RowOk(w, w.t.messages[i].msg);
      } else {
        var k := i - |w.t.messages|;
        CopyOk(w, h, copies, k);
        assert w'.t.messages[i] == NewRows(copies)[k];
      }
    }
  }

  lemma CopiesAppend(w: World, h: Handler)
    requires Valid(w.t.messages) && h.SendWrite? && HandlerOk(w, h) && FreshId(w.t.messages, h.id)
    ensures var m' := InsertMany(w.t.messages, SentCopies(w.t, h));
            Valid(m') && Later(w.t.messages, m') && m' == w.t.messages + NewRows(SentCopies(w.t, h))
    ensures forall i :: 0 <= i < |SentCopies(w.t, h)| ==> SentCopies(w.t, h)[i].id == h.id
  {
    var copies := SentCopies(w.t, h);
    FanOut.FanOutExact(h.me, KeyOf(w.t, h.me), h.members, h.bodies, h.id, h.room, h.ts);
    InsertManyKeepsValid(w.t.messages, copies, h.id, h.room, h.me, h.ts);
    InsertManyAppends(w.t.messages, copies, h.id, h.room, h.me, h.ts);
  }

  /** A copy goes to the sender or to the sender's partner: two members of one room are linked. */
  lemma CopyOk(w: World, h: Handler, copies: seq<Message>, i: nat)
    requires Consistent(w) && h.SendWrite? && HandlerOk(w, h)
    requires copies == SentCopies(w.t, h) && ReferencesHold(w.t, copies) && i < |copies|
    ensures RowOk(w, copies[i])
  {
    FanOut.FanOutExact(h.me, KeyOf(w.t, h.me), h.members, h.bodies, h.id, h.room, h.ts);
    var x := copies[i];
    assert x in copies;
    if x.recipient != h.me {
      var m :| m in h.members && m.account != h.me && x.recipient == m.account;
      BelongingAreLinked(w, h.room, h.me, m.account);
    }
  }

  lemma BelongingAreLinked(w: World, room: RoomId, a: AccountId, b: AccountId)
    requires Consistent(w) && Belongs(w, room, a) && Belongs(w, room, b) && a != b
    ensures Linked(w.t.partner, a, b)
  {
    assert w.host[room] in w.t.keys;
  }

  lemma MarkReadKeeps(w: World, room: RoomId, reader: AccountId, upTo: MessageId, now: Time)
    requires Consistent(w)
    ensures var w' := w.(t := MarkRead(w.t, room, reader, upTo, now));
            Consistent(w') && Grows(w, w')
  {
    var w' := w.(t := MarkRead(w.t, room, reader, upTo, now));
    MarkedKeepsValid(w.t.messages, room, reader, upTo, now);
    forall r | r in w'.t.rooms ensures RoomOk(w', r) { assert RoomOk(w, r); }
    forall k | k in w'.t.invites ensures InviteOk(w', k) { assert InviteOk(w, k); }
    forall i | 0 <= i < |w'.t.messages| ensures RowOk(w', w'.t.messages[i].msg) { assert RowOk(w, w.t.messages[i].msg); }
  }

  lemma RegisterKeeps(w: World, a: AccountId, key: string)
    requires Consistent(w) && a !in w.t.keys
    ensures var w' := w.(t := w.t.(keys := w.t.keys[a := key]));
            Consistent(w') && Grows(w, w')
  {
    var w' := w.(t := w.t.(keys := w.t.keys[a := key]));
    forall r | r in w'.t.rooms ensures RoomOk(w', r) { assert RoomOk(w, r); }
    forall k | k in w'.t.invites ensures InviteOk(w', k) { assert InviteOk(w, k); }
    forall i | 0 <= i < |w'.t.messages| ensures RowOk(w', w'.t.messages[i].msg) { assert RowOk(w, w.t.messages[i].msg); }
  }

  lemma InvitesUntouched(w: World, h: Handler, env: Env, t': Tables)
    requires t'.invites == w.t.invites
    ensures Extended(w, h, env, t').issued == w.issued
  {
  }

  lemma LinkStepKeeps(w: World, h: Handler, env: Env)
    requires Consistent(w) && HandlerOk(w, h) && Fresh(w, env) && h.ConsumeLink? && Advance(w.t, h, env).0 != w.t
    ensures Consistent(Step(w, h, env).0) && Grows(w, Step(w, h, env).0)
  {
    LinkKeeps(w, h.me, h.inviter);
  }

  lemma CoupleRoomStepKeeps(w: World, h: Handler, env: Env)
    requires Consistent(w) && HandlerOk(w, h) && Fresh(w, env) && h.ConsumeCreate? && Advance(w.t, h, env).0 != w.t
    ensures Consistent(Step(w, h, env).0) && Grows(w, Step(w, h, env).0)
  {
    CreateRoomKeeps(w, env.room, h.inviter, None);
    InvitesUntouched(w, h, env, Advance(w.t, h, env).0);
  }

  lemma RoomStepKeeps(w: World, h: Handler, env: Env)
    requires Consistent(w) && HandlerOk(w, h) && Fresh(w, env) && h.RoomWrite? && Advance(w.t, h, env).0 != w.t
    ensures Consistent(Step(w, h, env).0) && Grows(w, Step(w, h, env).0)
  {
    CreateRoomKeeps(w, env.room, h.me, h.autoPartner);
    InvitesUntouched(w, h, env, Advance(w.t, h, env).0);
  }

  lemma JoinStepKeeps(w: World, h: Handler, env: Env)
    requires Consistent(w) && HandlerOk(w, h) && Fresh(w, env) && h.ConsumeJoin? && Advance(w.t, h, env).0 != w.t
    ensures Consistent(Step(w, h, env).0) && Grows(w, Step(w, h, env).0)
  {
    JoinKeeps(w, h.room, h.me, h.inviter);
  }

  lemma InviteStepKeeps(w: World, h: Handler, env: Env)
    requires Consistent(w) && HandlerOk(w, h) && Fresh(w, env) && h.InviteWrite? && Advance(w.t, h, env).0 != w.t
    ensures Consistent(Step(w, h, env).0) && Grows(w, Step(w, h, env).0)
  {
    CreateInviteKeeps(w, h.me, env.token, DefaultExpiry(env.now), None);
  }

  lemma RoomInviteStepKeeps(w: World, h: Handler, env: Env)
    requires Consistent(w) && HandlerOk(w, h) && Fresh(w, env) && h.RoomInvite? && Advance(w.t, h, env).0 != w.t
    ensures Consistent(Step(w, h, env).0) && Grows(w, Step(w, h, env).0)
  {
    CreateInviteKeeps(w, h.me, env.token, DefaultExpiry(env.now), Some(h.room));
  }

  lemma ConsumedStepKeeps(w: World, h: Handler, env: Env)
    requires Consistent(w) && HandlerOk(w, h) && Fresh(w, env) && h.ConsumeMark? && Advance(w.t, h, env).0 != w.t
    ensures Consistent(Step(w, h, env).0) && Grows(w, Step(w, h, env).0)
  {
    MarkConsumedKeeps(w, h.token, env.now);
  }

  lemma LeaveStepKeeps(w: World, h: Handler, env: Env)
    requires Consistent(w) && HandlerOk(w, h) && Fresh(w, env) && h.LeaveWrite? && Advance(w.t, h, env).0 != w.t
    ensures Consistent(Step(w, h, env).0) && Grows(w, Step(w, h, env).0)
  {
    LeaveKeeps(w, h.room, h.me);
  }

  lemma SendStepKeeps(w: World, h: Handler, env: Env)
    requires Consistent(w) && HandlerOk(w, h) && Fresh(w, env) && h.SendWrite? && Advance(w.t, h, env).0 != w.t && Storable(w, h)
    ensures Consistent(Step(w, h, env).0) && Grows(w, Step(w, h, env).0)
  {
    SendKeeps(w, h);
  }

  lemma MarkReadStepKeeps(w: World, h: Handler, env: Env)
    requires Consistent(w) && HandlerOk(w, h) && Fresh(w, env) && h.MarkWrite? && Advance(w.t, h, env).0 != w.t
    ensures Consistent(Step(w, h, env).0) && Grows(w, Step(w, h, env).0)
  {
    MarkReadKeeps(w, h.room, h.me, h.upTo, env.now);
  }

  predicate Writes(h: Handler) {
    h.ConsumeLink? || h.ConsumeCreate? || h.ConsumeJoin? || h.ConsumeMark?
    || h.InviteWrite? || h.RoomWrite? || h.RoomInvite?
    || h.LeaveWrite? || h.SendWrite? || h.MarkWrite?
  }

  lemma OthersOnlyRead(t: Tables, h: Handler, env: Env)
    requires !Done(h) && !Writes(h)
    ensures Advance(t, h, env).0 == t
  {
  }

  /** The tables part: whatever a handler's step writes, the invariant holds again. */
  lemma {:induction false} StepKeepsTables(w: World, h: Handler, env: Env)
    requires Consistent(w) && HandlerOk(w, h) && !Done(h) && Fresh(w, env) && Storable(w, h)
    ensures Consistent(Step(w, h, env).0) && Grows(w, Step(w, h, env).0)
  {
    if Advance(w.t, h, env).0 == w.t {
      OnlyDraws(w, h, env);
      DrawKeeps(w, Step(w, h, env).0.drawn);
    } else {
      if !Writes(h) {
        OthersOnlyRead(w.t, h, env);
      }
      WriteKeeps(w, h, env);
    }
  }

  lemma WriteKeeps(w: World, h: Handler, env: Env)
    requires Consistent(w) && HandlerOk(w, h) && !Done(h) && Fresh(w, env) && Storable(w, h)
    requires Writes(h) && Advance(w.t, h, env).0 != w.t
    ensures Consistent(Step(w, h, env).0) && Grows(w, Step(w, h, env).0)
  {
    if h.ConsumeLink? { LinkStepKeeps(w, h, env); }
    else if h.ConsumeCreate? { CoupleRoomStepKeeps(w, h, env); }
    else if h.RoomWrite? { RoomStepKeeps(w, h, env); }
    else if h.ConsumeJoin? { JoinStepKeeps(w, h, env); }
    else if h.InviteWrite? { InviteStepKeeps(w, h, env); }
    else if h.RoomInvite? { RoomInviteStepKeeps(w, h, env); }
    else if h.ConsumeMark? { ConsumedStepKeeps(w, h, env); }
    else if h.LeaveWrite? { LeaveStepKeeps(w, h, env); }
    else if h.SendWrite? { SendStepKeeps(w, h, env); }
    else { MarkReadStepKeeps(w, h, env); }
  }

  /** A step that leaves the tables as they are changes at most the drawn ids. */
  lemma OnlyDraws(w: World, h: Handler, env: Env)
    requires !Done(h) && Advance(w.t, h, env).0 == w.t
    ensures Step(w, h, env).0 == w.(drawn := Step(w, h, env).0.drawn) && w.drawn <= Step(w, h, env).0.drawn
  {
  }

  lemma DrawKeeps(w: World, drawn: set<MessageId>)
    requires Consistent(w) && w.drawn <= drawn
    ensures Consistent(w.(drawn := drawn)) && Grows(w, w.(drawn := drawn))
  {
    var w' := w.(drawn := drawn);
    forall r | r in w'.t.rooms ensures RoomOk(w', r) { assert RoomOk(w, r); }
    forall k | k in w'.t.invites ensures InviteOk(w', k) { assert InviteOk(w, k); }
    forall i | 0 <= i < |w'.t.messages| ensures RowOk(w', w'.t.messages[i].msg) { assert RowOk(w, w.t.messages[i].msg); }
  }

  /** The handler part: what is known at its next point. A refusal keeps what was known. */
  lemma {:induction false} StepKeepsHandler(w: World, h: Handler, env: Env)
    requires Consistent(w) && HandlerOk(w, h) && !Done(h) && Fresh(w, env) && Storable(w, h)
    ensures HandlerOk(Step(w, h, env).0, Step(w, h, env).1)
  {
    var (w', h') := Step(w, h, env);
    StepKeepsTables(w, h, env);
    HandlerOkStable(w, w', h);
    if h'.Failed? {
      FailureStaysHere(w.t, h, env);
    } else if InConsumeInvite(h) {
      ConsumeKeepsHandler(w, h, env);
    } else if InCreateRoom(h) {
      CreateRoomKeepsHandler(w, h, env);
    } else if InCreateInvite(h) || InLeaveRoom(h) || InMarkRead(h) {
      ShortHandlersKeep(w, h, env);
    } else if InSend(h) {
      SendKeepsHandler(w, h, env);
    } else {
      SubscribeKeepsHandler(w, h, env);
    }
  }

  lemma FailureStaysHere(t: Tables, h: Handler, env: Env)
    requires !Done(h) && Advance(t, h, env).1.Failed?
    ensures Advance(t, h, env).1.at == h
  {
  }

  lemma ConsumeKeepsHandler(w: World, h: Handler, env: Env)
    requires Consistent(w) && HandlerOk(w, h) && Fresh(w, env)
    requires InConsumeInvite(h)
    requires !Step(w, h, env).1.Failed?
    requires HandlerOk(Step(w, h, env).0, h)
    ensures HandlerOk(Step(w, h, env).0, Step(w, h, env).1)
  {
    match h {
      case ConsumeLookup(me, token) => assert InviteOk(w, token);
      case ConsumeLink(me, token, inviter) => LinkKeeps(w, me, inviter);
      case ConsumeRoom(me, token, inviter) =>
        if token in w.t.invites { assert InviteOk(w, token); }
      case _ =>
    }
  }

  lemma CreateRoomKeepsHandler(w: World, h: Handler, env: Env)
    requires Consistent(w) && HandlerOk(w, h) && Fresh(w, env) && InCreateRoom(h)
    requires !Step(w, h, env).1.Failed?
    requires HandlerOk(Step(w, h, env).0, h)
    ensures HandlerOk(Step(w, h, env).0, Step(w, h, env).1)
  {
  }

  lemma ShortHandlersKeep(w: World, h: Handler, env: Env)
    requires HandlerOk(w, h) && (InCreateInvite(h) || InLeaveRoom(h) || InMarkRead(h))
    requires !Step(w, h, env).1.Failed?
    requires HandlerOk(Step(w, h, env).0, h)
    ensures HandlerOk(Step(w, h, env).0, Step(w, h, env).1)
  {
  }

  /** The roster a Send reads: distinct accounts, all belonging to the room. */
  lemma RosterBelongs(w: World, room: RoomId)
    requires Consistent(w) && room in w.t.rooms
    ensures FanOut.DistinctMembers(Roster(w.t, w.t.rooms[room]))
    ensures forall m :: m in Roster(w.t, w.t.rooms[room]) ==> Belongs(w, room, m.account)
  {
    assert RoomOk(w, room);
    var members := Roster(w.t, w.t.rooms[room]);
    forall m | m in members ensures Belongs(w, room, m.account) {
      var i :| 0 <= i < |members| && members[i] == m;
      assert w.t.rooms[room][i] in w.t.rooms[room];
    }
  }

  lemma SendCheckKeepsHandler(w: World, h: Handler, env: Env)
    requires Consistent(w) && HandlerOk(w, h) && h.SendCheck? && !Step(w, h, env).1.Failed?
    ensures HandlerOk(Step(w, h, env).0, Step(w, h, env).1)
  {
    assert RoomOk(w, h.room);
  }

  lemma SendRosterKeepsHandler(w: World, h: Handler, env: Env)
    requires Consistent(w) && HandlerOk(w, h) && h.SendRoster? && !Step(w, h, env).1.Failed?
    ensures HandlerOk(Step(w, h, env).0, Step(w, h, env).1)
  {
    if h.room in w.t.rooms {
      RosterBelongs(w, h.room);
    }
    var (w', h') := Step(w, h, env);
    assert w'.t == w.t && w'.host == w.host && env.id in w'.drawn;
    forall m | m in h'.members ensures Belongs(w', h.room, m.account) {
      assert Belongs(w, h.room, m.account);
    }
  }

  lemma SendKeepsHandler(w: World, h: Handler, env: Env)
    requires Consistent(w) && HandlerOk(w, h) && InSend(h) && !Step(w, h, env).1.Failed?
    ensures HandlerOk(Step(w, h, env).0, Step(w, h, env).1)
  {
    if h.SendCheck? {
      SendCheckKeepsHandler(w, h, env);
    } else if h.SendRoster? {
      SendRosterKeepsHandler(w, h, env);
    }
  }

  lemma AtRowIsOk(
      w: World, me: AccountId, room: RoomId, since: Option<MessageId>, seen: seq<Row>, next: nat, sent: seq<Replayed>)
    requires Valid(seen) && Later(seen, w.t.messages)
    requires next <= |MessagesForRecipient(seen, room, me, since)|
    requires PartOf(sent, MessagesForRecipient(seen, room, me, since), next)
    ensures HandlerOk(w, AtRow(me, room, since, seen, next, sent))
  {
  }

  lemma ReplayKeepsHandler(w: World, h: Handler, env: Env)
    requires Consistent(w) && HandlerOk(w, h) && h.SubReplay?
    ensures HandlerOk(w, SubscribeStep(w.t, h, env).1)
  {
    AtRowIsOk(w, h.me, h.room, h.since, w.t.messages, 0, []);
  }

  lemma RowGoesOn(t: Tables, h: Handler, env: Env, rows: seq<Replayed>)
    requires h.SubRows? && rows == MessagesForRecipient(h.seen, h.room, h.me, h.since) && h.next < |rows|
    ensures SubscribeStep(t, h, env).1
         == AtRow(h.me, h.room, h.since, h.seen, h.next + 1,
                  if rows[h.next].msg.from in t.keys then h.sent + [rows[h.next]] else h.sent)
  {
  }

  lemma RowKeepsHandler(w: World, h: Handler, env: Env)
    requires HandlerOk(w, h) && h.SubRows?
    ensures HandlerOk(w, SubscribeStep(w.t, h, env).1)
  {
    var rows := MessagesForRecipient(h.seen, h.room, h.me, h.since);
    NextRowIsOk(w, h, rows);
    RowGoesOn(w.t, h, env, rows);
  }

  lemma NextRowIsOk(w: World, h: Handler, rows: seq<Replayed>)
    requires HandlerOk(w, h) && h.SubRows? && rows == MessagesForRecipient(h.seen, h.room, h.me, h.since)
    ensures HandlerOk(w, AtRow(h.me, h.room, h.since, h.seen, h.next + 1, h.sent))
    ensures HandlerOk(w, AtRow(h.me, h.room, h.since, h.seen, h.next + 1, h.sent + [rows[h.next]]))
  {
    PartOfNext(h.sent, rows, h.next);
    AtRowIsOk(w, h.me, h.room, h.since, h.seen, h.next + 1, h.sent);
    AtRowIsOk(w, h.me, h.room, h.since, h.seen, h.next + 1, h.sent + [rows[h.next]]);
  }

  lemma ReadStateKeepsHandler(w: World, h: Handler, env: Env)
    requires Consistent(w) && HandlerOk(w, h) && (h.SubCheck? || h.SubBackfill? || h.SubReader?)
    requires !SubscribeStep(w.t, h, env).1.Failed?
    ensures HandlerOk(w, SubscribeStep(w.t, h, env).1)
  {
    if h.SubReader? {
      ReadMessagesHaveAPartner(w, h.seen2, h.room, h.me);
    }
  }

  lemma SubscribeOnlyReads(w: World, h: Handler, env: Env)
    requires InSubscribe(h)
    ensures Step(w, h, env) == (w, SubscribeStep(w.t, h, env).1)
  {
  }

  lemma SubscribeKeepsHandler(w: World, h: Handler, env: Env)
    requires Consistent(w) && HandlerOk(w, h)
    requires InSubscribe(h)
    requires !Step(w, h, env).1.Failed?
    ensures HandlerOk(Step(w, h, env).0, Step(w, h, env).1)
  {
    SubscribeOnlyReads(w, h, env);
    if h.SubReplay? {
      ReplayKeepsHandler(w, h, env);
    } else if h.SubRows? {
      RowKeepsHandler(w, h, env);
    } else {
      ReadStateKeepsHandler(w, h, env);
    }
  }
}
