/**
 * What each step of a handler answers, in terms of the tables: exactly when its check passes, which
 * error it gives otherwise, and what a writing step leaves behind.
 */
module Outcomes {
  import opened Common
  import opened Store
  import opened Tables
  import opened Handlers
  import FanOut
  import Queries

  // ---------------------------------------------------------------------------------------------
  // ConsumeInvite

  /**
   * The lookup step goes on exactly with an invite that exists, is not consumed and not past its
   * expiry, and a valid signature. Each other case has its own error; consumed comes before expired
   * and both before the signature.
   */
  lemma LookupOutcome(t: Tables, me: AccountId, token: Token, env: Env)
    ensures var h := ConsumeLookup(me, token);
            var (t', c) := Advance(t, h, env);
            && t' == t
            && (c.ConsumeInviter? <==>
                  token in t.invites && t.invites[token].consumedAt == None && env.now <= t.invites[token].expiresAt && env.signatureOk)
            && (c.ConsumeInviter? ==> c == ConsumeInviter(me, token, t.invites[token].inviter))
            && (c == Failed(h, InviteNotFound) <==> token !in t.invites)
            && (c == Failed(h, InviteConsumed) <==> token in t.invites && t.invites[token].consumedAt.Some?)
            && (c == Failed(h, InviteExpired) <==>
                  token in t.invites && t.invites[token].consumedAt == None && t.invites[token].expiresAt < env.now)
            && (c == Failed(h, InvalidSignature) <==>
                  && token in t.invites && t.invites[token].consumedAt == None && env.now <= t.invites[token].expiresAt
                  && !env.signatureOk)
  {
  }

  /** The inviter must exist and be someone else. */
  lemma InviterOutcome(t: Tables, me: AccountId, token: Token, inviter: AccountId, env: Env)
    ensures var h := ConsumeInviter(me, token, inviter);
            var (t', c) := Advance(t, h, env);
            && t' == t
            && (c == Failed(h, InviteNotFound) <==> inviter !in t.keys)
            && (c == Failed(h, SelfInvite) <==> inviter in t.keys && inviter == me)
            && (c == ConsumeLink(me, token, inviter) <==> inviter in t.keys && inviter != me)
  {
  }

  /** The link step goes on exactly if the link succeeds, and a refused one is a monogamy violation. */
  lemma LinkOutcome(t: Tables, me: AccountId, token: Token, inviter: AccountId, env: Env)
    requires Matching(t.keys, t.partner) && me != inviter
    ensures var h := ConsumeLink(me, token, inviter);
            var (t', c) := Advance(t, h, env);
            && t' == t.(partner := t'.partner)
            && LinksAsPromised(t.keys, t.partner, t'.partner, me, inviter, c == ConsumeRoom(me, token, inviter))
            && (c == ConsumeRoom(me, token, inviter) || c == Failed(h, MonogamyViolation))
  {
    LinkSucceedsIff(t, me, inviter);
  }

  /** The room the invite is bound to, if it still exists and is bound; a new one otherwise. */
  lemma RoomOutcome(t: Tables, me: AccountId, token: Token, inviter: AccountId, env: Env)
    ensures var (t', c) := Advance(t, ConsumeRoom(me, token, inviter), env);
            && t' == t
            && (forall room :: token in t.invites && t.invites[token].room == Some(room) ==>
                  c == ConsumeJoin(me, token, inviter, room))
            && (token !in t.invites || t.invites[token].room == None ==> c == ConsumeCreate(me, token, inviter))
  {
  }

  /** The room made for an unbound invite is the inviter's, with nobody else in it yet. */
  lemma CreateOutcome(t: Tables, me: AccountId, token: Token, inviter: AccountId, env: Env)
    requires env.room !in t.rooms && inviter in t.keys
    ensures Advance(t, ConsumeCreate(me, token, inviter), env)
         == (t.(rooms := t.rooms[env.room := [inviter]]), ConsumeJoin(me, token, inviter, env.room))
  {
  }

  /** The consumer is a member of the room afterwards, unless the room is gone. */
  lemma JoinOutcome(t: Tables, me: AccountId, token: Token, inviter: AccountId, room: RoomId, env: Env)
    requires me in t.keys
    ensures var h := ConsumeJoin(me, token, inviter, room);
            var (t', c) := Advance(t, h, env);
            if room !in t.rooms then t' == t && c == Failed(h, Internal)
            else
              && c == ConsumeMark(me, token, inviter, room)
              && t' == t.(rooms := t.rooms[room := t'.rooms[room]])
              && forall x :: x in t'.rooms[room] <==> x in t.rooms[room] || x == me
  {
    JoinAdds(t, room, me);
  }

  /** The invite is stamped unless it was already, or is gone. */
  lemma MarkOutcome(t: Tables, me: AccountId, token: Token, inviter: AccountId, room: RoomId, env: Env)
    ensures var (t', c) := Advance(t, ConsumeMark(me, token, inviter, room), env);
            && c == Paired(me, token, room)
            && (if token in t.invites && t.invites[token].consumedAt == None
                then t' == t.(invites := t.invites[token := t.invites[token].(consumedAt := Some(env.now))])
                else t' == t)
  {
  }

  // ---------------------------------------------------------------------------------------------
  // CreateInvite and CreateRoom

  /** Only an account without a partner goes on to an invite. */
  lemma InviteCheckOutcome(t: Tables, me: AccountId, env: Env)
    ensures var h := InviteCheck(me);
            var (t', c) := Advance(t, h, env);
            && t' == t
            && (c == Failed(h, AlreadyPaired) <==> me in t.partner)
            && (c == InviteWrite(me) <==> me !in t.partner)
  {
  }

  /** What issuing an invite leaves: it lives for an hour, and of the issuer's others only the consumed ones stay. */
  ghost predicate InviteIssued(
      t: Tables, t': Tables, inviter: AccountId, token: Token, now: Time, room: Option<RoomId>)
  {
    && t' == t.(invites := t'.invites)
    && token in t'.invites && t'.invites[token] == Invite(inviter, now + 3600, None, room)
    && (forall k :: k != token ==>
          (k in t'.invites <==> k in t.invites && (t.invites[k].inviter == inviter ==> t.invites[k].consumedAt.Some?)))
    && (forall k :: k in t'.invites && k != token ==> t'.invites[k] == t.invites[k])
  }

  /** The invite of a CreateInvite is bound to no room. */
  lemma InviteWriteOutcome(t: Tables, me: AccountId, env: Env)
    requires me in t.keys && env.token !in t.invites
    ensures var (t', c) := Advance(t, InviteWrite(me), env);
            c == Finished && InviteIssued(t, t', me, env.token, env.now, None)
  {
  }

  /** The invite of a new room is bound to it; with the room gone there is none. */
  lemma RoomInviteOutcome(t: Tables, me: AccountId, room: RoomId, env: Env)
    requires me in t.keys && env.token !in t.invites
    ensures var h := RoomInvite(me, room);
            var (t', c) := Advance(t, h, env);
            if room in t.rooms then c == Finished && InviteIssued(t, t', me, env.token, env.now, Some(room))
            else t' == t && c == Failed(h, Internal)
  {
  }

  /** The partner is looked up exactly when one is asked for. */
  lemma RoomCheckOutcome(t: Tables, me: AccountId, invitePartner: bool, env: Env)
    ensures Advance(t, RoomCheck(me, invitePartner), env)
         == (t, RoomWrite(me, invitePartner, if invitePartner && me in t.partner then Some(t.partner[me]) else None))
  {
  }

  /** The new room seats the creator and the partner found by the check; only without one is there an invite to come. */
  lemma RoomWriteOutcome(t: Tables, me: AccountId, invitePartner: bool, auto: Option<AccountId>, env: Env)
    requires env.room !in t.rooms && me in t.keys && (auto.Some? ==> auto.value in t.keys)
    ensures var (t', c) := Advance(t, RoomWrite(me, invitePartner, auto), env);
            && t' == t.(rooms := t'.rooms)
            && c == (if invitePartner && auto == None then RoomInvite(me, env.room) else Finished)
            && env.room in t'.rooms && NoDuplicates(t'.rooms[env.room])
            && (forall x :: x in t'.rooms[env.room] <==> x == me || auto == Some(x))
            && (forall r :: r != env.room ==> (r in t'.rooms <==> r in t.rooms))
            && (forall r :: r in t.rooms ==> t'.rooms[r] == t.rooms[r])
  {
    NewRoomSeats(t, env.room, me, auto);
  }

  // ---------------------------------------------------------------------------------------------
  // LeaveRoom, MarkRead, Subscribe

  /** The membership checks. */
  lemma MemberOutcome(t: Tables, me: AccountId, room: RoomId, env: Env, upTo: MessageId, since: Option<MessageId>)
    ensures var member := room in t.rooms && me in t.rooms[room];
            && Advance(t, LeaveCheck(me, room), env)
               == (t, if member then LeaveWrite(me, room) else Failed(LeaveCheck(me, room), UnknownRoom))
            && Advance(t, MarkCheck(me, room, upTo), env)
               == (t, if member then MarkWrite(me, room, upTo) else Failed(MarkCheck(me, room, upTo), UnknownRoom))
            && Advance(t, SubCheck(me, room, since), env)
               == (t, if member then SubReplay(me, room, since) else Failed(SubCheck(me, room, since), UnknownRoom))
  {
  }

  /** The same statement as in `Queries.MarkReadDoes`, at the time of the step. */
  lemma MarkReadOutcome(t: Tables, me: AccountId, room: RoomId, upTo: MessageId, env: Env)
    ensures var (t', c) := Advance(t, MarkWrite(me, room, upTo), env);
            && c == Finished && t' == t.(messages := t'.messages) && |t'.messages| == |t.messages|
            && forall i :: 0 <= i < |t.messages| ==>
                 t'.messages[i] ==
                   var row := t.messages[i];
                   if && row.msg.room == room && row.msg.recipient == me && row.msg.from != me
                      && row.msg.id <= upTo && row.readAt.None?
                   then Row(row.msg, Some(env.now)) else row
  {
  }

  // ---------------------------------------------------------------------------------------------
  // Send

  ghost predicate SmallEnough(bodies: map<string, string>) {
    |bodies| <= 16 && forall k :: k in bodies ==> |bodies[k]| <= 98_304
  }

  /** Sizes are checked before membership. */
  lemma SendCheckOutcome(t: Tables, me: AccountId, room: RoomId, bodies: map<string, string>, env: Env)
    ensures var h := SendCheck(me, room, bodies);
            var (t', c) := Advance(t, h, env);
            && t' == t
            && (c == Failed(h, BodyTooLarge) <==> !SmallEnough(bodies))
            && (c == Failed(h, UnknownRoom) <==> SmallEnough(bodies) && !(room in t.rooms && me in t.rooms[room]))
            && (c == SendRoster(me, room, bodies) <==> SmallEnough(bodies) && room in t.rooms && me in t.rooms[room])
  {
  }

  /** The roster is the room's members in order, with their keys. */
  ghost predicate IsRosterOf(members: seq<FanOut.Member>, t: Tables, room: RoomId) {
    var accounts := if room in t.rooms then t.rooms[room] else [];
    && |members| == |accounts|
    && forall i :: 0 <= i < |members| ==>
         members[i].account == accounts[i] && (accounts[i] in t.keys ==> members[i].key == t.keys[accounts[i]])
  }

  /** The roster step goes on exactly if the bodies are addressed to all, with the id and time it draws. */
  lemma RosterOutcome(t: Tables, me: AccountId, room: RoomId, bodies: map<string, string>, env: Env)
    requires me in t.keys
    ensures var h := SendRoster(me, room, bodies);
            var (t', c) := Advance(t, h, env);
            && t' == t
            && (c.SendWrite? ==>
                  && c == SendWrite(me, room, bodies, c.members, env.id, env.now) && IsRosterOf(c.members, t, room)
                  && FanOut.AddressedToAll(bodies, me, c.members, t.keys[me]))
            && (!c.SendWrite? ==>
                  && c == Failed(h, FanOutMismatch)
                  && forall members :: IsRosterOf(members, t, room) && AllRegistered(members, t) ==>
                       !FanOut.AddressedToAll(bodies, me, members, t.keys[me]))
  {
    var members := Roster(t, if room in t.rooms then t.rooms[room] else []);
    FanOut.KeysAreRequired(bodies, me, members, t.keys[me]);
    forall other | IsRosterOf(other, t, room) && AllRegistered(other, t) ensures other == members {
    }
  }

  ghost predicate AllRegistered(members: seq<FanOut.Member>, t: Tables) {
    forall i :: 0 <= i < |members| ==> members[i].account in t.keys
  }

  /** The write step fails only if the room or an account is gone; else every row is there, and old rows stay. */
  lemma SendWriteOutcome(t: Tables, h: Handler, env: Env)
    requires h.SendWrite? && KeyUnique(t.messages)
    ensures var rows := SentCopies(t, h);
            var (t', c) := Advance(t, h, env);
            && (c == Finished <==>
                  forall k :: 0 <= k < |rows| ==> rows[k].room in t.rooms && rows[k].from in t.keys && rows[k].recipient in t.keys)
            && (c != Finished ==> c == Failed(h, Internal) && t' == t)
            && (c == Finished ==>
                  && t' == t.(messages := t'.messages) && t.messages <= t'.messages
                  && forall k :: 0 <= k < |rows| ==> Queries.KeyIn(t'.messages, rows[k]))
  {
    Queries.InsertManyDoes(t.messages, SentCopies(t, h));
  }

  // ---------------------------------------------------------------------------------------------
  // Failing database calls

  /**
   * A failed call ends the handler, except that a consumer whose invite could not be stamped is
   * paired all the same, a replayed row is skipped, and a Subscribe goes without its `Read` frame.
   */
  lemma FaultOutcome(h: Handler)
    requires !Handlers.Done(h)
    ensures h.ConsumeInviter? ==> AfterFault(h) == Failed(h, InviteNotFound)
    ensures h.LeaveCheck? ==> AfterFault(h) == Failed(h, UnknownRoom)
    ensures h.ConsumeMark? ==> AfterFault(h) == Paired(h.me, h.token, h.room)
    ensures h.SubRows? ==>
              var more := h.next + 1 < |MessagesForRecipient(h.seen, h.room, h.me, h.since)|;
              AfterFault(h) == if more then h.(next := h.next + 1) else SubBackfill(h.me, h.room, h.since, h.seen, h.sent)
    ensures h.SubBackfill? || h.SubReader? ==>
              AfterFault(h).Subscribed? && AfterFault(h).sent == h.sent && AfterFault(h).frame == None
    ensures !h.ConsumeInviter? && !h.LeaveCheck? && !h.ConsumeMark? && !h.SubRows? && !h.SubBackfill? && !h.SubReader? ==>
              AfterFault(h) == Failed(h, Internal)
  {
  }
}
