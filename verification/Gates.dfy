/**
 * What a handler had found, at which event of the run, before it got where it is. The tables may
 * have changed since; these are the checks the code promises to have made.
 */
module Gates {
  import opened Common
  import opened Store
  import opened Tables
  import opened Handlers
  import opened Server
  import opened OrderedRuns
  import Invariant
  import FanOut
  import Outcomes

  ghost function TablesAt(es: seq<Event>, j: nat): Tables
    requires IsRun(es) && j <= |es|
  {
    StateAt(es, j).w.t
  }

  /** At event `j` handler `h`, then at point `c`, took a step. */
  ghost predicate StepAt(es: seq<Event>, j: nat, h: nat, c: Handler, env: Env)
    requires IsRun(es)
  {
    j < |es| && es[j] == Run(h, env) && h in StateAt(es, j).handlers && StateAt(es, j).handlers[h] == c
  }

  lemma {:induction false} StepInPrefix(es: seq<Event>, n: nat, j: nat, h: nat, c: Handler, env: Env)
    requires IsRun(es) && n <= |es| && IsRun(es[..n]) && StepAt(es[..n], j, h, c, env)
    ensures j < n && StepAt(es, j, h, c, env) && TablesAt(es, j) == TablesAt(es[..n], j)
  {
    AtPrefix(es, n, j);
  }

  /** Where the handler is, or was when it stopped. */
  function Point(c: Handler): Handler {
    if c.Failed? then c.at else c
  }

  /** Which request the handler serves, as long as it is not finished. */
  datatype Kind = Consuming | Inviting | Creating | Leaving | Sending | Marking | Subscribing | Ended

  function KindOf(c: Handler): Kind {
    if InConsumeInvite(c) || c.Paired? then Consuming
    else if InCreateInvite(c) then Inviting
    else if InCreateRoom(c) then Creating
    else if InLeaveRoom(c) then Leaving
    else if InSend(c) then Sending
    else if InMarkRead(c) then Marking
    else if InSubscribe(c) || c.Subscribed? then Subscribing
    else Ended
  }

  lemma ConsumingStays(t: Tables, c: Handler, env: Env)
    requires InConsumeInvite(c)
    ensures KindOf(Point(ConsumeInviteStep(t, c, env).1)) == Consuming
  {
  }

  lemma InvitingStays(t: Tables, c: Handler, env: Env)
    requires InCreateInvite(c)
    ensures KindOf(Point(CreateInviteStep(t, c, env).1)) in {Inviting, Ended}
  {
  }

  lemma CreatingStays(t: Tables, c: Handler, env: Env)
    requires InCreateRoom(c)
    ensures KindOf(Point(CreateRoomStep(t, c, env).1)) in {Creating, Ended}
  {
  }

  lemma LeavingStays(t: Tables, c: Handler, env: Env)
    requires InLeaveRoom(c)
    ensures KindOf(Point(LeaveRoomStep(t, c, env).1)) in {Leaving, Ended}
  {
  }

  lemma SendingStays(t: Tables, c: Handler, env: Env)
    requires InSend(c)
    ensures KindOf(Point(SendStep(t, c, env).1)) in {Sending, Ended}
  {
  }

  lemma MarkingStays(t: Tables, c: Handler, env: Env)
    requires InMarkRead(c)
    ensures KindOf(Point(MarkReadStep(t, c, env).1)) in {Marking, Ended}
  {
  }

  lemma SubscribeServes(c: Handler)
    requires InSubscribe(c) || c.Subscribed?
    ensures KindOf(Point(c)) == Subscribing
  {
  }

  lemma SubscribingStays(t: Tables, c: Handler, env: Env)
    requires InSubscribe(c)
    ensures KindOf(Point(SubscribeStep(t, c, env).1)) == Subscribing
  {
    var c' := SubscribeStep(t, c, env).1;
    if c.SubCheck? {
      assert c' == Failed(c, UnknownRoom) || c'.SubReplay?;
      SubscribeServes(Point(c'));
    } else {
      assert InSubscribe(c') || c'.Subscribed?;
      SubscribeServes(c');
    }
  }

  lemma KindStays(t: Tables, c: Handler, env: Env)
    requires !Handlers.Done(c)
    ensures KindOf(Point(Advance(t, c, env).1)) in {KindOf(c), Ended} && KindOf(c) != Ended
  {
    if InConsumeInvite(c) {
      ConsumingStays(t, c, env);
    } else if InCreateInvite(c) {
      InvitingStays(t, c, env);
    } else if InCreateRoom(c) {
      CreatingStays(t, c, env);
    } else if InLeaveRoom(c) {
      LeavingStays(t, c, env);
    } else if InSend(c) {
      SendingStays(t, c, env);
    } else if InMarkRead(c) {
      MarkingStays(t, c, env);
    } else {
      SubscribingStays(t, c, env);
    }
  }

  lemma FaultKeepsKind(c: Handler)
    requires !Handlers.Done(c)
    ensures KindOf(Point(AfterFault(c))) == KindOf(c)
  {
  }

  /** A handler not at its start got where it is by a step or a failed call, at the last event that moved it. */
  lemma {:induction false} Arrival(es: seq<Event>, h: nat) returns (n: nat, c: Handler, env: Env)
    requires IsRun(es) && h in StateAfter(es).handlers && !Initial(StateAfter(es).handlers[h])
    ensures n < |es| && IsRun(es[..n]) && h in StateAfter(es[..n]).handlers && StateAfter(es[..n]).handlers[h] == c
    ensures !Handlers.Done(c)
    ensures || (StepAt(es, n, h, c, env) && StateAfter(es).handlers[h] == Advance(TablesAt(es, n), c, env).1)
            || (es[n] == Fault(h) && StateAfter(es).handlers[h] == AfterFault(c))
  {
    assert es != [];
    n := |es| - 1;
    var s, e := StateAfter(es[..n]), es[n];
    assert IsRun(es[..n]) && Enabled(s, e) && StateAfter(es) == Next(s, e);
    if e.Run? && e.h == h {
      c, env := s.handlers[h], e.env;
    } else if e == Fault(h) {
      c, env := s.handlers[h], Env(0, false, 0, 0, 0);
    } else {
      var m;
      m, c, env := Arrival(es[..n], h);
      if StepAt(es[..n], m, h, c, env) {
        StepInPrefix(es, n, m, h, c, env);
      }
      assert es[..n][..m] == es[..m] && es[..n][m] == es[m];
      n := m;
    }
  }

  /** And it serves the same request as before. */
  lemma {:induction false} Came(es: seq<Event>, h: nat) returns (n: nat, c: Handler, env: Env)
    requires IsRun(es) && h in StateAfter(es).handlers && !Initial(StateAfter(es).handlers[h])
    requires KindOf(Point(StateAfter(es).handlers[h])) != Ended
    ensures n < |es| && IsRun(es[..n]) && h in StateAfter(es[..n]).handlers && StateAfter(es[..n]).handlers[h] == c
    ensures !Handlers.Done(c) && KindOf(c) == KindOf(Point(StateAfter(es).handlers[h]))
    ensures || (StepAt(es, n, h, c, env) && StateAfter(es).handlers[h] == Advance(TablesAt(es, n), c, env).1)
            || (es[n] == Fault(h) && StateAfter(es).handlers[h] == AfterFault(c))
  {
    n, c, env := Arrival(es, h);
    if es[n] == Fault(h) {
      FaultKeepsKind(c);
    } else {
      KindStays(TablesAt(es, n), c, env);
    }
  }

  // ---------------------------------------------------------------------------------------------
  // ConsumeInvite

  /** At or past the lookup of the inviter, for this account and token. */
  predicate PastLookup(c: Handler, me: AccountId, token: Token) {
    && (c.ConsumeInviter? || c.ConsumeLink? || c.ConsumeRoom? || c.ConsumeCreate? || c.ConsumeJoin? || c.ConsumeMark? || c.Paired?)
    && c.me == me && c.token == token
  }

  predicate For(c: Handler, inviter: AccountId) {
    (c.ConsumeInviter? || c.ConsumeLink? || c.ConsumeRoom? || c.ConsumeCreate? || c.ConsumeJoin? || c.ConsumeMark?) ==>
      c.inviter == inviter
  }

  lemma ConsumingSteps(t: Tables, c: Handler, env: Env, me: AccountId, token: Token)
    requires InConsumeInvite(c) && PastLookup(Point(Advance(t, c, env).1), me, token)
    ensures (c == ConsumeLookup(me, token) && !PastLookup(Point(c), me, token) && Advance(t, c, env).1.ConsumeInviter?)
            || (PastLookup(c, me, token) && forall inviter :: For(c, inviter) ==> For(Point(Advance(t, c, env).1), inviter))
  {
  }

  lemma FaultKeepsConsuming(c: Handler, me: AccountId, token: Token)
    requires !Handlers.Done(c) && PastLookup(Point(AfterFault(c)), me, token)
    ensures PastLookup(c, me, token) && forall inviter :: For(c, inviter) ==> For(Point(AfterFault(c)), inviter)
  {
  }

  /**
   * A ConsumeInvite that got to or past its inviter lookup, finished and stopped ones included, took
   * its lookup step at an event when the invite existed, was not consumed and not past its expiry,
   * with a valid signature; and it acts for the inviter it found there.
   */
  lemma {:induction false} InviteWasPending(es: seq<Event>, h: nat, me: AccountId, token: Token)
    returns (j: nat, env: Env, inviter: AccountId)
    requires IsRun(es) && h in StateAfter(es).handlers && PastLookup(Point(StateAfter(es).handlers[h]), me, token)
    ensures StepAt(es, j, h, ConsumeLookup(me, token), env) && For(Point(StateAfter(es).handlers[h]), inviter)
    ensures var invites := TablesAt(es, j).invites;
            && token in invites && invites[token].inviter == inviter && invites[token].consumedAt == None
            && env.now <= invites[token].expiresAt && env.signatureOk
  {
    var n, c, e := Came(es, h);
    if es[n] == Fault(h) {
      FaultKeepsConsuming(c, me, token);
    } else {
      ConsumingSteps(TablesAt(es, n), c, e, me, token);
      Outcomes.LookupOutcome(TablesAt(es, n), me, token, e);
    }
    if PastLookup(Point(c), me, token) {
      j, env, inviter := InviteWasPending(es[..n], h, me, token);
      StepInPrefix(es, n, j, h, ConsumeLookup(me, token), env);
    } else {
      j, env, inviter := n, e, StateAfter(es).handlers[h].inviter;
    }
  }

  /** At or past the join, for this room. */
  predicate Joining(c: Handler) {
    c.ConsumeJoin? || c.ConsumeMark? || c.Paired?
  }

  /** The step that fixed the room: the invite was bound to it, or it was made for an unbound invite. */
  ghost predicate FixesRoom(t: Tables, c: Handler, env: Env, me: AccountId, token: Token, room: RoomId) {
    || (c.ConsumeRoom? && c.me == me && c.token == token && token in t.invites && t.invites[token].room == Some(room))
    || (c.ConsumeCreate? && c.me == me && c.token == token && room == env.room)
  }

  lemma JoiningSteps(t: Tables, c: Handler, env: Env)
    requires InConsumeInvite(c) && Joining(Point(Advance(t, c, env).1))
    ensures var c' := Point(Advance(t, c, env).1);
            || FixesRoom(t, c, env, c'.me, c'.token, c'.room)
            || (Joining(c) && c.me == c'.me && c.token == c'.token && c.room == c'.room
                && (!c'.ConsumeJoin? ==> c.ConsumeMark? || (c.ConsumeJoin? && Advance(t, c, env).1.ConsumeMark?)))
  {
  }

  lemma FaultKeepsJoining(c: Handler)
    requires !Handlers.Done(c) && Joining(Point(AfterFault(c)))
    ensures var c' := Point(AfterFault(c));
            Joining(c) && c.me == c'.me && c.token == c'.token && c.room == c'.room && (!c'.ConsumeJoin? ==> c.ConsumeMark?)
  {
  }

  /** A consumer joins the room its invite was bound to when it looked, or one made for an unbound invite. */
  lemma {:induction false} RoomIsTheInvites(es: seq<Event>, h: nat) returns (j: nat, c0: Handler, env: Env)
    requires IsRun(es) && h in StateAfter(es).handlers && Joining(Point(StateAfter(es).handlers[h]))
    ensures var c := Point(StateAfter(es).handlers[h]);
            StepAt(es, j, h, c0, env) && FixesRoom(TablesAt(es, j), c0, env, c.me, c.token, c.room)
  {
    var n, c, e := Came(es, h);
    if es[n] == Fault(h) {
      FaultKeepsJoining(c);
    } else {
      JoiningSteps(TablesAt(es, n), c, e);
    }
    if Joining(c) {
      j, c0, env := RoomIsTheInvites(es[..n], h);
      StepInPrefix(es, n, j, h, c0, env);
    } else {
      j, c0, env := n, c, e;
    }
  }

  lemma UnboundSteps(t: Tables, c: Handler, env: Env)
    requires InConsumeInvite(c) && Point(Advance(t, c, env).1).ConsumeCreate?
    ensures var c' := Point(Advance(t, c, env).1);
            c == c' || (c == ConsumeRoom(c'.me, c'.token, c'.inviter) && (c.token in t.invites ==> t.invites[c.token].room == None))
  {
  }

  lemma FaultKeepsCreate(c: Handler)
    requires !Handlers.Done(c) && Point(AfterFault(c)).ConsumeCreate?
    ensures Point(AfterFault(c)) == c
  {
  }

  /** A consumer makes a room only after it found its invite bound to none, or gone. */
  lemma {:induction false} InviteWasUnbound(es: seq<Event>, h: nat) returns (j: nat, env: Env)
    requires IsRun(es) && h in StateAfter(es).handlers && Point(StateAfter(es).handlers[h]).ConsumeCreate?
    ensures var c := Point(StateAfter(es).handlers[h]);
            && StepAt(es, j, h, ConsumeRoom(c.me, c.token, c.inviter), env)
            && (c.token in TablesAt(es, j).invites ==> TablesAt(es, j).invites[c.token].room == None)
  {
    var n, c, e := Came(es, h);
    if es[n] == Fault(h) {
      FaultKeepsCreate(c);
    } else {
      UnboundSteps(TablesAt(es, n), c, e);
    }
    if c.ConsumeCreate? {
      j, env := InviteWasUnbound(es[..n], h);
      StepInPrefix(es, n, j, h, ConsumeRoom(c.me, c.token, c.inviter), env);
    } else {
      j, env := n, e;
    }
  }

  lemma {:induction false} AfterStep(es: seq<Event>, j: nat, h: nat, c: Handler, env: Env)
    requires IsRun(es) && StepAt(es, j, h, c, env) && !Handlers.Done(c)
    ensures TablesAt(es, j + 1) == Advance(TablesAt(es, j), c, env).0
  {
    assert es[..j + 1][..j] == es[..j];
  }

  lemma Joined(t: Tables, c: Handler, env: Env)
    requires c.ConsumeJoin? && Advance(t, c, env).1.ConsumeMark?
    ensures c.room in Advance(t, c, env).0.rooms && c.me in Advance(t, c, env).0.rooms[c.room]
  {
    JoinAdds(t, c.room, c.me);
  }

  /** A consumer past its join has just joined, or was past it before. */
  lemma {:induction false} MarkCame(es: seq<Event>, h: nat) returns (n: nat, c: Handler, env: Env)
    requires IsRun(es) && h in StateAfter(es).handlers
    requires StateAfter(es).handlers[h].ConsumeMark? || StateAfter(es).handlers[h].Paired?
    ensures n < |es| && IsRun(es[..n]) && h in StateAfter(es[..n]).handlers && StateAfter(es[..n]).handlers[h] == c
    ensures c.ConsumeMark? || (c.ConsumeJoin? && StepAt(es, n, h, c, env) && Advance(TablesAt(es, n), c, env).1.ConsumeMark?)
    ensures var c' := StateAfter(es).handlers[h];
            c.me == c'.me && c.token == c'.token && c.room == c'.room
  {
    n, c, env := Came(es, h);
    if es[n] == Fault(h) {
      FaultKeepsJoining(c);
    } else {
      JoiningSteps(TablesAt(es, n), c, env);
    }
  }

  /** Event j put the consumer into its room. */
  ghost predicate JoinedAt(es: seq<Event>, j: nat, h: nat, c: Handler, env: Env)
    requires IsRun(es) && c.ConsumeJoin?
  {
    && StepAt(es, j, h, c, env)
    && c.room in TablesAt(es, j + 1).rooms && c.me in TablesAt(es, j + 1).rooms[c.room]
  }

  lemma JustJoined(es: seq<Event>, n: nat, h: nat, c: Handler, env: Env)
    requires IsRun(es) && c.ConsumeJoin? && StepAt(es, n, h, c, env) && Advance(TablesAt(es, n), c, env).1.ConsumeMark?
    ensures JoinedAt(es, n, h, c, env)
  {
    AfterStep(es, n, h, c, env);
    Joined(TablesAt(es, n), c, env);
  }

  lemma JoinedBefore(es: seq<Event>, n: nat, j: nat, h: nat, c: Handler, env: Env)
    requires IsRun(es) && n <= |es| && IsRun(es[..n]) && c.ConsumeJoin? && JoinedAt(es[..n], j, h, c, env)
    ensures JoinedAt(es, j, h, c, env)
  {
    StepInPrefix(es, n, j, h, c, env);
    AtPrefix(es, n, j + 1);
  }

  /** A paired consumer, or one whose invite is still to be stamped, was put into its room. */
  lemma {:induction false} ConsumerJoined(es: seq<Event>, h: nat) returns (j: nat, inviter: AccountId, env: Env)
    requires IsRun(es) && h in StateAfter(es).handlers
    requires StateAfter(es).handlers[h].ConsumeMark? || StateAfter(es).handlers[h].Paired?
    ensures var c := StateAfter(es).handlers[h];
            JoinedAt(es, j, h, ConsumeJoin(c.me, c.token, inviter, c.room), env)
  {
    var n, c, e := MarkCame(es, h);
    if c.ConsumeMark? {
      j, inviter, env := ConsumerJoined(es[..n], h);
      JoinedBefore(es, n, j, h, ConsumeJoin(c.me, c.token, inviter, c.room), env);
    } else {
      j, inviter, env := n, c.inviter, e;
      JustJoined(es, n, h, c, e);
    }
  }

  // ---------------------------------------------------------------------------------------------
  // Membership

  /** Past the membership check, for this account and room. */
  predicate Admitted(c: Handler, me: AccountId, room: RoomId) {
    && (c.LeaveWrite? || c.SendRoster? || c.SendWrite? || c.MarkWrite?
        || c.SubReplay? || c.SubRows? || c.SubBackfill? || c.SubReader? || c.Subscribed?)
    && c.me == me && c.room == room
  }

  predicate IsCheck(c: Handler, me: AccountId, room: RoomId) {
    (c.LeaveCheck? || c.SendCheck? || c.MarkCheck? || c.SubCheck?) && c.me == me && c.room == room
  }

  lemma AdmittingSteps(t: Tables, c: Handler, env: Env, me: AccountId, room: RoomId)
    requires !Handlers.Done(c) && ServesMembers(KindOf(c))
    requires Admitted(Point(Advance(t, c, env).1), me, room)
    ensures Admitted(Point(c), me, room) || (IsCheck(c, me, room) && room in t.rooms && me in t.rooms[room])
  {
  }

  lemma FaultKeepsAdmitted(c: Handler, me: AccountId, room: RoomId)
    requires !Handlers.Done(c) && Admitted(Point(AfterFault(c)), me, room)
    ensures Admitted(Point(c), me, room)
  {
  }

  /**
   * A LeaveRoom, Send, MarkRead or Subscribe that got past its membership check made that check at an
   * event when its account was a member of the room.
   */
  lemma {:induction false} WasMember(es: seq<Event>, h: nat, me: AccountId, room: RoomId)
    returns (j: nat, env: Env, check: Handler)
    requires IsRun(es) && h in StateAfter(es).handlers && Admitted(Point(StateAfter(es).handlers[h]), me, room)
    ensures StepAt(es, j, h, check, env) && IsCheck(check, me, room)
    ensures room in TablesAt(es, j).rooms && me in TablesAt(es, j).rooms[room]
  {
    var n, c, e := AdmittedFrom(es, h, me, room);
    if Admitted(Point(c), me, room) {
      j, env, check := WasMember(es[..n], h, me, room);
      StepInPrefix(es, n, j, h, check, env);
    } else {
      j, env, check := n, e, c;
    }
  }

  lemma {:induction false} AdmittedFrom(es: seq<Event>, h: nat, me: AccountId, room: RoomId)
    returns (n: nat, c: Handler, env: Env)
    requires IsRun(es) && h in StateAfter(es).handlers && Admitted(Point(StateAfter(es).handlers[h]), me, room)
    ensures n < |es| && IsRun(es[..n]) && h in StateAfter(es[..n]).handlers && StateAfter(es[..n]).handlers[h] == c
    ensures || Admitted(Point(c), me, room)
            || (StepAt(es, n, h, c, env) && IsCheck(c, me, room)
                && room in TablesAt(es, n).rooms && me in TablesAt(es, n).rooms[room])
  {
    AdmittedIsServing(StateAfter(es).handlers[h], me, room);
    n, c, env := Came(es, h);
    if es[n] == Fault(h) {
      FaultKeepsAdmitted(c, me, room);
    } else {
      AdmittingSteps(TablesAt(es, n), c, env, me, room);
    }
  }

  predicate ServesMembers(k: Kind) {
    k == Leaving || k == Sending || k == Marking || k == Subscribing
  }

  lemma AdmittedIsServing(c: Handler, me: AccountId, room: RoomId)
    requires Admitted(Point(c), me, room)
    ensures ServesMembers(KindOf(Point(c))) && !Initial(c)
  {
  }

  // ---------------------------------------------------------------------------------------------
  // Send

  /** The step that leads to a Send's later points. */
  lemma SendingSteps(t: Tables, c: Handler, env: Env)
    requires InSend(c)
    ensures var c' := Point(Advance(t, c, env).1);
            && (c'.SendWrite? ==> c' == c || (c == SendRoster(c'.me, c'.room, c'.bodies) && Advance(t, c, env).1 == c'))
            && (c'.SendRoster? ==> c' == c || (c == SendCheck(c'.me, c'.room, c'.bodies) && Advance(t, c, env).1 == c'))
  {
  }

  lemma FaultKeepsSend(c: Handler)
    requires !Handlers.Done(c)
    ensures var c' := Point(AfterFault(c)); c'.SendWrite? || c'.SendRoster? ==> c' == c
  {
  }

  lemma SameSend(c: Handler, c': Handler)
    requires KindOf(c) == KindOf(c') && (c'.SendRoster? || c'.SendWrite?)
    ensures InSend(c)
  {
  }

  /** A Send past its checks has at most 16 bodies, none longer than 98304 bytes. */
  lemma {:induction false} SendsAreSmall(es: seq<Event>, h: nat)
    requires IsRun(es) && h in StateAfter(es).handlers
    requires var c := Point(StateAfter(es).handlers[h]); c.SendRoster? || c.SendWrite?
    ensures var bodies := Point(StateAfter(es).handlers[h]).bodies;
            |bodies| <= 16 && forall k :: k in bodies ==> |bodies[k]| <= 98_304
  {
    var n, c, e := SendCame(es, h);
    if c.SendCheck? {
      Outcomes.SendCheckOutcome(TablesAt(es, n), c.me, c.room, c.bodies, e);
    } else {
      SendsAreSmall(es[..n], h);
    }
  }

  /** A Send past its first check took that check, read its roster, or is where it was. */
  lemma {:induction false} SendCame(es: seq<Event>, h: nat) returns (n: nat, c: Handler, env: Env)
    requires IsRun(es) && h in StateAfter(es).handlers
    requires var c' := Point(StateAfter(es).handlers[h]); c'.SendRoster? || c'.SendWrite?
    ensures n < |es| && IsRun(es[..n]) && h in StateAfter(es[..n]).handlers && StateAfter(es[..n]).handlers[h] == c
    ensures var c' := Point(StateAfter(es).handlers[h]);
            || c == c'
            || ((c == if c'.SendWrite? then SendRoster(c'.me, c'.room, c'.bodies) else SendCheck(c'.me, c'.room, c'.bodies))
                && StepAt(es, n, h, c, env) && Advance(TablesAt(es, n), c, env).1 == c')
  {
    n, c, env := Came(es, h);
    SameSend(c, Point(StateAfter(es).handlers[h]));
    if es[n] == Fault(h) {
      FaultKeepsSend(c);
    } else {
      SendingSteps(TablesAt(es, n), c, env);
    }
  }

  /**
   * A Send about to store its rows read the room's roster at an event when that was the room's
   * members, in order, with their registered keys, and its bodies were addressed to all the others
   * and at most itself; its id and timestamp were drawn there.
   */
  lemma {:induction false} RosterWasRead(es: seq<Event>, h: nat) returns (j: nat, env: Env)
    requires IsRun(es) && h in StateAfter(es).handlers && Point(StateAfter(es).handlers[h]).SendWrite?
    ensures var c := Point(StateAfter(es).handlers[h]);
            && StepAt(es, j, h, SendRoster(c.me, c.room, c.bodies), env)
            && Outcomes.IsRosterOf(c.members, TablesAt(es, j), c.room)
            && c.me in TablesAt(es, j).keys
            && FanOut.AddressedToAll(c.bodies, c.me, c.members, TablesAt(es, j).keys[c.me])
            && c.id == env.id && c.ts == env.now
  {
    var n, c, e := SendCame(es, h);
    if c.SendRoster? {
      SenderIsRegistered(es[..n], h);
      Outcomes.RosterOutcome(TablesAt(es, n), c.me, c.room, c.bodies, e);
      j, env := n, e;
    } else {
      j, env := RosterWasRead(es[..n], h);
      StepInPrefix(es, n, j, h, SendRoster(c.me, c.room, c.bodies), env);
    }
  }

  lemma {:induction false} SenderIsRegistered(es: seq<Event>, h: nat)
    requires IsRun(es) && h in StateAfter(es).handlers && StateAfter(es).handlers[h].SendRoster?
    ensures StateAfter(es).handlers[h].me in StateAfter(es).w.t.keys
  {
    RunsAreInductive(es);
    assert Invariant.HandlerOk(StateAfter(es).w, StateAfter(es).handlers[h]);
  }

  // ---------------------------------------------------------------------------------------------
  // Rooms and invites

  lemma CreatingSteps(t: Tables, c: Handler, env: Env)
    requires InCreateRoom(c) || InCreateInvite(c)
    ensures var c' := Point(Advance(t, c, env).1);
            && (c'.InviteWrite? ==> c' == c || (c == InviteCheck(c'.me) && c'.me !in t.partner))
            && (c'.RoomWrite? ==>
                  c' == c || (c == RoomCheck(c'.me, c'.invitePartner)
                              && c'.autoPartner == if c'.invitePartner && c'.me in t.partner then Some(t.partner[c'.me]) else None))
            && (c'.RoomInvite? ==> c' == c || (c == RoomWrite(c'.me, true, None) && c'.room == env.room))
  {
  }

  lemma FaultKeepsCreating(c: Handler)
    requires InCreateRoom(c) || InCreateInvite(c)
    ensures Point(AfterFault(c)) == c
  {
  }

  /** A CreateInvite about to issue an invite saw its account without a partner. */
  lemma {:induction false} IssuerWasFree(es: seq<Event>, h: nat) returns (j: nat, env: Env)
    requires IsRun(es) && h in StateAfter(es).handlers && Point(StateAfter(es).handlers[h]).InviteWrite?
    ensures var me := Point(StateAfter(es).handlers[h]).me;
            StepAt(es, j, h, InviteCheck(me), env) && me !in TablesAt(es, j).partner
  {
    var n, c, e := Came(es, h);
    if es[n] == Fault(h) {
      FaultKeepsCreating(c);
    } else {
      CreatingSteps(TablesAt(es, n), c, e);
    }
    if c.InviteWrite? {
      j, env := IssuerWasFree(es[..n], h);
      StepInPrefix(es, n, j, h, InviteCheck(c.me), env);
    } else {
      j, env := n, e;
    }
  }

  /** A CreateRoom seats the partner its account had at the check, if it asked for one and had one. */
  lemma {:induction false} PartnerWasLookedUp(es: seq<Event>, h: nat) returns (j: nat, env: Env)
    requires IsRun(es) && h in StateAfter(es).handlers && Point(StateAfter(es).handlers[h]).RoomWrite?
    ensures var c := Point(StateAfter(es).handlers[h]);
            && StepAt(es, j, h, RoomCheck(c.me, c.invitePartner), env)
            && c.autoPartner == (if c.invitePartner && c.me in TablesAt(es, j).partner then Some(TablesAt(es, j).partner[c.me]) else None)
  {
    var n, c, e := Came(es, h);
    if es[n] == Fault(h) {
      FaultKeepsCreating(c);
    } else {
      CreatingSteps(TablesAt(es, n), c, e);
    }
    if c.RoomWrite? {
      j, env := PartnerWasLookedUp(es[..n], h);
      StepInPrefix(es, n, j, h, RoomCheck(c.me, c.invitePartner), env);
    } else {
      j, env := n, e;
    }
  }

  /** A CreateRoom mints an invite for the room it has just made, and only if it asked for a partner and found none. */
  lemma {:induction false} RoomWasMade(es: seq<Event>, h: nat) returns (j: nat, env: Env)
    requires IsRun(es) && h in StateAfter(es).handlers && Point(StateAfter(es).handlers[h]).RoomInvite?
    ensures var c := Point(StateAfter(es).handlers[h]);
            StepAt(es, j, h, RoomWrite(c.me, true, None), env) && c.room == env.room
  {
    var n, c, e := Came(es, h);
    if es[n] == Fault(h) {
      FaultKeepsCreating(c);
    } else {
      CreatingSteps(TablesAt(es, n), c, e);
    }
    if c.RoomInvite? {
      j, env := RoomWasMade(es[..n], h);
      StepInPrefix(es, n, j, h, RoomWrite(c.me, true, None), env);
    } else {
      j, env := n, e;
    }
  }

  /** The step that issued an invite: by CreateInvite, unbound, or by CreateRoom, bound to its room. */
  predicate Issues(c: Handler, inviter: AccountId, room: Option<RoomId>) {
    (room == None && c == InviteWrite(inviter)) || (room.Some? && c == RoomInvite(inviter, room.value))
  }

  lemma InvitesBefore(t: Tables, c: Handler, env: Env, token: Token)
    requires !Handlers.Done(c) && token in Advance(t, c, env).0.invites
    ensures var invite := Advance(t, c, env).0.invites[token];
            || (token in t.invites && t.invites[token].(consumedAt := invite.consumedAt) == invite)
            || (env.token == token && Issues(c, invite.inviter, invite.room) && invite.expiresAt == env.now + 3600)
  {
    if !c.InviteWrite? && !c.RoomInvite? && !c.LeaveWrite? && !c.ConsumeMark? {
      InvitesStay(t, c, env);
    }
  }

  /**
   * Every invite was issued at some event by its inviter's CreateInvite or CreateRoom, for one hour
   * from then, and bound to the room that CreateRoom made or to none.
   */
  lemma {:induction false} InviteWasIssued(es: seq<Event>, token: Token) returns (j: nat, h: nat, c: Handler, env: Env)
    requires IsRun(es) && token in StateAfter(es).w.t.invites
    ensures var invite := StateAfter(es).w.t.invites[token];
            && StepAt(es, j, h, c, env) && env.token == token
            && Issues(c, invite.inviter, invite.room) && invite.expiresAt == env.now + 3600
  {
    assert es != [];
    var n := |es| - 1;
    var s, e := StateAfter(es[..n]), es[n];
    assert IsRun(es[..n]) && Enabled(s, e) && StateAfter(es) == Next(s, e);
    if IssuedBy(s, e, token) {
      j, h, c, env := n, e.h, s.handlers[e.h], e.env;
    } else {
      InviteWasThere(s, e, token);
      j, h, c, env := InviteWasIssued(es[..n], token);
      StepInPrefix(es, n, j, h, c, env);
    }
  }

  /** The event issues this invite. */
  ghost predicate IssuedBy(s: System, e: Event, token: Token)
    requires Enabled(s, e) && token in Next(s, e).w.t.invites
  {
    var invite := Next(s, e).w.t.invites[token];
    e.Run? && e.env.token == token && Issues(s.handlers[e.h], invite.inviter, invite.room) && invite.expiresAt == e.env.now + 3600
  }

  lemma InviteWasThere(s: System, e: Event, token: Token)
    requires Enabled(s, e) && token in Next(s, e).w.t.invites && !IssuedBy(s, e, token)
    ensures token in s.w.t.invites
    ensures var was, invite := s.w.t.invites[token], Next(s, e).w.t.invites[token];
            was.inviter == invite.inviter && was.expiresAt == invite.expiresAt && was.room == invite.room
  {
    if e.Run? {
      InvitesBefore(s.w.t, s.handlers[e.h], e.env, token);
    }
  }
}
