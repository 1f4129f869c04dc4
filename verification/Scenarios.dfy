/**
 * Building runs of the server event by event, for the runs that end badly: `StuckMember`,
 * `LostMessages` and `UnreadGap`.
 */
module Scenarios {
  import opened Common
  import opened Store
  import opened Tables
  import opened Handlers
  import opened Invariant
  import opened Server
  import opened OrderedRuns
  import FanOut

  /** The run leads to this state. */
  ghost predicate Reaches(es: seq<Event>, s: System) {
    IsRun(es) && StateAfter(es) == s
  }

  ghost predicate FaultFree(es: seq<Event>) {
    forall i :: 0 <= i < |es| ==> !es[i].Fault?
  }

  /** The run goes on without failures. */
  ghost predicate Onward(es: seq<Event>, es': seq<Event>) {
    es <= es' && forall i :: |es| <= i < |es'| ==> !es'[i].Fault?
  }

  lemma {:induction false} Extend(es: seq<Event>, s: System, e: Event) returns (es': seq<Event>)
    requires Reaches(es, s) && Enabled(s, e)
    ensures es' == es + [e] && Reaches(es', Next(s, e))
  {
    es' := es + [e];
    assert es'[..|es|] == es;
  }

  lemma {:induction false} SignUp(es: seq<Event>, s: System, a: AccountId, key: string)
    returns (es': seq<Event>, s': System)
    requires Reaches(es, s) && a !in s.w.t.keys
    ensures Onward(es, es') && Reaches(es', s')
    ensures s'.w == s.w.(t := s.w.t.(keys := s.w.t.keys[a := key])) && s'.handlers == s.handlers
  {
    es' := Extend(es, s, Register(a, key));
    s' := Next(s, Register(a, key));
  }

  /** A handler is started. */
  lemma {:induction false} Begin(es: seq<Event>, s: System, h: nat, c: Handler)
    returns (es': seq<Event>, s': System)
    requires Reaches(es, s) && h !in s.handlers && Initial(c) && c.me in s.w.t.keys
    ensures Onward(es, es') && Reaches(es', s')
    ensures s'.w == s.w && s'.handlers == s.handlers[h := c]
  {
    es' := Extend(es, s, Spawn(h, c));
    s' := Next(s, Spawn(h, c));
  }

  /** A step of handler `h`. */
  lemma {:induction false} Go(es: seq<Event>, s: System, h: nat, env: Env) returns (es': seq<Event>, s': System)
    requires Reaches(es, s) && Active(s, h) && Fresh(s.w, env)
    ensures es' == es + [Run(h, env)] && Onward(es, es') && Reaches(es', s')
    ensures s'.w == Step(s.w, s.handlers[h], env).0 && s'.handlers == s.handlers[h := Step(s.w, s.handlers[h], env).1]
  {
    es' := Extend(es, s, Run(h, env));
    s' := Next(s, Run(h, env));
  }

  /** A step that changes no table and draws no id. */
  lemma {:induction false} Look(es: seq<Event>, s: System, h: nat, env: Env, c: Handler)
    returns (es': seq<Event>, s': System)
    requires Reaches(es, s) && Active(s, h) && Fresh(s.w, env) && !s.handlers[h].SendRoster?
    requires Advance(s.w.t, s.handlers[h], env) == (s.w.t, c)
    ensures Onward(es, es') && Reaches(es', s')
    ensures s'.w == s.w && s'.handlers == s.handlers[h := c]
  {
    es', s' := Go(es, s, h, env);
  }

  /** A step that changes tables but draws no id and creates no room and no invite. */
  lemma {:induction false} Write(es: seq<Event>, s: System, h: nat, env: Env, t: Tables, c: Handler)
    returns (es': seq<Event>, s': System)
    requires Reaches(es, s) && Active(s, h) && Fresh(s.w, env) && !s.handlers[h].SendRoster?
    requires Advance(s.w.t, s.handlers[h], env) == (t, c)
    requires (env.room in t.rooms ==> env.room in s.w.t.rooms) && (env.token in t.invites ==> env.token in s.w.t.invites)
    ensures Onward(es, es') && Reaches(es', s')
    ensures s'.w == s.w.(t := t) && s'.handlers == s.handlers[h := c]
  {
    es', s' := Go(es, s, h, env);
  }

  /** A database call of handler `h` fails. */
  lemma {:induction false} Fail(es: seq<Event>, s: System, h: nat) returns (es': seq<Event>, s': System)
    requires Reaches(es, s) && Active(s, h)
    ensures es' == es + [Fault(h)] && Reaches(es', s')
    ensures s'.w == s.w && s'.handlers == s.handlers[h := AfterFault(s.handlers[h])]
  {
    es' := Extend(es, s, Fault(h));
    s' := Next(s, Fault(h));
  }

  lemma {:induction false} AtOf(es: seq<Event>, s: System, all: seq<Event>)
    requires Reaches(es, s) && IsRun(all) && es <= all
    ensures StateAt(all, |es|) == s && all[..|es|] == es
  {
    assert all[..|es|] == es;
  }

  lemma {:induction false} SamePrefix(es: seq<Event>, all: seq<Event>, k: nat)
    requires IsRun(es) && IsRun(all) && es <= all && k <= |es|
    ensures StateAt(all, k) == StateAt(es, k)
  {
    assert all[..k] == es[..k];
  }

  // ---------------------------------------------------------------------------------------------
  // A room and its messages

  /** The accounts, the only room with its members, and the stored messages. */
  ghost predicate At(s: System, keys: map<AccountId, string>, room: RoomId, members: seq<AccountId>, m: seq<Row>) {
    s.w.t.keys == keys && s.w.t.rooms == map[room := members] && s.w.t.messages == m && room in s.w.host
  }

  /** An account without a partner asks for a room, for itself or to invite someone to it. */
  lemma {:induction false} AskForRoom(es: seq<Event>, s: System, h: nat, a: AccountId, invite: bool, env: Env)
    returns (es': seq<Event>, s': System)
    requires Reaches(es, s) && a in s.w.t.keys && a !in s.w.t.partner && h !in s.handlers && Fresh(s.w, env)
    ensures Onward(es, es') && Reaches(es', s') && s'.w == s.w && s'.handlers == s.handlers[h := RoomWrite(a, invite, None)]
  {
    es', s' := Begin(es, s, h, RoomCheck(a, invite));
    es', s' := Look(es', s', h, env, RoomWrite(a, invite, None));
  }

  /** The first room is created. */
  lemma {:induction false} CreateRoom(es: seq<Event>, s: System, h: nat, a: AccountId, invite: bool, env: Env)
    returns (es': seq<Event>, s': System)
    requires Reaches(es, s) && a in s.w.t.keys && a !in s.w.t.partner && h !in s.handlers && Fresh(s.w, env)
    requires s.w.t.rooms == map[] && s.w.t.invites == map[]
    ensures Onward(es, es') && Reaches(es', s')
    ensures s'.w == s.w.(t := s.w.t.(rooms := map[env.room := [a]]), host := s.w.host[env.room := a])
    ensures s'.handlers == s.handlers[h := if invite then RoomInvite(a, env.room) else Finished]
  {
    var es1, s1 := AskForRoom(es, s, h, a, invite, env);
    RoomWriteStep(s1.w, a, invite, env);
    es', s' := Go(es1, s1, h, env);
  }

  lemma RoomWriteStep(w: World, a: AccountId, invite: bool, env: Env)
    requires a in w.t.keys && w.t.rooms == map[] && w.t.invites == map[] && Fresh(w, env)
    ensures Step(w, RoomWrite(a, invite, None), env)
         == (w.(t := w.t.(rooms := map[env.room := [a]]), host := w.host[env.room := a]),
             if invite then RoomInvite(a, env.room) else Finished)
  {
  }

  /** Handlers from `n` on, rooms above `room`, message ids from `id` on and tokens from 0 on are unused. */
  ghost predicate Unused(s: System, n: nat, room: RoomId, id: MessageId) {
    && (forall h :: h in s.handlers ==> h < n)
    && (forall r :: r in s.w.host ==> r <= room)
    && (forall i :: i in s.w.drawn ==> i < id)
    && (forall k :: k in s.w.issued ==> k < 0)
  }

  function NextEnv(room: RoomId, id: MessageId): Env {
    Env(0, true, room + 1, 0, id)
  }

  lemma StillUnused(s: System, s': System, h: nat, room: RoomId, id: MessageId)
    requires Unused(s, h, room, id) && h in s'.handlers && s'.handlers == s.handlers[h := s'.handlers[h]]
    requires s'.w == s.w.(t := s'.w.t, drawn := s.w.drawn + {id})
    ensures Unused(s', h + 1, room, id + 1)
  {
  }

  lemma {:induction false} SoloRoom(a: AccountId, key: string, room: RoomId, id: MessageId)
    returns (es: seq<Event>, s: System)
    ensures Reaches(es, s) && FaultFree(es) && At(s, map[a := key], room, [a], []) && Unused(s, 1, room, id)
  {
    es, s := [], INIT;
    assert Reaches(es, s);
    es, s := SignUp(es, s, a, key);
    es, s := CreateRoom(es, s, 0, a, false, Env(0, true, room, 0, id));
  }

  // ---------------------------------------------------------------------------------------------
  // Sends

  /** A Send's first check passes. */
  lemma {:induction false} CheckSend(
      es: seq<Event>, s: System, h: nat, a: AccountId, room: RoomId, bodies: map<string, string>, env: Env)
    returns (es': seq<Event>, s': System)
    requires Reaches(es, s) && h !in s.handlers && Fresh(s.w, env) && a in s.w.t.keys
    requires IsMember(s.w.t, room, a) && FanOut.WithinLimits(bodies)
    ensures Onward(es, es') && Reaches(es', s') && s'.w == s.w && s'.handlers == s.handlers[h := SendRoster(a, room, bodies)]
  {
    es', s' := Begin(es, s, h, SendCheck(a, room, bodies));
    es', s' := Look(es', s', h, env, SendRoster(a, room, bodies));
  }

  /** The checks of a Send pass, and its id and timestamp are drawn. */
  lemma {:induction false} Prepare(
      es: seq<Event>, s: System, h: nat, a: AccountId, keys: map<AccountId, string>, room: RoomId, accounts: seq<AccountId>,
      m: seq<Row>, bodies: map<string, string>, env: Env)
    returns (es': seq<Event>, s': System)
    requires Reaches(es, s) && At(s, keys, room, accounts, m) && h !in s.handlers && Fresh(s.w, env)
    requires a in keys && a in accounts && FanOut.WithinLimits(bodies)
    requires bodies.Keys == FanOut.RequiredKeys(a, keys[a], Roster(s.w.t, accounts), bodies)
    ensures Onward(es, es') && Reaches(es', s') && At(s', keys, room, accounts, m)
    ensures s'.handlers == s.handlers[h := SendWrite(a, room, bodies, Roster(s.w.t, accounts), env.id, env.now)]
    ensures s'.w == s.w.(drawn := s.w.drawn + {env.id})
  {
    var es1, s1 := CheckSend(es, s, h, a, room, bodies, env);
    RosterStep(s1.w, a, keys, room, accounts, bodies, env);
    es', s' := Go(es1, s1, h, env);
  }

  lemma RosterStep(
      w: World, a: AccountId, keys: map<AccountId, string>, room: RoomId, accounts: seq<AccountId>,
      bodies: map<string, string>, env: Env)
    requires w.t.keys == keys && w.t.rooms == map[room := accounts] && a in keys
    requires bodies.Keys == FanOut.RequiredKeys(a, keys[a], Roster(w.t, accounts), bodies)
    ensures Step(w, SendRoster(a, room, bodies), env)
         == (w.(drawn := w.drawn + {env.id}), SendWrite(a, room, bodies, Roster(w.t, accounts), env.id, env.now))
  {
  }

  /** The rows of a prepared Send are stored, whatever was stored since they were drawn. */
  lemma {:induction false} CommitSend(es: seq<Event>, s: System, h: nat, room: RoomId, accounts: seq<AccountId>, x: Message, env: Env)
    returns (es': seq<Event>, s': System)
    requires Reaches(es, s) && h in s.handlers && s.handlers[h].SendWrite? && Fresh(s.w, env)
    requires At(s, s.w.t.keys, room, accounts, s.w.t.messages) && FreshId(s.w.t.messages, x.id)
    requires SentCopies(s.w.t, s.handlers[h]) == [x] && x.room == room && x.from in s.w.t.keys && x.recipient in s.w.t.keys
    ensures es' == es + [Run(h, env)] && Onward(es, es') && Reaches(es', s')
    ensures s'.handlers == s.handlers[h := Finished]
    ensures s'.w == s.w.(t := s.w.t.(messages := s.w.t.messages + [Row(x, None)]))
    ensures Advance(s.w.t, s.handlers[h], env).1.Finished?
  {
    InsertOne(s.w.t.messages, x);
    es', s' := Go(es, s, h, env);
  }

  lemma InsertOne(m: seq<Row>, msg: Message)
    requires FreshId(m, msg.id)
    ensures InsertMany(m, [msg]) == m + [Row(msg, None)]
  {
    assert [msg][..0] == [];
  }

  /** A Send of an account alone in its room, with only a self-copy. */
  lemma OwnSend(t: Tables, a: AccountId, key: string, body: string)
    requires t.keys == map[a := key] && |body| <= FanOut.MAX_BODY_BYTES
    ensures var bodies := map[key := body];
            FanOut.WithinLimits(bodies) && bodies.Keys == FanOut.RequiredKeys(a, key, Roster(t, [a]), bodies)
    ensures Roster(t, [a]) == [FanOut.Member(a, key)]
  {
    var bodies := map[key := body];
    assert |bodies| == 1 by { assert bodies.Keys == {key}; }
    assert Roster(t, [a]) == [FanOut.Member(a, key)];
    assert FanOut.OtherKeys(a, Roster(t, [a])) == {};
  }

  lemma OwnCopies(t: Tables, c: Handler, a: AccountId, key: string, room: RoomId, body: string, id: MessageId, ts: Time)
    requires t.keys == map[a := key] && c == SendWrite(a, room, map[key := body], Roster(t, [a]), id, ts)
    ensures SentCopies(t, c) == [Message(id, room, a, a, body, ts)]
  {
    assert c.members == [FanOut.Member(a, key)];
    assert c.members[..0] == [];
    assert FanOut.CopiesForOthers(a, c.members, c.bodies, id, room, ts) == [];
  }
}
