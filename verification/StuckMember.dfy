/** A member who cannot leave: the condition of `Server.LastMemberIsStuck` is met in a run. */
module StuckMember {
  import opened Common
  import opened Store
  import opened Tables
  import opened Handlers
  import opened Server
  import opened Scenarios
  import FanOut

  lemma LeaveSteps(t: Tables, a: AccountId, room: RoomId, env: Env)
    requires t.rooms == map[room := [a]] && HasMessages(t, room)
    ensures Advance(t, LeaveCheck(a, room), env) == (t, LeaveWrite(a, room))
    ensures Advance(t, LeaveWrite(a, room), env) == (t, Failed(LeaveWrite(a, room), Internal))
  {
    LeaveRoomFailsIff(t, room, a);
  }

  /** The account sends itself one message. */
  lemma {:induction false} SendOne(a: AccountId, key: string, room: RoomId, body: string)
    returns (es: seq<Event>, s: System)
    requires |body| <= FanOut.MAX_BODY_BYTES
    ensures Reaches(es, s) && FaultFree(es) && Unused(s, 2, room, 1)
    ensures At(s, map[a := key], room, [a], [Row(Message(0, room, a, a, body, 0), None)])
  {
    var x := Message(0, room, a, a, body, 0);
    es, s := SoloRoom(a, key, room, 0);
    OwnSend(s.w.t, a, key, body);
    es, s := Prepare(es, s, 1, a, map[a := key], room, [a], [], map[key := body], NextEnv(room, 0));
    OwnCopies(s.w.t, s.handlers[1], a, key, room, body, 0, 0);
    es, s := CommitSend(es, s, 1, room, [a], x, NextEnv(room, 1));
    assert [] + [Row(x, None)] == [Row(x, None)];
  }

  /**
   * An account that created a room without its partner and stored one message there. Its LeaveRoom
   * ends with an internal error, and it is still a member.
   */
  lemma {:induction false} LoneMemberCannotLeave(a: AccountId, key: string, room: RoomId, body: string)
    returns (es: seq<Event>)
    requires |body| <= FanOut.MAX_BODY_BYTES
    ensures IsRun(es) && FaultFree(es)
    ensures 2 in StateAfter(es).handlers && StateAfter(es).handlers[2] == Failed(LeaveWrite(a, room), Internal)
    ensures IsMember(StateAfter(es).w.t, room, a) && HasMessages(StateAfter(es).w.t, room)
  {
    var s: System;
    es, s := SendOne(a, key, room, body);
    assert s.w.t.messages[0].msg.room == room;
    LeaveSteps(s.w.t, a, room, NextEnv(room, 1));
    es, s := Begin(es, s, 2, LeaveCheck(a, room));
    es, s := Look(es, s, 2, NextEnv(room, 1), LeaveWrite(a, room));
    es, s := Look(es, s, 2, NextEnv(room, 1), Failed(LeaveWrite(a, room), Internal));
  }
}
