/**
 * `handle_send`: the checks on the addressed bodies, the rows built for one logical message, and
 * the live frames queued for it.
 */
module FanOut {
  import opened Common
  import opened Store

  /** A roster entry as `members_for_room` returns it; `key` is the base64 of the X25519 key. */
  datatype Member = Member(account: AccountId, key: string)

  datatype SendError = BodyTooLarge | FanOutMismatch

  const MAX_SEND_RECIPIENTS := 16
  const MAX_BODY_BYTES := 98_304

  /** `room_members` has primary key (room_id, account_id). */
  ghost predicate DistinctMembers(members: seq<Member>) {
    forall i, j :: 0 <= i < j < |members| ==> members[i].account != members[j].account
  }

  ghost predicate WithinLimits(bodies: map<string, string>) {
    |bodies| <= MAX_SEND_RECIPIENTS && forall k :: k in bodies ==> |bodies[k]| <= MAX_BODY_BYTES
  }

  function OtherKeys(me: AccountId, members: seq<Member>): set<string> {
    set m | m in members && m.account != me :: m.key
  }

  function RequiredKeys(me: AccountId, selfKey: string, members: seq<Member>, bodies: map<string, string>): set<string> {
    OtherKeys(me, members) + (if selfKey in bodies then {selfKey} else {})
  }

  /** The bodies are addressed to the keys of all other members, and at most the sender's own besides. */
  ghost predicate AddressedToAll(
      bodies: map<string, string>, me: AccountId, members: seq<Member>, selfKey: string)
  {
    && (forall i :: 0 <= i < |members| && members[i].account != me ==> members[i].key in bodies)
    && (forall k :: k in bodies ==>
          k == selfKey || exists i :: 0 <= i < |members| && members[i].account != me && members[i].key == k)
  }

  lemma KeysAreRequired(
      bodies: map<string, string>, me: AccountId, members: seq<Member>, selfKey: string)
    ensures bodies.Keys == RequiredKeys(me, selfKey, members, bodies) <==> AddressedToAll(bodies, me, members, selfKey)
  {
    var required := RequiredKeys(me, selfKey, members, bodies);
    forall i | 0 <= i < |members| && members[i].account != me ensures members[i].key in OtherKeys(me, members) {
      assert members[i] in members;
    }
    if bodies.Keys == required {
      forall k | k in bodies && k != selfKey
        ensures exists i :: 0 <= i < |members| && members[i].account != me && members[i].key == k
      {
        assert k in OtherKeys(me, members);
        var m :| m in members && m.account != me && m.key == k;
        var i :| 0 <= i < |members| && members[i] == m;
      }
    }
    if AddressedToAll(bodies, me, members, selfKey) {
      forall k | k in required ensures k in bodies {
        if k in OtherKeys(me, members) {
          var m :| m in members && m.account != me && m.key == k;
          var i :| 0 <= i < |members| && members[i] == m;
        }
      }
      forall k | k in bodies ensures k in required {
      }
    }
  }

  /** The copies for the other members, in roster order. */
  function CopiesForOthers(
      me: AccountId, members: seq<Member>, bodies: map<string, string>, id: MessageId, room: RoomId, ts: Time)
    : seq<Message>
  {
    if members == [] then []
    else
      var last := members[|members| - 1];
      CopiesForOthers(me, members[..|members| - 1], bodies, id, room, ts)
      + (if last.account == me || last.key !in bodies then []
         else [Message(id, room, me, last.account, bodies[last.key], ts)])
  }

  function Copies(
      me: AccountId, selfKey: string, members: seq<Member>, bodies: map<string, string>,
      id: MessageId, room: RoomId, ts: Time): seq<Message>
  {
    CopiesForOthers(me, members, bodies, id, room, ts)
    + (if selfKey in bodies then [Message(id, room, me, me, bodies[selfKey], ts)] else [])
  }

  /** The two size checks; they come before the roster is read. */
  method CheckSizes(bodies: map<string, string>) returns (ok: bool)
    ensures ok <==> |bodies| <= 16 && forall k :: k in bodies ==> |bodies[k]| <= 98_304
  {
    if |bodies| > MAX_SEND_RECIPIENTS {
      return false;
    }
    var keys := bodies.Keys;
    while keys != {}
      invariant keys <= bodies.Keys
      invariant forall k :: k in bodies && k !in keys ==> |bodies[k]| <= MAX_BODY_BYTES
    {
      var k :| k in keys;
      if |bodies[k]| > MAX_BODY_BYTES {
        return false;
      }
      keys := keys - {k};
    }
    return true;
  }

  /**
   * The key-set check and the row-building loop. When it passes, no member is skipped: the
   * `else continue` arm of the source is the branch marked unreachable here.
   */
  method BuildRows(
      me: AccountId, selfKey: string, members: seq<Member>, bodies: map<string, string>,
      id: MessageId, room: RoomId, ts: Time)
    returns (result: Result<seq<Message>, SendError>)
    ensures result.Ok? <==> AddressedToAll(bodies, me, members, selfKey)
    ensures result.Err? ==> result.error == FanOutMismatch
    ensures result.Ok? ==> result.value == Copies(me, selfKey, members, bodies, id, room, ts)
  {
    KeysAreRequired(bodies, me, members, selfKey);
    var expected: set<string> := {};
    for i := 0 to |members|
      invariant expected == OtherKeys(me, members[..i])
    {
      assert members[..i + 1] == members[..i] + [members[i]];
      if members[i].account != me {
        expected := expected + {members[i].key};
      }
    }
    assert members[..|members|] == members;
    var hasSelfCopy := selfKey in bodies;
    var required := if hasSelfCopy then expected + {selfKey} else expected;
    if required != bodies.Keys {
      return Err(FanOutMismatch);
    }
    var rows: seq<Message> := [];
    for i := 0 to |members|
      invariant rows == CopiesForOthers(me, members[..i], bodies, id, room, ts)
    {
      assert members[..i + 1][..i] == members[..i];
      var m := members[i];
      if m.account == me {
        continue;
      }
      assert m in members;
      if m.key !in bodies {
        assert false;
      }
      rows := rows + [Message(id, room, me, m.account, bodies[m.key], ts)];
    }
    if hasSelfCopy {
      rows := rows + [Message(id, room, me, me, bodies[selfKey], ts)];
    }
    return Ok(rows);
  }

  lemma {:induction false} CopiesForOthersFacts(
      me: AccountId, members: seq<Member>, bodies: map<string, string>, id: MessageId, room: RoomId, ts: Time)
    requires DistinctMembers(members)
    ensures var rows := CopiesForOthers(me, members, bodies, id, room, ts);
            && (forall x :: x in rows <==>
                  exists m :: m in members && m.account != me && m.key in bodies
                    && x == Message(id, room, me, m.account, bodies[m.key], ts))
            && OneSend(rows, id, room, me, ts)
  {
    if members == [] {
    } else {
      var front, last := members[..|members| - 1], members[|members| - 1];
      CopiesForOthersFacts(me, front, bodies, id, room, ts);
      assert members == front + [last];
      var rows, rows' := CopiesForOthers(me, members, bodies, id, room, ts), CopiesForOthers(me, front, bodies, id, room, ts);
      forall i | 0 <= i < |rows'| ensures rows'[i].recipient != last.account {
        assert rows'[i] in rows';
        var m :| m in front && m.account != me && m.key in bodies
                 && rows'[i] == Message(id, room, me, m.account, bodies[m.key], ts);
        var j :| 0 <= j < |front| && front[j] == m;
        assert members[j] == m;
      }
    }
  }

  /**
   * When the check passes, the rows are exactly one copy per other member in the roster, carrying
   * the body addressed to that member's key, plus the self-copy if one was sent.
   */
  lemma FanOutExact(
      me: AccountId, selfKey: string, members: seq<Member>, bodies: map<string, string>,
      id: MessageId, room: RoomId, ts: Time)
    requires DistinctMembers(members)
    requires bodies.Keys == RequiredKeys(me, selfKey, members, bodies)
    ensures var rows := Copies(me, selfKey, members, bodies, id, room, ts);
            && OneSend(rows, id, room, me, ts)
            && (forall m :: m in members && m.account != me ==>
                  m.key in bodies && Message(id, room, me, m.account, bodies[m.key], ts) in rows)
            && (selfKey in bodies <==> exists x :: x in rows && x.recipient == me)
            && (forall x :: x in rows ==>
                  || (x.recipient == me && selfKey in bodies && x.body == bodies[selfKey])
                  || (exists m :: m in members && m.account != me && x.recipient == m.account && m.key in bodies && x.body == bodies[m.key]))
  {
    CopiesForOthersFacts(me, members, bodies, id, room, ts);
    var others, rows := CopiesForOthers(me, members, bodies, id, room, ts), Copies(me, selfKey, members, bodies, id, room, ts);
    forall x | x in others ensures x.recipient != me && x in rows {
    }
    forall i | 0 <= i < |others| ensures others[i].recipient != me {
      assert others[i] in others;
    }
    forall m | m in members && m.account != me
      ensures m.key in bodies && Message(id, room, me, m.account, bodies[m.key], ts) in rows
    {
      assert m.key in OtherKeys(me, members);
      assert Message(id, room, me, m.account, bodies[m.key], ts) in others;
    }
    if selfKey in bodies {
      assert rows[|rows| - 1].recipient == me;
    }
  }

  /** Distinct keys, none of them the sender's, among the other members. */
  ghost predicate DistinctKeys(me: AccountId, selfKey: string, members: seq<Member>) {
    && (forall i, j :: 0 <= i < j < |members| && members[i].account != me && members[j].account != me ==>
          members[i].key != members[j].key)
    && (forall i :: 0 <= i < |members| && members[i].account != me ==> members[i].key != selfKey)
  }

  lemma {:induction false} CopiesForOthersCount(
      me: AccountId, selfKey: string, members: seq<Member>, bodies: map<string, string>,
      id: MessageId, room: RoomId, ts: Time)
    requires DistinctKeys(me, selfKey, members)
    requires OtherKeys(me, members) <= bodies.Keys
    ensures |CopiesForOthers(me, members, bodies, id, room, ts)| == |OtherKeys(me, members)|
  {
    if members == [] {
    } else {
      var front, last := members[..|members| - 1], members[|members| - 1];
      assert members == front + [last];
      assert OtherKeys(me, front) <= OtherKeys(me, members);
      CopiesForOthersCount(me, selfKey, front, bodies, id, room, ts);
      if last.account == me {
        assert OtherKeys(me, members) == OtherKeys(me, front);
      } else {
        assert last.key in OtherKeys(me, members);
        assert OtherKeys(me, members) == OtherKeys(me, front) + {last.key};
        assert last.key !in OtherKeys(me, front);
      }
    }
  }

  lemma AsManyRows(
      me: AccountId, selfKey: string, members: seq<Member>, bodies: map<string, string>,
      id: MessageId, room: RoomId, ts: Time)
    requires DistinctKeys(me, selfKey, members)
    requires bodies.Keys == RequiredKeys(me, selfKey, members, bodies)
    ensures |Copies(me, selfKey, members, bodies, id, room, ts)| == |bodies|
  {
    CopiesForOthersCount(me, selfKey, members, bodies, id, room, ts);
    var others := OtherKeys(me, members);
    assert selfKey !in others;
    assert |bodies| == |bodies.Keys|;
  }

  /** The key is the sender's own, or that of another member. */
  ghost predicate OwnsKey(me: AccountId, selfKey: string, members: seq<Member>, a: AccountId, k: string) {
    if a == me then k == selfKey else exists i :: 0 <= i < |members| && members[i] == Member(a, k)
  }

  /** No key has two owners and no account two keys. */
  lemma OwnersAreUnique(me: AccountId, selfKey: string, members: seq<Member>, a: AccountId, k: string, a': AccountId, k': string)
    requires DistinctKeys(me, selfKey, members) && DistinctMembers(members)
    requires OwnsKey(me, selfKey, members, a, k) && OwnsKey(me, selfKey, members, a', k')
    ensures a == a' <==> k == k'
  {
  }

  /** The row is the copy made of the body addressed to `k`. */
  ghost predicate Carries(
      me: AccountId, selfKey: string, members: seq<Member>, bodies: map<string, string>, x: Message, k: string)
  {
    k in bodies && OwnsKey(me, selfKey, members, x.recipient, k) && x.body == bodies[k]
  }

  lemma RowForKey(
      me: AccountId, selfKey: string, members: seq<Member>, bodies: map<string, string>,
      id: MessageId, room: RoomId, ts: Time, k: string)
    returns (x: Message)
    requires DistinctMembers(members)
    requires bodies.Keys == RequiredKeys(me, selfKey, members, bodies) && k in bodies
    ensures x in Copies(me, selfKey, members, bodies, id, room, ts) && Carries(me, selfKey, members, bodies, x, k)
  {
    FanOutExact(me, selfKey, members, bodies, id, room, ts);
    var rows := Copies(me, selfKey, members, bodies, id, room, ts);
    if k in OtherKeys(me, members) {
      var m :| m in members && m.account != me && m.key == k;
      x := Message(id, room, me, m.account, bodies[k], ts);
    } else {
      x := Message(id, room, me, me, bodies[selfKey], ts);
      assert rows[|rows| - 1] == x;
    }
  }

  lemma KeyOfRow(
      me: AccountId, selfKey: string, members: seq<Member>, bodies: map<string, string>,
      id: MessageId, room: RoomId, ts: Time, x: Message)
    returns (k: string)
    requires DistinctMembers(members)
    requires bodies.Keys == RequiredKeys(me, selfKey, members, bodies)
    requires x in Copies(me, selfKey, members, bodies, id, room, ts)
    ensures Carries(me, selfKey, members, bodies, x, k)
  {
    FanOutExact(me, selfKey, members, bodies, id, room, ts);
    if x.recipient == me && selfKey in bodies && x.body == bodies[selfKey] {
      k := selfKey;
    } else {
      var m :| m in members && m.account != me && x.recipient == m.account && m.key in bodies && x.body == bodies[m.key];
      k := m.key;
    }
  }

  lemma RowsAndKeysAgree(
      me: AccountId, selfKey: string, members: seq<Member>, bodies: map<string, string>, rows: seq<Message>,
      id: MessageId, room: RoomId, ts: Time, x: Message, y: Message, k: string, l: string)
    requires DistinctKeys(me, selfKey, members) && DistinctMembers(members)
    requires OneSend(rows, id, room, me, ts) && x in rows && y in rows
    requires Carries(me, selfKey, members, bodies, x, k) && Carries(me, selfKey, members, bodies, y, l)
    ensures x == y <==> k == l
  {
    OwnersAreUnique(me, selfKey, members, x.recipient, k, y.recipient, l);
  }

  ghost predicate EveryBodyIsStored(
      me: AccountId, selfKey: string, members: seq<Member>, bodies: map<string, string>, rows: seq<Message>)
  {
    forall k :: k in bodies ==> exists x :: x in rows && Carries(me, selfKey, members, bodies, x, k)
  }

  ghost predicate EveryRowStoresABody(
      me: AccountId, selfKey: string, members: seq<Member>, bodies: map<string, string>, rows: seq<Message>)
  {
    forall x :: x in rows ==> exists k :: Carries(me, selfKey, members, bodies, x, k)
  }

  ghost predicate OneToOne(
      me: AccountId, selfKey: string, members: seq<Member>, bodies: map<string, string>, rows: seq<Message>)
  {
    forall x, y, k, l :: x in rows && y in rows
      && Carries(me, selfKey, members, bodies, x, k) && Carries(me, selfKey, members, bodies, y, l)
      ==> (x == y <==> k == l)
  }

  lemma BodiesAreStored(
      me: AccountId, selfKey: string, members: seq<Member>, bodies: map<string, string>,
      id: MessageId, room: RoomId, ts: Time)
    requires DistinctMembers(members) && bodies.Keys == RequiredKeys(me, selfKey, members, bodies)
    ensures EveryBodyIsStored(me, selfKey, members, bodies, Copies(me, selfKey, members, bodies, id, room, ts))
  {
    forall k | k in bodies
      ensures exists x :: x in Copies(me, selfKey, members, bodies, id, room, ts) && Carries(me, selfKey, members, bodies, x, k)
    {
      var x := RowForKey(me, selfKey, members, bodies, id, room, ts, k);
    }
  }

  lemma RowsStoreBodies(
      me: AccountId, selfKey: string, members: seq<Member>, bodies: map<string, string>,
      id: MessageId, room: RoomId, ts: Time)
    requires DistinctMembers(members) && bodies.Keys == RequiredKeys(me, selfKey, members, bodies)
    ensures EveryRowStoresABody(me, selfKey, members, bodies, Copies(me, selfKey, members, bodies, id, room, ts))
  {
    forall x | x in Copies(me, selfKey, members, bodies, id, room, ts)
      ensures exists k :: Carries(me, selfKey, members, bodies, x, k)
    {
      var k := KeyOfRow(me, selfKey, members, bodies, id, room, ts, x);
    }
  }

  lemma RowsAreOneToOne(
      me: AccountId, selfKey: string, members: seq<Member>, bodies: map<string, string>, rows: seq<Message>,
      id: MessageId, room: RoomId, ts: Time)
    requires DistinctKeys(me, selfKey, members) && DistinctMembers(members) && OneSend(rows, id, room, me, ts)
    ensures OneToOne(me, selfKey, members, bodies, rows)
  {
    forall x, y, k, l | x in rows && y in rows
      && Carries(me, selfKey, members, bodies, x, k) && Carries(me, selfKey, members, bodies, y, l)
      ensures x == y <==> k == l
    {
      RowsAndKeysAgree(me, selfKey, members, bodies, rows, id, room, ts, x, y, k, l);
    }
  }

  /**
   * With distinct member keys the rows and the bodies correspond one to one: every body is stored in
   * exactly one row, that of the owner of its key, and every row stores exactly one of the bodies.
   */
  lemma RowsMatchBodies(
      me: AccountId, selfKey: string, members: seq<Member>, bodies: map<string, string>,
      id: MessageId, room: RoomId, ts: Time)
    requires DistinctKeys(me, selfKey, members) && DistinctMembers(members)
    requires bodies.Keys == RequiredKeys(me, selfKey, members, bodies)
    ensures var rows := Copies(me, selfKey, members, bodies, id, room, ts);
            && |rows| == |bodies| && OneSend(rows, id, room, me, ts)
            && EveryBodyIsStored(me, selfKey, members, bodies, rows)
            && EveryRowStoresABody(me, selfKey, members, bodies, rows)
            && OneToOne(me, selfKey, members, bodies, rows)
  {
    AsManyRows(me, selfKey, members, bodies, id, room, ts);
    RowsAreOneSend(me, selfKey, members, bodies, id, room, ts);
    BodiesAreStored(me, selfKey, members, bodies, id, room, ts);
    RowsStoreBodies(me, selfKey, members, bodies, id, room, ts);
    RowsAreOneToOne(me, selfKey, members, bodies, Copies(me, selfKey, members, bodies, id, room, ts), id, room, ts);
  }

  lemma RowsAreOneSend(
      me: AccountId, selfKey: string, members: seq<Member>, bodies: map<string, string>,
      id: MessageId, room: RoomId, ts: Time)
    requires DistinctMembers(members) && bodies.Keys == RequiredKeys(me, selfKey, members, bodies)
    ensures OneSend(Copies(me, selfKey, members, bodies, id, room, ts), id, room, me, ts)
  {
    FanOutExact(me, selfKey, members, bodies, id, room, ts);
  }

  // ---------------------------------------------------------------------------------------------
  // Live delivery

  /** A live `Message` frame and the account whose sessions it is queued for. */
  datatype LiveFrame = LiveFrame(to: AccountId, id: MessageId, room: RoomId, from: AccountId, ts: Time, body: string)

  function AsFrame(x: Message): LiveFrame {
    LiveFrame(x.recipient, x.id, x.room, x.from, x.ts, x.body)
  }

  /** The delivery loops that follow the insert: one frame per other member, then the self echo. */
  method LiveFrames(
      me: AccountId, selfKey: string, members: seq<Member>, bodies: map<string, string>,
      id: MessageId, room: RoomId, ts: Time)
    returns (frames: seq<LiveFrame>)
    ensures var rows := Copies(me, selfKey, members, bodies, id, room, ts);
            |frames| == |rows| && forall i :: 0 <= i < |rows| ==>
              && frames[i].to == rows[i].recipient && frames[i].id == rows[i].id && frames[i].room == rows[i].room
              && frames[i].from == rows[i].from && frames[i].ts == rows[i].ts && frames[i].body == rows[i].body
  {
    frames := [];
    ghost var rows: seq<Message> := [];
    for i := 0 to |members|
      invariant rows == CopiesForOthers(me, members[..i], bodies, id, room, ts)
      invariant |frames| == |rows| && forall k :: 0 <= k < |rows| ==> frames[k] == AsFrame(rows[k])
    {
      assert members[..i + 1][..i] == members[..i];
      var m := members[i];
      if m.account == me || m.key !in bodies {
        continue;
      }
      frames := frames + [LiveFrame(m.account, id, room, me, ts, bodies[m.key])];
      rows := rows + [Message(id, room, me, m.account, bodies[m.key], ts)];
    }
    assert members[..|members|] == members;
    if selfKey in bodies {
      frames := frames + [LiveFrame(me, id, room, me, ts, bodies[selfKey])];
    }
  }

  /** Every later replay to a recipient still contains the message its live frame carried. */
  lemma LiveFrameMatchesReplay(m: seq<Row>, msgs: seq<Message>, m': seq<Row>, k: nat)
    requires k < |msgs| && KeyUnique(m') && Later(m + NewRows(msgs), m')
    ensures msgs[k] in Store.Replay(m', msgs[k].room, msgs[k].recipient, None)
    ensures forall x :: x in Store.Replay(m', msgs[k].room, msgs[k].recipient, None) && x.id == msgs[k].id ==>
              AsFrame(x) == AsFrame(msgs[k])
  {
    var x := msgs[k];
    ReplayFacts(m', x.room, x.recipient, None);
    assert (m + NewRows(msgs))[|m| + k].msg == x;
    assert m'[|m| + k].msg == x;
  }
}
