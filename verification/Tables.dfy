/**
 * The server's tables as values, and what each SQL transaction does to them. Foreign keys, unique
 * indexes and CHECK constraints that a transaction can hit are its error results; a transaction
 * that errs changes nothing.
 */
module Tables {
  import opened Common
  import opened Store

  datatype Invite = Invite(inviter: AccountId, expiresAt: Time, consumedAt: Option<Time>, room: Option<RoomId>) {
    /** `InviteRow::state`: consumed wins over expired, and the instant of expiry is still pending. */
    function State(now: Time): InviteState {
      if consumedAt.Some? then Consumed else if expiresAt < now then Expired else Pending
    }
  }

  datatype InviteState = Pending | Expired | Consumed

  /** Invites expire one hour after creation. */
  const INVITE_TTL_SECONDS := 60 * 60

  function DefaultExpiry(now: Time): Time {
    now + INVITE_TTL_SECONDS
  }

  datatype PairError = WrongPartner | UniqueViolation | CheckViolation

  /** A foreign-key or primary-key violation: the statement fails and the transaction rolls back. */
  datatype DbError = ForeignKeyViolation | DuplicateKey

  /**
   * `keys` holds the accounts with their X25519 keys; `partner` the non-NULL `partner_account_id`
   * values; `rooms` each existing room with its `room_members` in joining order.
   */
  datatype Tables = Tables(
    keys: map<AccountId, string>,
    partner: map<AccountId, AccountId>,
    invites: map<Token, Invite>,
    rooms: map<RoomId, seq<AccountId>>,
    messages: seq<Row>)

  const EMPTY := Tables(map[], map[], map[], map[], [])

  predicate Linked(partner: map<AccountId, AccountId>, a: AccountId, b: AccountId) {
    a in partner && partner[a] == b && b in partner && partner[b] == a
  }

  /** The partial unique index on `partner_account_id` already holds `value`. */
  predicate Taken(partner: map<AccountId, AccountId>, value: AccountId) {
    exists x :: x in partner && partner[x] == value
  }

  function PartnerOf(t: Tables, a: AccountId): Option<AccountId> {
    if a in t.partner then Some(t.partner[a]) else None
  }

  predicate IsMember(t: Tables, room: RoomId, a: AccountId) {
    room in t.rooms && a in t.rooms[room]
  }

  function RoomForInvite(t: Tables, token: Token): Option<RoomId> {
    if token in t.invites then t.invites[token].room else None
  }

  // ---------------------------------------------------------------------------------------------
  // Transactions

  /** `set_partner_link`: links two unlinked accounts, accepts an existing link, refuses the rest. */
  function SetPartnerLink(t: Tables, a: AccountId, b: AccountId): Result<Tables, PairError> {
    if a !in t.keys || b !in t.keys then Err(WrongPartner)
    else if Linked(t.partner, a, b) then Ok(t)
    else if a in t.partner || b in t.partner then Err(WrongPartner)
    else if a == b then Err(CheckViolation)
    else if Taken(t.partner, a) || Taken(t.partner, b) then Err(UniqueViolation)
    else Ok(t.(partner := t.partner[a := b][b := a]))
  }

  function Join(members: seq<AccountId>, a: AccountId): seq<AccountId> {
    if a in members then members else members + [a]
  }

  function Seats(host: AccountId, partner: Option<AccountId>): seq<AccountId> {
    if partner.None? || partner.value == host then [host] else [host, partner.value]
  }

  /** `create_room_with_members`: a new room holding the host and, if given, the partner. */
  function CreateRoomWithMembers(t: Tables, room: RoomId, host: AccountId, partner: Option<AccountId>): Result<Tables, DbError> {
    if room in t.rooms then Err(DuplicateKey)
    else if host !in t.keys || (partner.Some? && partner.value !in t.keys) then Err(ForeignKeyViolation)
    else Ok(t.(rooms := t.rooms[room := Seats(host, partner)]))
  }

  /** The consumer's `INSERT INTO room_members … ON CONFLICT DO NOTHING`. */
  function JoinRoom(t: Tables, room: RoomId, a: AccountId): Result<Tables, DbError> {
    if room !in t.rooms || a !in t.keys then Err(ForeignKeyViolation)
    else Ok(t.(rooms := t.rooms[room := Join(t.rooms[room], a)]))
  }

  function WithoutOutstanding(invites: map<Token, Invite>, inviter: AccountId): map<Token, Invite> {
    map k | k in invites && !(invites[k].inviter == inviter && invites[k].consumedAt.None?) :: invites[k]
  }

  /** `create_invite_record`: revokes the inviter's unconsumed invites, then adds the new one. */
  function CreateInviteRecord(t: Tables, inviter: AccountId, token: Token, expiresAt: Time, room: Option<RoomId>)
    : Result<Tables, DbError>
  {
    var kept := WithoutOutstanding(t.invites, inviter);
    if token in kept then Err(DuplicateKey)
    else if inviter !in t.keys || (room.Some? && room.value !in t.rooms) then Err(ForeignKeyViolation)
    else Ok(t.(invites := kept[token := Invite(inviter, expiresAt, None, room)]))
  }

  /** `mark_consumed`: stamps the invite unless it is already stamped or gone. */
  function MarkConsumed(t: Tables, token: Token, now: Time): Tables {
    if token in t.invites && t.invites[token].consumedAt.None?
    then t.(invites := t.invites[token := t.invites[token].(consumedAt := Some(now))])
    else t
  }

  ghost predicate HasMessages(t: Tables, room: RoomId) {
    exists i :: 0 <= i < |t.messages| && t.messages[i].msg.room == room
  }

  /** Deleting a room cascades to its invites. */
  function WithoutRoom(t: Tables, room: RoomId): Tables {
    t.(rooms := t.rooms - {room},
       invites := map k | k in t.invites && t.invites[k].room != Some(room) :: t.invites[k])
  }

  /**
   * `leave_room`. The last member's departure deletes the room, but `messages.room_id` references
   * `rooms` without a cascade, so with any message in the room that DELETE is refused and the whole
   * transaction, including the departure, is rolled back.
   */
  ghost function LeaveRoom(t: Tables, room: RoomId, a: AccountId): Result<Tables, DbError> {
    if room !in t.rooms then Ok(t)
    else
      var left := Without(t.rooms[room], a);
      if left != [] then Ok(t.(rooms := t.rooms[room := left]))
      else if HasMessages(t, room) then Err(ForeignKeyViolation)
      else Ok(WithoutRoom(t, room))
  }

  /** `insert_many` with the foreign keys of its rows. */
  ghost predicate ReferencesHold(t: Tables, msgs: seq<Message>) {
    forall i :: 0 <= i < |msgs| ==>
      msgs[i].room in t.rooms && msgs[i].from in t.keys && msgs[i].recipient in t.keys
  }

  ghost function InsertMessages(t: Tables, msgs: seq<Message>): Result<Tables, DbError> {
    if ReferencesHold(t, msgs) then Ok(t.(messages := InsertMany(t.messages, msgs))) else Err(ForeignKeyViolation)
  }

  function MarkRead(t: Tables, room: RoomId, reader: AccountId, upTo: MessageId, now: Time): Tables {
    t.(messages := Marked(t.messages, room, reader, upTo, now))
  }

  // ---------------------------------------------------------------------------------------------
  // Elementary facts

  /**
   * The departure fails exactly when the leaver is the room's only member and the room has a
   * message; otherwise the leaver is gone, everyone else stays, and no room is left empty.
   */
  lemma LeaveRoomFailsIff(t: Tables, room: RoomId, a: AccountId)
    requires room in t.rooms
    ensures LeaveRoom(t, room, a).Err? <==> (forall x :: x in t.rooms[room] ==> x == a) && HasMessages(t, room)
    ensures LeaveRoom(t, room, a).Ok? ==> !IsMember(LeaveRoom(t, room, a).value, room, a)
    ensures LeaveRoom(t, room, a).Ok? ==>
              forall r, x :: x != a || r != room ==>
                (IsMember(LeaveRoom(t, room, a).value, r, x) <==> IsMember(t, r, x))
  {
    var left := Without(t.rooms[room], a);
    WithoutFacts(t.rooms[room], a);
    if left != [] {
      var x := left[0];
      assert x in left;
    }
  }

  /** The partner relation is a matching: symmetric, irreflexive, on registered accounts. */
  ghost predicate Matching(keys: map<AccountId, string>, partner: map<AccountId, AccountId>) {
    forall a :: a in partner ==> a in keys && partner[a] in keys && partner[a] != a && Linked(partner, a, partner[a])
  }

  /**
   * What linking `a` and `b` must do to the partner column. It succeeds exactly when both are
   * registered, distinct, and either both free or already each other's partner; then each is the
   * other's partner. No other entry changes, and none at all when it fails.
   */
  ghost predicate LinksAsPromised(
      keys: map<AccountId, string>, was: map<AccountId, AccountId>, partner: map<AccountId, AccountId>,
      a: AccountId, b: AccountId, ok: bool)
  {
    && (ok <==>
          && a in keys && b in keys && a != b
          && ((a !in was && b !in was) || (a in was && b in was && was[a] == b && was[b] == a)))
    && (ok ==> a in partner && b in partner && partner[a] == b && partner[b] == a)
    && (forall x :: x != a && x != b ==> (x in partner <==> x in was))
    && (forall x :: x in was ==> x in partner && partner[x] == was[x])
    && (!ok ==> partner == was)
  }

  /**
   * In a matching the link is as promised; the index backstops are only hit by an account linking
   * itself. Linking the two again, in either order, succeeds and changes nothing.
   */
  lemma LinkSucceedsIff(t: Tables, a: AccountId, b: AccountId)
    requires Matching(t.keys, t.partner)
    ensures var r := SetPartnerLink(t, a, b);
            && LinksAsPromised(t.keys, t.partner, if r.Ok? then r.value.partner else t.partner, a, b, r.Ok?)
            && (r.Ok? ==>
                  && r.value == t.(partner := r.value.partner)
                  && SetPartnerLink(r.value, a, b) == Ok(r.value) && SetPartnerLink(r.value, b, a) == Ok(r.value))
            && (r.Err? ==> r == Err(if a == b && a in t.keys && a !in t.partner then CheckViolation else WrongPartner))
  {
    if x :| x in t.partner && (t.partner[x] == a || t.partner[x] == b) {
      assert Linked(t.partner, x, t.partner[x]);
    }
  }

  lemma LinkOutcome(t: Tables, a: AccountId, b: AccountId, partner: map<AccountId, AccountId>, ok: bool)
    requires ok == SetPartnerLink(t, a, b).Ok?
    requires partner == if ok then SetPartnerLink(t, a, b).value.partner else t.partner
    ensures Matching(t.keys, t.partner) ==> LinksAsPromised(t.keys, t.partner, partner, a, b, ok)
  {
    if Matching(t.keys, t.partner) {
      LinkSucceedsIff(t, a, b);
    }
  }

  /** A new room seats the host and the partner, if one is given, and nobody else. */
  lemma NewRoomSeats(t: Tables, room: RoomId, host: AccountId, partner: Option<AccountId>)
    ensures var r := CreateRoomWithMembers(t, room, host, partner);
            && (r.Ok? <==> room !in t.rooms && host in t.keys && (partner.Some? ==> partner.value in t.keys))
            && (r.Ok? ==>
                  && r.value == t.(rooms := r.value.rooms) && NoDuplicates(r.value.rooms[room])
                  && (forall x :: x in r.value.rooms[room] <==> x == host || partner == Some(x))
                  && (forall x :: x != room ==> (x in r.value.rooms <==> x in t.rooms))
                  && (forall x :: x in t.rooms ==> r.value.rooms[x] == t.rooms[x]))
  {
  }

  /** A join adds the account to that room, once, and changes nothing else. */
  lemma JoinAdds(t: Tables, room: RoomId, a: AccountId)
    ensures var r := JoinRoom(t, room, a);
            && (r.Ok? <==> room in t.rooms && a in t.keys)
            && (r.Ok? ==>
                  && r.value == t.(rooms := r.value.rooms) && r.value.rooms.Keys == t.rooms.Keys
                  && (NoDuplicates(t.rooms[room]) ==> NoDuplicates(r.value.rooms[room]))
                  && (forall x :: x in r.value.rooms[room] <==> x in t.rooms[room] || x == a)
                  && (forall x :: x in t.rooms && x != room ==> r.value.rooms[x] == t.rooms[x]))
  {
  }

  /**
   * A departure that goes through takes the leaver out of that room and nobody else. It deletes the
   * room exactly when no other member is left, and with it exactly the invites bound to it, pending
   * or consumed; all other invites, all accounts, links, messages and other rooms stay.
   */
  lemma LeaveRoomTakes(t: Tables, room: RoomId, a: AccountId)
    requires LeaveRoom(t, room, a).Ok?
    ensures var t' := LeaveRoom(t, room, a).value;
            && t'.keys == t.keys && t'.partner == t.partner && t'.messages == t.messages
            && (room in t.rooms ==> (room !in t'.rooms <==> forall x :: x in t.rooms[room] ==> x == a))
            && (room in t'.rooms ==> room in t.rooms && forall x :: x in t'.rooms[room] <==> x in t.rooms[room] && x != a)
            && (forall r :: r != room ==> (r in t'.rooms <==> r in t.rooms))
            && (forall r :: r != room && r in t.rooms ==> t'.rooms[r] == t.rooms[r])
            && (forall k :: k in t'.invites <==>
                  k in t.invites && !(room in t.rooms && room !in t'.rooms && t.invites[k].room == Some(room)))
            && (forall k :: k in t'.invites ==> t'.invites[k] == t.invites[k])
  {
    if room in t.rooms {
      WithoutFacts(t.rooms[room], a);
      var left := Without(t.rooms[room], a);
      if left != [] {
        var x := left[0];
        assert x in left;
        assert x in t.rooms[room] && x != a;
      }
    }
  }
}
