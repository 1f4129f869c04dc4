/**
 * The transactions of rooms.rs, invites.rs and store.rs, statement by statement, over mutable
 * tables. Each works on a local copy that is stored back on commit, and is proved to do exactly
 * what its function in `Tables` says.
 */
module Database {
  import opened Common
  import opened Store
  import T = Tables
  import Queries

  class Database {
    var keys: map<AccountId, string>
    var partner: map<AccountId, AccountId>
    var invites: map<Token, T.Invite>
    var rooms: map<RoomId, seq<AccountId>>
    var messages: seq<Row>

    ghost function View(): T.Tables
      reads this
    {
      T.Tables(keys, partner, invites, rooms, messages)
    }

    constructor ()
      ensures View() == T.EMPTY
    {
      keys, partner, invites, rooms, messages := map[], map[], map[], map[], [];
    }

    /** `SELECT id, partner_account_id … WHERE id IN (a, b) ORDER BY id FOR UPDATE`. */
    function RowsForUpdate(a: AccountId, b: AccountId): (rows: seq<(AccountId, Option<AccountId>)>)
      reads this
      ensures forall i :: 0 <= i < |rows| ==>
                rows[i].0 in keys && rows[i].0 in {a, b}
                && rows[i].1 == (if rows[i].0 in partner then Some(partner[rows[i].0]) else None)
      ensures forall x :: x in {a, b} && x in keys ==> exists i :: 0 <= i < |rows| && rows[i].0 == x
      ensures forall i, j :: 0 <= i < j < |rows| ==> rows[i].0 < rows[j].0
    {
      var low, high := if a <= b then a else b, if a <= b then b else a;
      var first := if low in keys then [(low, if low in partner then Some(partner[low]) else None)] else [];
      var second := if high in keys && high != low then [(high, if high in partner then Some(partner[high]) else None)] else [];
      var rows := first + second;
      assert low in keys ==> rows[0].0 == low;
      assert high in keys ==> rows[|rows| - 1].0 == high;
      rows
    }

    /** `UPDATE accounts SET partner_account_id = $value WHERE id = $id AND partner_account_id IS NULL`. */
    static function UpdatePartner(tx: map<AccountId, AccountId>, id: AccountId, value: AccountId)
      : Result<map<AccountId, AccountId>, T.PairError>
    {
      if id in tx then Ok(tx)
      else if id == value then Err(T.CheckViolation)
      else if T.Taken(tx, value) then Err(T.UniqueViolation)
      else Ok(tx[id := value])
    }

    /** Where partners are mutual, it links the two exactly when both are free or linked already. */
    method SetPartnerLink(a: AccountId, b: AccountId) returns (r: Result<(), T.PairError>)
      modifies `partner
      ensures T.Matching(keys, old(partner)) ==> T.LinksAsPromised(keys, old(partner), partner, a, b, r.Ok?)
      ensures match T.SetPartnerLink(old(View()), a, b)
              case Ok(t) => r.Ok? && View() == t
              case Err(e) => r == Err(e) && View() == old(View())
    {
      var rows := RowsForUpdate(a, b);
      var mine: Option<Option<AccountId>> := None;
      var theirs: Option<Option<AccountId>> := None;
      for i := 0 to |rows|
        invariant mine.Some? <==> exists k :: 0 <= k < i && rows[k].0 == a
        invariant theirs.Some? <==> exists k :: 0 <= k < i && rows[k].0 == b
        invariant mine.Some? ==> mine.value == T.PartnerOf(View(), a)
        invariant theirs.Some? ==> theirs.value == T.PartnerOf(View(), b)
      {
        var (id, p) := rows[i];
        if id == a {
          mine := Some(p);
        }
        if id == b {
          theirs := Some(p);
        }
      }
      if mine.None? || theirs.None? {
        T.LinkOutcome(View(), a, b, partner, false);
        return Err(T.WrongPartner);
      }
      var ok := match (mine.value, theirs.value)
        case (None, None) => true
        case (Some(p), Some(q)) => p == b && q == a
        case _ => false;
      if !ok {
        T.LinkOutcome(View(), a, b, partner, false);
        return Err(T.WrongPartner);
      }
      var first := UpdatePartner(partner, a, b);
      if first.Err? {
        T.LinkOutcome(View(), a, b, partner, false);
        return Err(first.error);
      }
      assert forall x :: x in partner ==> x in first.value && first.value[x] == partner[x];
      assert mine.value.None? && T.Taken(partner, a) ==> T.Taken(first.value, a) by {
        if x :| x in partner && partner[x] == a {
          assert first.value[x] == a;
        }
      }
      var second := UpdatePartner(first.value, b, a);
      if second.Err? {
        T.LinkOutcome(View(), a, b, partner, false);
        return Err(second.error);
      }
      T.LinkOutcome(View(), a, b, second.value, true);
      partner := second.value;
      return Ok(());
    }

    /** The new room seats the host and the other account, if there is one; no other room changes. */
    method CreateRoomWithMembers(room: RoomId, host: AccountId, other: Option<AccountId>) returns (r: Result<RoomId, T.DbError>)
      modifies `rooms
      ensures r == Ok(room) <==> room !in old(rooms) && host in keys && (other.Some? ==> other.value in keys)
      ensures r.Ok? ==>
                && room in rooms && NoDuplicates(rooms[room])
                && (forall x :: x in rooms[room] <==> x == host || other == Some(x))
                && (forall x :: x != room ==> (x in rooms <==> x in old(rooms)))
                && (forall x :: x in old(rooms) ==> rooms[x] == old(rooms)[x])
      ensures r.Err? ==> rooms == old(rooms)
      ensures match T.CreateRoomWithMembers(old(View()), room, host, other)
              case Ok(t) => r == Ok(room) && View() == t
              case Err(e) => r == Err(e) && View() == old(View())
    {
      T.NewRoomSeats(View(), room, host, other);
      if room in rooms {
        return Err(T.DuplicateKey);
      }
      var tx := rooms[room := []];
      var seated := if other.Some? then [host, other.value] else [host];
      for i := 0 to |seated|
        invariant forall k :: 0 <= k < i ==> seated[k] in keys
        invariant room in tx && tx == rooms[room := tx[room]]
        invariant tx[room] == if i == 0 then [] else if i == 1 then [host] else T.Seats(host, other)
      {
        if seated[i] !in keys {
          return Err(T.ForeignKeyViolation);
        }
        tx := tx[room := T.Join(tx[room], seated[i])];
      }
      assert seated[0] in keys && (other.Some? ==> seated[1] in keys);
      rooms := tx;
      return Ok(room);
    }

    /**
     * Afterwards the new invite is the inviter's only unconsumed one and pending until its expiry;
     * consumed invites and those of others are untouched, and there are no further ones.
     */
    method CreateInviteRecord(inviter: AccountId, token: Token, expiresAt: Time, room: Option<RoomId>)
      returns (r: Result<(), T.DbError>)
      modifies this
      ensures match T.CreateInviteRecord(old(View()), inviter, token, expiresAt, room)
              case Ok(t) => r.Ok? && View() == t
              case Err(e) => r == Err(e) && View() == old(View())
      ensures r.Ok? ==>
                && token in invites && invites[token].inviter == inviter && invites[token].room == room
                && (forall now :: invites[token].State(now) == if now <= expiresAt then T.Pending else T.Expired)
                && (forall k :: k in invites && invites[k].inviter == inviter && k != token ==> invites[k].consumedAt.Some?)
                && (forall k :: k in old(invites) && k != token ==>
                      old(invites)[k].inviter != inviter || old(invites)[k].consumedAt.Some? ==>
                      k in invites && invites[k] == old(invites)[k])
                && (forall k :: k in invites && k != token ==> k in old(invites))
    {
      var tx := T.WithoutOutstanding(invites, inviter);
      if token in tx {
        return Err(T.DuplicateKey);
      }
      if inviter !in keys || (room.Some? && room.value !in rooms) {
        return Err(T.ForeignKeyViolation);
      }
      invites := tx[token := T.Invite(inviter, expiresAt, None, room)];
      return Ok(());
    }

    /**
     * The invite is consumed from then on, with the first stamp it ever got: calling this again at
     * any time changes nothing. Which invites exist, and the state of all others, stay.
     */
    method MarkConsumed(token: Token, now: Time)
      modifies this
      ensures View() == T.MarkConsumed(old(View()), token, now)
      ensures invites.Keys == old(invites).Keys
      ensures token in invites ==> forall t :: invites[token].State(t) == T.Consumed
      ensures token in invites ==>
                invites[token].consumedAt == if old(invites)[token].consumedAt.Some? then old(invites)[token].consumedAt else Some(now)
      ensures forall k, t :: k in invites && k != token ==> invites[k].State(t) == old(invites)[k].State(t)
      ensures forall t :: T.MarkConsumed(View(), token, t) == View()
    {
      if token in invites && invites[token].consumedAt.None? {
        invites := invites[token := invites[token].(consumedAt := Some(now))];
      }
    }

    /**
     * The DELETE of an emptied room fails on the foreign key of the room's messages; that is the only
     * failure. Otherwise the leaver is out, the room is gone exactly when no other member is left,
     * and with it exactly the invites bound to it.
     */
    method LeaveRoom(room: RoomId, a: AccountId) returns (r: Result<bool, T.DbError>)
      modifies `rooms, `invites
      ensures r.Err? <==>
                && room in old(rooms) && (forall x :: x in old(rooms)[room] ==> x == a)
                && exists i :: 0 <= i < |messages| && messages[i].msg.room == room
      ensures r.Ok? ==>
                && r.value == (room !in rooms)
                && (room in old(rooms) ==> (room !in rooms <==> forall x :: x in old(rooms)[room] ==> x == a))
                && (room in rooms ==> room in old(rooms) && forall x :: x in rooms[room] <==> x in old(rooms)[room] && x != a)
                && (forall k :: k != room ==> (k in rooms <==> k in old(rooms)))
                && (forall k :: k != room && k in old(rooms) ==> rooms[k] == old(rooms)[k])
                && (forall k :: k in invites <==>
                      k in old(invites) && !(room in old(rooms) && room !in rooms && old(invites)[k].room == Some(room)))
                && (forall k :: k in invites ==> invites[k] == old(invites)[k])
      ensures r.Err? ==> rooms == old(rooms) && invites == old(invites)
      ensures match T.LeaveRoom(old(View()), room, a)
              case Ok(t) => View() == t && r == Ok(room !in t.rooms)
              case Err(e) => r == Err(e) && View() == old(View())
    {
      ghost var t := View();
      if room in rooms {
        T.LeaveRoomFailsIff(t, room, a);
      }
      if T.LeaveRoom(t, room, a).Ok? {
        T.LeaveRoomTakes(t, room, a);
      }
      var tx := rooms;
      if room in tx {
        tx := tx[room := Without(tx[room], a)];
      }
      var remaining := if room in tx then |tx[room]| else 0;
      if remaining > 0 {
        rooms := tx;
        return Ok(false);
      }
      if room in tx {
        if exists i :: 0 <= i < |messages| && messages[i].msg.room == room {
          return Err(T.ForeignKeyViolation);
        }
        tx := tx - {room};
        invites := map k | k in invites && invites[k].room != Some(room) :: invites[k];
      }
      rooms := tx;
      return Ok(true);
    }

    /**
     * All or none: with every room and account known, each message's key is there afterwards, the
     * rows that were there are unchanged, and the new ones are unread.
     */
    method InsertMany(msgs: seq<Message>) returns (r: Result<(), T.DbError>)
      modifies `messages
      ensures r.Ok? <==>
                forall k :: 0 <= k < |msgs| ==> msgs[k].room in rooms && msgs[k].from in keys && msgs[k].recipient in keys
      ensures r.Ok? && KeyUnique(old(messages)) ==>
                && old(messages) <= messages && KeyUnique(messages)
                && (forall k :: 0 <= k < |msgs| ==> Queries.KeyIn(messages, msgs[k]))
                && (forall i :: |old(messages)| <= i < |messages| ==> Queries.IsNew(messages[i], msgs))
      ensures r.Err? ==> messages == old(messages)
      ensures match T.InsertMessages(old(View()), msgs)
              case Ok(t) => r.Ok? && View() == t
              case Err(e) => r == Err(e) && View() == old(View())
    {
      var tx := messages;
      for i := 0 to |msgs|
        invariant tx == Store.InsertMany(messages, msgs[..i])
        invariant forall k :: 0 <= k < i ==>
                    msgs[k].room in rooms && msgs[k].from in keys && msgs[k].recipient in keys
      {
        if !(msgs[i].room in rooms && msgs[i].from in keys && msgs[i].recipient in keys) {
          return Err(T.ForeignKeyViolation);
        }
        assert msgs[..i + 1][..i] == msgs[..i];
        tx := Store.Insert(tx, msgs[i]);
      }
      assert msgs[..|msgs|] == msgs;
      if KeyUnique(messages) {
        Queries.InsertManyDoes(messages, msgs);
      }
      messages := tx;
      return Ok(());
    }

    /**
     * Stamps exactly the unread rows from others addressed to the reader in that room, up to and
     * including the watermark, and returns exactly the pairs of the rows that had no stamp before
     * and have one now. No row loses or changes a stamp, and nothing else changes.
     */
    method MarkRead(room: RoomId, reader: AccountId, upTo: MessageId, now: Time) returns (flipped: seq<(MessageId, AccountId)>)
      modifies `messages
      ensures |messages| == |old(messages)| && forall i :: 0 <= i < |messages| ==>
                messages[i] ==
                  var row := old(messages)[i];
                  if && row.msg.room == room && row.msg.recipient == reader && row.msg.from != reader
                     && row.msg.id <= upTo && row.readAt.None?
                  then Row(row.msg, Some(now)) else row
      ensures View() == T.MarkRead(old(View()), room, reader, upTo, now)
      ensures flipped == Flipped(old(messages), room, reader, upTo)
      ensures Later(old(messages), messages) && |messages| == |old(messages)|
      ensures forall x :: x in flipped <==>
                exists i :: 0 <= i < |messages| && NewlyRead(old(messages)[i], messages[i]) && x == (messages[i].msg.id, messages[i].msg.from)
      ensures forall i :: 0 <= i < |messages| ==>
                messages[i].msg.room == room && messages[i].msg.recipient == reader != messages[i].msg.from ==>
                messages[i].msg.id <= upTo ==> messages[i].readAt.Some?
    {
      flipped := Flipped(messages, room, reader, upTo);
      FlippedFacts(messages, room, reader, upTo, now);
      messages := Marked(messages, room, reader, upTo, now);
    }
  }
}
