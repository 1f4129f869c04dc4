/**
 * The WebSocket handlers as step machines. Every await on the database that a write, the end of the
 * handler, or the messages and the `Read` frame of a Subscribe depend on is a step boundary, so any
 * number of handlers interleave there; between two boundaries a handler runs alone. The awaits left
 * out only feed answers, broadcasts and the unread marker.
 */
module Handlers {
  import opened Common
  import opened Store
  import opened Tables
  import FanOut
  import Receipts

  /** What the outside world supplies to one step: clock, signature check, and generated ids. */
  datatype Env = Env(now: Time, signatureOk: bool, room: RoomId, token: Token, id: MessageId)

  datatype Code =
    | InviteNotFound | InviteExpired | InviteConsumed | InvalidSignature | SelfInvite
    | MonogamyViolation | AlreadyPaired | UnknownRoom | BodyTooLarge | FanOutMismatch | Internal

  /** The backfilled `Read` frame of a Subscribe. */
  datatype ReadFrame = ReadFrame(ids: seq<MessageId>, reader: AccountId)

  /**
   * A handler and the point it has reached. In a Subscribe, `seen` and `seen2` are the tables two
   * queries saw, `next` is the replayed row whose sender is looked up, `sent` are the frames sent
   * so far, and `answered` says whether both read-state queries returned.
   */
  datatype Handler =
    // handle_consume_invite
    | ConsumeLookup(me: AccountId, token: Token)
    | ConsumeInviter(me: AccountId, token: Token, inviter: AccountId)
    | ConsumeLink(me: AccountId, token: Token, inviter: AccountId)
    | ConsumeRoom(me: AccountId, token: Token, inviter: AccountId)
    | ConsumeCreate(me: AccountId, token: Token, inviter: AccountId)
    | ConsumeJoin(me: AccountId, token: Token, inviter: AccountId, room: RoomId)
    | ConsumeMark(me: AccountId, token: Token, inviter: AccountId, room: RoomId)
    | Paired(me: AccountId, token: Token, room: RoomId)
    // handle_create_invite
    | InviteCheck(me: AccountId)
    | InviteWrite(me: AccountId)
    // handle_create_room
    | RoomCheck(me: AccountId, invitePartner: bool)
    | RoomWrite(me: AccountId, invitePartner: bool, autoPartner: Option<AccountId>)
    | RoomInvite(me: AccountId, room: RoomId)
    // handle_leave_room
    | LeaveCheck(me: AccountId, room: RoomId)
    | LeaveWrite(me: AccountId, room: RoomId)
    // handle_send
    | SendCheck(me: AccountId, room: RoomId, bodies: map<string, string>)
    | SendRoster(me: AccountId, room: RoomId, bodies: map<string, string>)
    | SendWrite(me: AccountId, room: RoomId, bodies: map<string, string>, members: seq<FanOut.Member>, id: MessageId, ts: Time)
    // handle_mark_read
    | MarkCheck(me: AccountId, room: RoomId, upTo: MessageId)
    | MarkWrite(me: AccountId, room: RoomId, upTo: MessageId)
    // handle_subscribe
    | SubCheck(me: AccountId, room: RoomId, since: Option<MessageId>)
    | SubReplay(me: AccountId, room: RoomId, since: Option<MessageId>)
    | SubRows(me: AccountId, room: RoomId, since: Option<MessageId>, seen: seq<Row>, next: nat, sent: seq<Replayed>)
    | SubBackfill(me: AccountId, room: RoomId, since: Option<MessageId>, seen: seq<Row>, sent: seq<Replayed>)
    | SubReader(
        me: AccountId, room: RoomId, since: Option<MessageId>, seen: seq<Row>, sent: seq<Replayed>, seen2: seq<Row>)
    | Subscribed(
        me: AccountId, room: RoomId, since: Option<MessageId>, seen: seq<Row>, sent: seq<Replayed>, seen2: seq<Row>,
        answered: bool, frame: Option<ReadFrame>)
    // the end of a handler
    | Finished
    | Failed(at: Handler, code: Code)

  predicate Initial(h: Handler) {
    h.ConsumeLookup? || h.InviteCheck? || h.RoomCheck? || h.LeaveCheck? || h.SendCheck? || h.MarkCheck? || h.SubCheck?
  }

  predicate Done(h: Handler) {
    h.Paired? || h.Subscribed? || h.Finished? || h.Failed?
  }

  /** A ConsumeInvite handler at or before its link step, possibly stopped there. */
  predicate NotPastLink(h: Handler) {
    h.ConsumeLookup? || h.ConsumeInviter? || h.ConsumeLink?
    || (h.Failed? && (h.at.ConsumeLookup? || h.at.ConsumeInviter? || h.at.ConsumeLink?))
  }

  /** A ConsumeInvite handler whose link step succeeded, possibly stopped or finished since. */
  predicate PastLink(h: Handler) {
    h.ConsumeRoom? || h.ConsumeCreate? || h.ConsumeJoin? || h.ConsumeMark? || h.Paired?
    || (h.Failed? && (h.at.ConsumeRoom? || h.at.ConsumeCreate? || h.at.ConsumeJoin? || h.at.ConsumeMark?))
  }

  function Consumer(h: Handler): AccountId
    requires PastLink(h)
  {
    if h.Failed? then h.at.me else h.me
  }

  function ConsumedToken(h: Handler): Token
    requires PastLink(h)
  {
    if h.Failed? then h.at.token else h.token
  }

  function Roster(t: Tables, accounts: seq<AccountId>): (members: seq<FanOut.Member>)
    ensures |members| == |accounts|
  {
    seq(|accounts|, i requires 0 <= i < |accounts| =>
      FanOut.Member(accounts[i], if accounts[i] in t.keys then t.keys[accounts[i]] else ""))
  }

  function KeyOf(t: Tables, a: AccountId): string {
    if a in t.keys then t.keys[a] else ""
  }

  ghost function Commit(t: Tables, h: Handler, r: Result<Tables, DbError>, next: Handler): (Tables, Handler) {
    match r
    case Ok(t') => (t', next)
    case Err(_) => (t, Failed(h, Internal))
  }

  predicate InConsumeInvite(h: Handler) {
    h.ConsumeLookup? || h.ConsumeInviter? || h.ConsumeLink? || h.ConsumeRoom? || h.ConsumeCreate? || h.ConsumeJoin? || h.ConsumeMark?
  }

  predicate InCreateInvite(h: Handler) {
    h.InviteCheck? || h.InviteWrite?
  }

  predicate InCreateRoom(h: Handler) {
    h.RoomCheck? || h.RoomWrite? || h.RoomInvite?
  }

  predicate InLeaveRoom(h: Handler) {
    h.LeaveCheck? || h.LeaveWrite?
  }

  predicate InSend(h: Handler) {
    h.SendCheck? || h.SendRoster? || h.SendWrite?
  }

  predicate InMarkRead(h: Handler) {
    h.MarkCheck? || h.MarkWrite?
  }

  predicate InSubscribe(h: Handler) {
    h.SubCheck? || h.SubReplay? || h.SubRows? || h.SubBackfill? || h.SubReader?
  }

  /** The steps of `handle_consume_invite`. */
  ghost function ConsumeInviteStep(t: Tables, h: Handler, env: Env): (Tables, Handler)
    requires InConsumeInvite(h)
  {
    match h
    case ConsumeLookup(me, token) =>
      if token !in t.invites then (t, Failed(h, InviteNotFound))
      else (
        match t.invites[token].State(env.now)
        case Expired => (t, Failed(h, InviteExpired))
        case Consumed => (t, Failed(h, InviteConsumed))
        case Pending =>
          if !env.signatureOk then (t, Failed(h, InvalidSignature))
          else (t, ConsumeInviter(me, token, t.invites[token].inviter)))
    case ConsumeInviter(me, token, inviter) =>
      if inviter !in t.keys then (t, Failed(h, InviteNotFound))
      else if inviter == me then (t, Failed(h, SelfInvite))
      else (t, ConsumeLink(me, token, inviter))
    case ConsumeLink(me, token, inviter) => (
      match SetPartnerLink(t, me, inviter)
      case Ok(t') => (t', ConsumeRoom(me, token, inviter))
      case Err(WrongPartner) => (t, Failed(h, MonogamyViolation))
      case Err(UniqueViolation) => (t, Failed(h, MonogamyViolation))
      case Err(CheckViolation) => (t, Failed(h, Internal)))
    case ConsumeRoom(me, token, inviter) => (
      match RoomForInvite(t, token)
      case Some(room) => (t, ConsumeJoin(me, token, inviter, room))
      case None => (t, ConsumeCreate(me, token, inviter)))
    case ConsumeCreate(me, token, inviter) =>
      Commit(t, h, CreateRoomWithMembers(t, env.room, inviter, None), ConsumeJoin(me, token, inviter, env.room))
    case ConsumeJoin(me, token, inviter, room) =>
      Commit(t, h, JoinRoom(t, room, me), ConsumeMark(me, token, inviter, room))
    case ConsumeMark(me, token, inviter, room) =>
      (MarkConsumed(t, token, env.now), Paired(me, token, room))
  }

  /** The steps of `handle_create_invite`. */
  ghost function CreateInviteStep(t: Tables, h: Handler, env: Env): (Tables, Handler)
    requires InCreateInvite(h)
  {
    match h
    case InviteCheck(me) =>
      if PartnerOf(t, me).Some? then (t, Failed(h, AlreadyPaired)) else (t, InviteWrite(me))
    case InviteWrite(me) =>
      Commit(t, h, CreateInviteRecord(t, me, env.token, DefaultExpiry(env.now), None), Finished)
  }

  /** The steps of `handle_create_room`. */
  ghost function CreateRoomStep(t: Tables, h: Handler, env: Env): (Tables, Handler)
    requires InCreateRoom(h)
  {
    match h
    case RoomCheck(me, invitePartner) =>
      (t, RoomWrite(me, invitePartner, if invitePartner then PartnerOf(t, me) else None))
    case RoomWrite(me, invitePartner, autoPartner) =>
      Commit(t, h, CreateRoomWithMembers(t, env.room, me, autoPartner),
             if invitePartner && autoPartner.None? then RoomInvite(me, env.room) else Finished)
    case RoomInvite(me, room) =>
      Commit(t, h, CreateInviteRecord(t, me, env.token, DefaultExpiry(env.now), Some(room)), Finished)
  }

  /** The steps of `handle_leave_room`. */
  ghost function LeaveRoomStep(t: Tables, h: Handler, env: Env): (Tables, Handler)
    requires InLeaveRoom(h)
  {
    match h
    case LeaveCheck(me, room) =>
      if IsMember(t, room, me) then (t, LeaveWrite(me, room)) else (t, Failed(h, UnknownRoom))
    case LeaveWrite(me, room) =>
      Commit(t, h, LeaveRoom(t, room, me), Finished)
  }

  /** The steps of `handle_send`. */
  ghost function SendStep(t: Tables, h: Handler, env: Env): (Tables, Handler)
    requires InSend(h)
  {
    match h
    case SendCheck(me, room, bodies) =>
      if !FanOut.WithinLimits(bodies) then (t, Failed(h, BodyTooLarge))
      else if IsMember(t, room, me) then (t, SendRoster(me, room, bodies)) else (t, Failed(h, UnknownRoom))
    case SendRoster(me, room, bodies) =>
      var members := Roster(t, if room in t.rooms then t.rooms[room] else []);
      if bodies.Keys != FanOut.RequiredKeys(me, KeyOf(t, me), members, bodies) then (t, Failed(h, FanOutMismatch))
      else (t, SendWrite(me, room, bodies, members, env.id, env.now))
    case SendWrite(me, room, bodies, members, id, ts) =>
      Commit(t, h, InsertMessages(t, SentCopies(t, h)), Finished)
  }

  /** The steps of `handle_mark_read`. */
  ghost function MarkReadStep(t: Tables, h: Handler, env: Env): (Tables, Handler)
    requires InMarkRead(h)
  {
    match h
    case MarkCheck(me, room, upTo) =>
      if IsMember(t, room, me) then (t, MarkWrite(me, room, upTo)) else (t, Failed(h, UnknownRoom))
    case MarkWrite(me, room, upTo) =>
      (MarkRead(t, room, me, upTo, env.now), Finished)
  }

  /** The loop over the replayed rows: at row `next`, or past it at the backfill query. */
  function AtRow(
      me: AccountId, room: RoomId, since: Option<MessageId>, seen: seq<Row>, next: nat, sent: seq<Replayed>): Handler
  {
    if next < |MessagesForRecipient(seen, room, me, since)|
    then SubRows(me, room, since, seen, next, sent)
    else SubBackfill(me, room, since, seen, sent)
  }

  /** The steps of `handle_subscribe`. */
  ghost function SubscribeStep(t: Tables, h: Handler, env: Env): (Tables, Handler)
    requires InSubscribe(h)
  {
    match h
    case SubCheck(me, room, since) =>
      if IsMember(t, room, me) then (t, SubReplay(me, room, since)) else (t, Failed(h, UnknownRoom))
    case SubReplay(me, room, since) =>
      (t, AtRow(me, room, since, t.messages, 0, []))
    case SubRows(me, room, since, seen, next, sent) =>
      var rows := MessagesForRecipient(seen, room, me, since);
      (t, AtRow(me, room, since, seen, next + 1,
                if next < |rows| && rows[next].msg.from in t.keys then sent + [rows[next]] else sent))
    case SubBackfill(me, room, since, seen, sent) =>
      if ReadSentMessageIds(t.messages, room, me) == []
      then (t, Subscribed(me, room, since, seen, sent, t.messages, true, None))
      else (t, SubReader(me, room, since, seen, sent, t.messages))
    case SubReader(me, room, since, seen, sent, seen2) => (
      match PartnerOf(t, me)
      case Some(reader) =>
        var frame := ReadFrame(ReadSentMessageIds(seen2, room, me), reader);
        (t, Subscribed(me, room, since, seen, sent, seen2, true, Some(frame)))
      case None => (t, Subscribed(me, room, since, seen, sent, seen2, true, None)))
  }

  /** One step: the tables and the handler's next point. */
  ghost function Advance(t: Tables, h: Handler, env: Env): (Tables, Handler)
    requires !Done(h)
  {
    if InConsumeInvite(h) then ConsumeInviteStep(t, h, env)
    else if InCreateInvite(h) then CreateInviteStep(t, h, env)
    else if InCreateRoom(h) then CreateRoomStep(t, h, env)
    else if InLeaveRoom(h) then LeaveRoomStep(t, h, env)
    else if InSend(h) then SendStep(t, h, env)
    else if InMarkRead(h) then MarkReadStep(t, h, env)
    else SubscribeStep(t, h, env)
  }

  /**
   * A database error ends a handler, except where the code goes on: a failed `mark_consumed` is
   * logged, a replayed row whose sender lookup fails is skipped, and without its two read-state
   * queries a Subscribe sends no `Read` frame. (A crash is a handler that takes no further step.)
   */
  function AfterFault(h: Handler): Handler {
    match h
    case ConsumeInviter(_, _, _) => Failed(h, InviteNotFound)
    case ConsumeMark(me, token, _, room) => Paired(me, token, room)
    case LeaveCheck(_, _) => Failed(h, UnknownRoom)
    case SubRows(me, room, since, seen, next, sent) => AtRow(me, room, since, seen, next + 1, sent)
    case SubBackfill(me, room, since, seen, sent) => Subscribed(me, room, since, seen, sent, seen, false, None)
    case SubReader(me, room, since, seen, sent, seen2) => Subscribed(me, room, since, seen, sent, seen2, false, None)
    case _ => Failed(h, Internal)
  }

  /** The rows a Send inserts; their id and timestamp were drawn before the insert. */
  function SentCopies(t: Tables, h: Handler): seq<Message>
    requires h.SendWrite?
  {
    FanOut.Copies(h.me, KeyOf(t, h.me), h.members, h.bodies, h.id, h.room, h.ts)
  }

  /** The change of the messages table that a step makes, for the conservation results. */
  ghost function WriteOf(t: Tables, h: Handler, env: Env): seq<Receipts.Write>
    requires !Done(h)
  {
    if h.SendWrite? && Advance(t, h, env).1.Finished? then [Receipts.Sent(SentCopies(t, h))]
    else if h.MarkWrite? then [Receipts.Read(h.room, h.me, h.upTo, env.now)]
    else []
  }
}
