# Little Love server: pairing, messages and codecs, verified

This project models the parts of the Little Love messenger whose guarantees no single check
enforces, and proves those guarantees for every input and every interleaving.

**Pairing and rooms.** Each WebSocket handler is a step machine with one step per database await
(`Handlers.dfy`). A system state holds the tables, any number of suspended handlers, and three
histories: who created each room, who issued each invite, and which message ids were drawn, stored
yet or not (`Invariant.dfy`, `Server.dfy`). Events register an account, start a handler, let any
suspended handler take its next step, or make its database call fail. The handlers are ConsumeInvite (`server/src/ws.rs:765-940`), CreateInvite
(`server/src/ws.rs:717-763`), CreateRoom (`server/src/ws.rs:1620-1714`), LeaveRoom
(`server/src/ws.rs:1758-1798`), Send (`server/src/ws.rs:1293-1452`), MarkRead
(`server/src/ws.rs:1042-1096`) and Subscribe (`server/src/ws.rs:942-1040`). `Preservation.dfy` shows
that every step keeps one invariant; the theorems in `Server.dfy` follow for all runs. `Outcomes.dfy`
says what each step answers in terms of the tables, `Gates.dfy` what a handler had found, and at
which event of the run, before it got where it is.
`Database.dfy` holds the SQL transactions statement by statement and proves each equal to its
function in `Tables.dfy`; `PartnerLocks.dfy` opens up `set_partner_link` into row locks and shows
that its interleavings, rollbacks included, are serial and never deadlock with each other.

**Messages and read receipts.** `Store.dfy` is the `messages` table with its queries, which
`Queries.dfy` characterises column by column, `Replay.dfy` resumption from a watermark,
`Receipts.dfy` the views derived from `read_at`, `FanOut.dfy` the sending of one message. `Subscriptions.dfy` says what a finished Subscribe has sent in any run,
failed lookups included. `Client.dfy` follows a device that starts empty, frame by frame, through
the replayed, backfilled and live frames of a run that reach it; `ClientMessages.dfy` says exactly
when it loses a message. `OrderedRuns.dfy` adds what runs with ordered message ids guarantee.
`Scenarios.dfy` builds runs event by event, and `StuckMember.dfy`, `LostMessages.dfy` and
`UnreadGap.dfy` those that end badly.

**Components.** The sliding-window limiter, the held calls, session routing with presence, the
heartbeat, and the two word codecs (`Bits.dfy`, `Words.dfy`, `Phrase.dfy`, `InviteCode.dfy`).

## Where the code and its documentation disagree

- `server/src/rooms.rs:364-367` says that deleting an empty room cascades to its invites and
  messages. The foreign key in `server/migrations/0005_alter_messages.sql:5` has no cascade, and no
  later migration adds one. So the last member of a room with a stored message cannot leave: the
  DELETE is refused and the departure rolls back with it (`Server.LastMemberIsStuck` says exactly
  when, `StuckMember.LoneMemberCannotLeave` is such a run), and no run ever removes a stored message
  or its room (`Server.MessagesAndTheirRoomsStay`).
  The unread count therefore has no term for deleted rooms.
- `crypto/src/identity.rs:60` says that decoding a phrase strips zero bits. It strips eight bits
  whatever they are, so 256 last words decode alike (`Phrase.DecodeAlikeIff`, `Phrase.ReencodeIff`):
  with any list every seed has phrases of different words (`Phrase.TwoPhrasesOneSeed`).
- `server/src/store.rs:84-91` and `server/src/store.rs:204-208` rely on message ids, and timestamps,
  reaching the table in increasing order. Id and timestamp are drawn before the insert
  (`server/src/ws.rs:1357-1358`), and another Send can draw and insert in between.
  `Replay.ReconnectExact`, `Receipts.InsertKeepsPrefixIff` and `Receipts.MarkerCountsUnreadIff` say
  exactly when each promise holds. `LostMessages.LateSendIsLost` is a run of two overlapping Sends in
  which the client loses a message, `UnreadGap.LateSendBreaksUnread` one after which the reads are not
  a prefix and the marker hides an unread message; nothing fails in either.
- `server/src/ws.rs:979-983` skips a replayed row when the lookup of its sender fails, and goes on
  with the next. The client's largest id then passes the skipped message, which
  `server/src/store.rs:83-92` promises to return. `ClientMessages.FaultedRowIsLostIff` says exactly
  when the message is lost, `LostMessages.FaultedLookupLosesMessage` is a run with that one failure.
- A session is registered for live frames (`server/src/ws.rs:188`) before its client can ask for the
  messages it missed. A live frame that comes first moves the largest id past them, even with ids
  in order and without failures: `LostMessages.LiveFrameLosesMessage` is such a run,
  `ClientMessages.OrderedClientNeverGappedIff` says that this is then the only way to lose one.

## Assumptions

- A database transaction is one atomic step (except in `PartnerLocks`), and a failed one changes
  nothing. `PartnerLocks` excludes deadlocks among `set_partner_link` calls only: inserts into other
  tables lock the account rows they refer to, which is not modelled. Accounts are never deleted; a
  username stands for its account, and an account is registered before a link names it.
- Room ids, message ids and invite tokens are never generated twice. Distinct canonical tokens have
  distinct hashes, distinct keys distinct base64 forms. Signature verification is an input of a step.
- Message ids and watermarks are numbers: the strings of one run embed in them in their order.
  Message bodies are sequences of bytes. Room members come in the order they joined.
- The word list is any list of 2048 distinct words of lowercase letters, as the literal list is;
  `to_lowercase` is any function that leaves lowercase letters and dashes alone.
- Shifts and masks are on unbounded numbers; every value stays within its machine width, and `|` of
  operands without common bits is a sum.

## Model

| member | source | states |
|---|---|---|
| Tables.LeaveRoomFailsIff | server/src/rooms.rs:368-395 | leaving fails if and only if the leaver is the only member of a room with a message; otherwise the leaver is out and nobody else's membership changes |
| Tables.LeaveRoomTakes | server/migrations/0006_v0_3_partner_and_bot.sql:46-47 | a departure deletes the room exactly when nobody else is left, and with it exactly the invites bound to that room, pending or consumed; every other invite, room, link, account and message stays |
| Tables.LinkSucceedsIff | server/src/rooms.rs:249-309 | where partners are mutual, a link succeeds if and only if both accounts are registered, distinct, and both free or already each other's partner; then they are linked, nothing else changes, and linking them again in either order changes nothing |
| Tables.NewRoomSeats | server/src/rooms.rs:312-348 | a new room has exactly the host and the given partner, once each, and no other room changes |
| Tables.JoinAdds | server/src/ws.rs:888-902 | the consumer's join adds one member to one room, once, and changes nothing else |
| Database.Database.SetPartnerLink | server/src/rooms.rs:258-309 | the transaction, row by row and update by update, succeeds where partners are mutual exactly for two free accounts or two linked ones, links them, touches no other entry and nothing at all when it fails; it has the outcome and the effect of the one-step link |
| Database.Database.CreateRoomWithMembers | server/src/rooms.rs:323-348 | the transaction seats exactly the host and the partner in a new room, or changes nothing |
| Database.Database.CreateInviteRecord | server/src/invites.rs:60-84 | on success the new invite is pending until its expiry and the inviter's only unconsumed one; consumed invites and those of others are untouched, and there are no further ones; on failure nothing changes |
| Database.Database.MarkConsumed | server/src/invites.rs:119-134 | the invite is consumed at every later time, with the first stamp it ever got; calling again changes nothing; no invite appears or goes, and no other one's state changes |
| Database.Database.LeaveRoom | server/src/rooms.rs:368-395 | fails exactly for the only member of a room with a message; otherwise removes the member, deletes the room exactly when nobody else is left and then exactly the invites bound to it, and reports that; all else stays |
| Database.Database.InsertMany | server/src/store.rs:57-81 | all or none: succeeds exactly if every room and account exists; then each message's key is present, the old rows are unchanged, and the new ones are unread and the first with their key |
| Database.Database.MarkRead | server/src/store.rs:149-176 | stamps exactly the unread rows addressed to the reader in that room, from someone else, up to and including the watermark, leaving none of those unread; a pair is returned exactly when some row with that id and sender had no stamp before and has one now |
| Queries.InsertManyDoes | server/src/store.rs:62-81 | whatever keys are present, the old rows stay, the key stays unique, every message's key is there afterwards, and a new row is unread and the first message with its key |
| Queries.MarkReadDoes | server/src/store.rs:149-176 | exactly the unread rows from others addressed to the reader in the room up to and including the watermark are stamped, none of those is unread afterwards, and a second call reports and changes nothing |
| Queries.ReplayReturns | server/src/store.rs:83-147 | the replay query returns every row of that room and recipient past the watermark, once each, by rising id, with a read flag that says exactly whether another recipient's row of that message has a stamp |
| Queries.ReadSentReturns | server/src/store.rs:178-202 | the backfill query returns the ids of the sender's rows in the room that another account has read, ascending |
| Queries.MarkerReturns | server/src/store.rs:204-226 | the marker is the largest timestamp of the rows from others the reader has read in the room, and none exactly if there is no such row |
| Queries.BadgeReturns | server/src/store.rs:228-241 | the badge is the number of the account's unread rows from others, over all rooms |
| Outcomes.LookupOutcome | server/src/ws.rs:790-823 | the lookup step goes on exactly with an invite that exists, is not consumed and not past its expiry, and a valid signature; each other case gets its own error, consumed before expired before the signature |
| Outcomes.InviterOutcome | server/src/ws.rs:825-836 | the inviter must exist and not be the consumer, each with its own error |
| Outcomes.LinkOutcome | server/src/ws.rs:838-869 | the link step goes on exactly if the two accounts are free or each other's partner, and is a monogamy violation otherwise |
| Outcomes.RoomOutcome | server/src/ws.rs:872-887 | the consumer goes on with the room its invite is bound to, and to a new one exactly if there is none |
| Outcomes.CreateOutcome | server/src/ws.rs:874-884 | the room made for an unbound invite is the inviter's alone |
| Outcomes.JoinOutcome | server/src/ws.rs:888-902 | the consumer is a member afterwards, and nobody else's membership changes, unless the room is gone |
| Outcomes.MarkOutcome | server/src/ws.rs:904-906 | the consumer is paired whether or not there was still an invite to stamp, and only an unstamped one is |
| Outcomes.InviteCheckOutcome | server/src/ws.rs:729-744 | only an account without a partner goes on to an invite |
| Outcomes.InviteWriteOutcome | server/src/invites.rs:60-84 | a new invite lives for one hour; of the issuer's others exactly the consumed ones stay, and all others |
| Outcomes.RoomInviteOutcome | server/src/ws.rs:1669-1685 | the same for the invite of a new room, bound to it |
| Outcomes.RoomCheckOutcome | server/src/ws.rs:1641-1657 | the partner is looked up exactly when one is asked for |
| Outcomes.RoomWriteOutcome | server/src/ws.rs:1640-1690 | a new room seats its creator and the partner found, and only a creator who asked for a partner and had none goes on to an invite |
| Outcomes.SendCheckOutcome | server/src/ws.rs:1308-1327 | sizes are checked before membership, and each gives its own error |
| Outcomes.RosterOutcome | server/src/ws.rs:1328-1358 | the roster is the room's members with their registered keys; the Send goes on exactly if its bodies are addressed to all the others and at most itself, with the id and time drawn then |
| Outcomes.SendWriteOutcome | server/src/ws.rs:1395-1399 | the insert fails only if a room or account is gone, and then changes nothing; otherwise every row's key is present and the old rows stay |
| Outcomes.MemberOutcome | server/src/ws.rs:1056-1067 | LeaveRoom, MarkRead and Subscribe go on exactly for a member, and answer UnknownRoom otherwise |
| Outcomes.MarkReadOutcome | server/src/ws.rs:1068-1075 | the writing step of MarkRead stamps exactly the rows its statement selects |
| Outcomes.FaultOutcome | server/src/ws.rs:904-906 | a failed call ends a handler with the code's error, except that a consumer whose invite could not be stamped is paired, a replayed row is skipped, and a Subscribe goes without its Read frame |
| Gates.InviteWasPending | server/src/ws.rs:790-836 | in any run a ConsumeInvite at or past its inviter lookup took its lookup step when the invite existed, was not consumed, not past its expiry, and the signature was valid, and acts for the inviter found there |
| Gates.RoomIsTheInvites | server/src/ws.rs:872-887 | the room a consumer joins is the one its invite was bound to when it looked, or one its own step made |
| Gates.InviteWasUnbound | server/src/ws.rs:872-887 | a consumer makes a room only after it found its invite bound to none, or gone |
| Gates.ConsumerJoined | server/src/ws.rs:888-906 | every paired consumer was put into its room |
| Gates.WasMember | server/src/ws.rs:950-964 | every LeaveRoom, Send, MarkRead and Subscribe past its membership check made it when its account was a member of the room |
| Gates.SendsAreSmall | server/src/ws.rs:1308-1315 | a Send past its checks has at most 16 bodies, none longer than 98304 bytes |
| Gates.RosterWasRead | server/src/ws.rs:1328-1358 | a Send about to store its rows read the roster when it was the room's members with their registered keys, with bodies addressed to all of them, and drew its id and timestamp there |
| Gates.IssuerWasFree | server/src/ws.rs:729-744 | a CreateInvite about to issue an invite saw its account without a partner |
| Gates.PartnerWasLookedUp | server/src/ws.rs:1641-1657 | a CreateRoom seats the partner its account had at the check, if it asked for one |
| Gates.RoomWasMade | server/src/ws.rs:1669-1685 | a CreateRoom mints an invite only for the room it has just made, and only if it asked for a partner and found none |
| Gates.InviteWasIssued | server/src/invites.rs:52-84 | every invite was issued by its inviter's CreateInvite, bound to no room, or CreateRoom, bound to the room it made, for one hour from then |
| Invariant.GrowsTransitive | server/src/rooms.rs:283-307 | what never shrinks over one step (links, histories, messages, consumption stamps) never shrinks over many |
| Invariant.HandlerOkStable | server/src/ws.rs:789-906 | what a suspended handler has established stays true whatever the others do meanwhile |
| Preservation.LinkNeverHitsAnIndex | server/src/rooms.rs:283-307 | under the invariant neither UPDATE can violate the unique index, nor the CHECK for distinct accounts |
| Preservation.StepKeepsTables | server/src/ws.rs:842-903 | every step of every handler keeps the table invariant, and links, histories, messages and stamps only grow |
| Preservation.StepKeepsHandler | server/src/ws.rs:789-906 | every step leads a handler to a point where what that point relies on holds; what it must have found to get there is in `Outcomes` and `Gates` |
| Server.NextKeeps | server/src/ws.rs:765-940 | every event, a failing database call included, keeps the invariant of the whole system |
| Server.RoomsHoldOnlyPartners | server/src/ws.rs:842-903 | in every reachable state a room has one or two members, and two members of a room are each other's linked partner |
| Server.LinksAreAMatchingForLife | server/src/rooms.rs:258-309 | whoever was anyone's partner at some point of a run still is, mutually, and is never the account itself |
| Server.IndexBackstopIsNeverHit | server/src/ws.rs:842-869 | in no run does the link step of a ConsumeInvite end in a unique or CHECK violation, so the 23505 arm is dead |
| Server.OneAccountPerInvite | server/src/ws.rs:789-906 | any handlers past the link step for one invite act for the same account, though check and consumption are separate steps |
| Server.ConsumedInviterIsPaired | server/src/ws.rs:842-906 | the inviter of a consumed invite has a partner |
| Server.ConsumptionIsFinal | server/src/invites.rs:119-134 | the first consumption stamp is never overwritten; a consumed invite disappears only with its room |
| Server.StoppedBeforeLinkWroteNothing | server/src/ws.rs:838-869 | a ConsumeInvite that is at or was refused at or before the link step has changed no table |
| Server.AtMostOneOutstandingInvite | server/src/invites.rs:60-84 | no inviter ever has two unconsumed invites |
| Server.MessagesAndTheirRoomsStay | server/migrations/0005_alter_messages.sql:5 | a stored message is there for the rest of the run, unchanged but for its read stamp, and so is its room, with a member |
| Server.LastMemberIsStuck | server/src/rooms.rs:364-395 | in any run a LeaveRoom fails if and only if the leaver is the single member of a room with a message, and a failed one changes nothing |
| Server.MessagesStayBetweenPartners | server/src/ws.rs:1359-1393 | every stored copy belongs to its sender or to the sender's partner |
| Server.SendStoresOneCopyEach | server/src/ws.rs:1336-1399 | a Send that gets through appends exactly one unread row per other member of the roster it read, with that member's body, at most a self-copy besides, and no two rows for one recipient, all with the id and timestamp it drew before, whatever was stored since |
| Server.IncomingIsNeverFlagged | server/src/store.rs:99-147 | in every reachable table the computed read flag of an incoming row is clear, since only its reader could have set it |
| Server.BadgeIsConserved | server/src/store.rs:228-241 | in every run the unread count is what arrived for the account minus what its own MarkReads flipped |
| Server.EachMessageIsReadOnce | server/src/store.rs:154-176 | over a run a (message, reader) row is reported as newly read once if it is read and never otherwise |
| Subscriptions.RowsAreSentUnlessFaulted | server/src/ws.rs:968-995 | in any run a finished Subscribe has sent exactly the replayed rows whose sender lookup did not fail, in order; it has sent them all if and only if none failed |
| Subscriptions.SentFramesAreTrue | server/src/store.rs:99-147 | every frame a finished Subscribe sent is a stored message for its account in its room past its watermark, and a self-copy carries the read flag exactly when somebody had read it in the table the query saw |
| Subscriptions.SenderExists | server/src/ws.rs:979-983 | a stored message's sender exists, so a row is skipped for a failed lookup only |
| Subscriptions.BackfillNamesTheReader | server/src/ws.rs:1011-1025 | a finished Subscribe has sent the backfilled Read frame if and only if neither read-state query failed and somebody had read one of my messages, so the no-partner arm is dead; the account it names read every listed message and holds every other copy of mine |
| Subscriptions.SubscribeKeepsSound | server/src/ws.rs:968-1025 | whatever fails, a Subscribe never makes a device show as read what nobody has read |
| Subscriptions.SubscribeSyncsReadState | server/src/ws.rs:968-1025 | after a Subscribe from any watermark whose read-state queries answered, a device that shows no unread message as read shows each self-copy read exactly as the database has it, whether or not its row was replayed or skipped |
| ClientMessages.SeenIsATable | server/src/ws.rs:942-978 | the replay query of a Subscribe sees the table of some moment of the run after the Subscribe was asked |
| Client.ClientIsSound | server/src/ws.rs:968-1092 | a device that starts empty never shows as read what nobody has read, whichever replayed, backfilled and live frames of a run reach it, failed calls included |
| Client.ClientShowsReadState | server/src/ws.rs:968-1092 | of its own messages such a device shows every one read by the time of any Subscribe whose read-state queries answered and whose Read frame arrived, and none that is not read now; nothing is assumed of the device |
| ClientMessages.NeverGappedIff | server/src/store.rs:83-92 | no stored message is ever missing below the device's largest id if and only if every message frame that reaches it, replayed or live, finds all stored messages for it of lower id held |
| ClientMessages.GaplessClientHoldsReplay | server/src/store.rs:83-147 | such a device holds exactly the full replay of the present table up to its largest id: each message once, in id order |
| ClientMessages.LostForGoodIff | server/src/store.rs:83-147 | a message missing below the largest id stays so unless it comes live or from a Subscribe asked before: no later Subscribe brings it |
| ClientMessages.HeldIff | server/src/store.rs:83-147 | after a Subscribe without failed lookups whose frames all arrived, a message its query saw is held if and only if it was not missing below the largest id when asked, or came otherwise |
| ClientMessages.OrderedClientNeverGappedIff | server/src/ws.rs:968-995 | with the room's ids committed in order and no failed lookup, no message is ever missing below the largest id if and only if no live frame came before a stored message of lower id was held |
| ClientMessages.ReconnectingClientIsComplete | server/src/store.rs:83-147 | under these conditions a device that subscribes at any moments, receiving its frames in full or in part, holds exactly the messages for it up to its largest id, once each, in id order, and all that any completed Subscribe saw |
| ClientMessages.StoredBeforeAskingIsHeld | server/src/store.rs:83-147 | everything stored for the device when it asked, and not missing below its largest id then, is held once the Subscribe is complete |
| ClientMessages.FaultedRowIsLostIff | server/src/ws.rs:979-983 | a replayed row whose sender lookup failed is passed over, for any device, if and only if a later row of the same Subscribe got through; otherwise the next Subscribe asks for it again |
| StuckMember.LoneMemberCannotLeave | server/src/rooms.rs:364-395 | a run without failures, for every account, in which the single member of a room with a message gets an internal error from LeaveRoom and stays |
| LostMessages.LateSendIsLost | server/src/ws.rs:1357-1395 | a run without failures in which a Send draws its id, one of higher id is stored and replayed, and the first is stored then; a Subscribe asked after that and answered completely does not bring it, and it is lost |
| LostMessages.FaultedLookupLosesMessage | server/src/ws.rs:979-983 | a run with ids committed in order whose only failure is one sender lookup; the message was stored before both Subscribes were asked, the second is complete, and the message is lost |
| LostMessages.LiveFrameLosesMessage | server/src/ws.rs:1400-1450 | a run without failures and with ids committed in order in which a live frame comes before the client's first Subscribe, which is complete and does not bring a message stored before it was asked |
| UnreadGap.LateSendBreaksUnread | server/src/ws.rs:1357-1395 | a run of two linked partners without failures after which the reader's reads are not a prefix in id order and counting above the marker gives less than the unread count |
| OrderedRuns.ReadsAreAPrefix | server/src/store.rs:149-176 | in a run that commits the room's ids in order, a reader's read incoming messages there are a prefix in id order, whatever watermarks MarkRead was given |
| OrderedRuns.MarkerGivesUnreadCount | server/src/store.rs:204-226 | with timestamps following ids too, counting incoming messages newer than the marker gives the unread count |
| PartnerLocks.StepRefinesAtomic | server/src/rooms.rs:258-309 | a step of an interleaved transaction keeps the lock invariant and either ends it with the outcome and links of the one-step version at that moment, or changes no committed link |
| PartnerLocks.IndexNeverBlocks | server/src/rooms.rs:283-307 | the row locks already keep every rival off the unique index, so an UPDATE never waits |
| PartnerLocks.SomeoneCanStep | server/src/rooms.rs:249-269 | while any transaction is unfinished one can step: locking in id order excludes deadlock |
| PartnerLocks.SchedulesAreBounded | server/src/rooms.rs:258-309 | every schedule of steps, rollbacks, new transactions and registrations keeps the invariant and takes at most six steps per transaction |
| PartnerLocks.StuckMeansAllOver | server/src/rooms.rs:258-309 | when no transaction can take a step, every one has ended or was rolled back |
| PartnerLocks.SchedulesAreSerial | server/src/rooms.rs:250-257 | every interleaving, whatever is rolled back and whenever transactions begin, has the outcomes and the final links of running the ended calls one after another |
| PartnerLocks.BeginKeeps | server/src/rooms.rs:259 | a transaction may begin at any moment |
| PartnerLocks.RollBackKeeps | server/src/rooms.rs:258-309 | a transaction may be rolled back at any point: the invariant stays, no link changes, and it holds no lock |
| Store.InsertManyAppends | server/src/store.rs:57-81 | with a fresh message id the conflict clause never fires: every copy is appended, unread |
| Store.InsertManyKeepsValid | server/src/store.rs:62-81 | a Send keeps the key unique, copies of one id alike and self-copies unread, and disturbs no earlier row |
| Store.MarkedKeepsValid | server/src/store.rs:154-176 | so does a MarkRead; it changes nothing but read stamps that were NULL |
| Store.ReplayFacts | server/src/store.rs:93-147 | the messages of the replay are exactly those addressed to the recipient after the watermark, strictly sorted by id |
| Store.FlippedFacts | server/src/store.rs:154-176 | what MarkRead reports are exactly the rows whose stamp it set |
| Replay.ReplaySplits | server/src/store.rs:83-92 | for every watermark, the full replay is its part up to the watermark followed by the replay since it |
| Replay.ReconnectExact | server/src/store.rs:83-147 | a synced client that reconnects with its largest id is synced again if and only if no row was committed for it at or below that id meanwhile |
| Receipts.ReadSentFacts | server/src/store.rs:178-202 | the backfill query lists exactly the ids of my messages that another recipient has read |
| Receipts.BackfillListsFlagged | server/src/store.rs:99-147 | for a self-copy, being in the backfill and the EXISTS behind the replayed read flag, which `Queries.ReplayReturns` says the rows carry, are the same |
| Receipts.SubscribeRestoresReadState | server/src/ws.rs:968-1025 | whichever replayed frames are sent, with the backfilled frame a sound device stays sound and shows each self-copy read exactly as the database has it, though the two queries see different tables |
| Receipts.RelayedAreFlagged | server/src/ws.rs:1069-1092 | every id a MarkRead relays to its sender has been read by another account |
| Receipts.MarkedKeepsPrefix | server/src/store.rs:149-176 | MarkRead with any watermark keeps the read rows of every room and reader a prefix |
| Receipts.InsertKeepsPrefixIff | server/src/ws.rs:1357-1395 | a Send keeps that prefix if and only if its id is above everything its recipient has read in the room |
| Receipts.MarkerIsMaximum | server/src/store.rs:204-226 | the marker is the largest timestamp among the read incoming rows, and absent exactly when there is none |
| Receipts.MarkerCountsUnreadIff | server/src/store.rs:204-226 | counting incoming messages newer than the marker never exceeds the unread count, and equals it if and only if no unread message is as old as the marker |
| Receipts.MarkerCountsUnread | server/src/store.rs:204-226 | it does when reads are a prefix and timestamps follow ids |
| Receipts.UnreadIsConserved | server/src/store.rs:228-241 | over any sequence of Sends and MarkReads the unread count is arrivals minus flips |
| Receipts.EachRowFlipsOnce | server/src/store.rs:154-176 | a row flips at most once, and did so if and only if it is read |
| Receipts.GroupBySender | server/src/ws.rs:1076-1080 | the grouping loop puts every flipped id into the group of its sender, in order, and makes no other group |
| Receipts.GroupsPartition | server/src/ws.rs:1076-1092 | an id is in a sender's group as often as that sender's row flipped: the groups partition the flips |
| FanOut.CheckSizes | server/src/ws.rs:1308-1315 | passes exactly when there are at most 16 bodies and none is longer than 98304 bytes |
| FanOut.BuildRows | server/src/ws.rs:1335-1394 | succeeds exactly when every other member's key has a body and every body is for such a key or the sender's own; then the skipping arm is dead and the rows are the message's copies |
| FanOut.FanOutExact | server/src/ws.rs:1336-1394 | each other member in the roster gets exactly one copy with the body addressed to its key, the sender one if a self-copy was sent, nobody else any |
| FanOut.RowsMatchBodies | server/src/ws.rs:1336-1394 | with distinct member keys rows and bodies correspond one to one: every body is stored in exactly one row, that of the owner of its key, and every row stores exactly one of the bodies |
| FanOut.LiveFrames | server/src/ws.rs:1400-1450 | the delivery loops queue one frame per stored row, with the same recipient, id, sender, timestamp and body |
| FanOut.LiveFrameMatchesReplay | server/src/ws.rs:1400-1450 | every later replay to the recipient contains the message of the live frame, unaltered |
| RateLimiter.WindowRateLimiter.constructor | server/src/ws.rs:1490-1497 | a new limiter has no recorded calls |
| RateLimiter.WindowRateLimiter.Allow | server/src/ws.rs:1499-1515 | answers yes exactly when fewer than the maximum of all calls ever allowed lie in the closed window ending now, and records exactly those |
| RateLimiter.NeverMoreThanMax | server/src/ws.rs:1457-1481 | no closed interval of the window's length, wherever it lies, holds more than the maximum of allowed calls |
| RateLimiter.BurstsAreSpaced | server/src/ws.rs:1457-1481 | any allowed call and the one the maximum further on are more than a window apart |
| RateLimiter.LimiterKeepsRate | server/src/ws.rs:1484-1516 | any limiter in use has that rate, and a sorted deque no longer than the maximum |
| Calls.PendingCalls.Insert | server/src/calls.rs:44-52 | a later take returns the entry behind the callee's earlier ones exactly if it comes before the expiry; other callees' takes are unaffected |
| Calls.PendingCalls.TakeFor | server/src/calls.rs:54-61 | returns the callee's entries at exactly the positions not yet expired, each once and in order; afterwards the callee has none and every other callee what it had |
| Calls.PendingCalls.Remove | server/src/calls.rs:63-73 | of the callee's entries exactly those of other calls stay, each once and in order, and no callee is left listed without an entry |
| Calls.FilterLive | server/src/calls.rs:58 | the filter keeps exactly the unexpired positions, in order |
| Calls.RetainOthers | server/src/calls.rs:68 | the retain keeps exactly the positions of other calls, in order |
| Calls.PendingCalls.ExpireDue | server/src/calls.rs:75-81 | every callee keeps exactly its unexpired entries, and no callee is left listed without an entry |
| Calls.SweepingIsUnobservable | server/src/calls.rs:75-81 | deleting every sweep from a run with a monotone clock changes no result of any take, nor their order |
| Calls.TakenAtMostOnce | server/src/calls.rs:54-61 | counting repeats, a callee is never handed more than was held for it |
| Calls.HungUpIsNeverDelivered | server/src/ws.rs:656-668 | after the caller's hangup the call is not delivered, call ids being fresh |
| Calls.DeliveredInTime | server/src/ws.rs:613-625 | in any run with a monotone clock, whatever a take returns was held for that callee by an earlier event, less than 45 seconds before |
| Calls.NextConnectDelivers | server/src/ws.rs:613-625 | and the callee's next connect returns every held call that was not hung up on before and is less than 45 seconds old |
| Routing.Routing.Register | server/src/routing.rs:22-31 | adds one session to the user's list and keeps the map free of empty lists |
| Routing.Routing.Unregister | server/src/routing.rs:33-43 | drops exactly that session, the user with the last one |
| Routing.Routing.IsOnline | server/src/routing.rs:45-48 | key presence means that a session is listed |
| Routing.Routing.Deliver | server/src/routing.rs:50-65 | appends the frame once to the queue of every open listed session, leaves every other queue alone, and returns the number of those sessions |
| PresenceModel.QueueAfterConnect | server/src/ws.rs:1196-1243 | a connect queues one frame to the fresh session and one to each session of the partner, nothing else |
| PresenceModel.LastFrameTellsTheTruth | server/src/ws.rs:1196-1291 | in every run of serialized connects and disconnects the last Presence frame queued to an open session, if any, is about its user's partner and says whether the partner has a session |
| PresenceModel.ConnectInforms | server/src/ws.rs:1229-1243 | a paired user's fresh session has been told so at once |
| Heartbeat.SessionLoop | server/src/ws.rs:211-248 | the session ends at the first tick that finds it silent for more than 40 seconds |
| Heartbeat.ClosedWithinOneInterval | server/src/ws.rs:62-68 | a session silent since s is closed after s + 40 s and no later than s + 55 s |
| Heartbeat.SilentSessionIsClosed | server/src/ws.rs:62-68 | and it is closed: no run with ticks on time gets past s + 55 s without a closing tick |
| Heartbeat.AnsweringClientIsKept | server/src/ws.rs:62-68 | a client that answers every ping in under 30 seconds is never timed out, however long the run |
| Words.SplitJoin | crypto/src/identity.rs:76-80 | splitting at a separator undoes joining with it |
| Words.JoinSplit | crypto/src/invite.rs:94 | joining with a dash undoes splitting at dashes |
| Words.BuildLookup | crypto/src/invite.rs:117-128 | the table maps exactly the words of the list, each to its index |
| Words.IndicesFailIff | crypto/src/identity.rs:92-95 | the lookup of the words fails exactly when one is unknown, with the first unknown word |
| Words.SplitWhitespaceRuns | crypto/src/identity.rs:80 | the words of a phrase are exactly its maximal runs without whitespace, in order, wherever the whitespace is |
| Words.TrimTakes | crypto/src/invite.rs:91 | trimming takes away all whitespace at both ends and nothing else |
| Phrase.SeedToPhrase | crypto/src/identity.rs:55-77 | the bit loop writes the words of the seed's bits and eight zeros, in groups of eleven |
| Phrase.PhraseToSeed | crypto/src/identity.rs:79-103 | the bit loops give the first 256 bits of the indices' bits, or the error of the first check that fails |
| Phrase.SeedRoundTrip | crypto/src/identity.rs:55-103 | every 32-byte seed is read back from its phrase |
| Phrase.AcceptedIff | crypto/src/identity.rs:79-95 | a phrase is accepted exactly when it has 24 words, all in the list |
| Phrase.DecodeAlikeIff | crypto/src/identity.rs:55-103 | two accepted phrases decode alike if and only if their first 23 indices agree and the last ones agree in their top three bits |
| Phrase.PhraseWithStripped | crypto/src/identity.rs:55-103 | with any list every seed has an accepted phrase for each of the 256 values of the stripped bits |
| Phrase.TwoPhrasesOneSeed | crypto/src/identity.rs:60 | with any list every seed is decoded from two phrases of different words, only one of which encoding gives back |
| Phrase.ReencodeIff | crypto/src/identity.rs:55-103 | encoding the decoded seed gives the phrase's words back if and only if the last index is a multiple of 256 |
| InviteCode.CanonicalToken | crypto/src/invite.rs:44-59 | the token's bits are the 44 bits of the code followed by zeros |
| InviteCode.N44FromTokenPrefix | crypto/src/invite.rs:61-70 | the number has the first 44 bits of the token |
| InviteCode.EncodeCode | crypto/src/invite.rs:72-88 | the shifts and masks pick the four groups of eleven of the first 44 bits |
| InviteCode.DecodeCode | crypto/src/invite.rs:90-115 | the token carries the bits of the four indices, or the error is that of the first check that fails |
| InviteCode.DecodeEncode | crypto/src/invite.rs:72-115 | for every 32-byte token, decoding its code keeps the top 44 bits and zeroes the rest |
| InviteCode.EncodeDecode | crypto/src/invite.rs:72-115 | for every accepted code, encoding its token gives the code trimmed and lowercased |
| InviteCode.AcceptedIff | crypto/src/invite.rs:90-112 | a code is accepted exactly when it has four parts between dashes, all in the list |
| InviteCode.SameTokenIff | crypto/src/invite.rs:90-115 | two accepted codes give the same token if and only if they are equal after trimming and lowercasing |

## Left out

- Isolation levels and crash recovery of Postgres: a transaction is one atomic step.
- "One room per invite": not claimed. Two consumers of one unbound invite on the same account's devices can each create a room, and a failed `mark_consumed` is only logged.
- The marker query at the end of Subscribe is modelled on its own (`Store.NewestReadIncomingTs`), not as a step.
- The connections of a client: replayed frames of one Subscribe come in order, live frames at any time or never, which includes every order and loss that a closing connection can cause, and more.
- The interleaving of the awaits inside a presence announcement: with it, the last frame can be stale, so presence is stated for serialized connects and disconnects.
- PresenceModel.LastFrameTellsTheTruth: leaves out sessions whose receiver is gone but that are still registered, and the last-seen times and profiles sent along.
- Heartbeat.SessionLoop: leaves out the other ends of a session (a closed or failed socket) and delayed ticks; ticks come on time and handlers take no time.
- Calls.HungUpIsNeverDelivered: call ids are chosen by clients; the lemma requires that the id is not held again after the hangup.
- Which frames a handler sends back or broadcasts besides the ones above, error texts, room names and their length check, renaming, typing, profiles, attachments, push notifications: I/O or single updates.
- Decoding of base64 and JSON, the code check before the invite lookup (InviteCode has it), Ed25519, X25519, HKDF, the AEAD and SHA-256: library code.
- Unicode lowercasing itself (a parameter), the literal word list (its properties are the precondition), random generation.
- The handlers work on values of the tables, one step at a time; only the transactions they call are written as methods over mutable tables.
- The Flutter app and the platform shells; the client is an abstract receiver that keeps the messages it received and a set of read ids.
