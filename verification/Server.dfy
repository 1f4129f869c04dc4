/**
 * Whole runs of the server: any number of handlers, interleaved at their awaits in any order, with
 * any of them failing at any point. The theorems hold in every state such a run reaches.
 */
module Server {
  import opened Common
  import opened Store
  import opened Tables
  import opened Handlers
  import opened Invariant
  import opened Preservation
  import FanOut
  import Receipts

  /** `wrote` holds the handlers that changed a table; `writes` the changes of `messages`, in order. */
  datatype System = System(w: World, handlers: map<nat, Handler>, wrote: set<nat>, writes: seq<Receipts.Write>)

  datatype Event =
    | Register(a: AccountId, key: string)
    | Spawn(h: nat, start: Handler)
    | Run(h: nat, env: Env)
    | Fault(h: nat)

  const INIT := System(World(EMPTY, map[], map[], {}), map[], {}, [])

  ghost predicate Active(s: System, h: nat) {
    h in s.handlers && !Handlers.Done(s.handlers[h])
  }

  ghost predicate Enabled(s: System, e: Event) {
    match e
    case Register(a, _) => a !in s.w.t.keys
    case Spawn(h, start) => h !in s.handlers && Initial(start) && start.me in s.w.t.keys
    case Run(h, env) => Active(s, h) && Fresh(s.w, env)
    case Fault(h) => Active(s, h)
  }

  ghost function Next(s: System, e: Event): System
    requires Enabled(s, e)
  {
    match e
    case Register(a, key) => s.(w := s.w.(t := s.w.t.(keys := s.w.t.keys[a := key])))
    case Spawn(h, start) => s.(handlers := s.handlers[h := start])
    case Fault(h) => s.(handlers := s.handlers[h := AfterFault(s.handlers[h])])
    case Run(h, env) =>
      var (w', next) := Step(s.w, s.handlers[h], env);
      System(w', s.handlers[h := next],
             if w'.t == s.w.t then s.wrote else s.wrote + {h},
             s.writes + WriteOf(s.w.t, s.handlers[h], env))
  }

  /** `es` is a run from the empty server. */
  ghost predicate IsRun(es: seq<Event>)
    decreases |es|, 0
  {
    es == [] || (IsRun(es[..|es| - 1]) && Enabled(StateAfter(es[..|es| - 1]), es[|es| - 1]))
  }

  ghost function StateAfter(es: seq<Event>): System
    requires IsRun(es)
    decreases |es|, 1
  {
    if es == [] then INIT else Next(StateAfter(es[..|es| - 1]), es[|es| - 1])
  }

  ghost predicate Inductive(s: System) {
    && Consistent(s.w)
    && (forall h :: h in s.handlers ==> HandlerOk(s.w, s.handlers[h]))
    && s.wrote <= s.handlers.Keys
    && (forall h :: h in s.handlers && NotPastLink(s.handlers[h]) ==> h !in s.wrote)
    && s.w.t.messages == Receipts.Run(s.writes)
    && IdsAreOwned(s.w, s.handlers)
  }

  /** Of the drawn message ids, those waiting to be stored are not stored yet, and each waits once. */
  ghost predicate IdsAreOwned(w: World, handlers: map<nat, Handler>) {
    && (forall h :: h in handlers ==> Storable(w, handlers[h]))
    && (forall h, k :: h in handlers && k in handlers && h != k && handlers[h].SendWrite? && handlers[k].SendWrite? ==>
          handlers[h].id != handlers[k].id)
  }

  lemma OnlyTheseTouchMessages(t: Tables, h: Handler, env: Env)
    requires !Handlers.Done(h) && !h.SendWrite? && !h.MarkWrite?
    ensures Advance(t, h, env).0.messages == t.messages && WriteOf(t, h, env) == []
  {
  }

  lemma {:induction false} WritesAreRecorded(s: System, h: Handler, env: Env)
    requires Consistent(s.w) && HandlerOk(s.w, h) && !Handlers.Done(h) && Storable(s.w, h)
    requires s.w.t.messages == Receipts.Run(s.writes)
    ensures Advance(s.w.t, h, env).0.messages == Receipts.Run(s.writes + WriteOf(s.w.t, h, env))
  {
    if h.SendWrite? {
      SendIsRecorded(s, h, env);
    } else if h.MarkWrite? {
      var w := Receipts.Read(h.room, h.me, h.upTo, env.now);
      assert WriteOf(s.w.t, h, env) == [w];
      Receipts.RunAppends(s.writes, w);
    } else {
      OnlyTheseTouchMessages(s.w.t, h, env);
      assert s.writes + [] == s.writes;
    }
  }

  lemma {:induction false} SendIsRecorded(s: System, h: Handler, env: Env)
    requires Consistent(s.w) && HandlerOk(s.w, h) && h.SendWrite? && Storable(s.w, h)
    requires s.w.t.messages == Receipts.Run(s.writes)
    ensures Advance(s.w.t, h, env).0.messages == Receipts.Run(s.writes + WriteOf(s.w.t, h, env))
  {
    if Advance(s.w.t, h, env).1.Finished? {
      var w := Receipts.Sent(SentCopies(s.w.t, h));
      SendAppends(s.w, h, env);
      assert WriteOf(s.w.t, h, env) == [w];
      Receipts.RunAppends(s.writes, w);
    } else {
      assert s.writes + [] == s.writes;
    }
  }

  lemma SendAppends(w: World, h: Handler, env: Env)
    requires Consistent(w) && HandlerOk(w, h) && h.SendWrite? && Storable(w, h) && Advance(w.t, h, env).1.Finished?
    ensures Advance(w.t, h, env).0.messages == w.t.messages + NewRows(SentCopies(w.t, h))
    ensures forall i :: 0 <= i < |SentCopies(w.t, h)| ==> SentCopies(w.t, h)[i].id == h.id
  {
    CopiesAppend(w, h);
  }

  /** Only a Send stores a message id, its own. */
  lemma StoredIds(w: World, h: Handler, env: Env, id: MessageId)
    requires Consistent(w) && HandlerOk(w, h) && !Handlers.Done(h) && Storable(w, h)
    requires FreshId(w.t.messages, id) && (h.SendWrite? ==> h.id != id)
    ensures FreshId(Advance(w.t, h, env).0.messages, id)
  {
    if h.SendWrite? {
      if Advance(w.t, h, env).1.Finished? {
        SendAppends(w, h, env);
      }
    } else if h.MarkWrite? {
      var m' := Marked(w.t.messages, h.room, h.me, h.upTo, env.now);
      assert forall i :: 0 <= i < |m'| ==> m'[i].msg == w.t.messages[i].msg;
    } else {
      OnlyTheseTouchMessages(w.t, h, env);
    }
  }

  /** A drawn id is new, so it is neither stored nor waiting. */
  lemma DrawnIsNew(w: World, h: Handler, env: Env)
    requires Consistent(w) && !Handlers.Done(h) && Fresh(w, env)
    ensures var h' := Step(w, h, env).1; h'.SendWrite? ==> h'.id == env.id && FreshId(Step(w, h, env).0.t.messages, env.id)
  {
    forall i | 0 <= i < |w.t.messages| ensures w.t.messages[i].msg.id != env.id {
      assert RowOk(w, w.t.messages[i].msg);
    }
    if Step(w, h, env).1.SendWrite? {
      OnlySendsWait(w.t, h, env);
    }
  }

  lemma OnlySendsWait(t: Tables, h: Handler, env: Env)
    requires !Handlers.Done(h) && Advance(t, h, env).1.SendWrite?
    ensures h.SendRoster? && Advance(t, h, env).0 == t && Advance(t, h, env).1.id == env.id
  {
  }

  lemma WaitingStayStorable(s: System, h: nat, env: Env, k: nat)
    requires Inductive(s) && Enabled(s, Run(h, env)) && k in s.handlers && k != h
    ensures Storable(Step(s.w, s.handlers[h], env).0, s.handlers[k])
  {
    if s.handlers[k].SendWrite? {
      assert Storable(s.w, s.handlers[k]) && Storable(s.w, s.handlers[h]);
      StoredIds(s.w, s.handlers[h], env, s.handlers[k].id);
    }
  }

  lemma WaitingStayDistinct(s: System, h: nat, env: Env, k: nat)
    requires Inductive(s) && Enabled(s, Run(h, env)) && k in s.handlers && k != h
    requires s.handlers[k].SendWrite? && Step(s.w, s.handlers[h], env).1.SendWrite?
    ensures s.handlers[k].id != Step(s.w, s.handlers[h], env).1.id
  {
    assert HandlerOk(s.w, s.handlers[k]);
    OnlySendsWait(s.w.t, s.handlers[h], env);
  }

  lemma IdsStayOwned(s: System, h: nat, env: Env)
    requires Inductive(s) && Enabled(s, Run(h, env))
    ensures IdsAreOwned(Step(s.w, s.handlers[h], env).0, s.handlers[h := Step(s.w, s.handlers[h], env).1])
  {
    var (w', c') := Step(s.w, s.handlers[h], env);
    DrawnIsNew(s.w, s.handlers[h], env);
    forall k | k in s.handlers && k != h ensures Storable(w', s.handlers[k]) {
      WaitingStayStorable(s, h, env, k);
    }
    forall k | k in s.handlers && k != h && s.handlers[k].SendWrite? && c'.SendWrite?
      ensures s.handlers[k].id != c'.id
    {
      WaitingStayDistinct(s, h, env, k);
    }
  }

  lemma {:induction false} RunKeeps(s: System, h: nat, env: Env)
    requires Inductive(s) && Enabled(s, Run(h, env))
    ensures Inductive(Next(s, Run(h, env))) && Grows(s.w, Next(s, Run(h, env)).w)
  {
    var s' := Next(s, Run(h, env));
    assert Storable(s.w, s.handlers[h]);
    IdsStayOwned(s, h, env);
    StepKeepsTables(s.w, s.handlers[h], env);
    StepKeepsHandler(s.w, s.handlers[h], env);
    WritesAreRecorded(s, s.handlers[h], env);
    OthersStay(s, s', h);
    if NotPastLink(s'.handlers[h]) {
      StepsBeforeLinkOnlyRead(s.w, s.handlers[h], env);
    }
  }

  /** Up to the link step a consume handler only reads, and so does the link step when it refuses. */
  lemma StepsBeforeLinkOnlyRead(w: World, h: Handler, env: Env)
    requires !Handlers.Done(h) && NotPastLink(Step(w, h, env).1)
    ensures NotPastLink(h) && Step(w, h, env).0.t == w.t
  {
    if !InConsumeInvite(h) {
      OthersNeverLink(w.t, h, env);
    }
  }

  lemma OthersNeverLink(t: Tables, h: Handler, env: Env)
    requires !Handlers.Done(h) && !InConsumeInvite(h)
    ensures !NotPastLink(Advance(t, h, env).1)
  {
  }

  lemma {:induction false} OthersStay(s: System, s': System, h: nat)
    requires Inductive(s) && Consistent(s'.w) && Grows(s.w, s'.w)
    requires forall k :: k in s'.handlers && k != h ==> k in s.handlers && s'.handlers[k] == s.handlers[k]
    ensures forall k :: k in s'.handlers && k != h ==> HandlerOk(s'.w, s'.handlers[k])
  {
    forall k | k in s'.handlers && k != h ensures HandlerOk(s'.w, s'.handlers[k]) {
      HandlerOkStable(s.w, s'.w, s.handlers[k]);
    }
  }

  lemma StartIsOk(w: World, h: Handler)
    requires Initial(h) && h.me in w.t.keys
    ensures HandlerOk(w, h) && !h.SendWrite?
  {
  }

  lemma RowFaultIsOk(w: World, h: Handler)
    requires HandlerOk(w, h) && h.SubRows?
    ensures HandlerOk(w, AfterFault(h))
  {
    NextRowIsOk(w, h, MessagesForRecipient(h.seen, h.room, h.me, h.since));
    assert AfterFault(h) == AtRow(h.me, h.room, h.since, h.seen, h.next + 1, h.sent);
  }

  lemma FaultIsOk(w: World, h: Handler)
    requires HandlerOk(w, h) && !Handlers.Done(h)
    ensures HandlerOk(w, AfterFault(h))
  {
    if h.SubRows? {
      RowFaultIsOk(w, h);
    }
  }

  lemma FaultOnlyStops(h: Handler)
    requires !Handlers.Done(h)
    ensures NotPastLink(AfterFault(h)) ==> NotPastLink(h)
    ensures !AfterFault(h).SendWrite?
  {
  }

  lemma GrowsReflexive(w: World)
    ensures Grows(w, w)
  {
  }

  /** A handler put at a point where it waits for no insert owns no id. */
  lemma OthersOwnTheirs(w: World, handlers: map<nat, Handler>, h: nat, c: Handler)
    requires IdsAreOwned(w, handlers) && !c.SendWrite?
    ensures IdsAreOwned(w, handlers[h := c])
  {
  }

  lemma {:induction false} RegisteringKeeps(s: System, a: AccountId, key: string)
    requires Inductive(s) && Enabled(s, Register(a, key))
    ensures Inductive(Next(s, Register(a, key))) && Grows(s.w, Next(s, Register(a, key)).w)
  {
    var s' := Next(s, Register(a, key));
    RegisterKeeps(s.w, a, key);
    forall k | k in s'.handlers ensures HandlerOk(s'.w, s'.handlers[k]) {
      HandlerOkStable(s.w, s'.w, s.handlers[k]);
    }
  }

  lemma {:induction false} SpawnKeeps(s: System, h: nat, start: Handler)
    requires Inductive(s) && Enabled(s, Spawn(h, start))
    ensures Inductive(Next(s, Spawn(h, start))) && Grows(s.w, Next(s, Spawn(h, start)).w)
  {
    GrowsReflexive(s.w);
    OthersStay(s, Next(s, Spawn(h, start)), h);
    StartIsOk(s.w, start);
    OthersOwnTheirs(s.w, s.handlers, h, start);
  }

  lemma {:induction false} FaultKeeps(s: System, h: nat)
    requires Inductive(s) && Enabled(s, Fault(h))
    ensures Inductive(Next(s, Fault(h))) && Grows(s.w, Next(s, Fault(h)).w)
  {
    GrowsReflexive(s.w);
    OthersStay(s, Next(s, Fault(h)), h);
    FaultIsOk(s.w, s.handlers[h]);
    FaultOnlyStops(s.handlers[h]);
    OthersOwnTheirs(s.w, s.handlers, h, AfterFault(s.handlers[h]));
  }

  lemma {:induction false} NextKeeps(s: System, e: Event)
    requires Inductive(s) && Enabled(s, e)
    ensures Inductive(Next(s, e)) && Grows(s.w, Next(s, e).w)
  {
    match e {
      case Register(a, key) => RegisteringKeeps(s, a, key);
      case Spawn(h, start) => SpawnKeeps(s, h, start);
      case Fault(h) => FaultKeeps(s, h);
      case Run(h, env) => RunKeeps(s, h, env);
    }
  }

  lemma {:induction false} RunsAreInductive(es: seq<Event>)
    requires IsRun(es)
    ensures Inductive(StateAfter(es))
  {
    if es == [] {
    } else {
      RunsAreInductive(es[..|es| - 1]);
      NextKeeps(StateAfter(es[..|es| - 1]), es[|es| - 1]);
    }
  }

  lemma {:induction false} RunsGrow(es: seq<Event>, k: nat)
    requires IsRun(es) && k <= |es|
    ensures IsRun(es[..k]) && Inductive(StateAfter(es[..k])) && Grows(StateAfter(es[..k]).w, StateAfter(es).w)
  {
    if k == |es| {
      assert es[..k] == es;
      RunsAreInductive(es);
    } else {
      var front := es[..|es| - 1];
      RunsGrow(front, k);
      assert front[..k] == es[..k];
      RunsAreInductive(front);
      NextKeeps(StateAfter(front), es[|es| - 1]);
      GrowsTransitive(StateAfter(es[..k]).w, StateAfter(front).w, StateAfter(es).w);
    }
  }

  // ---------------------------------------------------------------------------------------------
  // Pairing

  /**
   * A room never holds more than two accounts, and two accounts in one room are each other's
   * linked partner. Every existing room has a member.
   */
  lemma {:induction false} RoomsHoldOnlyPartners(es: seq<Event>, room: RoomId)
    requires IsRun(es) && room in StateAfter(es).w.t.rooms
    ensures var members := StateAfter(es).w.t.rooms[room];
            && 1 <= |members| <= 2
            && NoDuplicates(members)
            && forall a, b :: a in members && b in members && a != b ==>
                 var partner := StateAfter(es).w.t.partner;
                 a in partner && partner[a] == b && b in partner && partner[b] == a
  {
    RunsAreInductive(es);
    var w := StateAfter(es).w;
    var members := w.t.rooms[room];
    assert RoomOk(w, room);
    forall a, b | a in members && b in members && a != b ensures Linked(w.t.partner, a, b) {
      BelongingAreLinked(w, room, a, b);
    }
    var host := w.host[room];
    AtMostTwo(members, host, if host in w.t.partner then w.t.partner[host] else host);
  }

  lemma AtMostTwo(s: seq<AccountId>, x: AccountId, y: AccountId)
    requires NoDuplicates(s) && forall a :: a in s ==> a == x || a == y
    ensures |s| <= 2
  {
    if |s| > 2 {
      OneOfThreeDiffers(s, x, y);
    }
  }

  lemma OneOfThreeDiffers(s: seq<AccountId>, x: AccountId, y: AccountId)
    requires NoDuplicates(s) && |s| > 2
    ensures exists a :: a in s && a != x && a != y
  {
    assert s[0] in s && s[1] in s && s[2] in s;
  }

  /** In every reachable state partners point at each other, nobody at themselves, and links are for good. */
  lemma {:induction false} LinksAreAMatchingForLife(es: seq<Event>, k: nat, a: AccountId)
    requires IsRun(es) && k <= |es| && IsRun(es[..k])
    requires a in StateAfter(es[..k]).w.t.partner
    ensures var p := StateAfter(es[..k]).w.t.partner[a];
            var partner := StateAfter(es).w.t.partner;
            p != a && a in partner && partner[a] == p && p in partner && partner[p] == a
  {
    RunsGrow(es, k);
    RunsAreInductive(es);
  }

  /** Whoever links to whom, the unique index and the CHECK behind the app-level test never fire. */
  lemma {:induction false} IndexBackstopIsNeverHit(es: seq<Event>, h: nat)
    requires IsRun(es) && h in StateAfter(es).handlers && StateAfter(es).handlers[h].ConsumeLink?
    ensures var c := StateAfter(es).handlers[h];
            var r := SetPartnerLink(StateAfter(es).w.t, c.me, c.inviter);
            r != Err(UniqueViolation) && r != Err(CheckViolation)
  {
    RunsAreInductive(es);
    var c := StateAfter(es).handlers[h];
    assert HandlerOk(StateAfter(es).w, c);
    LinkNeverHitsAnIndex(StateAfter(es).w, c.me, c.inviter);
  }

  /** All handlers that ever got past the link step for one invite act for the same account. */
  lemma {:induction false} OneAccountPerInvite(es: seq<Event>, h1: nat, h2: nat)
    requires IsRun(es)
    requires h1 in StateAfter(es).handlers && PastLink(StateAfter(es).handlers[h1])
    requires h2 in StateAfter(es).handlers && PastLink(StateAfter(es).handlers[h2])
    requires ConsumedToken(StateAfter(es).handlers[h1]) == ConsumedToken(StateAfter(es).handlers[h2])
    ensures Consumer(StateAfter(es).handlers[h1]) == Consumer(StateAfter(es).handlers[h2])
  {
    RunsAreInductive(es);
    var s := StateAfter(es);
    WinnerIsThePartner(s.w, s.handlers[h1]);
    WinnerIsThePartner(s.w, s.handlers[h2]);
  }

  lemma WinnerIsThePartner(w: World, h: Handler)
    requires HandlerOk(w, h) && PastLink(h)
    ensures ConsumedToken(h) in w.issued
    ensures Linked(w.t.partner, Consumer(h), w.issued[ConsumedToken(h)])
  {
    if h.Failed? {
      assert HandlerOk(w, h.at);
    }
  }

  /** An invite is only ever consumed once its inviter has a partner. */
  lemma {:induction false} ConsumedInviterIsPaired(es: seq<Event>, token: Token)
    requires IsRun(es) && token in StateAfter(es).w.t.invites && StateAfter(es).w.t.invites[token].consumedAt.Some?
    ensures StateAfter(es).w.t.invites[token].inviter in StateAfter(es).w.t.partner
  {
    RunsAreInductive(es);
    assert InviteOk(StateAfter(es).w, token);
  }

  /** The first consumption stamp is never overwritten; the invite can only go with its room. */
  lemma {:induction false} ConsumptionIsFinal(es: seq<Event>, k: nat, token: Token)
    requires IsRun(es) && k <= |es| && IsRun(es[..k])
    requires token in StateAfter(es[..k]).w.t.invites && StateAfter(es[..k]).w.t.invites[token].consumedAt.Some?
    ensures var invite, t := StateAfter(es[..k]).w.t.invites[token], StateAfter(es).w.t;
            if token in t.invites then t.invites[token] == invite
            else invite.room.Some? && invite.room.value !in t.rooms
  {
    RunsGrow(es, k);
  }

  /** A ConsumeInvite handler that is at its link step, or stopped at or before it, has written nothing. */
  lemma {:induction false} StoppedBeforeLinkWroteNothing(es: seq<Event>, h: nat)
    requires IsRun(es) && h in StateAfter(es).handlers && NotPastLink(StateAfter(es).handlers[h])
    ensures h !in StateAfter(es).wrote
  {
    RunsAreInductive(es);
  }

  /** No inviter has two invites outstanding. */
  ghost predicate OneOutstanding(invites: map<Token, Invite>) {
    forall j, k :: j in invites && k in invites && j != k && invites[j].inviter == invites[k].inviter ==>
      invites[j].consumedAt.Some? || invites[k].consumedAt.Some?
  }

  lemma AdvanceKeepsOneOutstanding(t: Tables, h: Handler, env: Env)
    requires !Handlers.Done(h) && OneOutstanding(t.invites)
    ensures OneOutstanding(Advance(t, h, env).0.invites)
  {
    if !h.InviteWrite? && !h.RoomInvite? && !h.LeaveWrite? && !h.ConsumeMark? {
      InvitesStay(t, h, env);
    }
  }

  lemma InvitesStay(t: Tables, h: Handler, env: Env)
    requires !Handlers.Done(h) && !h.InviteWrite? && !h.RoomInvite? && !h.LeaveWrite? && !h.ConsumeMark?
    ensures Advance(t, h, env).0.invites == t.invites
  {
  }

  /** Issuing an invite revokes the inviter's unconsumed ones, so at most one is ever outstanding. */
  lemma {:induction false} AtMostOneOutstandingInvite(es: seq<Event>)
    requires IsRun(es)
    ensures OneOutstanding(StateAfter(es).w.t.invites)
  {
    if es == [] {
    } else {
      var front, e := es[..|es| - 1], es[|es| - 1];
      AtMostOneOutstandingInvite(front);
      if e.Run? {
        AdvanceKeepsOneOutstanding(StateAfter(front).w.t, StateAfter(front).handlers[e.h], e.env);
      }
    }
  }

  // ---------------------------------------------------------------------------------------------
  // Rooms with messages

  /**
   * Once a message is stored its room stays, with a member in it, and the row stays as it is
   * but for its read stamp: no run deletes a room that has messages.
   */
  lemma {:induction false} MessagesAndTheirRoomsStay(es: seq<Event>, k: nat, i: nat)
    requires IsRun(es) && k <= |es| && IsRun(es[..k])
    requires i < |StateAfter(es[..k]).w.t.messages|
    ensures var row := StateAfter(es[..k]).w.t.messages[i];
            && i < |StateAfter(es).w.t.messages| && StateAfter(es).w.t.messages[i].msg == row.msg
            && row.msg.room in StateAfter(es).w.t.rooms && StateAfter(es).w.t.rooms[row.msg.room] != []
  {
    RunsGrow(es, k);
    RunsAreInductive(es);
    var w := StateAfter(es).w;
    assert RowOk(w, w.t.messages[i].msg);
    assert RoomOk(w, w.t.messages[i].msg.room);
  }

  /** So the last member of a room with a message cannot leave: the step fails and changes nothing. */
  lemma {:induction false} LastMemberIsStuck(es: seq<Event>, h: nat, env: Env)
    requires IsRun(es) && h in StateAfter(es).handlers && StateAfter(es).handlers[h].LeaveWrite?
    ensures var s, c := StateAfter(es), StateAfter(es).handlers[h];
            var (t', c') := Advance(s.w.t, c, env);
            c' == Failed(c, Internal) <==> IsMember(s.w.t, c.room, c.me) && |s.w.t.rooms[c.room]| == 1 && HasMessages(s.w.t, c.room)
    ensures var s, c := StateAfter(es), StateAfter(es).handlers[h];
            Advance(s.w.t, c, env).1 == Failed(c, Internal) ==> Advance(s.w.t, c, env).0 == s.w.t
  {
    RunsAreInductive(es);
    var s, c := StateAfter(es), StateAfter(es).handlers[h];
    if c.room in s.w.t.rooms {
      LeaveRoomFailsIff(s.w.t, c.room, c.me);
      assert RoomOk(s.w, c.room);
      OnlyMember(s.w.t.rooms[c.room], c.me);
    }
  }

  lemma OnlyMember(members: seq<AccountId>, a: AccountId)
    requires NoDuplicates(members) && members != []
    ensures (forall x :: x in members ==> x == a) <==> |members| == 1 && members[0] == a
    ensures |members| == 1 ==> (members[0] == a <==> a in members)
  {
    assert members[0] in members;
    if |members| > 1 {
      assert members[1] in members && members[0] != members[1];
    }
  }

  // ---------------------------------------------------------------------------------------------
  // Messages and read receipts

  /** Every stored copy is the sender's own or the sender's partner's. */
  lemma {:induction false} MessagesStayBetweenPartners(es: seq<Event>, i: nat)
    requires IsRun(es) && i < |StateAfter(es).w.t.messages|
    ensures var msg := StateAfter(es).w.t.messages[i].msg;
            var partner := StateAfter(es).w.t.partner;
            || msg.from == msg.recipient
            || (&& msg.from in partner && partner[msg.from] == msg.recipient
                && msg.recipient in partner && partner[msg.recipient] == msg.from)
  {
    RunsAreInductive(es);
    assert RowOk(StateAfter(es).w, StateAfter(es).w.t.messages[i].msg);
  }

  /** The copy of this Send for one member of the roster it read. */
  ghost function CopyFor(c: Handler, m: FanOut.Member): Message
    requires c.SendWrite? && m.key in c.bodies
  {
    Message(c.id, c.room, c.me, m.account, c.bodies[m.key], c.ts)
  }

  /**
   * A Send that gets through appends, unread, one row for each other member in the roster it read,
   * with the body addressed to that member; besides these at most a self-copy, and no two rows for
   * one recipient. All carry the id and timestamp drawn before, whatever was stored since.
   */
  lemma {:induction false} SendStoresOneCopyEach(es: seq<Event>, h: nat, env: Env)
    requires IsRun(es) && h in StateAfter(es).handlers && StateAfter(es).handlers[h].SendWrite?
    requires Advance(StateAfter(es).w.t, StateAfter(es).handlers[h], env).1.Finished?
    ensures var c, was := StateAfter(es).handlers[h], StateAfter(es).w.t.messages;
            var added := SentCopies(StateAfter(es).w.t, c);
            && Advance(StateAfter(es).w.t, c, env).0.messages == was + NewRows(added)
            && (forall m :: m in c.members && m.account != c.me ==> m.key in c.bodies && CopyFor(c, m) in added)
            && (forall x :: x in added && x.recipient != c.me ==>
                  exists m :: m in c.members && m.key in c.bodies && x == CopyFor(c, m))
            && (forall i, j :: 0 <= i < j < |added| ==> added[i].recipient != added[j].recipient)
  {
    RunsAreInductive(es);
    var w, c := StateAfter(es).w, StateAfter(es).handlers[h];
    assert HandlerOk(w, c) && Storable(w, c);
    SendAppends(w, c, env);
    CopiesAreForMembers(w.t, c);
  }

  lemma CopiesAreForMembers(t: Tables, c: Handler)
    requires c.SendWrite? && FanOut.DistinctMembers(c.members)
    requires c.bodies.Keys == FanOut.RequiredKeys(c.me, KeyOf(t, c.me), c.members, c.bodies)
    ensures var added := SentCopies(t, c);
            && (forall m :: m in c.members && m.account != c.me ==> m.key in c.bodies && CopyFor(c, m) in added)
            && (forall x :: x in added && x.recipient != c.me ==>
                  exists m :: m in c.members && m.key in c.bodies && x == CopyFor(c, m))
            && (forall i, j :: 0 <= i < j < |added| ==> added[i].recipient != added[j].recipient)
  {
    FanOut.FanOutExact(c.me, KeyOf(t, c.me), c.members, c.bodies, c.id, c.room, c.ts);
    var added := SentCopies(t, c);
    forall x | x in added && x.recipient != c.me
      ensures exists m :: m in c.members && m.key in c.bodies && x == CopyFor(c, m)
    {
      var i :| 0 <= i < |added| && added[i] == x;
      var m :| m in c.members && m.account != c.me && x.recipient == m.account && m.key in c.bodies && x.body == c.bodies[m.key];
      assert x == CopyFor(c, m);
    }
  }

  /** A replayed incoming message never carries a set read flag: only its reader could have set it. */
  lemma {:induction false} IncomingIsNeverFlagged(es: seq<Event>, i: nat)
    requires IsRun(es) && i < |StateAfter(es).w.t.messages|
    requires var msg := StateAfter(es).w.t.messages[i].msg; msg.from != msg.recipient
    ensures var m := StateAfter(es).w.t.messages; !ReadFlag(m, m[i].msg.id, m[i].msg.recipient)
  {
    RunsAreInductive(es);
    var w := StateAfter(es).w;
    var m := w.t.messages;
    assert RowOk(w, m[i].msg);
    forall j | 0 <= j < |m| && m[j].msg.id == m[i].msg.id && m[j].msg.recipient != m[i].msg.recipient
      ensures m[j].readAt.None?
    {
      assert RowOk(w, m[j].msg);
      assert m[j].msg.from == m[i].msg.from;
    }
  }

  /** The badge is what arrived minus what the account's own MarkReads flipped; nothing else changes it. */
  lemma {:induction false} BadgeIsConserved(es: seq<Event>, account: AccountId)
    requires IsRun(es)
    ensures UnreadCount(StateAfter(es).w.t.messages, account)
         == Receipts.Arrived(StateAfter(es).writes, account) - Receipts.FlippedBy(StateAfter(es).writes, account)
  {
    RunsAreInductive(es);
    Receipts.UnreadIsConserved(StateAfter(es).writes, account);
  }

  /** Each (message, reader) row is reported read at most once in a run, and once if it is read. */
  lemma {:induction false} EachMessageIsReadOnce(es: seq<Event>, id: MessageId, reader: AccountId)
    requires IsRun(es)
    ensures Receipts.TimesFlipped(StateAfter(es).writes, id, reader) <= 1
    ensures Receipts.TimesFlipped(StateAfter(es).writes, id, reader) == 1
            <==> Receipts.IsRead(StateAfter(es).w.t.messages, id, reader)
  {
    RunsAreInductive(es);
    Receipts.EachRowFlipsOnce(StateAfter(es).writes, id, reader);
  }
}
