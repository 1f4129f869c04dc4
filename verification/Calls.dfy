/** `PendingCalls`: call invites held in memory until the callee (re)connects, is hung up on, or they expire. */
module Calls {
  import opened Common

  /** The called account; `accounts.id` is a BIGSERIAL, so it is never negative. */
  type Callee = nat

  /** Ring timeout plus slack, in seconds. */
  const PENDING_TTL := 45

  datatype Pending = Pending(callId: string, room: RoomId, from: AccountId, offer: string, video: bool, expiresAt: Time)

  type Held = map<Callee, seq<Pending>>

  function Entries(h: Held, callee: Callee): seq<Pending> {
    if callee in h then h[callee] else []
  }

  /** `retain(|p| p.expires_at > now)`. */
  function Live(v: seq<Pending>, now: Time): seq<Pending> {
    if v == [] then []
    else
      var rest := Live(v[..|v| - 1], now);
      if v[|v| - 1].expiresAt > now then rest + [v[|v| - 1]] else rest
  }

  /** `retain(|p| p.call_id != call_id)`. */
  function Except(v: seq<Pending>, callId: string): seq<Pending> {
    if v == [] then []
    else
      var rest := Except(v[..|v| - 1], callId);
      if v[|v| - 1].callId != callId then rest + [v[|v| - 1]] else rest
  }

  /** Stores a list, or drops the key when it is empty. */
  function Store(h: Held, callee: Callee, v: seq<Pending>): Held {
    if v == [] then h - {callee} else h[callee := v]
  }

  function Swept(h: Held, now: Time): Held {
    map a | a in h && Live(h[a], now) != [] :: Live(h[a], now)
  }

  /** `out` is the entries of `v` at the rising positions `at`, which are those of the unexpired ones. */
  ghost predicate KeepsLive(v: seq<Pending>, now: Time, out: seq<Pending>, at: seq<nat>) {
    && Picks(v, out, at)
    && (forall j: nat :: j < |v| ==> (j in at <==> v[j].expiresAt > now))
  }

  /** The same for the entries of other calls. */
  ghost predicate KeepsOthers(v: seq<Pending>, callId: string, out: seq<Pending>, at: seq<nat>) {
    && Picks(v, out, at)
    && (forall j: nat :: j < |v| ==> (j in at <==> v[j].callId != callId))
  }

  ghost predicate Picks(v: seq<Pending>, out: seq<Pending>, at: seq<nat>) {
    && |at| == |out|
    && (forall i :: 0 <= i < |at| ==> at[i] < |v| && out[i] == v[at[i]])
    && (forall i, j :: 0 <= i < j < |at| ==> at[i] < at[j])
  }

  /** A take from `v'` before `p` expires returns it behind what a take from `v` does; later they return the same. */
  ghost predicate BringsAlso(v: seq<Pending>, p: Pending, v': seq<Pending>) {
    forall now :: Live(v', now) == if p.expiresAt > now then Live(v, now) + [p] else Live(v, now)
  }

  lemma AppendingBrings(v: seq<Pending>, p: Pending)
    ensures BringsAlso(v, p, v + [p])
  {
    forall now ensures Live(v + [p], now) == if p.expiresAt > now then Live(v, now) + [p] else Live(v, now) {
      LiveAppend(v, p, now);
    }
  }

  lemma KeepsLiveNext(v: seq<Pending>, p: Pending, now: Time, out: seq<Pending>, at: seq<nat>)
    requires KeepsLive(v, now, out, at)
    ensures if p.expiresAt > now then KeepsLive(v + [p], now, out + [p], at + [|v|]) else KeepsLive(v + [p], now, out, at)
  {
  }

  lemma KeepsOthersNext(v: seq<Pending>, p: Pending, callId: string, out: seq<Pending>, at: seq<nat>)
    requires KeepsOthers(v, callId, out, at)
    ensures if p.callId != callId then KeepsOthers(v + [p], callId, out + [p], at + [|v|])
            else KeepsOthers(v + [p], callId, out, at)
  {
  }

  /** The first `i` entries have been filtered. */
  ghost predicate FilteredLive(v: seq<Pending>, i: nat, now: Time, out: seq<Pending>, at: seq<nat>) {
    i <= |v| && KeepsLive(v[..i], now, out, at) && out == Live(v[..i], now)
  }

  lemma FilterNextLive(v: seq<Pending>, i: nat, now: Time, out: seq<Pending>, at: seq<nat>)
    requires i < |v| && FilteredLive(v, i, now, out, at)
    ensures v[i].expiresAt > now ==> FilteredLive(v, i + 1, now, out + [v[i]], at + [i])
    ensures v[i].expiresAt <= now ==> FilteredLive(v, i + 1, now, out, at)
  {
    assert v[..i + 1] == v[..i] + [v[i]];
    KeepsLiveNext(v[..i], v[i], now, out, at);
    LiveAppend(v[..i], v[i], now);
  }

  ghost predicate FilteredOthers(v: seq<Pending>, i: nat, callId: string, out: seq<Pending>, at: seq<nat>) {
    i <= |v| && KeepsOthers(v[..i], callId, out, at) && out == Except(v[..i], callId)
  }

  lemma FilterNextOther(v: seq<Pending>, i: nat, callId: string, out: seq<Pending>, at: seq<nat>)
    requires i < |v| && FilteredOthers(v, i, callId, out, at)
    ensures v[i].callId != callId ==> FilteredOthers(v, i + 1, callId, out + [v[i]], at + [i])
    ensures v[i].callId == callId ==> FilteredOthers(v, i + 1, callId, out, at)
  {
    assert v[..i + 1] == v[..i] + [v[i]];
    KeepsOthersNext(v[..i], v[i], callId, out, at);
    ExceptAppend(v[..i], v[i], callId);
  }

  /** `into_iter().filter(|p| p.expires_at > now).collect()`. */
  method FilterLive(v: seq<Pending>, now: Time) returns (out: seq<Pending>, ghost at: seq<nat>)
    ensures KeepsLive(v, now, out, at) && out == Live(v, now)
  {
    out, at := [], [];
    for i := 0 to |v|
      invariant FilteredLive(v, i, now, out, at)
    {
      FilterNextLive(v, i, now, out, at);
      if v[i].expiresAt > now {
        out, at := out + [v[i]], at + [i];
      }
    }
    assert v[..|v|] == v;
  }

  /** `retain(|p| p.call_id != call_id)`. */
  method RetainOthers(v: seq<Pending>, callId: string) returns (out: seq<Pending>, ghost at: seq<nat>)
    ensures KeepsOthers(v, callId, out, at) && out == Except(v, callId)
  {
    out, at := [], [];
    for i := 0 to |v|
      invariant FilteredOthers(v, i, callId, out, at)
    {
      FilterNextOther(v, i, callId, out, at);
      if v[i].callId != callId {
        out, at := out + [v[i]], at + [i];
      }
    }
    assert v[..|v|] == v;
  }

  class PendingCalls {
    var inner: Held

    /** A listed callee has an entry. */
    ghost predicate Valid()
      reads this
    {
      forall a :: a in inner ==> inner[a] != []
    }

    constructor ()
      ensures Valid() && inner == map[]
    {
      inner := map[];
    }

    /**
     * Whatever else happens later, a take before the entry expires returns it, behind the callee's
     * earlier entries; a take from then on returns what it would have returned without it.
     */
    method Insert(callee: Callee, p: Pending)
      requires Valid()
      modifies this
      ensures Valid() && inner == Next(old(inner), Timed(0, Hold(callee, p)))
      ensures BringsAlso(Entries(old(inner), callee), p, Entries(inner, callee))
      ensures forall a :: a != callee ==> Entries(inner, a) == Entries(old(inner), a)
    {
      AppendingBrings(Entries(inner, callee), p);
      if callee !in inner {
        inner := inner[callee := []];
      }
      inner := inner[callee := inner[callee] + [p]];
    }

    /**
     * Returns the callee's unexpired entries, each position once and in order, and leaves the callee
     * without entries, so a second take returns nothing.
     */
    method TakeFor(callee: Callee, now: Time) returns (taken: seq<Pending>, ghost at: seq<nat>)
      requires Valid()
      modifies this
      ensures Valid() && inner == Next(old(inner), Timed(now, Connect(callee)))
      ensures KeepsLive(Entries(old(inner), callee), now, taken, at)
      ensures taken == Live(Entries(old(inner), callee), now)
      ensures Entries(inner, callee) == [] && forall a :: a != callee ==> Entries(inner, a) == Entries(old(inner), a)
    {
      taken, at := [], [];
      if callee in inner {
        var v := inner[callee];
        inner := inner - {callee};
        taken, at := FilterLive(v, now);
      }
    }

    /** Of the callee's entries exactly those of other calls stay, in order; an emptied list is dropped. */
    method Remove(callee: Callee, callId: string) returns (ghost at: seq<nat>)
      requires Valid()
      modifies this
      ensures Valid() && inner == Next(old(inner), Timed(0, Hangup(callee, callId)))
      ensures KeepsOthers(Entries(old(inner), callee), callId, Entries(inner, callee), at)
      ensures NoneOf(Entries(inner, callee), callId)
      ensures forall a :: a != callee ==> Entries(inner, a) == Entries(old(inner), a)
    {
      at := [];
      if callee in inner {
        var kept;
        kept, at := RetainOthers(inner[callee], callId);
        ExceptHasNone(inner[callee], callId);
        inner := inner[callee := kept];
        if kept == [] {
          inner := inner - {callee};
        }
      }
    }

    /** Deletes the expired entries of every callee, and callees left without one. */
    method ExpireDue(now: Time)
      modifies this
      ensures Valid() && inner == Next(old(inner), Timed(now, Sweep))
      ensures forall a :: Entries(inner, a) == Live(Entries(old(inner), a), now)
    {
      var todo := inner.Keys;
      var kept: Held := map[];
      while todo != {}
        invariant todo <= inner.Keys && inner == old(inner)
        invariant kept == Swept(inner - todo, now)
        decreases todo
      {
        var a :| a in todo;
        var v, _ := FilterLive(inner[a], now);
        if v != [] {
          kept := kept[a := v];
        }
        todo := todo - {a};
      }
      assert inner - todo == inner;
      inner := kept;
    }
  }

  // ---------------------------------------------------------------------------------------------
  // Runs

  datatype Op =
    | Hold(callee: Callee, p: Pending)
    | Connect(callee: Callee)
    | Hangup(callee: Callee, callId: string)
    | Sweep

  datatype Timed = Timed(at: Time, op: Op)

  /** One operation on the registry; only a sweep reads the clock. */
  function Next(h: Held, e: Timed): Held {
    match e.op
    case Hold(callee, p) => h[callee := Entries(h, callee) + [p]]
    case Connect(callee) => h - {callee}
    case Hangup(callee, callId) => if callee in h then Store(h, callee, Except(h[callee], callId)) else h
    case Sweep => Swept(h, e.at)
  }

  /** The entries each `take_for` of the run returns, in order. */
  function Takes(h: Held, es: seq<Timed>): seq<seq<Pending>>
    decreases |es|
  {
    if es == [] then []
    else
      (if es[0].op.Connect? then [Live(Entries(h, es[0].op.callee), es[0].at)] else []) + Takes(Next(h, es[0]), es[1..])
  }

  function WithoutSweeps(es: seq<Timed>): seq<Timed> {
    if es == [] then []
    else (if es[0].op.Sweep? then [] else [es[0]]) + WithoutSweeps(es[1..])
  }

  /** The clock never runs backwards, from `now` on. */
  ghost predicate ClockFrom(now: Time, es: seq<Timed>)
    decreases |es|
  {
    es == [] || (now <= es[0].at && ClockFrom(es[0].at, es[1..]))
  }

  lemma {:induction false} LiveTwice(v: seq<Pending>, t: Time, now: Time)
    requires t <= now
    ensures Live(Live(v, t), now) == Live(v, now)
  {
    if v == [] {
    } else {
      var front, last := v[..|v| - 1], v[|v| - 1];
      LiveTwice(front, t, now);
      LiveAppend(Live(front, t), last, now);
    }
  }

  lemma LiveAppend(v: seq<Pending>, p: Pending, now: Time)
    ensures Live(v + [p], now) == if p.expiresAt > now then Live(v, now) + [p] else Live(v, now)
  {
    assert (v + [p])[..|v|] == v;
  }

  lemma ExceptAppend(v: seq<Pending>, p: Pending, callId: string)
    ensures Except(v + [p], callId) == if p.callId != callId then Except(v, callId) + [p] else Except(v, callId)
  {
    assert (v + [p])[..|v|] == v;
  }

  lemma {:induction false} LiveExcept(v: seq<Pending>, callId: string, now: Time)
    ensures Live(Except(v, callId), now) == Except(Live(v, now), callId)
  {
    if v == [] {
    } else {
      var front, last := v[..|v| - 1], v[|v| - 1];
      LiveExcept(front, callId, now);
      LiveAppend(Except(front, callId), last, now);
      ExceptAppend(Live(front, now), last, callId);
    }
  }

  /** What one operation does to one callee's entries. */
  function EntriesAfter(v: seq<Pending>, e: Timed, callee: Callee): seq<Pending> {
    match e.op
    case Hold(a, p) => if a == callee then v + [p] else v
    case Connect(a) => if a == callee then [] else v
    case Hangup(a, callId) => if a == callee then Except(v, callId) else v
    case Sweep => Live(v, e.at)
  }

  lemma EntriesOfNext(h: Held, e: Timed, callee: Callee)
    ensures Entries(Next(h, e), callee) == EntriesAfter(Entries(h, callee), e, callee)
  {
  }

  /** The two registries hold the same entries, up to ones already expired at `now`. */
  ghost predicate SameLive(h: Held, h': Held, now: Time) {
    forall a :: Live(Entries(h, a), now) == Live(Entries(h', a), now)
  }

  lemma SameLiveLater(h: Held, h': Held, t: Time, now: Time)
    requires SameLive(h, h', t) && t <= now
    ensures SameLive(h, h', now)
  {
    forall a ensures Live(Entries(h, a), now) == Live(Entries(h', a), now) {
      LiveTwice(Entries(h, a), t, now);
      LiveTwice(Entries(h', a), t, now);
    }
  }

  lemma SweepIsInvisible(h: Held, now: Time)
    ensures SameLive(Swept(h, now), h, now)
  {
    forall a ensures Live(Entries(Swept(h, now), a), now) == Live(Entries(h, a), now) {
      EntriesOfNext(h, Timed(now, Sweep), a);
      LiveTwice(Entries(h, a), now, now);
    }
  }

  lemma {:induction false} EntriesAfterKeepsLive(v: seq<Pending>, v': seq<Pending>, e: Timed, callee: Callee)
    requires Live(v, e.at) == Live(v', e.at) && !e.op.Sweep?
    ensures Live(EntriesAfter(v, e, callee), e.at) == Live(EntriesAfter(v', e, callee), e.at)
  {
    match e.op {
      case Hold(_, p) =>
        LiveAppend(v, p, e.at);
        LiveAppend(v', p, e.at);
      case Hangup(_, callId) =>
        LiveExcept(v, callId, e.at);
        LiveExcept(v', callId, e.at);
      case _ =>
    }
  }

  lemma {:induction false} NextKeepsSameLive(h: Held, h': Held, e: Timed)
    requires SameLive(h, h', e.at) && !e.op.Sweep?
    ensures SameLive(Next(h, e), Next(h', e), e.at)
  {
    forall a ensures Live(Entries(Next(h, e), a), e.at) == Live(Entries(Next(h', e), a), e.at) {
      EntriesOfNext(h, e, a);
      EntriesOfNext(h', e, a);
      EntriesAfterKeepsLive(Entries(h, a), Entries(h', a), e, a);
    }
  }

  /** Deleting every sweep from a run changes no `take_for` result and no order. */
  lemma {:induction false} SweepingIsUnobservable(h: Held, h': Held, now: Time, es: seq<Timed>)
    requires ClockFrom(now, es) && SameLive(h, h', now)
    ensures Takes(h, es) == Takes(h', WithoutSweeps(es))
    decreases |es|
  {
    if es == [] {
    } else {
      var e, rest := es[0], es[1..];
      SameLiveLater(h, h', now, e.at);
      if e.op.Sweep? {
        SweepIsInvisible(h, e.at);
        assert SameLive(Next(h, e), h', e.at);
        SweepingIsUnobservable(Next(h, e), h', e.at, rest);
        assert WithoutSweeps(es) == WithoutSweeps(rest);
      } else {
        NextKeepsSameLive(h, h', e);
        SweepingIsUnobservable(Next(h, e), Next(h', e), e.at, rest);
        var es' := WithoutSweeps(es);
        assert es'[0] == e && es'[1..] == WithoutSweeps(rest);
      }
    }
  }

  // ---------------------------------------------------------------------------------------------
  // Each held entry is taken at most once, in time, and not after a hangup

  /** Everything `take_for` returned to one callee over a run. */
  function TakenBy(h: Held, es: seq<Timed>, callee: Callee): seq<Pending>
    decreases |es|
  {
    if es == [] then []
    else
      (if es[0].op == Connect(callee) then Live(Entries(h, callee), es[0].at) else [])
      + TakenBy(Next(h, es[0]), es[1..], callee)
  }

  function HeldFor(es: seq<Timed>, callee: Callee): seq<Pending> {
    if es == [] then []
    else (if es[0].op.Hold? && es[0].op.callee == callee then [es[0].op.p] else []) + HeldFor(es[1..], callee)
  }

  lemma OneMorePart(part: seq<Pending>, v: seq<Pending>, p: Pending)
    requires multiset(part) <= multiset(v)
    ensures multiset(part) <= multiset(v + [p]) && multiset(part + [p]) <= multiset(v + [p])
  {
    assert multiset(v + [p]) == multiset(v) + multiset{p} && multiset(part + [p]) == multiset(part) + multiset{p};
  }

  lemma {:induction false} LiveIsPart(v: seq<Pending>, now: Time)
    ensures multiset(Live(v, now)) <= multiset(v)
  {
    if v == [] {
    } else {
      var front, last := v[..|v| - 1], v[|v| - 1];
      LiveIsPart(front, now);
      OneMorePart(Live(front, now), front, last);
      assert v == front + [last];
    }
  }

  lemma {:induction false} ExceptIsPart(v: seq<Pending>, callId: string)
    ensures multiset(Except(v, callId)) <= multiset(v)
  {
    if v == [] {
    } else {
      var front, last := v[..|v| - 1], v[|v| - 1];
      ExceptIsPart(front, callId);
      OneMorePart(Except(front, callId), front, last);
      assert v == front + [last];
    }
  }

  lemma {:induction false} LiveMember(v: seq<Pending>, now: Time, p: Pending)
    ensures p in Live(v, now) <==> p in v && p.expiresAt > now
  {
    if v == [] {
    } else {
      LiveMember(v[..|v| - 1], now, p);
      assert v == v[..|v| - 1] + [v[|v| - 1]];
    }
  }

  lemma {:induction false} ExceptMember(v: seq<Pending>, callId: string, p: Pending)
    ensures p in Except(v, callId) <==> p in v && p.callId != callId
  {
    if v == [] {
    } else {
      ExceptMember(v[..|v| - 1], callId, p);
      assert v == v[..|v| - 1] + [v[|v| - 1]];
    }
  }

  ghost predicate NoneOf(v: seq<Pending>, callId: string) {
    forall p :: p in v ==> p.callId != callId
  }

  lemma ExceptHasNone(v: seq<Pending>, callId: string)
    ensures NoneOf(Except(v, callId), callId)
  {
    forall p | p in Except(v, callId) ensures p.callId != callId {
      ExceptMember(v, callId, p);
    }
  }

  lemma NextHolds(h: Held, e: Timed, callee: Callee)
    ensures multiset(Entries(Next(h, e), callee)) + multiset(if e.op == Connect(callee) then Live(Entries(h, callee), e.at) else [])
         <= multiset(Entries(h, callee)) + multiset(if e.op.Hold? && e.op.callee == callee then [e.op.p] else [])
  {
    EntriesOfNext(h, e, callee);
    LiveIsPart(Entries(h, callee), e.at);
    if e.op.Hangup? {
      ExceptIsPart(Entries(h, callee), e.op.callId);
    }
  }

  /** Counting repeats, a callee is never handed more than was held for it: no entry is taken twice. */
  lemma {:induction false} TakenAtMostOnce(h: Held, es: seq<Timed>, callee: Callee)
    ensures multiset(TakenBy(h, es, callee)) <= multiset(Entries(h, callee)) + multiset(HeldFor(es, callee))
    decreases |es|
  {
    if es == [] {
    } else {
      NextHolds(h, es[0], callee);
      TakenAtMostOnce(Next(h, es[0]), es[1..], callee);
      SumsChain(
        multiset(if es[0].op == Connect(callee) then Live(Entries(h, callee), es[0].at) else []),
        multiset(TakenBy(Next(h, es[0]), es[1..], callee)),
        multiset(Entries(Next(h, es[0]), callee)),
        multiset(Entries(h, callee)),
        multiset(if es[0].op.Hold? && es[0].op.callee == callee then [es[0].op.p] else []),
        multiset(HeldFor(es[1..], callee)));
    }
  }

  lemma SumsChain(
      out: multiset<Pending>, outs: multiset<Pending>, mid: multiset<Pending>,
      pre: multiset<Pending>, add: multiset<Pending>, adds: multiset<Pending>)
    requires mid + out <= pre + add && outs <= mid + adds
    ensures out + outs <= pre + (add + adds)
  {
    forall p ensures (out + outs)[p] <= (pre + (add + adds))[p] {
      assert (mid + out)[p] <= (pre + add)[p] && outs[p] <= (mid + adds)[p];
    }
  }

  ghost predicate NeverHeldAgain(es: seq<Timed>, callee: Callee, callId: string) {
    NoneOf(HeldFor(es, callee), callId)
  }

  lemma {:induction false} AbsentStaysAbsent(h: Held, es: seq<Timed>, callee: Callee, callId: string)
    requires NoneOf(Entries(h, callee), callId) && NeverHeldAgain(es, callee, callId)
    ensures NoneOf(TakenBy(h, es, callee), callId)
  {
    TakenAtMostOnce(h, es, callee);
    forall p | p in TakenBy(h, es, callee) ensures p.callId != callId {
      assert p in multiset(TakenBy(h, es, callee));
      assert p in multiset(Entries(h, callee)) || p in multiset(HeldFor(es, callee));
    }
  }

  /** After the caller's hangup a call is never delivered, as call ids are fresh. */
  lemma HungUpIsNeverDelivered(h: Held, at: Time, es: seq<Timed>, callee: Callee, callId: string)
    requires NeverHeldAgain(es, callee, callId)
    ensures NoneOf(TakenBy(Next(h, Timed(at, Hangup(callee, callId))), es, callee), callId)
  {
    ExceptHasNone(Entries(h, callee), callId);
    AbsentStaysAbsent(Next(h, Timed(at, Hangup(callee, callId))), es, callee, callId);
  }

  /** The registry after a run. */
  function Play(h: Held, es: seq<Timed>): Held {
    if es == [] then h else Next(Play(h, es[..|es| - 1]), es[|es| - 1])
  }

  /** Every entry of a registry that started out empty was held by some earlier event. */
  lemma {:induction false} EntryWasHeld(es: seq<Timed>, callee: Callee, p: Pending) returns (j: nat)
    requires p in Entries(Play(map[], es), callee)
    ensures j < |es| && es[j].op == Hold(callee, p)
  {
    if es == [] {
      assert false;
    } else {
      var front, e := es[..|es| - 1], es[|es| - 1];
      EntriesOfNext(Play(map[], front), e, callee);
      if e.op == Hold(callee, p) {
        j := |es| - 1;
      } else {
        if e.op.Sweep? {
          LiveMember(Entries(Play(map[], front), callee), e.at, p);
        } else if e.op.Hangup? {
          if e.op.callee == callee {
            ExceptMember(Entries(Play(map[], front), callee), e.op.callId, p);
          }
        }
        j := EntryWasHeld(front, callee, p);
      }
    }
  }

  /** Calls are held with the server's TTL. */
  ghost predicate HeldWithTtl(es: seq<Timed>) {
    forall i :: 0 <= i < |es| && es[i].op.Hold? ==> es[i].op.p.expiresAt == es[i].at + PENDING_TTL
  }

  ghost predicate Monotone(es: seq<Timed>) {
    forall i, j :: 0 <= i < j < |es| ==> es[i].at <= es[j].at
  }

  /**
   * In any run with a monotone clock, whatever a take returns was held by an earlier event for that
   * callee, less than 45 seconds before.
   */
  lemma {:induction false} DeliveredInTime(es: seq<Timed>, k: nat, callee: Callee, p: Pending) returns (j: nat)
    requires Monotone(es) && HeldWithTtl(es) && k < |es| && es[k].op == Connect(callee)
    requires p in Live(Entries(Play(map[], es[..k]), callee), es[k].at)
    ensures j < k && es[j].op == Hold(callee, p) && es[j].at <= es[k].at < es[j].at + 45
  {
    LiveMember(Entries(Play(map[], es[..k]), callee), es[k].at, p);
    j := EntryWasHeld(es[..k], callee, p);
    assert es[..k][j] == es[j];
  }

  /** Between event `i` and event `n` nothing took the call, hung up on it, or swept it after its expiry. */
  ghost predicate LeftAlone(es: seq<Timed>, i: nat, n: nat, callee: Callee, p: Pending)
    requires n <= |es|
  {
    forall j :: i < j < n ==>
      && es[j].op != Connect(callee) && es[j].op != Hangup(callee, p.callId)
      && (es[j].op.Sweep? ==> es[j].at < p.expiresAt)
  }

  lemma {:induction false} StaysHeld(es: seq<Timed>, i: nat, n: nat, callee: Callee, p: Pending)
    requires i < n <= |es| && es[i].op == Hold(callee, p) && LeftAlone(es, i, n, callee, p)
    ensures p in Entries(Play(map[], es[..n]), callee)
  {
    var h, e := Play(map[], es[..n - 1]), es[n - 1];
    assert es[..n][..n - 1] == es[..n - 1];
    EntriesOfNext(h, e, callee);
    if i < n - 1 {
      StaysHeld(es, i, n - 1, callee, p);
      if e.op.Sweep? {
        LiveMember(Entries(h, callee), e.at, p);
      } else if e.op.Hangup? && e.op.callee == callee {
        ExceptMember(Entries(h, callee), e.op.callId, p);
      }
    }
  }

  /**
   * And nothing is withheld: in any run with a monotone clock the callee's next connect returns a held
   * call if it was not hung up on before and less than 45 seconds have passed.
   */
  lemma {:induction false} NextConnectDelivers(es: seq<Timed>, i: nat, k: nat, callee: Callee, p: Pending)
    requires Monotone(es) && HeldWithTtl(es) && i < k < |es|
    requires es[i].op == Hold(callee, p) && es[k].op == Connect(callee) && es[k].at < es[i].at + 45
    requires forall j :: i < j < k ==> es[j].op != Connect(callee) && es[j].op != Hangup(callee, p.callId)
    ensures p in Live(Entries(Play(map[], es[..k]), callee), es[k].at)
  {
    StaysHeld(es, i, k, callee, p);
    LiveMember(Entries(Play(map[], es[..k]), callee), es[k].at, p);
  }
}
