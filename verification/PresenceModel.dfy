/**
 * Presence over whole runs, with each connect (register and announce) and each disconnect
 * (unregister and announce) taken as one step: what a session was last told about its partner is so.
 */
module PresenceModel {
  import opened Common
  import opened Routing

  /** `partner` is the link of accounts; `queues` holds, per open session, every frame ever queued to it. */
  datatype Net = Net(sessions: Senders, queues: Channels, partner: map<User, User>)

  datatype Event =
    | Link(a: User, b: User)
    | Connect(user: User, s: Session)
    | Disconnect(user: User, s: Session)

  const EMPTY := Net(map[], map[], map[])

  ghost predicate Enabled(n: Net, e: Event) {
    match e
    case Link(a, b) => a != b && a !in n.partner && b !in n.partner
    case Connect(_, s) => s !in n.queues
    case Disconnect(user, s) => user in n.sessions && s in n.sessions[user]
  }

  function SessionsOf(n: Net, user: User): seq<Session> {
    if user in n.sessions then n.sessions[user] else []
  }

  function Push(queues: Channels, s: Session, frame: Frame): Channels
    requires s in queues
  {
    queues[s := queues[s].(queue := queues[s].queue + [frame])]
  }

  /** Register, tell the partner's sessions, then tell the fresh session about the partner. */
  function Connected(n: Net, user: User, s: Session): Net {
    var n' := n.(sessions := Registered(n.sessions, user, s), queues := n.queues[s := Channel(true, [])]);
    if user !in n.partner then n'
    else
      var p := n.partner[user];
      var told := Delivered(n'.queues, SessionsOf(n', p), Presence(user, true));
      n'.(queues := Push(told, s, Presence(p, p in n'.sessions)))
  }

  /** Unregister and, if that was the user's last session, tell the partner's sessions. */
  function Disconnected(n: Net, user: User, s: Session): Net {
    var n' := n.(sessions := Unregistered(n.sessions, user, s), queues := n.queues - {s});
    if user in n'.sessions || user !in n.partner then n'
    else n'.(queues := Delivered(n'.queues, SessionsOf(n', n.partner[user]), Presence(user, false)))
  }

  function Next(n: Net, e: Event): Net {
    match e
    case Link(a, b) => n.(partner := n.partner[a := b][b := a])
    case Connect(user, s) => Connected(n, user, s)
    case Disconnect(user, s) => Disconnected(n, user, s)
  }

  // ---------------------------------------------------------------------------------------------

  ghost predicate Listed(n: Net, user: User, s: Session) {
    user in n.sessions && s in n.sessions[user]
  }

  ghost predicate Pairs(partner: map<User, User>) {
    forall u :: u in partner ==> partner[u] != u && partner[u] in partner && partner[partner[u]] == u
  }

  ghost predicate WellFormed(n: Net) {
    && Pairs(n.partner)
    && (forall u :: u in n.sessions ==> n.sessions[u] != [])
    && (forall u, s :: Listed(n, u, s) ==> s in n.queues && n.queues[s].open)
    && (forall u, v, s :: Listed(n, u, s) && Listed(n, v, s) ==> u == v)
  }

  /** All frames of a session are about its user's partner, and the last one tells the truth. */
  ghost predicate Informed(n: Net, user: User, s: Session)
    requires s in n.queues
  {
    var q := n.queues[s].queue;
    q != [] ==>
      && user in n.partner
      && (forall i :: 0 <= i < |q| ==> q[i].user == n.partner[user])
      && q[|q| - 1].online == (n.partner[user] in n.sessions)
  }

  ghost predicate Inv(n: Net) {
    WellFormed(n) && forall u, s :: Listed(n, u, s) ==> Informed(n, u, s)
  }

  lemma ConnectKeepsShape(n: Net, user: User, s: Session)
    requires WellFormed(n) && s !in n.queues
    ensures WellFormed(Connected(n, user, s))
    ensures forall u, x :: Listed(Connected(n, user, s), u, x) <==> Listed(n, u, x) || (u == user && x == s)
  {
    var n' := Connected(n, user, s);
    forall u, x ensures Listed(n', u, x) <==> Listed(n, u, x) || (u == user && x == s) {
    }
  }

  /** What a connect queues: one frame to the fresh session, one to each session of the partner. */
  lemma QueueAfterConnect(n: Net, user: User, s: Session, u: User, x: Session)
    requires WellFormed(n) && s !in n.queues && Listed(Connected(n, user, s), u, x)
    ensures var n' := Connected(n, user, s);
            x in n'.queues && n'.queues[x].queue ==
              if x == s then (if user in n.partner then [Presence(n.partner[user], n.partner[user] in n'.sessions)] else [])
              else if user in n.partner && u == n.partner[user] then n.queues[x].queue + [Presence(user, true)]
              else n.queues[x].queue
  {
    var n' := Connected(n, user, s);
    ConnectKeepsShape(n, user, s);
    assert x != s ==> Listed(n, u, x);
    if user in n.partner {
      var p := n.partner[user];
      assert x in SessionsOf(n', p) <==> Listed(n', p, x);
      assert Listed(n', p, x) <==> u == p && x != s;
    }
  }

  lemma ConnectKeeps(n: Net, user: User, s: Session)
    requires Inv(n) && s !in n.queues
    ensures Inv(Connected(n, user, s))
  {
    var n' := Connected(n, user, s);
    ConnectKeepsShape(n, user, s);
    forall u, x | Listed(n', u, x) ensures Informed(n', u, x) {
      QueueAfterConnect(n, user, s, u, x);
      if x == s {
        assert !Listed(n, u, s);
      } else {
        assert Listed(n, u, x) && Informed(n, u, x);
      }
    }
  }

  lemma DisconnectKeepsShape(n: Net, user: User, s: Session)
    requires WellFormed(n) && Listed(n, user, s)
    ensures WellFormed(Disconnected(n, user, s))
    ensures forall u, x :: Listed(Disconnected(n, user, s), u, x) <==> Listed(n, u, x) && x != s
  {
    var n' := Disconnected(n, user, s);
    WithoutFacts(n.sessions[user], s);
    forall u, x ensures Listed(n', u, x) <==> Listed(n, u, x) && x != s {
      if Listed(n, u, s) { assert u == user; }
    }
  }

  lemma DisconnectKeeps(n: Net, user: User, s: Session)
    requires Inv(n) && Listed(n, user, s)
    ensures Inv(Disconnected(n, user, s))
  {
    var n' := Disconnected(n, user, s);
    DisconnectKeepsShape(n, user, s);
    forall u, x | Listed(n', u, x) ensures Informed(n', u, x) {
      assert Listed(n, u, x) && Informed(n, u, x);
      if user in n.partner && x in SessionsOf(n', n.partner[user]) {
        assert Listed(n', n.partner[user], x);
      }
    }
  }

  lemma LinkKeepsPairs(partner: map<User, User>, a: User, b: User)
    requires Pairs(partner) && a != b && a !in partner && b !in partner
    ensures Pairs(partner[a := b][b := a])
  {
    var partner' := partner[a := b][b := a];
    forall u | u in partner' ensures partner'[u] != u && partner'[u] in partner' && partner'[partner'[u]] == u {
      if u != a && u != b {
        assert u in partner && partner[u] in partner;
      }
    }
  }

  lemma LinkKeepsShape(n: Net, a: User, b: User)
    requires WellFormed(n) && Enabled(n, Link(a, b))
    ensures WellFormed(Next(n, Link(a, b)))
    ensures forall u, x :: Listed(Next(n, Link(a, b)), u, x) <==> Listed(n, u, x)
  {
    var n' := Next(n, Link(a, b));
    LinkKeepsPairs(n.partner, a, b);
    forall u, x ensures Listed(n', u, x) <==> Listed(n, u, x) {
    }
  }

  /** Sessions of the two have been told nothing yet, and nothing changes for the others. */
  lemma LinkKeepsInformed(n: Net, a: User, b: User, u: User, x: Session)
    requires x in n.queues && Informed(n, u, x) && Enabled(n, Link(a, b))
    ensures Informed(Next(n, Link(a, b)), u, x)
  {
  }

  lemma LinkKeeps(n: Net, a: User, b: User)
    requires Inv(n) && Enabled(n, Link(a, b))
    ensures Inv(Next(n, Link(a, b)))
  {
    var n' := Next(n, Link(a, b));
    LinkKeepsShape(n, a, b);
    forall u, x | Listed(n', u, x) ensures Informed(n', u, x) {
      LinkKeepsInformed(n, a, b, u, x);
    }
  }

  lemma NextKeeps(n: Net, e: Event)
    requires Inv(n) && Enabled(n, e)
    ensures Inv(Next(n, e))
  {
    match e {
      case Link(a, b) => LinkKeeps(n, a, b);
      case Connect(user, s) => ConnectKeeps(n, user, s);
      case Disconnect(user, s) => DisconnectKeeps(n, user, s);
    }
  }

  ghost predicate IsRun(es: seq<Event>)
    decreases |es|, 0
  {
    es == [] || (IsRun(es[..|es| - 1]) && Enabled(After(es[..|es| - 1]), es[|es| - 1]))
  }

  ghost function After(es: seq<Event>): Net
    requires IsRun(es)
    decreases |es|, 1
  {
    if es == [] then EMPTY else Next(After(es[..|es| - 1]), es[|es| - 1])
  }

  lemma {:induction false} RunsKeep(es: seq<Event>)
    requires IsRun(es)
    ensures Inv(After(es))
  {
    if es == [] {
    } else {
      RunsKeep(es[..|es| - 1]);
      NextKeeps(After(es[..|es| - 1]), es[|es| - 1]);
    }
  }

  /**
   * In any run, the last frame queued to an open session, if any, is about its user's partner and
   * says whether the partner has an open session.
   */
  lemma LastFrameTellsTheTruth(es: seq<Event>, user: User, s: Session)
    requires IsRun(es) && Listed(After(es), user, s)
    ensures var n := After(es);
            && s in n.queues
            && (n.queues[s].queue != [] ==>
                  && user in n.partner
                  && n.queues[s].queue[|n.queues[s].queue| - 1]
                       == Presence(n.partner[user], exists x :: Listed(n, n.partner[user], x)))
  {
    RunsKeep(es);
    var n := After(es);
    assert Informed(n, user, s);
    if user in n.partner && n.partner[user] in n.sessions {
      assert Listed(n, n.partner[user], n.sessions[n.partner[user]][0]);
    }
  }

  /** Once linked, a session that connects is told at once. */
  lemma ConnectInforms(es: seq<Event>, user: User, s: Session)
    requires IsRun(es) && s !in After(es).queues && user in After(es).partner
    ensures var n' := Connected(After(es), user, s);
            s in n'.queues && n'.queues[s].queue == [Presence(After(es).partner[user], After(es).partner[user] in After(es).sessions)]
  {
    RunsKeep(es);
    var n := After(es);
    ConnectKeepsShape(n, user, s);
    var n' := Connected(n, user, s);
    assert !Listed(n, n.partner[user], s);
    assert !Listed(n', n.partner[user], s);
  }
}
