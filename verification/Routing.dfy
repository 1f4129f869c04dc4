/** `Routing`: the open sessions of each user, and delivery of a frame to all of them. */
module Routing {
  import opened Common

  type User = nat

  /** The channel of one WebSocket session. */
  type Session = nat

  /** `Presence` frames, the only ones whose content matters here. */
  datatype Frame = Presence(user: User, online: bool)

  /** What is queued on a channel, and whether its receiver is still there. */
  datatype Channel = Channel(open: bool, queue: seq<Frame>)

  type Senders = map<User, seq<Session>>
  type Channels = map<Session, Channel>

  function Registered(inner: Senders, user: User, s: Session): Senders {
    inner[user := (if user in inner then inner[user] else []) + [s]]
  }

  /** Drops one channel from the user's list, and the user with the last one. */
  function Unregistered(inner: Senders, user: User, s: Session): Senders {
    if user !in inner then inner
    else if Without(inner[user], s) == [] then inner - {user}
    else inner[user := Without(inner[user], s)]
  }

  /** The channels after one send to every listed session; a closed one takes nothing. */
  function Delivered(channels: Channels, senders: seq<Session>, frame: Frame): Channels {
    map s | s in channels ::
      if s in senders && channels[s].open then channels[s].(queue := channels[s].queue + [frame]) else channels[s]
  }

  function OpenCount(channels: Channels, senders: seq<Session>): nat {
    if senders == [] then 0
    else OpenCount(channels, senders[..|senders| - 1])
         + (if senders[|senders| - 1] in channels && channels[senders[|senders| - 1]].open then 1 else 0)
  }

  lemma DeliveredOneMore(channels: Channels, senders: seq<Session>, s: Session, frame: Frame)
    requires s in channels && s !in senders
    ensures var before := Delivered(channels, senders, frame);
            && before[s] == channels[s]
            && Delivered(channels, senders + [s], frame)
               == if channels[s].open then before[s := channels[s].(queue := channels[s].queue + [frame])] else before
    ensures OpenCount(channels, senders + [s]) == OpenCount(channels, senders) + (if channels[s].open then 1 else 0)
  {
    assert (senders + [s])[..|senders|] == senders;
  }

  /** The sessions among these with an open channel. */
  ghost function OpenAmong(channels: Channels, senders: seq<Session>): set<Session> {
    set s | s in senders && s in channels && channels[s].open
  }

  /** `OpenCount` counts them, if no session is listed twice. */
  lemma {:induction false} OpenCountCounts(channels: Channels, senders: seq<Session>)
    requires NoDuplicates(senders)
    ensures OpenCount(channels, senders) == |OpenAmong(channels, senders)|
  {
    if senders == [] {
      assert OpenAmong(channels, senders) == {};
    } else {
      OpenCountCounts(channels, senders[..|senders| - 1]);
      OpenOneMore(channels, senders);
    }
  }

  lemma OpenOneMore(channels: Channels, senders: seq<Session>)
    requires NoDuplicates(senders) && senders != []
    ensures var last, was := senders[|senders| - 1], OpenAmong(channels, senders[..|senders| - 1]);
            && OpenAmong(channels, senders) == (if last in channels && channels[last].open then was + {last} else was)
            && last !in was
  {
    var front, last := senders[..|senders| - 1], senders[|senders| - 1];
    assert senders == front + [last] && last !in front;
  }

  class Routing {
    var inner: Senders
    var channels: Channels

    /** No user is listed without a session; a session is listed once; every listed session has a channel. */
    ghost predicate Valid()
      reads this
    {
      forall u :: u in inner ==>
        inner[u] != [] && NoDuplicates(inner[u]) && forall s :: s in inner[u] ==> s in channels
    }

    constructor ()
      ensures Valid() && inner == map[] && channels == map[]
    {
      inner, channels := map[], map[];
    }

    method Register(user: User, s: Session)
      requires Valid() && s in channels && (user in inner ==> s !in inner[user])
      modifies `inner
      ensures Valid() && inner == Registered(old(inner), user, s)
      ensures user in inner && inner[user] == (if user in old(inner) then old(inner)[user] else []) + [s]
      ensures forall u :: u != user ==> (u in inner <==> u in old(inner)) && (u in inner ==> inner[u] == old(inner)[u])
    {
      if user !in inner {
        inner := inner[user := []];
      }
      inner := inner[user := inner[user] + [s]];
    }

    method Unregister(user: User, s: Session)
      requires Valid()
      modifies `inner
      ensures Valid() && inner == Unregistered(old(inner), user, s)
      ensures forall x :: user in inner && x in inner[user] <==> user in old(inner) && x in old(inner)[user] && x != s
      ensures forall u :: u != user ==> (u in inner <==> u in old(inner)) && (u in inner ==> inner[u] == old(inner)[u])
    {
      if user in inner {
        var kept := Without(inner[user], s);
        WithoutFacts(inner[user], s);
        inner := inner[user := kept];
        if kept == [] {
          inner := inner - {user};
        }
      }
    }

    /** Key presence means at least one listed session. */
    method IsOnline(user: User) returns (online: bool)
      requires Valid()
      ensures online <==> exists s :: user in inner && s in inner[user]
    {
      online := user in inner;
      if online {
        assert inner[user][0] in inner[user];
      }
    }

    method Deliver(user: User, frame: Frame) returns (delivered: nat)
      requires Valid()
      modifies `channels
      ensures Valid()
      ensures channels == Delivered(old(channels), if user in inner then inner[user] else [], frame)
      ensures delivered == OpenCount(old(channels), if user in inner then inner[user] else [])
      ensures channels.Keys == old(channels).Keys && forall s :: s in channels ==>
                && channels[s].open == old(channels)[s].open
                && channels[s].queue
                   == old(channels)[s].queue + (if user in inner && s in inner[user] && old(channels)[s].open then [frame] else [])
      ensures delivered == |OpenAmong(old(channels), if user in inner then inner[user] else [])|
    {
      delivered := 0;
      OpenCountCounts(channels, if user in inner then inner[user] else []);
      if user !in inner {
        assert channels == Delivered(channels, [], frame);
        return;
      }
      var senders := inner[user];
      assert channels == Delivered(channels, senders[..0], frame);
      for i := 0 to |senders|
        invariant inner == old(inner)
        invariant channels == Delivered(old(channels), senders[..i], frame)
        invariant delivered == OpenCount(old(channels), senders[..i])
      {
        var s := senders[i];
        assert s in senders && s !in senders[..i];
        assert senders[..i + 1] == senders[..i] + [s];
        DeliveredOneMore(old(channels), senders[..i], s, frame);
        if channels[s].open {
          channels := channels[s := channels[s].(queue := channels[s].queue + [frame])];
          delivered := delivered + 1;
        }
      }
      assert senders[..|senders|] == senders;
    }
  }
}
