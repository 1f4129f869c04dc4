/** The liveness part of the session loop: ping on every tick, close when nothing was heard for too long. */
module Heartbeat {
  import opened Common

  /** Milliseconds. */
  const PING_INTERVAL := 15_000
  const LIVENESS_TIMEOUT := 40_000

  /** A heartbeat tick, or anything received from the client, a pong included. */
  datatype Event = Tick(at: Time) | Inbound(at: Time)

  /** `last_seen`: the latest inbound event, or the start of the session. */
  function LastSeen(start: Time, es: seq<Event>): Time {
    if es == [] then start
    else if es[|es| - 1].Inbound? then es[|es| - 1].at
    else LastSeen(start, es[..|es| - 1])
  }

  predicate Fires(start: Time, es: seq<Event>, k: nat)
    requires k < |es|
  {
    es[k].Tick? && es[k].at - LastSeen(start, es[..k]) > LIVENESS_TIMEOUT
  }

  /** The loop of `handle_socket`: it ends at the first tick that finds the client silent too long. */
  method SessionLoop(start: Time, es: seq<Event>) returns (closedBy: Option<nat>)
    ensures closedBy.Some? ==> closedBy.value < |es| && Fires(start, es, closedBy.value)
    ensures forall k :: 0 <= k < (if closedBy.Some? then closedBy.value else |es|) ==> !Fires(start, es, k)
  {
    var lastSeen := start;
    for i := 0 to |es|
      invariant lastSeen == LastSeen(start, es[..i])
      invariant forall k :: 0 <= k < i ==> !Fires(start, es, k)
    {
      assert es[..i + 1][..i] == es[..i];
      match es[i] {
        case Tick(now) =>
          if now - lastSeen > LIVENESS_TIMEOUT {
            return Some(i);
          }
        case Inbound(now) =>
          lastSeen := now;
      }
    }
    return None;
  }

  // ---------------------------------------------------------------------------------------------
  // Timed runs

  function Ticks(es: seq<Event>): nat {
    if es == [] then 0 else Ticks(es[..|es| - 1]) + (if es[|es| - 1].Tick? then 1 else 0)
  }

  /** The time of the n-th tick; the first comes a full interval after the start. */
  function TickTime(start: Time, n: nat): Time {
    start + PING_INTERVAL * (n + 1)
  }

  /** Events are in time order, and ticks come on time: at their times, before anything later. */
  ghost predicate OnTime(start: Time, es: seq<Event>) {
    && (forall i :: 0 <= i < |es| ==> start <= es[i].at)
    && (forall i, j :: 0 <= i < j < |es| ==> es[i].at <= es[j].at)
    && (forall i :: 0 <= i < |es| ==> Punctual(start, es, i))
  }

  ghost predicate Punctual(start: Time, es: seq<Event>, i: nat)
    requires i < |es|
  {
    var due := TickTime(start, Ticks(es[..i]));
    if es[i].Tick? then es[i].at == due else es[i].at <= due
  }

  /** The n-th tick of a run, for every n below the number of ticks. */
  lemma {:induction false} TickIndex(start: Time, es: seq<Event>, n: nat) returns (k: nat)
    requires OnTime(start, es) && n < Ticks(es)
    ensures k < |es| && es[k] == Tick(start + 15_000 * (n + 1)) && Ticks(es[..k]) == n
  {
    var front, last := es[..|es| - 1], es[|es| - 1];
    if last.Tick? && Ticks(front) == n {
      k := |es| - 1;
      assert Punctual(start, es, k);
    } else {
      OnTimePrefix(start, es, |es| - 1);
      k := TickIndex(start, front, n);
      assert front[..k] == es[..k];
    }
  }

  lemma OnTimePrefix(start: Time, es: seq<Event>, k: nat)
    requires OnTime(start, es) && k <= |es|
    ensures OnTime(start, es[..k])
  {
    forall i | 0 <= i < k ensures Punctual(start, es[..k], i) {
      assert Punctual(start, es, i);
      assert es[..k][..i] == es[..i];
    }
  }

  lemma {:induction false} LastSeenFacts(start: Time, es: seq<Event>)
    requires OnTime(start, es)
    ensures start <= LastSeen(start, es)
    ensures forall j :: 0 <= j < |es| && es[j].Inbound? ==> es[j].at <= LastSeen(start, es)
    ensures es != [] ==> LastSeen(start, es) <= es[|es| - 1].at
  {
    if es == [] {
    } else {
      OnTimePrefix(start, es, |es| - 1);
      LastSeenFacts(start, es[..|es| - 1]);
    }
  }

  /** Hearing more never moves `last_seen` back. */
  lemma {:induction false} LastSeenGrows(start: Time, es: seq<Event>, k: nat)
    requires OnTime(start, es) && k <= |es|
    ensures LastSeen(start, es[..k]) <= LastSeen(start, es)
  {
    if k == |es| {
      assert es[..k] == es;
    } else {
      var front := es[..|es| - 1];
      OnTimePrefix(start, es, |es| - 1);
      LastSeenGrows(start, front, k);
      assert front[..k] == es[..k];
      LastSeenFacts(start, front);
      if front != [] {
        assert front[|front| - 1] == es[|es| - 2];
      }
    }
  }

  /**
   * A session silent since `s` is closed at a tick later than s + 40 s and no later than s + 55 s:
   * the tick before the closing one would otherwise have closed it.
   */
  lemma ClosedWithinOneInterval(start: Time, es: seq<Event>, k: nat)
    requires OnTime(start, es) && k < |es| && Fires(start, es, k)
    requires forall j :: 0 <= j < k ==> !Fires(start, es, j)
    ensures var s := LastSeen(start, es[..k]);
            s + 40_000 < es[k].at <= s + 55_000
  {
    var front := es[..k];
    OnTimePrefix(start, es, k);
    LastSeenFacts(start, front);
    assert Punctual(start, es, k);
    var n := Ticks(front);
    if n > 0 {
      var j := TickIndex(start, front, n - 1);
      assert front[..j] == es[..j];
      assert !Fires(start, es, j);
      LastSeenGrows(start, front, j);
    }
  }

  lemma {:induction false} QuietKeepsLastSeen(start: Time, es: seq<Event>, k: nat)
    requires k <= |es| && forall j :: k <= j < |es| ==> es[j].Tick?
    ensures LastSeen(start, es) == LastSeen(start, es[..k])
  {
    if k == |es| {
      assert es[..k] == es;
    } else {
      QuietKeepsLastSeen(start, es[..|es| - 1], k);
      assert es[..|es| - 1][..k] == es[..k];
    }
  }

  /** And it is closed: once nothing more is heard, a run past s + 55 s has a closing tick by then. */
  lemma SilentSessionIsClosed(start: Time, es: seq<Event>, k: nat)
    requires OnTime(start, es) && k <= |es| && es != []
    requires forall j :: k <= j < |es| ==> es[j].Tick?
    requires es[|es| - 1].at > LastSeen(start, es[..k]) + 55_000
    ensures exists j :: 0 <= j < |es| && Fires(start, es, j)
              && es[j].at <= LastSeen(start, es[..k]) + 55_000
  {
    QuietKeepsLastSeen(start, es, k);
    LastSeenFacts(start, es);
    var s := LastSeen(start, es);
    var n := (s + LIVENESS_TIMEOUT - start) / PING_INTERVAL;
    assert Punctual(start, es, |es| - 1);
    var j := TickIndex(start, es, n);
    LastSeenGrows(start, es, j);
    assert Fires(start, es, j);
  }

  /** The client answers each ping in under two intervals, as far as the run goes. */
  ghost predicate Answers(es: seq<Event>) {
    forall k, i :: 0 <= k < i < |es| && es[k].Tick? && es[i].at >= es[k].at + 30_000 ==> AnswerTo(es, k)
  }

  ghost predicate AnswerTo(es: seq<Event>, k: nat)
    requires k < |es|
  {
    exists j :: k < j < |es| && es[j].Inbound? && es[j].at < es[k].at + 30_000
  }

  /** Such a client is never timed out, however long the run. */
  lemma AnsweringClientIsKept(start: Time, es: seq<Event>, k: nat)
    requires OnTime(start, es) && Answers(es) && k < |es|
    ensures !Fires(start, es, k)
  {
    if es[k].Tick? {
      var front := es[..k];
      OnTimePrefix(start, es, k);
      LastSeenFacts(start, front);
      assert Punctual(start, es, k);
      var n := Ticks(front);
      if n >= 2 {
        var p := TickIndex(start, front, n - 2);
        assert es[p] == front[p];
        assert AnswerTo(es, p);
        var j :| p < j < |es| && es[j].Inbound? && es[j].at < es[p].at + 30_000;
        assert j < k;
        assert front[j] == es[j];
      }
    }
  }
}
