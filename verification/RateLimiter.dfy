/**
 * `WindowRateLimiter`: at most `max` allowed calls in any window. The deque forgets calls that have
 * left the window; the specification remembers every allowed call ever.
 */
module RateLimiter {
  import opened Common

  /** The log is in time order and ends no later than `now`. */
  ghost predicate OrderedUpTo(log: seq<Time>, now: Time) {
    log == [] || (log[|log| - 1] <= now && OrderedUpTo(log[..|log| - 1], log[|log| - 1]))
  }

  lemma {:induction false} OrderedFacts(log: seq<Time>, now: Time)
    requires OrderedUpTo(log, now)
    ensures forall i :: 0 <= i < |log| ==> log[i] <= now
    ensures forall i, j :: 0 <= i < j < |log| ==> log[i] <= log[j]
  {
    if log == [] {
    } else {
      OrderedFacts(log[..|log| - 1], log[|log| - 1]);
    }
  }

  lemma OrderedLater(log: seq<Time>, now: Time, now': Time)
    requires OrderedUpTo(log, now) && now <= now'
    ensures OrderedUpTo(log, now')
  {
  }

  /** `Instant::duration_since`, which is zero for a later instant. */
  function DurationSince(now: Time, earlier: Time): nat {
    if now <= earlier then 0 else now - earlier
  }

  /** How many of the allowed calls lie in the closed window [from, to]. */
  function CountIn(log: seq<Time>, from: Time, to: Time): nat {
    if log == [] then 0
    else CountIn(log[..|log| - 1], from, to) + (if from <= log[|log| - 1] <= to then 1 else 0)
  }

  class WindowRateLimiter {
    var hits: seq<Time>
    const window: nat
    const max: nat
    /** The allowed calls that have left the deque, oldest first. */
    ghost var dropped: seq<Time>
    /** The instant of the latest call, allowed or not. */
    ghost var clock: Time

    /** Every allowed call so far, oldest first. */
    ghost function Log(): seq<Time>
      reads this
    {
      dropped + hits
    }

    /** The deque holds every allowed call that may still be in a window; it is at most `max` long. */
    ghost predicate Valid()
      reads this
    {
      && OrderedUpTo(Log(), clock)
      && Rated(Log(), window, max)
      && EndsBefore(dropped, clock - window)
      && |hits| <= max
    }

    constructor (window: nat, max: nat, ghost now: Time)
      ensures Valid() && this.window == window && this.max == max && Log() == [] && clock == now
    {
      hits := [];
      this.window := window;
      this.max := max;
      dropped := [];
      clock := now;
    }

    /**
     * Answers true exactly when fewer than `max` earlier allowed calls lie in the closed window
     * ending now; only then is the call recorded.
     */
    method Allow(now: Time) returns (ok: bool)
      requires Valid() && clock <= now
      modifies this
      ensures Valid() && clock == now
      ensures ok <==> CountIn(old(Log()), now - window, now) < max
      ensures Log() == if ok then old(Log()) + [now] else old(Log())
    {
      ghost var log := Log();
      OrderedLater(log, clock, now);
      clock := now;
      while hits != [] && DurationSince(now, hits[0]) > window
        invariant log == dropped + hits && EndsBefore(dropped, now - window) && |hits| <= max
        invariant clock == now
      {
        assert dropped + hits == (dropped + [hits[0]]) + hits[1..];
        dropped := dropped + [hits[0]];
        hits := hits[1..];
      }
      KeptCounts(dropped, hits, now - window, now);
      if |hits| >= max {
        return false;
      }
      LogNext(log, window, max, now);
      assert dropped + (hits + [now]) == log + [now];
      hits := hits + [now];
      return true;
    }
  }

  ghost predicate EndsBefore(dropped: seq<Time>, from: Time) {
    dropped != [] ==> dropped[|dropped| - 1] < from
  }

  /** Once the expired hits are gone, the length of the deque is the count the specification asks for. */
  lemma KeptCounts(dropped: seq<Time>, hits: seq<Time>, from: Time, to: Time)
    requires OrderedUpTo(dropped + hits, to) && EndsBefore(dropped, from) && (hits != [] ==> from <= hits[0])
    ensures CountIn(dropped + hits, from, to) == |hits|
  {
    var log, k := dropped + hits, |dropped|;
    OrderedFacts(log, to);
    assert dropped != [] ==> log[k - 1] == dropped[k - 1];
    assert hits != [] ==> log[k] == hits[0];
    SuffixCounts(log, k, from, to);
  }

  lemma LogNext(log: seq<Time>, window: nat, max: nat, now: Time)
    requires OrderedUpTo(log, now) && Rated(log, window, max) && CountIn(log, now - window, now) < max
    ensures OrderedUpTo(log + [now], now) && Rated(log + [now], window, max)
  {
    RatedNext(log, window, max, now);
    assert (log + [now])[..|log|] == log;
  }

  lemma {:induction false} SuffixCounts(log: seq<Time>, k: nat, from: Time, to: Time)
    requires k <= |log|
    requires forall i :: 0 <= i < k ==> log[i] < from
    requires forall i :: k <= i < |log| ==> from <= log[i] <= to
    ensures CountIn(log, from, to) == |log| - k
  {
    if log == [] {
    } else {
      SuffixCounts(log[..|log| - 1], if k == |log| then k - 1 else k, from, to);
    }
  }

  // ---------------------------------------------------------------------------------------------
  // The rate over any window

  /** Every call in the log found fewer than `max` earlier ones in the window that ended with it. */
  ghost predicate Rated(log: seq<Time>, window: nat, max: nat) {
    forall k :: 0 <= k < |log| ==> Admitted(log, k, window, max)
  }

  ghost predicate Admitted(log: seq<Time>, k: nat, window: nat, max: nat)
    requires k < |log|
  {
    CountIn(log[..k], log[k] - window, log[k]) < max
  }

  lemma RatedNext(log: seq<Time>, window: nat, max: nat, now: Time)
    requires Rated(log, window, max) && CountIn(log, now - window, now) < max
    ensures Rated(log + [now], window, max)
  {
    var log' := log + [now];
    forall k | 0 <= k < |log'| ensures Admitted(log', k, window, max) {
      if k < |log| {
        assert Admitted(log, k, window, max);
        assert log'[..k] == log[..k];
      } else {
        assert log'[..k] == log;
      }
    }
  }

  lemma {:induction false} CountWidens(log: seq<Time>, from: Time, to: Time, from': Time, to': Time)
    requires forall i :: 0 <= i < |log| && from <= log[i] <= to ==> from' <= log[i] <= to'
    ensures CountIn(log, from, to) <= CountIn(log, from', to')
  {
    if log == [] {
    } else {
      CountWidens(log[..|log| - 1], from, to, from', to');
    }
  }

  /** No closed interval of the window's length, wherever it lies, holds more than `max` allowed calls. */
  lemma {:induction false} NeverMoreThanMax(log: seq<Time>, now: Time, window: nat, max: nat, from: Time)
    requires OrderedUpTo(log, now) && Rated(log, window, max)
    ensures CountIn(log, from, from + window) <= max
  {
    if log == [] {
    } else {
      var front, last := log[..|log| - 1], log[|log| - 1];
      if from <= last <= from + window {
        OrderedFacts(front, last);
        assert Admitted(log, |front|, window, max);
        CountWidens(front, from, from + window, last - window, last);
      } else {
        forall k | 0 <= k < |front| ensures Admitted(front, k, window, max) {
          assert Admitted(log, k, window, max);
          assert front[..k] == log[..k];
        }
        NeverMoreThanMax(front, last, window, max, from);
      }
    }
  }

  /** The positions of the calls in the closed window [from, to]. */
  ghost function Within(log: seq<Time>, from: Time, to: Time): set<nat> {
    set i | 0 <= i < |log| && from <= log[i] <= to
  }

  /** What `CountIn` counts. */
  lemma {:induction false} CountInCounts(log: seq<Time>, from: Time, to: Time)
    ensures CountIn(log, from, to) == |Within(log, from, to)|
  {
    if log == [] {
    } else {
      CountInCounts(log[..|log| - 1], from, to);
      WithinOneMore(log, from, to);
    }
  }

  lemma WithinOneMore(log: seq<Time>, from: Time, to: Time)
    requires log != []
    ensures var n, was := |log| - 1, Within(log[..|log| - 1], from, to);
            && Within(log, from, to) == (if from <= log[n] <= to then was + {n} else was)
            && n !in was
  {
  }

  /** Any allowed call and the one `max` further on are more than a window apart. */
  lemma BurstsAreSpaced(log: seq<Time>, now: Time, window: nat, max: nat, k: nat)
    requires OrderedUpTo(log, now) && Rated(log, window, max) && k + max < |log|
    ensures log[k + max] - log[k] > window
  {
    OrderedFacts(log, now);
    var last := log[k + max];
    assert Admitted(log, k + max, window, max);
    if last - log[k] <= window {
      var front := log[..k + max];
      AtLeast(front, k, last - window, last);
    }
  }

  lemma {:induction false} AtLeast(log: seq<Time>, k: nat, from: Time, to: Time)
    requires k <= |log| && forall i :: k <= i < |log| ==> from <= log[i] <= to
    ensures CountIn(log, from, to) >= |log| - k
  {
    if k == |log| {
    } else {
      AtLeast(log[..|log| - 1], k, from, to);
    }
  }

  /** The same for the limiter itself: whatever calls were made, its log keeps the rate. */
  lemma LimiterKeepsRate(rl: WindowRateLimiter, from: Time)
    requires rl.Valid()
    ensures CountIn(rl.Log(), from, from + rl.window) <= rl.max
    ensures |rl.hits| <= rl.max && forall i, j :: 0 <= i < j < |rl.hits| ==> rl.hits[i] <= rl.hits[j]
  {
    var log := rl.Log();
    OrderedFacts(log, rl.clock);
    forall i | 0 <= i < |rl.hits| ensures rl.hits[i] == log[|rl.dropped| + i] {
    }
    NeverMoreThanMax(log, rl.clock, rl.window, rl.max, from);
  }
}
