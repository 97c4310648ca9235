/** The sliding-window limiter of bot/middleware.py. Times come from a monotonic
    clock. */
module RateLimit {
  import opened Outcomes

  function Recent(times: seq<real>, cutoff: real): seq<real> {
    if times == [] then []
    else
      var earlier := Recent(times[..|times| - 1], cutoff);
      if times[|times| - 1] > cutoff then earlier + [times[|times| - 1]] else earlier
  }

  predicate Sorted(times: seq<real>) {
    forall i, j :: 0 <= i < j < |times| ==> times[i] <= times[j]
  }

  /** How many of the times lie in the window (start, start + length]. */
  function CountIn(times: seq<real>, start: real, length: real): nat {
    if times == [] then 0
    else
      CountIn(times[..|times| - 1], start, length)
      + if start < times[|times| - 1] <= start + length then 1 else 0
  }

  /** The accepted times with gaps wide enough for the limit. */
  ghost predicate Spaced(times: seq<real>, window: real, limit: int) {
    forall i, j :: 0 <= i < j < |times| && j - i == limit ==> times[j] - times[i] >= window
  }

  // Pruning.

  lemma {:induction false} NoneRecent(times: seq<real>, cutoff: real)
    requires forall i :: 0 <= i < |times| ==> times[i] <= cutoff
    ensures Recent(times, cutoff) == []
  {
    if times != [] {
      NoneRecent(times[..|times| - 1], cutoff);
    }
  }

  lemma SortedPrefix(times: seq<real>)
    requires Sorted(times) && times != []
    ensures Sorted(times[..|times| - 1])
  {
  }

  lemma OneMoreFrom(times: seq<real>, n: nat)
    requires n < |times|
    ensures times[n..] == times[..|times| - 1][n..] + [times[|times| - 1]]
  {
  }

  /** Of sorted times the recent ones are those from some index on. */
  lemma {:induction false} RecentOfSorted(times: seq<real>, cutoff: real) returns (n: nat)
    requires Sorted(times)
    ensures n <= |times| && Recent(times, cutoff) == times[n..]
    ensures forall i :: 0 <= i < n ==> times[i] <= cutoff
  {
    n := |times|;
    if times != [] {
      var earlier, last := times[..|times| - 1], times[|times| - 1];
      if last > cutoff {
        SortedPrefix(times);
        n := RecentOfSorted(earlier, cutoff);
        OneMoreFrom(times, n);
      } else {
        NoneRecent(times, cutoff);
      }
    }
  }

  /** Dropping old times early loses nothing while the cutoff does not go back. */
  lemma {:induction false} RecentTwice(times: seq<real>, early: real, late: real)
    requires early <= late
    ensures Recent(Recent(times, early), late) == Recent(times, late)
  {
    if times != [] {
      RecentTwice(times[..|times| - 1], early, late);
      var kept := Recent(times[..|times| - 1], early);
      if times[|times| - 1] > early {
        assert (kept + [times[|times| - 1]])[..|kept|] == kept;
      }
    }
  }

  lemma {:induction false} RecentIsCount(times: seq<real>, start: real, length: real)
    requires Sorted(times) && (times != [] ==> times[|times| - 1] <= start + length)
    ensures |Recent(times, start)| == CountIn(times, start, length)
  {
    if times != [] {
      RecentIsCount(times[..|times| - 1], start, length);
    }
  }

  lemma RecentAppend(times: seq<real>, now: real, cutoff: real)
    ensures Recent(times + [now], cutoff) == if now > cutoff then Recent(times, cutoff) + [now] else Recent(times, cutoff)
  {
    assert (times + [now])[..|times|] == times;
  }

  /** Times spaced for the limit fill no window beyond it. */
  lemma SpacedFitsEveryWindow(times: seq<real>, window: real, limit: int, start: real)
    requires Sorted(times) && Spaced(times, window, limit) && (limit <= 0 ==> times == [])
    ensures CountIn(times, start, window) <= if limit > 0 then limit else 0
  {
    CountIsAStretch(times, start, window);
    var first := FirstAfter(times, start);
    if limit > 0 && first + limit < |times| {
      assert times[first + limit] - times[first] >= window;
    }
  }

  /** An accepted time keeps its distance: too few others lie in its window. */
  lemma AcceptKeepsSpaced(times: seq<real>, window: real, limit: int, now: real)
    requires Sorted(times) && Spaced(times, window, limit) && (times != [] ==> times[|times| - 1] <= now)
    requires |Recent(times, now - window)| < limit
    ensures Sorted(times + [now]) && Spaced(times + [now], window, limit)
  {
    var n := RecentOfSorted(times, now - window);
  }

  /** The index of the first time after a moment, if any. */
  function FirstAfter(times: seq<real>, start: real): (i: nat)
    ensures i <= |times|
  {
    if times == [] then 0
    else if FirstAfter(times[..|times| - 1], start) < |times| - 1 then FirstAfter(times[..|times| - 1], start)
    else if times[|times| - 1] > start then |times| - 1 else |times|
  }

  /** The times in a window are consecutive. */
  lemma {:induction false} CountIsAStretch(times: seq<real>, start: real, length: real)
    requires Sorted(times)
    ensures var first, n := FirstAfter(times, start), CountIn(times, start, length);
      first + n <= |times| && forall i :: first <= i < first + n ==> start < times[i] <= start + length
    ensures forall i :: 0 <= i < FirstAfter(times, start) ==> times[i] <= start
    ensures FirstAfter(times, start) + CountIn(times, start, length) < |times| ==>
      times[FirstAfter(times, start) + CountIn(times, start, length)] > start + length
  {
    if times != [] {
      CountIsAStretch(times[..|times| - 1], start, length);
    }
  }

  /** The stored times of a user are the accepted ones after some cutoff. */
  ghost predicate Tracks(times: seq<real>, all: seq<real>, cutoff: real, clock: real, window: real, limit: int) {
    && Sorted(all) && (all != [] ==> all[|all| - 1] <= clock)
    && Spaced(all, window, limit) && (limit <= 0 ==> all == [])
    && cutoff <= clock - window && times == Recent(all, cutoff)
  }

  lemma StillTracks(times: seq<real>, all: seq<real>, cutoff: real, clock: real, now: real, window: real, limit: int)
    requires Tracks(times, all, cutoff, clock, window, limit) && clock <= now
    ensures Tracks(times, all, cutoff, now, window, limit)
  {
  }

  lemma PruningTracks(times: seq<real>, all: seq<real>, cutoff: real, now: real, window: real, limit: int)
    requires Tracks(times, all, cutoff, now, window, limit)
    ensures Tracks(Recent(times, now - window), all, now - window, now, window, limit)
    ensures |Recent(times, now - window)| == CountIn(all, now - window, window)
  {
    RecentTwice(all, cutoff, now - window);
    RecentIsCount(all, now - window, window);
  }

  lemma AcceptTracks(times: seq<real>, all: seq<real>, now: real, window: real, limit: int)
    requires Tracks(times, all, now - window, now, window, limit) && |times| < limit && window > 0.0
    ensures Tracks(times + [now], all + [now], now - window, now, window, limit)
  {
    AcceptKeepsSpaced(all, window, limit, now);
    RecentAppend(all, now, now - window);
  }

  /** The same for every user, the clock having advanced since. */
  ghost predicate AllTrack(
    stored: map<int, seq<real>>, accepted: map<int, seq<real>>, cutoffs: map<int, real>,
    clock: real, window: real, limit: int)
  {
    && accepted.Keys == stored.Keys == cutoffs.Keys
    && forall user :: user in accepted ==> Tracks(stored[user], accepted[user], cutoffs[user], clock, window, limit)
  }

  function Of(times: map<int, seq<real>>, user: int): seq<real> {
    if user in times then times[user] else []
  }

  lemma EachTracks(
      stored: map<int, seq<real>>, accepted: map<int, seq<real>>, cutoffs: map<int, real>,
      clock: real, window: real, limit: int, id: int)
    requires AllTrack(stored, accepted, cutoffs, clock, window, limit)
    ensures Tracks(Of(stored, id), Of(accepted, id), if id in cutoffs then cutoffs[id] else clock - window, clock, window, limit)
  {
  }

  lemma OneUserDecided(
      stored: map<int, seq<real>>, accepted: map<int, seq<real>>, cutoffs: map<int, real>, clock: real,
      id: int, times: seq<real>, all: seq<real>, now: real, window: real, limit: int)
    requires AllTrack(stored, accepted, cutoffs, clock, window, limit) && clock <= now
    requires Tracks(times, all, now - window, now, window, limit)
    ensures AllTrack(stored[id := times], accepted[id := all], cutoffs[id := now - window], now, window, limit)
  {
    forall user | user in accepted ensures Tracks(stored[user], accepted[user], cutoffs[user], now, window, limit) {
      StillTracks(stored[user], accepted[user], cutoffs[user], clock, now, window, limit);
    }
  }

  lemma NobodyDecided(
      stored: map<int, seq<real>>, accepted: map<int, seq<real>>, cutoffs: map<int, real>, clock: real,
      now: real, window: real, limit: int)
    requires AllTrack(stored, accepted, cutoffs, clock, window, limit) && clock <= now
    ensures AllTrack(stored, accepted, cutoffs, now, window, limit)
  {
    forall user | user in accepted ensures Tracks(stored[user], accepted[user], cutoffs[user], now, window, limit) {
      StillTracks(stored[user], accepted[user], cutoffs[user], clock, now, window, limit);
    }
  }

  /** The decision for one user: prunes, compares and, when it passes, records. */
  method Decide(times: seq<real>, ghost all: seq<real>, ghost cutoff: real, ghost clock: real, now: real,
      window: real, limit: int)
    returns (passes: bool, kept: seq<real>)
    requires Tracks(times, all, cutoff, clock, window, limit) && clock <= now && window > 0.0
    ensures passes <==> CountIn(all, now - window, window) < limit
    ensures Tracks(kept, all + if passes then [now] else [], now - window, now, window, limit)
  {
    StillTracks(times, all, cutoff, clock, now, window, limit);
    PruningTracks(times, all, cutoff, now, window, limit);
    kept := Recent(times, now - window);
    passes := |kept| < limit;
    if passes {
      AcceptTracks(kept, all, now, window, limit);
      kept := kept + [now];
    } else {
      assert all + [] == all;
    }
  }

  class RateLimiter {
    const window: real
    const limit: int
    var timestamps: map<int, seq<real>>
    /** All accepted times of a user, which the program forgets. */
    ghost var accepted: map<int, seq<real>>
    /** The cutoff of the last pruning, and the time of the last call. */
    ghost var cutoffs: map<int, real>
    ghost var clock: real

    ghost predicate Valid()
      reads this
    {
      && window > 0.0
      && AllTrack(timestamps, accepted, cutoffs, clock, window, limit)
    }

    ghost function Accepted(user: int): seq<real>
      reads this
    {
      Of(accepted, user)
    }

    constructor (window: real, limit: int, now: real)
      requires window > 0.0
      ensures Valid() && accepted == map[] && clock == now && this.window == window && this.limit == limit
    {
      this.window, this.limit, clock := window, limit, now;
      timestamps, accepted, cutoffs := map[], map[], map[];
    }

    /** Stores what was decided for one user. */
    method Store(id: int, times: seq<real>, ghost all: seq<real>, now: real)
      requires Valid() && clock <= now && Tracks(times, all, now - window, now, window, limit)
      modifies this
      ensures Valid() && clock == now && accepted == old(accepted)[id := all]
    {
      OneUserDecided(timestamps, accepted, cutoffs, clock, id, times, all, now, window, limit);
      timestamps, accepted, cutoffs := timestamps[id := times], accepted[id := all], cutoffs[id := now - window];
      clock := now;
    }

    /** The part of `__call__` for a known user. */
    method Check(id: int, now: real) returns (passes: bool)
      requires Valid() && clock <= now
      modifies this
      ensures Valid() && clock == now
      ensures passes <==> CountIn(old(Accepted(id)), now - window, window) < limit
      ensures accepted == old(accepted)[id := old(Accepted(id)) + if passes then [now] else []]
    {
      EachTracks(timestamps, accepted, cutoffs, clock, window, limit, id);
      var times: seq<real>;
      ghost var cutoff := if id in cutoffs then cutoffs[id] else clock - window;
      passes, times := Decide(Of(timestamps, id), Accepted(id), cutoff, clock, now, window, limit);
      Store(id, times, Accepted(id) + if passes then [now] else [], now);
    }

    /** `__call__`: an event of a user passes exactly when fewer than the limit of
        accepted ones lie in the window that ends with it; others always pass. */
    method Call(user: Option<int>, now: real) returns (passes: bool)
      requires Valid() && clock <= now
      modifies this
      ensures Valid() && clock == now
      ensures user.None? ==> passes && accepted == old(accepted)
      ensures user.Some? ==> (passes <==> CountIn(old(Accepted(user.value)), now - window, window) < limit)
      ensures user.Some? ==>
        accepted == old(accepted)[user.value := old(Accepted(user.value)) + if passes then [now] else []]
    {
      if user.Some? {
        passes := Check(user.value, now);
      } else {
        NobodyDecided(timestamps, accepted, cutoffs, clock, now, window, limit);
        clock := now;
        passes := true;
      }
    }

    /** No window of the configured length ever holds more than the limit. */
    lemma EveryWindowIsLimited(user: int, start: real)
      requires Valid()
      ensures CountIn(Accepted(user), start, window) <= if limit > 0 then limit else 0
    {
      if user in accepted {
        SpacedFitsEveryWindow(accepted[user], window, limit, start);
      }
    }
  }
}
