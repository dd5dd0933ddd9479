/**
 The per-socket rate limit of HandleWebSocket in backend/handlers/handlers.go: a sliding window of
 one second over accepted frames, kept in a slice that is compacted in place.
 */
module RateLimit {

  /** Clock readings are nanoseconds. */
  const SECOND := 1_000_000_000

  const LIMIT := 10

  ghost predicate Monotone(times: seq<int>) {
    forall i, j :: 0 <= i < j < |times| ==> times[i] <= times[j]
  }

  /** The stamps of the last second before `now`. */
  function Recent(history: seq<int>, now: int): seq<int> {
    if history == [] then []
    else
      var last := history[|history| - 1];
      Recent(history[..|history| - 1], now) + (if last > now - SECOND then [last] else [])
  }

  /** Filtering twice, with a clock that does not run backwards, is filtering once. */
  lemma {:induction false} RecentOfRecent(history: seq<int>, earlier: int, now: int)
    requires earlier <= now
    ensures Recent(Recent(history, earlier), now) == Recent(history, now)
  {
    if history != [] {
      var front, last := history[..|history| - 1], history[|history| - 1];
      RecentOfRecent(front, earlier, now);
      if last > earlier - SECOND {
        var kept := Recent(history, earlier);
        assert kept[..|kept| - 1] == Recent(front, earlier);
      } else {
        assert Recent(history, earlier) == Recent(front, earlier);
      }
    }
  }

  lemma RecentAppend(history: seq<int>, t: int, now: int)
    ensures Recent(history + [t], now) == Recent(history, now) + if t > now - SECOND then [t] else []
  {
    assert (history + [t])[..|history|] == history;
  }

  /** In an ordered history the window is full exactly when the tenth stamp from the end is recent. */
  lemma {:induction false} WindowFull(history: seq<int>, now: int, n: nat)
    requires Monotone(history) && n >= 1
    ensures |Recent(history, now)| >= n <==> |history| >= n && history[|history| - n] > now - SECOND
    decreases |history|
  {
    if history != [] {
      var front, last := history[..|history| - 1], history[|history| - 1];
      if last > now - SECOND {
        if n >= 2 {
          WindowFull(front, now, n - 1);
        }
      } else {
        WindowFull(front, now, n);
        assert |front| >= n ==> front[|front| - n] <= last;
        assert |history| >= n ==> history[|history| - n] <= last;
      }
    }
  }

  /** The slice and its length, as the handler's local variables. */
  class Limiter {
    var stamps: array<int>
    var len: nat
    ghost var accepted: seq<int>
    ghost var last: int

    ghost predicate Valid()
      reads this, stamps
    {
      && stamps.Length == LIMIT && len <= LIMIT
      && stamps[..len] == Recent(accepted, last)
    }

    constructor (start: int)
      ensures Valid() && fresh(stamps) && accepted == [] && last == start
    {
      stamps := new int[LIMIT];
      len := 0;
      accepted, last := [], start;
    }

    /** for _, t := range msgTimestamps: keep what is after the cutoff, in place. */
    method Compact(now: int)
      requires stamps.Length == LIMIT && len <= LIMIT
      modifies this`len, stamps
      ensures len <= old(len)
      ensures stamps[..len] == Recent(old(stamps[..len]), now)
    {
      var cutoff, n, j := now - SECOND, len, 0;
      ghost var was, kept := stamps[..len], [];
      for i := 0 to n
        invariant 0 <= j <= i && len == n
        invariant kept == Recent(was[..i], now) && |kept| == j
        invariant forall k :: 0 <= k < j ==> stamps[k] == kept[k]
        invariant forall k :: i <= k < n ==> stamps[k] == was[k]
      {
        var t := stamps[i];
        assert was[..i + 1] == was[..i] + [t];
        RecentAppend(was[..i], t, now);
        if t > cutoff {
          stamps[j] := t;
          j := j + 1;
          kept := kept + [t];
        }
      }
      assert was[..n] == was;
      len := j;
      assert stamps[..len] == kept;
    }

    /** One frame. False means that the window is full and the connection is closed. */
    method OnFrame(now: int) returns (ok: bool)
      requires Valid() && last <= now
      modifies this, stamps
      ensures Valid() && stamps == old(stamps) && last == now
      ensures ok <==> |Recent(old(accepted), now)| < LIMIT
      ensures accepted == if ok then old(accepted) + [now] else old(accepted)
    {
      Compact(now);
      RecentOfRecent(accepted, last, now);
      last := now;
      if len >= LIMIT {
        return false;
      }
      stamps[len] := now;
      len := len + 1;
      assert stamps[..len] == stamps[..len - 1] + [now];
      RecentAppend(accepted, now, now);
      accepted := accepted + [now];
      ok := true;
    }
  }

  /** Any eleven consecutive stamps span at least a second. */
  ghost predicate Spaced(times: seq<int>) {
    forall i :: 0 <= i && i + 10 < |times| ==> times[i + 10] - times[i] >= 1_000_000_000
  }

  /**
   The read loop over the arrival times of a whole connection. Whatever was accepted is spaced; the
   connection survives exactly when all of its frames are; and it is closed by the first frame that
   is not.
   */
  method Serve(times: seq<int>) returns (survived: bool, accepted: seq<int>)
    requires Monotone(times)
    ensures accepted <= times && Spaced(accepted)
    ensures survived <==> Spaced(times)
    ensures survived ==> accepted == times
    ensures !survived ==> |accepted| < |times| && !Spaced(times[..|accepted| + 1])
  {
    var limiter := new Limiter(if times == [] then 0 else times[0]);
    for i := 0 to |times|
      invariant limiter.Valid() && fresh(limiter) && fresh(limiter.stamps)
      invariant limiter.accepted == times[..i]
      invariant i < |times| ==> limiter.last <= times[i]
      invariant Spaced(times[..i])
    {
      var ok := limiter.OnFrame(times[i]);
      OneMore(times, i);
      if !ok {
        return false, times[..i];
      }
    }
    assert times[..|times|] == times;
    return true, times;
  }

  lemma OneMore(times: seq<int>, i: nat)
    requires Monotone(times) && i < |times| && Spaced(times[..i])
    ensures times[..i + 1] == times[..i] + [times[i]]
    ensures Spaced(times[..i + 1]) <==> |Recent(times[..i], times[i])| < LIMIT
    ensures Spaced(times) ==> Spaced(times[..i + 1])
  {
    SpacedStep(times, i);
    SpacedPrefix(times, i + 1);
  }

  lemma SpacedPrefix(times: seq<int>, n: nat)
    requires n <= |times|
    ensures Spaced(times) ==> Spaced(times[..n])
  {
    if Spaced(times) {
      forall i | 0 <= i && i + LIMIT < n
        ensures times[..n][i + LIMIT] - times[..n][i] >= SECOND
      {
        assert times[i + LIMIT] - times[i] >= SECOND;
      }
    }
  }

  /** One more arrival keeps the spacing exactly when the window before it is not full. */
  lemma SpacedStep(times: seq<int>, i: nat)
    requires Monotone(times) && i < |times| && Spaced(times[..i])
    ensures Spaced(times[..i + 1]) <==> |Recent(times[..i], times[i])| < LIMIT
  {
    WindowFull(times[..i], times[i], 10);
    LastGapDecides(times[..i], times[i]);
    assert times[..i + 1] == times[..i] + [times[i]];
  }

  lemma LastGapDecides(front: seq<int>, t: int)
    requires Spaced(front)
    ensures Spaced(front + [t]) <==> |front| < 10 || t - front[|front| - 10] >= 1_000_000_000
  {
    var more := front + [t];
    if |front| < 10 || t - front[|front| - 10] >= 1_000_000_000 {
      forall k | 0 <= k && k + 10 < |more|
        ensures more[k + 10] - more[k] >= 1_000_000_000
      {
        if k + 10 < |front| {
          assert front[k + 10] - front[k] >= 1_000_000_000;
        }
      }
    } else {
      var k := |front| - 10;
      assert more[k + 10] == t && more[k] == front[k];
    }
  }
}
