/**
 * The sliding window of the upload limits (`within` and `retryAfter`, gateway/src/limits.ts). Times are in whole
 * milliseconds. Every attempt is counted, refused or not; the sorted set holds one score an attempt.
 */
module SlidingWindow {
  datatype Limit = Limit(windowS: nat, max: nat)

  function WindowMs(l: Limit): int { l.windowS * 1000 }

  /** How many of the first `n` attempts came after `since`. */
  function CountAfter(attempts: seq<int>, n: nat, since: int): nat
    requires n <= |attempts|
  {
    if n == 0 then 0 else CountAfter(attempts, n - 1, since) + if attempts[n - 1] > since then 1 else 0
  }

  /** The i-th attempt is accepted: with those before it in its window, it makes at most `max`. */
  predicate Accepted(l: Limit, attempts: seq<int>, i: nat)
    requires i < |attempts|
  {
    CountAfter(attempts, i, attempts[i] - WindowMs(l)) + 1 <= l.max
  }

  predicate Monotone(attempts: seq<int>) { forall i, j | 0 <= i <= j < |attempts| :: attempts[i] <= attempts[j] }

  // ---- the scores kept --------------------------------------------------------------------------

  /** The attempts later than `since`, oldest first. */
  function Since(attempts: seq<int>, since: int): seq<int>
    decreases |attempts|
  {
    if attempts == [] then []
    else
      var before, last := attempts[..|attempts| - 1], attempts[|attempts| - 1];
      if last > since then Since(before, since) + [last] else Since(before, since)
  }

  /** What the sorted set holds: what the last attempt left of the earlier ones, and that attempt. */
  function Held(l: Limit, attempts: seq<int>): seq<int> {
    if attempts == [] then []
    else
      var before, last := attempts[..|attempts| - 1], attempts[|attempts| - 1];
      Since(before, last - WindowMs(l)) + [last]
  }

  lemma {:induction false} SinceOneMore(attempts: seq<int>, last: int, since: int)
    ensures Since(attempts + [last], since) == Since(attempts, since) + if last > since then [last] else []
  {
    assert (attempts + [last])[..|attempts|] == attempts;
  }

  lemma {:induction false} SinceCounts(attempts: seq<int>, n: nat, since: int)
    requires n <= |attempts|
    ensures |Since(attempts[..n], since)| == CountAfter(attempts, n, since)
    decreases n
  {
    if n > 0 {
      SinceCounts(attempts, n - 1, since);
      assert attempts[..n] == attempts[..n - 1] + [attempts[n - 1]];
      SinceOneMore(attempts[..n - 1], attempts[n - 1], since);
    }
  }

  /** Forgetting what is older than an earlier window loses nothing of a later one. */
  lemma {:induction false} SinceTwice(attempts: seq<int>, earlier: int, later: int)
    requires earlier <= later
    ensures Since(Since(attempts, earlier), later) == Since(attempts, later)
    decreases |attempts|
  {
    if attempts != [] {
      var before, last := attempts[..|attempts| - 1], attempts[|attempts| - 1];
      SinceTwice(before, earlier, later);
      SinceOneMore(Since(before, earlier), last, later);
    }
  }

  /** So what is held answers for all attempts ever made. */
  lemma {:induction false} HeldIsEnough(l: Limit, attempts: seq<int>, since: int)
    requires attempts != [] ==> attempts[|attempts| - 1] - WindowMs(l) <= since
    ensures Since(Held(l, attempts), since) == Since(attempts, since)
  {
    if attempts != [] {
      var before, last := attempts[..|attempts| - 1], attempts[|attempts| - 1];
      var kept := Since(before, last - WindowMs(l));
      SinceTwice(before, last - WindowMs(l), since);
      SinceOneMore(kept, last, since);
      assert Held(l, attempts) == kept + [last];
      assert Since(attempts, since) == Since(before, since) + if last > since then [last] else [];
    }
  }

  // ---- when to try again -----------------------------------------------------------------------------

  /** Rounded up: `Math.ceil(ms / 1000)`. */
  function CeilSeconds(ms: int): (s: int)
    ensures s * 1000 >= ms && (s - 1) * 1000 < ms
  {
    -((-ms) / 1000)
  }

  /** The event at index count - max, oldest first; the moment itself when there is none. */
  function Blocking(l: Limit, events: seq<int>, now: int): int {
    var index := |events| - l.max;
    if 0 <= index < |events| then events[index] else now
  }

  function RetryAfter(l: Limit, events: seq<int>, now: int): int {
    var s := CeilSeconds(Blocking(l, events, now) + WindowMs(l) - now);
    if s < 1 then 1 else s
  }

  class Window {
    const limit: Limit
    /** The sorted set: the scores in it, oldest first. */
    var events: seq<int>
    ghost var attempts: seq<int>

    ghost predicate Valid()
      reads this
    {
      events == Held(limit, attempts)
    }

    constructor (limit: Limit)
      ensures Valid() && attempts == [] && this.limit == limit
    {
      this.limit, events, attempts := limit, [], [];
    }

    /** Takes out the scores up to `since`; scores are times, and none is negative. */
    method RemoveUpTo(since: int)
      modifies `events
      ensures events == Since(old(events), since)
    {
      var all, kept := events, [];
      for i := 0 to |all|
        invariant kept == Since(all[..i], since)
      {
        assert all[..i + 1] == all[..i] + [all[i]];
        SinceOneMore(all[..i], all[i], since);
        if all[i] > since {
          kept := kept + [all[i]];
        }
      }
      assert all[..|all|] == all;
      events := kept;
    }

    /** One attempt, with a clock that does not go back. */
    method Within(now: int) returns (ok: bool, retryAfterS: int)
      requires Valid() && (attempts != [] ==> attempts[|attempts| - 1] <= now)
      modifies `events, `attempts
      ensures Valid() && attempts == old(attempts) + [now]
      ensures ok <==> Accepted(limit, attempts, |attempts| - 1)
      ensures retryAfterS == if ok then 0 else RetryAfter(limit, events, now)
    {
      var since := now - WindowMs(limit);
      HeldIsEnough(limit, attempts, since);
      RemoveUpTo(since);
      ghost var before := attempts;
      events := events + [now];
      attempts := attempts + [now];
      assert attempts[..|before|] == before;
      SinceCounts(attempts, |before|, since);
      ok := |events| <= limit.max;
      retryAfterS := if ok then 0 else RetryAfter(limit, events, now);
    }
  }

  // ---- at most `max` in any window --------------------------------------------------------------------

  /** How many of the first `n` attempts were accepted in (lo, hi]. */
  function AcceptedIn(l: Limit, attempts: seq<int>, n: nat, lo: int, hi: int): nat
    requires n <= |attempts|
  {
    if n == 0 then 0
    else AcceptedIn(l, attempts, n - 1, lo, hi) +
         if Accepted(l, attempts, n - 1) && lo < attempts[n - 1] <= hi then 1 else 0
  }

  lemma {:induction false} AcceptedAreAttempts(l: Limit, attempts: seq<int>, n: nat, lo: int, hi: int)
    requires n <= |attempts|
    ensures AcceptedIn(l, attempts, n, lo, hi) <= CountAfter(attempts, n, lo)
    decreases n
  {
    if n > 0 {
      AcceptedAreAttempts(l, attempts, n - 1, lo, hi);
    }
  }

  lemma {:induction false} LaterCountsFewer(attempts: seq<int>, n: nat, earlier: int, later: int)
    requires n <= |attempts| && earlier <= later
    ensures CountAfter(attempts, n, later) <= CountAfter(attempts, n, earlier)
    decreases n
  {
    if n > 0 {
      LaterCountsFewer(attempts, n - 1, earlier, later);
    }
  }

  /** However attempts fall, no window, wherever it lies, holds more than `max` that were accepted. */
  lemma {:induction false} AtMostMaxInAnyWindow(l: Limit, attempts: seq<int>, n: nat, t: int)
    requires n <= |attempts|
    ensures AcceptedIn(l, attempts, n, t - 1000 * l.windowS, t) <= l.max
    decreases n
  {
    if n > 0 {
      AtMostMaxInAnyWindow(l, attempts, n - 1, t);
      var last := attempts[n - 1];
      if Accepted(l, attempts, n - 1) && t - WindowMs(l) < last <= t {
        AcceptedAreAttempts(l, attempts, n - 1, t - WindowMs(l), t);
        LaterCountsFewer(attempts, n - 1, last - WindowMs(l), t - WindowMs(l));
      }
    }
  }

  // ---- the retry time is exact --------------------------------------------------------------------------

  /** In a sorted list, what lies after a time that an entry does, or does not, reach. */
  lemma {:induction false} SortedSince(events: seq<int>, k: nat, since: int)
    requires Monotone(events) && k < |events|
    ensures events[k] > since ==> |Since(events, since)| >= |events| - k
    ensures events[k] <= since ==> |Since(events, since)| <= |events| - k - 1
    decreases |events|
  {
    var before := events[..|events| - 1];
    assert events == before + [events[|events| - 1]];
    if k < |before| {
      SortedSince(before, k, since);
      assert before[k] == events[k];
    } else {
      SinceAtMost(before, since);
      NoneSince(before, since, events[k]);
    }
  }

  lemma {:induction false} SinceAtMost(events: seq<int>, since: int)
    ensures |Since(events, since)| <= |events|
    decreases |events|
  {
    if events != [] {
      SinceAtMost(events[..|events| - 1], since);
    }
  }

  lemma {:induction false} NoneSince(events: seq<int>, since: int, top: int)
    requires forall i | 0 <= i < |events| :: events[i] <= top
    ensures top <= since ==> Since(events, since) == []
    decreases |events|
  {
    if events != [] {
      NoneSince(events[..|events| - 1], since, top);
    }
  }

  lemma {:induction false} SinceSorted(attempts: seq<int>, since: int)
    requires Monotone(attempts)
    ensures Monotone(Since(attempts, since))
    ensures attempts != [] ==> forall i | 0 <= i < |Since(attempts, since)| ::
              Since(attempts, since)[i] <= attempts[|attempts| - 1]
    decreases |attempts|
  {
    if attempts != [] {
      SinceSorted(attempts[..|attempts| - 1], since);
    }
  }

  lemma {:induction false} HeldSorted(l: Limit, attempts: seq<int>)
    requires Monotone(attempts)
    ensures Monotone(Held(l, attempts))
  {
    if attempts != [] {
      SinceSorted(attempts[..|attempts| - 1], attempts[|attempts| - 1] - WindowMs(l));
    }
  }

  /**
   * One more attempt, with none in between, is accepted if and only if what is held has at most max - 1 left in its
   * window.
   */
  lemma {:induction false} NextAccepted(l: Limit, attempts: seq<int>, later: int)
    requires attempts != [] && attempts[|attempts| - 1] <= later
    ensures Accepted(l, attempts + [later], |attempts|) <==>
              |Since(Held(l, attempts), later - WindowMs(l))| + 1 <= l.max
  {
    var all, since := attempts + [later], later - WindowMs(l);
    HeldIsEnough(l, attempts, since);
    assert all[..|attempts|] == attempts;
    SinceCounts(all, |attempts|, since);
  }

  /**
   * A retry is accepted just when the blocking event has left the window: no sooner, and not later. `attempts` ends
   * with a refused one, and nobody tries in between.
   */
  lemma {:induction false} AcceptedOnceBlockingLeaves(l: Limit, attempts: seq<int>, later: int)
    requires Monotone(attempts) && attempts != [] && !Accepted(l, attempts, |attempts| - 1) && l.max >= 1
    requires attempts[|attempts| - 1] <= later
    ensures Accepted(l, attempts + [later], |attempts|)
       <==> later >= Blocking(l, Held(l, attempts), attempts[|attempts| - 1]) + WindowMs(l)
  {
    var events, now := Held(l, attempts), attempts[|attempts| - 1];
    SinceCounts(attempts, |attempts| - 1, now - WindowMs(l));
    assert |events| > l.max;
    HeldSorted(l, attempts);
    SortedSince(events, |events| - l.max, later - WindowMs(l));
    NextAccepted(l, attempts, later);
  }

  /**
   * The retry time is exact: trying again after that many seconds is accepted, and no fewer whole seconds would do.
   * It is so if and only if anything is allowed at all: with a limit of none, the time named is not one.
   */
  lemma {:induction false} RetryIsExact(l: Limit, attempts: seq<int>)
    requires Monotone(attempts) && attempts != [] && !Accepted(l, attempts, |attempts| - 1)
    ensures var now := attempts[|attempts| - 1];
            var s := RetryAfter(l, Held(l, attempts), now);
            && (Accepted(l, attempts + [now + s * 1000], |attempts|) <==> l.max >= 1)
            && (forall fewer | 0 <= fewer < s :: !Accepted(l, attempts + [now + fewer * 1000], |attempts|))
  {
    var now := attempts[|attempts| - 1];
    var s := RetryAfter(l, Held(l, attempts), now);
    RetryAccepted(l, attempts);
    if l.max >= 1 {
      forall fewer | 0 <= fewer < s ensures !Accepted(l, attempts + [now + fewer * 1000], |attempts|) {
        FewerRefused(l, attempts, fewer);
      }
    }
  }

  lemma {:induction false} RetryAccepted(l: Limit, attempts: seq<int>)
    requires Monotone(attempts) && attempts != [] && !Accepted(l, attempts, |attempts| - 1)
    ensures var now := attempts[|attempts| - 1];
            var s := RetryAfter(l, Held(l, attempts), now);
            Accepted(l, attempts + [now + s * 1000], |attempts|) <==> l.max >= 1
  {
    if l.max >= 1 {
      var now := attempts[|attempts| - 1];
      AcceptedOnceBlockingLeaves(l, attempts, now + RetryAfter(l, Held(l, attempts), now) * 1000);
    }
  }

  lemma {:induction false} FewerRefused(l: Limit, attempts: seq<int>, fewer: int)
    requires Monotone(attempts) && attempts != [] && !Accepted(l, attempts, |attempts| - 1) && l.max >= 1
    requires 0 <= fewer < RetryAfter(l, Held(l, attempts), attempts[|attempts| - 1])
    ensures !Accepted(l, attempts + [attempts[|attempts| - 1] + fewer * 1000], |attempts|)
  {
    AcceptedOnceBlockingLeaves(l, attempts, attempts[|attempts| - 1] + fewer * 1000);
    BlockedMeanwhile(l, attempts, fewer);
  }

  lemma {:induction false} BlockedMeanwhile(l: Limit, attempts: seq<int>, fewer: int)
    requires Monotone(attempts) && attempts != [] && !Accepted(l, attempts, |attempts| - 1) && l.max >= 1
    requires 0 <= fewer < RetryAfter(l, Held(l, attempts), attempts[|attempts| - 1])
    ensures var now := attempts[|attempts| - 1];
            now + fewer * 1000 < Blocking(l, Held(l, attempts), now) + WindowMs(l)
  {
    BlockingInWindow(l, attempts);
  }

  /** The event a refused attempt waits for is still in its window. */
  lemma {:induction false} BlockingInWindow(l: Limit, attempts: seq<int>)
    requires Monotone(attempts) && attempts != [] && !Accepted(l, attempts, |attempts| - 1) && l.max >= 1
    ensures Blocking(l, Held(l, attempts), attempts[|attempts| - 1]) + WindowMs(l) > attempts[|attempts| - 1]
  {
    var before, now := attempts[..|attempts| - 1], attempts[|attempts| - 1];
    SinceCounts(attempts, |attempts| - 1, now - WindowMs(l));
    if l.windowS == 0 {
      NoneSince(before, now, now);
      assert false;
    }
    SinceLater(before, now - WindowMs(l));
  }

  lemma {:induction false} SinceLater(events: seq<int>, since: int)
    ensures forall i | 0 <= i < |Since(events, since)| :: Since(events, since)[i] > since
    decreases |events|
  {
    if events != [] {
      SinceLater(events[..|events| - 1], since);
    }
  }
}
