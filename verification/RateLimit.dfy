/**
 * The token bucket of a socket (gateway/src/ws/rateLimit.ts). Times are in milliseconds; numbers are exact.
 */
module RateLimit {
  import opened Sequences

  /** A call of `take`, and what it answered. */
  datatype Call = Call(at: real, cost: real, granted: bool)

  datatype Limits = Limits(capacity: real, perSecond: real, start: real)

  function Refilled(perSecond: real, since: real, now: real): real { ((now - since) / 1000.0) * perSecond }

  function Refill(b: Limits, since: real, now: real): real { Refilled(b.perSecond, since, now) }

  function Min(x: real, y: real): real { if x <= y then x else y }

  /** What a call that finds `tokens` from time `last` has to take from. */
  function Available(b: Limits, tokens: real, last: real, now: real): real {
    Min(b.capacity, tokens + Refill(b, last, now))
  }

  function Taken(c: Call): real { if c.granted then c.cost else 0.0 }

  /** The bucket after these calls: when it was last looked at, and the tokens then left in it. */
  function Last(b: Limits, calls: seq<Call>): real { if calls == [] then b.start else calls[|calls| - 1].at }

  function Tokens(b: Limits, calls: seq<Call>): real
    decreases |calls|
  {
    if calls == [] then b.capacity
    else
      var before, c := calls[..|calls| - 1], calls[|calls| - 1];
      Available(b, Tokens(b, before), Last(b, before), c.at) - Taken(c)
  }

  function Has(b: Limits, calls: seq<Call>, now: real): real { Available(b, Tokens(b, calls), Last(b, calls), now) }

  /** Each call was answered as the bucket then stood. */
  ghost predicate Answered(b: Limits, calls: seq<Call>) {
    forall i | 0 <= i < |calls| :: calls[i].granted <==> Has(b, calls[..i], calls[i].at) >= calls[i].cost
  }

  /** What was granted from the i-th call on. */
  function Granted(calls: seq<Call>, i: nat): real
    requires i <= |calls|
    decreases |calls|
  {
    if i == |calls| then 0.0 else Granted(calls[..|calls| - 1], i) + Taken(calls[|calls| - 1])
  }

  /** What a window opening at `since`, in which `granted` was granted, leaves for a call at `now`. */
  function Left(b: Limits, since: real, granted: real, now: real): real { b.capacity + Refill(b, since, now) - granted }

  /** A request fits every window: from creation, from each earlier call, and from this very moment. */
  ghost predicate FitsEveryWindow(b: Limits, calls: seq<Call>, now: real, cost: real) {
    && cost <= b.capacity
    && Granted(calls, 0) + cost <= b.capacity + Refill(b, b.start, now)
    && forall i | 0 <= i < |calls| :: Granted(calls, i) + cost <= b.capacity + Refill(b, calls[i].at, now)
  }

  lemma {:induction false} RefillAdds(b: Limits, x: real, y: real, z: real)
    ensures Refill(b, x, y) + Refill(b, y, z) == Refill(b, x, z)
  {
    var first, second := (y - x) / 1000.0, (z - y) / 1000.0;
    assert (z - x) / 1000.0 == first + second;
    assert first * b.perSecond + second * b.perSecond == (first + second) * b.perSecond;
  }

  /** Every second brings the rate, however it is cut into pieces (`RefillAdds`); times are in milliseconds. */
  lemma {:induction false} RefillPerSecond(b: Limits, since: real, seconds: nat)
    ensures Refill(b, since, since + 1000.0 * seconds as real) == seconds as real * b.perSecond
  {
    assert (1000.0 * seconds as real) / 1000.0 == seconds as real;
  }

  lemma {:induction false} RefillNone(b: Limits, x: real)
    ensures Refill(b, x, x) == 0.0
  {
  }

  /** What is left of a window after one more call. */
  lemma {:induction false} LeftAfter(b: Limits, since: real, granted: real, c: Call, now: real)
    ensures Left(b, since, granted, c.at) - Taken(c) + Refill(b, c.at, now) == Left(b, since, granted + Taken(c), now)
  {
    RefillAdds(b, since, c.at, now);
  }

  lemma {:induction false} GrantedMore(calls: seq<Call>, c: Call, i: nat)
    requires i <= |calls|
    ensures Granted(calls + [c], i) == Granted(calls, i) + Taken(c)
  {
    assert (calls + [c])[..|calls|] == calls;
  }

  /** The bucket never holds more than any window leaves. */
  lemma {:induction false} NoMoreThanAnyWindow(b: Limits, calls: seq<Call>, now: real)
    ensures Has(b, calls, now) <= b.capacity
    ensures Has(b, calls, now) <= Left(b, b.start, Granted(calls, 0), now)
    ensures forall i | 0 <= i < |calls| :: Has(b, calls, now) <= Left(b, calls[i].at, Granted(calls, i), now)
    decreases |calls|
  {
    if calls != [] {
      var before, c := calls[..|calls| - 1], calls[|calls| - 1];
      assert calls == before + [c];
      NoMoreThanAnyWindow(b, before, c.at);
      GrantedMore(before, c, 0);
      LeftAfter(b, b.start, Granted(before, 0), c, now);
      forall i | 0 <= i < |calls| ensures Has(b, calls, now) <= Left(b, calls[i].at, Granted(calls, i), now) {
        GrantedMore(before, c, i);
        if i < |before| {
          assert before[i] == calls[i];
          LeftAfter(b, calls[i].at, Granted(before, i), c, now);
        }
      }
    }
  }

  /** And it always holds as much as one of them does. */
  lemma {:induction false} AsMuchAsSomeWindow(b: Limits, calls: seq<Call>, now: real)
    ensures || Has(b, calls, now) == b.capacity
            || Has(b, calls, now) == Left(b, b.start, Granted(calls, 0), now)
            || exists i :: 0 <= i < |calls| && Has(b, calls, now) == Left(b, calls[i].at, Granted(calls, i), now)
    decreases |calls|
  {
    if calls != [] {
      var before, c := calls[..|calls| - 1], calls[|calls| - 1];
      assert calls == before + [c];
      if Has(b, calls, now) != b.capacity {
        AsMuchAsSomeWindow(b, before, c.at);
        if Has(b, before, c.at) == b.capacity {
          GrantedMore(before, c, |before|);
          assert Has(b, calls, now) == Left(b, calls[|before|].at, Granted(calls, |before|), now);
        } else if Has(b, before, c.at) == Left(b, b.start, Granted(before, 0), c.at) {
          GrantedMore(before, c, 0);
          LeftAfter(b, b.start, Granted(before, 0), c, now);
        } else {
          var i :| 0 <= i < |before| && Has(b, before, c.at) == Left(b, before[i].at, Granted(before, i), c.at);
          GrantedMore(before, c, i);
          LeftAfter(b, before[i].at, Granted(before, i), c, now);
          assert Has(b, calls, now) == Left(b, calls[i].at, Granted(calls, i), now);
        }
      }
    }
  }

  /**
   * Exact. A request is granted if and only if it fits every window: so none lets more through than the capacity and
   * what the time brings, and nothing is refused that every window has room for. Whatever the clock and the costs do.
   */
  lemma {:induction false} GrantedIffFits(b: Limits, calls: seq<Call>, now: real, cost: real)
    ensures Has(b, calls, now) >= cost <==> FitsEveryWindow(b, calls, now, cost)
  {
    NoMoreThanAnyWindow(b, calls, now);
    AsMuchAsSomeWindow(b, calls, now);
  }

  /** Between two calls, what is granted is within the capacity and what the time between them brings. */
  lemma {:induction false} WindowIsBounded(b: Limits, calls: seq<Call>, i: nat, n: nat)
    requires Answered(b, calls) && i < n <= |calls|
    requires b.capacity >= 0.0 && b.perSecond >= 0.0
    requires forall x, y | 0 <= x <= y < |calls| :: calls[x].at <= calls[y].at
    ensures Granted(calls[..n], i) <= b.capacity + Refill(b, calls[i].at, calls[n - 1].at)
    decreases n
  {
    if calls[n - 1].granted {
      GrantedIsBounded(b, calls, i, n);
    } else if i == n - 1 {
      NothingMore(b, calls, i, n);
    } else {
      WindowIsBounded(b, calls, i, n - 1);
      NothingMore(b, calls, i, n);
    }
  }

  lemma {:induction false} GrantedUpTo(calls: seq<Call>, i: nat, n: nat)
    requires i < n <= |calls|
    ensures Granted(calls[..n], i) == Granted(calls[..n - 1], i) + Taken(calls[n - 1])
  {
    TakeOneMore(calls, n - 1);
    GrantedMore(calls[..n - 1], calls[n - 1], i);
  }

  lemma {:induction false} NothingMore(b: Limits, calls: seq<Call>, i: nat, n: nat)
    requires i < n <= |calls| && b.capacity >= 0.0 && b.perSecond >= 0.0 && !calls[n - 1].granted
    requires forall x, y | 0 <= x <= y < |calls| :: calls[x].at <= calls[y].at
    requires i < n - 1 ==> Granted(calls[..n - 1], i) <= b.capacity + Refill(b, calls[i].at, calls[n - 2].at)
    ensures Granted(calls[..n], i) <= b.capacity + Refill(b, calls[i].at, calls[n - 1].at)
  {
    GrantedUpTo(calls, i, n);
    if i < n - 1 {
      RefillGrows(b, calls[i].at, calls[n - 2].at, calls[n - 1].at);
    } else {
      RefillNone(b, calls[i].at);
    }
  }

  lemma {:induction false} GrantedIsBounded(b: Limits, calls: seq<Call>, i: nat, n: nat)
    requires Answered(b, calls) && i < n <= |calls| && calls[n - 1].granted
    ensures Granted(calls[..n], i) <= b.capacity + Refill(b, calls[i].at, calls[n - 1].at)
  {
    GrantedUpTo(calls, i, n);
    NoMoreThanAnyWindow(b, calls[..n - 1], calls[n - 1].at);
    RefillNone(b, calls[i].at);
    assert i < n - 1 ==> calls[..n - 1][i] == calls[i];
  }

  lemma {:induction false} RefillGrows(b: Limits, since: real, x: real, y: real)
    requires x <= y && b.perSecond >= 0.0
    ensures Refill(b, since, x) <= Refill(b, since, y)
  {
    RefillAdds(b, since, x, y);
    assert ((y - x) / 1000.0) * b.perSecond >= 0.0;
  }

  class TokenBucket {
    const capacity: real
    const perSecond: real
    var tokens: real
    var last: real
    /** When it was made, and the calls since. */
    ghost const start: real
    ghost var calls: seq<Call>

    ghost function AsLimits(): Limits { Limits(capacity, perSecond, start) }

    ghost predicate Valid()
      reads this
    {
      Answered(AsLimits(), calls) && tokens == Tokens(AsLimits(), calls) && last == Last(AsLimits(), calls)
    }

    constructor (capacity: real, perSecond: real, now: real)
      ensures Valid() && calls == [] && AsLimits() == Limits(capacity, perSecond, now)
    {
      this.capacity, this.perSecond, tokens, last := capacity, perSecond, capacity, now;
      start, calls := now, [];
    }

    /** Adds what the time since the last look brought. */
    method Replenish(now: real)
      requires Valid()
      modifies `tokens, `last
      ensures tokens == Has(AsLimits(), calls, now) && last == now
    {
      var refilled := tokens + Refilled(perSecond, last, now);
      tokens := if capacity <= refilled then capacity else refilled;
      last := now;
    }

    method Take(cost: real, now: real) returns (granted: bool)
      requires Valid()
      modifies `tokens, `last, `calls
      ensures Valid() && calls == old(calls) + [Call(now, cost, granted)]
      ensures granted <==> FitsEveryWindow(AsLimits(), old(calls), now, cost)
    {
      Replenish(now);
      granted := !(tokens < cost);
      if granted {
        tokens := tokens - cost;
      }
      GrantedIffFits(AsLimits(), calls, now, cost);
      OneMoreCall(AsLimits(), calls, Call(now, cost, granted));
      calls := calls + [Call(now, cost, granted)];
    }
  }

  lemma {:induction false} OneMoreCall(b: Limits, before: seq<Call>, c: Call)
    requires Answered(b, before) && (c.granted <==> Has(b, before, c.at) >= c.cost)
    ensures Answered(b, before + [c]) && Last(b, before + [c]) == c.at
    ensures Tokens(b, before + [c]) == Has(b, before, c.at) - Taken(c)
  {
    var calls := before + [c];
    assert calls[..|before|] == before;
    assert forall i | 0 <= i < |before| :: calls[..i] == before[..i] && calls[i] == before[i];
  }
}
