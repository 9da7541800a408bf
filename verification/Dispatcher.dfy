/**
 * One replica's dispatcher (gateway/src/queue/dispatcher.ts): it tops up a pool's queue in fair order, stamps what it
 * hands over, and runs again when asked while running. Its crashes and rollbacks are in `JobPipeline`.
 */
module Dispatcher {
  import opened FairQueue
  import opened Jobs
  import opened Sorting

  type Queue = string

  /** What is handed over when `free` places are open. */
  function FirstOf(order: seq<Job>, free: int): (next: seq<Job>)
    requires free > 0
  {
    if free < |order| then order[..free] else order
  }

  function Ids(jobs: seq<Job>): seq<JobId> { seq(|jobs|, i requires 0 <= i < |jobs| => jobs[i].id) }

  /** What waits on a pool's queue. */
  function On(broker: map<Queue, seq<JobId>>, queue: Queue): seq<JobId> {
    if queue in broker then broker[queue] else []
  }

  predicate SameElsewhere(before: map<Queue, seq<JobId>>, after: map<Queue, seq<JobId>>, queue: Queue) {
    after - {queue} == before - {queue}
  }

  /** How many jobs go out when `held` are on the queue already and `left` wait. */
  function ToSend(held: nat, left: nat, ahead: nat): nat {
    if held >= ahead then 0 else if left < ahead - held then left else ahead - held
  }

  predicate Increasing(after: int, stamps: seq<int>) {
    && (forall i | 0 <= i < |stamps| :: stamps[i] > after)
    && (forall i, j | 0 <= i < j < |stamps| :: stamps[i] < stamps[j])
  }

  function LastOf(before: int, stamps: seq<int>): int { if stamps == [] then before else stamps[|stamps| - 1] }

  function MarkedAll(marks: map<JobId, int>, ids: seq<JobId>, stamps: seq<int>): map<JobId, int>
    requires |ids| == |stamps|
    decreases |ids|
  {
    if ids == [] then marks
    else
      var n := |ids| - 1;
      MarkedAll(marks, ids[..n], stamps[..n])[ids[n] := stamps[n]]
  }

  ghost predicate SentSoFar(marked: map<JobId, int>, marks: map<JobId, int>, last: int, lastStamp: int,
                            next: seq<Job>, stamps: seq<int>)
  {
    && |stamps| <= |next|
    && marks == MarkedAll(marked, Ids(next[..|stamps|]), stamps)
    && Increasing(last, stamps) && lastStamp == LastOf(last, stamps)
  }

  lemma {:induction false} SentOneMore(marked: map<JobId, int>, marks: map<JobId, int>, last: int, lastStamp: int,
                                       next: seq<Job>, stamps: seq<int>, stamp: int)
    requires |stamps| < |next| && lastStamp == stamp && stamp > LastOf(last, stamps) && Increasing(last, stamps)
    requires marks == MarkedAll(marked, Ids(next[..|stamps|]), stamps)[next[|stamps|].id := stamp]
    ensures SentSoFar(marked, marks, last, lastStamp, next, stamps + [stamp])
  {
    var n := |stamps|;
    OneMore(next, n);
    var longer := stamps + [stamp];
    assert longer[..n] == stamps;
    assert forall i | 0 <= i < n :: stamps[i] <= LastOf(last, stamps);
    assert MarkedAll(marked, Ids(next[..n + 1]), longer)
             == MarkedAll(marked, Ids(next[..n]), stamps)[next[n].id := stamp];
  }

  class Dispatcher {
    var lastStamp: int
    var broker: map<Queue, seq<JobId>>
    /** The marks of the open transaction. */
    var marks: map<JobId, int>
    var running: bool
    var again: bool
    /** How many dispatches were asked for, and how many of those requests a started dispatch has answered. */
    ghost var asked: nat
    ghost var answered: nat

    ghost predicate Valid()
      reads this
    {
      && answered <= asked
      && (again ==> running)
      && (answered < asked ==> again)
    }

    constructor ()
      ensures Valid() && lastStamp == 0 && broker == map[] && marks == map[] && !running && asked == 0
    {
      lastStamp, broker, marks, running, again := 0, map[], map[], false, false;
      asked, answered := 0, 0;
    }

    function Waiting(queue: Queue): seq<JobId>
      reads this
    {
      On(broker, queue)
    }

    /** The clock, or just past the last stamp when the clock has not moved: no two stamps are equal. */
    method DispatchStamp(now: int) returns (stamp: int)
      modifies `lastStamp
      ensures stamp == lastStamp && stamp > old(lastStamp) && stamp >= now
      ensures stamp == now || stamp == old(lastStamp) + 1
    {
      lastStamp := if now > lastStamp + 1 then now else lastStamp + 1;
      stamp := lastStamp;
    }

    /** Pushes one job, then marks it. */
    method Hand(queue: Queue, job: JobId, now: int) returns (stamp: int)
      modifies `lastStamp, `broker, `marks
      ensures broker == old(broker)[queue := old(Waiting(queue)) + [job]]
      ensures marks == old(marks)[job := stamp]
      ensures stamp == lastStamp && stamp > old(lastStamp) && stamp >= now
    {
      broker := broker[queue := Waiting(queue) + [job]];
      stamp := DispatchStamp(now);
      marks := marks[job := stamp];
    }

    /** The loop of a tick: every job of `next`, in order; `clock` gives the time at each mark. */
    method Send(queue: Queue, next: seq<Job>, clock: nat -> int) returns (stamps: seq<int>)
      modifies `lastStamp, `broker, `marks
      ensures |stamps| == |next|
      ensures Waiting(queue) == old(Waiting(queue)) + Ids(next)
      ensures SameElsewhere(old(broker), broker, queue)
      ensures marks == MarkedAll(old(marks), Ids(next), stamps)
      ensures Increasing(old(lastStamp), stamps) && lastStamp == LastOf(old(lastStamp), stamps)
    {
      stamps := [];
      ghost var before, were, marked, last := Waiting(queue), broker, marks, lastStamp;
      while |stamps| < |next|
        invariant |stamps| <= |next| && Waiting(queue) == before + Ids(next[..|stamps|])
        invariant SameElsewhere(were, broker, queue)
        invariant SentSoFar(marked, marks, last, lastStamp, next, stamps)
        decreases |next| - |stamps|
      {
        var n := |stamps|;
        var stamp := Hand(queue, next[n].id, clock(n));
        OneMore(next, n);
        SentOneMore(marked, marks, last, lastStamp, next, stamps, stamp);
        stamps := stamps + [stamp];
      }
      assert next[..|stamps|] == next;
    }

    /** One tick over one queue: the first jobs of the fair order, in that order. */
    method TopUp(queue: Queue, waiting: seq<Job>, inFlight: Counts, lastServed: Stamps, ahead: nat, clock: nat -> int)
        returns (order: seq<Job>, stamps: seq<int>)
      requires Distinct(waiting) && DistinctIds(Elements(waiting))
      modifies `lastStamp, `broker, `marks
      ensures IsFairOrder(order, Elements(waiting), inFlight, lastServed)
      ensures |stamps| == ToSend(|old(Waiting(queue))|, |order|, ahead) <= |order|
      ensures Waiting(queue) == old(Waiting(queue)) + Ids(order[..|stamps|])
      ensures SameElsewhere(old(broker), broker, queue)
      ensures marks == MarkedAll(old(marks), Ids(order[..|stamps|]), stamps)
      ensures Increasing(old(lastStamp), stamps) && lastStamp == LastOf(old(lastStamp), stamps)
      ensures |Waiting(queue)| >= ahead || |stamps| == |order|
      ensures stamps != [] ==> |Waiting(queue)| <= ahead
    {
      order := FairOrder(waiting, inFlight, lastServed);
      stamps := [];
      var free := ahead - |Waiting(queue)|;
      if free > 0 {
        var next := FirstOf(order, free);
        assert next == order[..|next|];
        stamps := Send(queue, next, clock);
      }
    }

    /** Asks for a dispatch; `start` says that one starts now. */
    method Kick() returns (start: bool)
      requires Valid()
      modifies `running, `again, `asked, `answered
      ensures Valid() && asked == old(asked) + 1
      ensures start == !old(running) && running
      ensures start ==> answered == asked
    {
      asked := asked + 1;
      if running {
        again := true;
        return false;
      }
      running, start, answered := true, true, asked;
    }

    /** A dispatch has ended, well or not; `start` says that the next one starts now. */
    method Finished() returns (start: bool)
      requires Valid() && running
      modifies `running, `again, `asked, `answered
      ensures Valid() && asked == old(asked)
      ensures start == old(again) && running == start
      ensures start || old(answered) == asked
      ensures answered == asked
    {
      running, start := false, again;
      if again {
        again := false;
        running, answered := true, asked;
      }
    }
  }

  lemma {:induction false} OneMore(order: seq<Job>, n: nat)
    requires n < |order|
    ensures Ids(order[..n + 1]) == Ids(order[..n]) + [order[n].id]
    ensures Ids(order[..n + 1])[..n] == Ids(order[..n])
  {
  }

  lemma {:induction false} MarkedAllAt(marks: map<JobId, int>, ids: seq<JobId>, stamps: seq<int>, k: nat)
    requires |ids| == |stamps| && k < |ids| && Distinct(ids)
    ensures ids[k] in MarkedAll(marks, ids, stamps) && MarkedAll(marks, ids, stamps)[ids[k]] == stamps[k]
    decreases |ids|
  {
    var n := |ids| - 1;
    if k < n {
      assert ids[..n][k] == ids[k] && ids[k] != ids[n];
      MarkedAllAt(marks, ids[..n], stamps[..n], k);
    }
  }

  /**
   * The marks tell the order things went in: of two jobs handed over in one tick, the one that goes first in the fair
   * order has the smaller mark, and both are later than anything stamped before. So ties never fall back to arrival.
   */
  lemma {:induction false} MarksTellTheOrder(before: map<JobId, int>, waiting: seq<Job>, order: seq<Job>,
                                             inFlight: Counts,
                                             lastServed: Stamps, stamps: seq<int>, last: int, i: nat, j: nat)
    requires Distinct(waiting) && DistinctIds(Elements(waiting))
    requires IsFairOrder(order, Elements(waiting), inFlight, lastServed)
    requires |stamps| <= |order| && Increasing(last, stamps) && i < |stamps| && j < |stamps| && i != j
    ensures var marks := MarkedAll(before, Ids(order[..|stamps|]), stamps);
            && order[i].id in marks && order[j].id in marks && marks[order[i].id] > last
            && (GoesBefore(Elements(waiting), inFlight, lastServed, order[i], order[j]) <==>
                marks[order[i].id] < marks[order[j].id])
  {
    DistinctNext(order, waiting, inFlight, lastServed);
    var ids := Ids(order[..|stamps|]);
    assert forall x, y | 0 <= x < y < |ids| :: ids[x] != ids[y];
    MarkedAllAt(before, ids, stamps, i);
    MarkedAllAt(before, ids, stamps, j);
    if i < j {
      assert GoesBefore(Elements(waiting), inFlight, lastServed, order[i], order[j]);
    } else {
      assert GoesBefore(Elements(waiting), inFlight, lastServed, order[j], order[i]);
    }
  }

  lemma {:induction false} DistinctNext(order: seq<Job>, waiting: seq<Job>, inFlight: Counts, lastServed: Stamps)
    requires Distinct(waiting) && DistinctIds(Elements(waiting))
    requires IsFairOrder(order, Elements(waiting), inFlight, lastServed)
    ensures forall i, j | 0 <= i < j < |order| :: order[i].id != order[j].id
  {
    FairDistinct(order, Elements(waiting), inFlight, lastServed);
    forall i, j | 0 <= i < j < |order| ensures order[i].id != order[j].id {
      assert order[i] in Elements(waiting) && order[j] in Elements(waiting) && order[i] != order[j];
    }
  }
}
