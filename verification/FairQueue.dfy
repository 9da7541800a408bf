/**
 * The order the worker pools take jobs in: taking turns between sessions
 * (`fairOrder` in gateway/src/queue/fair.ts).
 *
 * A job's `id` is its place in the `localeCompare` order of the real ids: any total order on distinct ids.
 */
module FairQueue {
  import opened Sorting

  type Session = string
  datatype Job = Job(id: int, session: Session, createdAt: int)

  type Counts = map<Session, nat>
  type Stamps = map<Session, int>

  function InFlight(inFlight: Counts, s: Session): nat { if s in inFlight then inFlight[s] else 0 }
  function Served(lastServed: Stamps, s: Session): int { if s in lastServed then lastServed[s] else 0 }

  /** Arrival order: age, then id. */
  predicate Arrives(a: Job, b: Job) {
    a.createdAt < b.createdAt || (a.createdAt == b.createdAt && a.id < b.id)
  }

  ghost predicate DistinctIds(jobs: set<Job>) {
    forall a, b | a in jobs && b in jobs && a.id == b.id :: a == b
  }

  // ---- what the order means ---------------------------------------------------------

  /** The jobs of `job`'s session that arrived no later than it. */
  ghost function UpTo(waiting: set<Job>, job: Job): set<Job> {
    set x | x in waiting && x.session == job.session && !Arrives(job, x)
  }

  /** k, when `job` is its session's k-th waiting job. */
  ghost function Nth(waiting: set<Job>, job: Job): nat { |UpTo(waiting, job)| }

  ghost function Turn(waiting: set<Job>, inFlight: Counts, job: Job): nat {
    InFlight(inFlight, job.session) + Nth(waiting, job)
  }

  ghost predicate GoesBefore(waiting: set<Job>, inFlight: Counts, lastServed: Stamps, a: Job, b: Job) {
    var ta, tb := Turn(waiting, inFlight, a), Turn(waiting, inFlight, b);
    var sa, sb := Served(lastServed, a.session), Served(lastServed, b.session);
    ta < tb || (ta == tb && (sa < sb || (sa == sb && Arrives(a, b))))
  }

  /** `order` is the fair order of the jobs in `waiting`: each exactly once, turn by turn. */
  ghost predicate IsFairOrder(order: seq<Job>, waiting: set<Job>, inFlight: Counts, lastServed: Stamps) {
    && (forall x :: x in order <==> x in waiting)
    && (forall i, j {:trigger GoesBefore(waiting, inFlight, lastServed, order[i], order[j])} |
          0 <= i < j < |order| :: GoesBefore(waiting, inFlight, lastServed, order[i], order[j]))
  }

  // ---- the algorithm ----------------------------------------------------------------

  datatype Ranked = Ranked(job: Job, turn: nat)

  predicate RankedBefore(lastServed: Stamps, a: Ranked, b: Ranked) {
    var sa, sb := Served(lastServed, a.job.session), Served(lastServed, b.job.session);
    a.turn < b.turn || (a.turn == b.turn && (sa < sb || (sa == sb && Arrives(a.job, b.job))))
  }

  function Jobs(ranked: seq<Ranked>): (jobs: seq<Job>) { seq(|ranked|, i requires 0 <= i < |ranked| => ranked[i].job) }

  function Count(nth: Counts, s: Session): nat { if s in nth then nth[s] else 0 }

  /** `nth` counts the jobs of each session in `jobs`. */
  ghost predicate Counted(nth: Counts, jobs: seq<Job>) {
    forall s :: Count(nth, s) == |OfSession(jobs, s)|
  }

  /** The jobs of one session in a list. */
  ghost function OfSession(jobs: seq<Job>, s: Session): set<Job> {
    set x | x in jobs && x.session == s
  }

  /** The `map` over jobs in arrival order, with its counter per session kept in `nth`. */
  method WithTurns(arrived: seq<Job>, inFlight: Counts) returns (ranked: seq<Ranked>)
    requires Ordered(Arrives, arrived)
    ensures Jobs(ranked) == arrived
    ensures forall i | 0 <= i < |arrived| :: ranked[i].turn == Turn(Elements(arrived), inFlight, arrived[i])
  {
    ranked := [];
    var nth: Counts := map[];
    for n := 0 to |arrived|
      invariant |ranked| == n
      invariant Counted(nth, arrived[..n])
      invariant forall i | 0 <= i < n :: ranked[i].job == arrived[i]
      invariant forall i | 0 <= i < n :: ranked[i].turn == Turn(Elements(arrived), inFlight, arrived[i])
    {
      var job := arrived[n];
      var k := Count(nth, job.session) + 1;
      CountOneMore(arrived, n, nth);
      nth := nth[job.session := k];
      ranked := ranked + [Ranked(job, InFlight(inFlight, job.session) + k)];
    }
  }

  /** How many of `s`'s jobs are among the first n. */
  ghost function Taken(order: seq<Job>, n: nat, s: Session): nat
    requires n <= |order|
  {
    |OfSession(order[..n], s)|
  }

  lemma {:induction false} TakenStep(order: seq<Job>, n: nat, s: Session)
    requires Distinct(order) && n < |order|
    ensures Taken(order, n + 1, s) == Taken(order, n, s) + if order[n].session == s then 1 else 0
  {
    NotEarlier(order, n);
    assert order[..n + 1] == order[..n] + [order[n]];
    assert OfSession(order[..n + 1], s) == OfSession(order[..n], s) + if order[n].session == s then {order[n]} else {};
  }

  lemma {:induction false} CountOneMore(arrived: seq<Job>, n: nat, nth: Counts)
    requires Ordered(Arrives, arrived) && n < |arrived| && Counted(nth, arrived[..n])
    ensures Nth(Elements(arrived), arrived[n]) == Count(nth, arrived[n].session) + 1
    ensures Counted(nth[arrived[n].session := Count(nth, arrived[n].session) + 1], arrived[..n + 1])
  {
    OrderedDistinct(Arrives, arrived);
    var own := arrived[n].session;
    var nth' := nth[own := Count(nth, own) + 1];
    forall s ensures Count(nth', s) == |OfSession(arrived[..n + 1], s)| {
      TakenStep(arrived, n, s);
      assert Count(nth, s) == Taken(arrived, n, s);
    }
    UpToIsPrefix(arrived, n);
    assert Count(nth', own) == |OfSession(arrived[..n + 1], own)|;
  }

  lemma {:induction false} UpToIsPrefix(arrived: seq<Job>, n: nat)
    requires Ordered(Arrives, arrived) && n < |arrived|
    ensures UpTo(Elements(arrived), arrived[n]) == OfSession(arrived[..n + 1], arrived[n].session)
  {
    forall x
      ensures x in UpTo(Elements(arrived), arrived[n]) <==> x in OfSession(arrived[..n + 1], arrived[n].session) {
      if x in arrived {
        var i :| 0 <= i < |arrived| && arrived[i] == x;
        if i <= n {
          assert arrived[..n + 1][i] == x;
          assert !Arrives(arrived[n], x);
        } else {
          assert Arrives(arrived[n], x);
        }
      }
    }
  }

  function ByTurn(lastServed: Stamps): (Ranked, Ranked) -> bool {
    (a: Ranked, b: Ranked) => RankedBefore(lastServed, a, b)
  }

  /** `fairOrder`: sort by arrival, give each its turn, sort by turn. */
  method FairOrder(waiting: seq<Job>, inFlight: Counts, lastServed: Stamps) returns (order: seq<Job>)
    requires Distinct(waiting) && DistinctIds(Elements(waiting))
    ensures IsFairOrder(order, Elements(waiting), inFlight, lastServed)
    ensures multiset(order) == multiset(waiting)
  {
    var arrived := Sort(Arrives, waiting);
    ArrivalOrdered(waiting);
    var ranked := WithTurns(arrived, inFlight);
    order := Jobs(Sort(ByTurn(lastServed), ranked));
    SortedByTurnIsFair(ranked, arrived, waiting, inFlight, lastServed);
  }

  lemma {:induction false} ArrivalOrdered(waiting: seq<Job>)
    requires Distinct(waiting) && DistinctIds(Elements(waiting))
    ensures Ordered(Arrives, Sort(Arrives, waiting))
    ensures Elements(Sort(Arrives, waiting)) == Elements(waiting)
  {
    SortOrdered(Arrives, waiting);
    SameMembers(Sort(Arrives, waiting), waiting);
  }

  lemma {:induction false} TurnOrdered(ranked: seq<Ranked>, arrived: seq<Job>, lastServed: Stamps)
    requires Jobs(ranked) == arrived && Ordered(Arrives, arrived)
    ensures Ordered(ByTurn(lastServed), Sort(ByTurn(lastServed), ranked))
  {
    assert StrictOrder(ByTurn(lastServed));
    forall i, j | 0 <= i < j < |ranked| ensures ranked[i] != ranked[j] && Arrives(ranked[i].job, ranked[j].job) {
      assert Arrives(arrived[i], arrived[j]) && arrived[i] == ranked[i].job && arrived[j] == ranked[j].job;
    }
    assert TotalOn(ByTurn(lastServed), Elements(ranked));
    SortOrdered(ByTurn(lastServed), ranked);
  }

  lemma {:induction false} TurnsKept(ranked: seq<Ranked>, arrived: seq<Job>, sorted: seq<Ranked>, waiting: set<Job>,
                                     inFlight: Counts)
    requires Jobs(ranked) == arrived && (forall x :: x in sorted <==> x in ranked)
    requires forall i | 0 <= i < |ranked| :: ranked[i].turn == Turn(waiting, inFlight, arrived[i])
    ensures forall i | 0 <= i < |sorted| :: sorted[i].turn == Turn(waiting, inFlight, sorted[i].job)
  {
    forall i | 0 <= i < |sorted| ensures sorted[i].turn == Turn(waiting, inFlight, sorted[i].job) {
      assert sorted[i] in ranked;
      var k :| 0 <= k < |ranked| && ranked[k] == sorted[i];
      assert arrived[k] == ranked[k].job;
    }
  }

  lemma {:induction false} SortedByTurnIsFair(ranked: seq<Ranked>, arrived: seq<Job>, waiting: seq<Job>,
                                              inFlight: Counts, lastServed: Stamps)
    requires Jobs(ranked) == arrived && Ordered(Arrives, arrived)
    requires multiset(arrived) == multiset(waiting) && Distinct(waiting)
    requires forall i | 0 <= i < |ranked| :: ranked[i].turn == Turn(Elements(waiting), inFlight, arrived[i])
    ensures IsFairOrder(Jobs(Sort(ByTurn(lastServed), ranked)), Elements(waiting), inFlight, lastServed)
    ensures multiset(Jobs(Sort(ByTurn(lastServed), ranked))) == multiset(waiting)
  {
    var sorted := Sort(ByTurn(lastServed), ranked);
    var order := Jobs(sorted);
    TurnOrdered(ranked, arrived, lastServed);
    SameMembers(sorted, ranked);
    SameMembers(arrived, waiting);
    TurnsKept(ranked, arrived, sorted, Elements(waiting), inFlight);
    forall i, j | 0 <= i < j < |sorted|
      ensures GoesBefore(Elements(waiting), inFlight, lastServed, order[i], order[j]) {
      assert ByTurn(lastServed)(sorted[i], sorted[j]);
    }
    JobsKeep(sorted, ranked, arrived);
    FairDistinct(order, Elements(waiting), inFlight, lastServed);
    DistinctPermutation(order, waiting);
  }

  lemma {:induction false} JobsKeep(sorted: seq<Ranked>, ranked: seq<Ranked>, arrived: seq<Job>)
    requires multiset(sorted) == multiset(ranked) && Jobs(ranked) == arrived
    ensures forall x :: x in Jobs(sorted) <==> x in arrived
  {
    SameMembers(sorted, ranked);
    forall x ensures x in Jobs(sorted) <==> x in arrived {
      if x in Jobs(sorted) {
        var i :| 0 <= i < |sorted| && Jobs(sorted)[i] == x;
        assert sorted[i] in ranked;
        var k :| 0 <= k < |ranked| && ranked[k] == sorted[i];
        assert arrived[k] == x;
      }
      if x in arrived {
        var k :| 0 <= k < |arrived| && arrived[k] == x;
        assert ranked[k] in sorted;
        var i :| 0 <= i < |sorted| && sorted[i] == ranked[k];
        assert Jobs(sorted)[i] == x;
      }
    }
  }

  // ---- the order shown is the order served ------------------------------------------

  ghost function ByFairness(waiting: set<Job>, inFlight: Counts, lastServed: Stamps): (Job, Job) -> bool {
    (a, b) => GoesBefore(waiting, inFlight, lastServed, a, b)
  }

  lemma {:induction false} FairIsOrdered(order: seq<Job>, waiting: set<Job>, inFlight: Counts, lastServed: Stamps)
    requires IsFairOrder(order, waiting, inFlight, lastServed)
    ensures StrictOrder(ByFairness(waiting, inFlight, lastServed))
    ensures Ordered(ByFairness(waiting, inFlight, lastServed), order)
  {
    forall i, j | 0 <= i < j < |order| ensures ByFairness(waiting, inFlight, lastServed)(order[i], order[j]) {
      assert GoesBefore(waiting, inFlight, lastServed, order[i], order[j]);
    }
  }

  lemma {:induction false} FairDistinct(order: seq<Job>, waiting: set<Job>, inFlight: Counts, lastServed: Stamps)
    requires IsFairOrder(order, waiting, inFlight, lastServed)
    ensures Distinct(order)
  {
    FairIsOrdered(order, waiting, inFlight, lastServed);
    OrderedDistinct(ByFairness(waiting, inFlight, lastServed), order);
  }

  /** Age decides: between jobs of one session, and between sessions whose turn and last service are the same. */
  lemma {:induction false} OlderFirst(order: seq<Job>, waiting: set<Job>, inFlight: Counts, lastServed: Stamps, i: nat,
                                      j: nat)
    requires IsFairOrder(order, waiting, inFlight, lastServed) && i < |order| && j < |order|
    requires order[i].createdAt < order[j].createdAt
    requires || order[i].session == order[j].session
             || (Turn(waiting, inFlight, order[i]) == Turn(waiting, inFlight, order[j])
                 && Served(lastServed, order[i].session) == Served(lastServed, order[j].session))
    ensures i < j
  {
    var a, b := order[i], order[j];
    if a.session == b.session {
      assert UpTo(waiting, a) <= UpTo(waiting, b) - {b} && b in UpTo(waiting, b);
      assert |UpTo(waiting, a)| <= |UpTo(waiting, b) - {b}| by {
        Fewer(UpTo(waiting, a), UpTo(waiting, b) - {b});
      }
    }
    assert !GoesBefore(waiting, inFlight, lastServed, b, a);
  }

  lemma {:induction false} Fewer<T>(xs: set<T>, ys: set<T>)
    requires xs <= ys
    ensures |xs| <= |ys|
  {
    assert ys == xs + (ys - xs);
  }

  /** The fair order depends only on which jobs wait, not on how the caller listed them. */
  lemma {:induction false} FairOrderUnique(xs: seq<Job>, ys: seq<Job>, waiting: set<Job>, inFlight: Counts,
                                           lastServed: Stamps)
    requires IsFairOrder(xs, waiting, inFlight, lastServed) && IsFairOrder(ys, waiting, inFlight, lastServed)
    ensures xs == ys
  {
    FairIsOrdered(xs, waiting, inFlight, lastServed);
    FairIsOrdered(ys, waiting, inFlight, lastServed);
    OrderedUnique(ByFairness(waiting, inFlight, lastServed), xs, ys);
  }

  function Handed(inFlight: Counts, s: Session): Counts {
    inFlight[s := InFlight(inFlight, s) + 1]
  }

  /** A later job of a session has a strictly later turn. */
  lemma {:induction false} LaterArrivalLaterTurn(waiting: set<Job>, a: Job, b: Job)
    requires a in waiting && b in waiting && a.session == b.session && Arrives(a, b)
    ensures Nth(waiting, a) < Nth(waiting, b)
  {
    assert b in UpTo(waiting, b) && b !in UpTo(waiting, a);
    assert UpTo(waiting, a) < UpTo(waiting, b);
    SubsetSize(UpTo(waiting, a), UpTo(waiting, b) - {b});
  }

  lemma {:induction false} SubsetSize<T>(a: set<T>, b: set<T>)
    requires a <= b
    ensures |a| <= |b|
    ensures a != b ==> |a| < |b|
  {
    if a != {} {
      var x :| x in a;
      SubsetSize(a - {x}, b - {x});
    } 
  }

  /** The job served first is its session's oldest, so serving it moves nobody else's turn. */
  lemma {:induction false} ServingKeepsTurns(order: seq<Job>, waiting: set<Job>, inFlight: Counts, lastServed: Stamps,
                                             x: Job)
    requires IsFairOrder(order, waiting, inFlight, lastServed) && DistinctIds(waiting)
    requires order != [] && x in waiting && x != order[0]
    ensures Turn(waiting - {order[0]}, Handed(inFlight, order[0].session), x) == Turn(waiting, inFlight, x)
  {
    var head := order[0];
    var left := waiting - {head};
    if x.session == head.session {
      assert Arrives(head, x) by {
        var i :| 0 <= i < |order| && order[i] == x;
        assert GoesBefore(waiting, inFlight, lastServed, order[0], order[i]);
        if Arrives(x, head) { LaterArrivalLaterTurn(waiting, x, head); }
      }
      assert UpTo(waiting, x) == UpTo(left, x) + {head};
    } else {
      assert UpTo(waiting, x) == UpTo(left, x);
    }
  }

  /** Serving the head leaves exactly the tail, while `lastServed` stands still. */
  lemma {:induction false} ServedHeadLeavesTail(order: seq<Job>, waiting: set<Job>, inFlight: Counts,
                                                lastServed: Stamps)
    requires IsFairOrder(order, waiting, inFlight, lastServed) && DistinctIds(waiting) && order != []
    ensures IsFairOrder(order[1..], waiting - {order[0]}, Handed(inFlight, order[0].session), lastServed)
  {
    var head, tail := order[0], order[1..];
    var left, handed := waiting - {head}, Handed(inFlight, head.session);
    FairIsOrdered(order, waiting, inFlight, lastServed);
    forall x ensures x in tail <==> x in left {
      TailMember(ByFairness(waiting, inFlight, lastServed), order, x);
    }
    forall i, j | 0 <= i < j < |tail| ensures GoesBefore(left, handed, lastServed, tail[i], tail[j]) {
      assert tail[i] in left && tail[j] in left;
      ServingKeepsTurns(order, waiting, inFlight, lastServed, tail[i]);
      ServingKeepsTurns(order, waiting, inFlight, lastServed, tail[j]);
      assert GoesBefore(waiting, inFlight, lastServed, order[i + 1], order[j + 1]);
    }
  }

  function HandedAll(inFlight: Counts, served: seq<Job>): Counts
    decreases served
  {
    if served == [] then inFlight else HandedAll(Handed(inFlight, served[0].session), served[1..])
  }

  /** Taking n at once is taking one, n times: after any n, what is next is what was shown next. */
  lemma {:induction false} ServedInTheOrderShown(order: seq<Job>, waiting: set<Job>, inFlight: Counts,
                                                 lastServed: Stamps, n: nat)
    requires IsFairOrder(order, waiting, inFlight, lastServed) && DistinctIds(waiting) && n <= |order|
    ensures IsFairOrder(order[n..], waiting - Elements(order[..n]), HandedAll(inFlight, order[..n]), lastServed)
  {
    if n > 0 {
      ServedHeadLeavesTail(order, waiting, inFlight, lastServed);
      ServedInTheOrderShown(order[1..], waiting - {order[0]}, Handed(inFlight, order[0].session), lastServed, n - 1);
      assert order[1..][n - 1..] == order[n..];
      assert order[..n] == [order[0]] + order[1..][..n - 1];
      assert Elements(order[..n]) == {order[0]} + Elements(order[1..][..n - 1]);
      assert waiting - Elements(order[..n]) == waiting - {order[0]} - Elements(order[1..][..n - 1]);
    } else {
      assert order[n..] == order;
      assert waiting - Elements(order[..0]) == waiting;
    }
  }

  /**
   * Only while `lastServed` stands still. A (one job in flight, last served at 5) and B (none, last served at 3)
   * wait with a1, b1, b2: the order is b1, b2, a1. Were serving b1 at 6 to move B's stamp, a1 would go next.
   */
  lemma {:induction false} OrderMovesWithLastServed(a1: Job, b1: Job, b2: Job)
    requires a1 == Job(1, "A", 10) && b1 == Job(2, "B", 11) && b2 == Job(3, "B", 12)
    ensures IsFairOrder([b1, b2, a1], {a1, b1, b2}, map["A" := 1], map["A" := 5, "B" := 3])
    ensures IsFairOrder([a1, b2], {a1, b2}, Handed(map["A" := 1], "B"), map["A" := 5, "B" := 6])
  {
    var all, left := {a1, b1, b2}, {a1, b2};
    assert UpTo(all, a1) == {a1} && UpTo(all, b1) == {b1} && UpTo(all, b2) == {b1, b2};
    assert UpTo(left, a1) == {a1} && UpTo(left, b2) == {b2};
  }

  // ---- fairness ---------------------------------------------------------------------

  /** Within a session the fair order is arrival order, so a job's rank is its place among its own. */
  lemma {:induction false} RankIsPlace(order: seq<Job>, waiting: set<Job>, inFlight: Counts, lastServed: Stamps, n: nat)
    requires IsFairOrder(order, waiting, inFlight, lastServed) && DistinctIds(waiting) && n < |order|
    ensures Nth(waiting, order[n]) == Taken(order, n, order[n].session) + 1
  {
    var job := order[n];
    var ahead := OfSession(order[..n], job.session);
    FairDistinct(order, waiting, inFlight, lastServed);
    NotEarlier(order, n);
    forall x ensures x in UpTo(waiting, job) <==> x in ahead + {job} {
      if x in order && x.session == job.session && x != job {
        var i :| 0 <= i < |order| && order[i] == x;
        if i < n {
          assert GoesBefore(waiting, inFlight, lastServed, order[i], order[n]);
          assert order[..n][i] == x;
          if Arrives(job, x) { LaterArrivalLaterTurn(waiting, job, x); }
        } else {
          assert GoesBefore(waiting, inFlight, lastServed, order[n], order[i]);
          assert x !in order[..n];
          if Arrives(x, job) { LaterArrivalLaterTurn(waiting, x, job); }
        }
      }
    }
    assert UpTo(waiting, job) == ahead + {job};
  }

  /**
   * Max-min fairness. When `order[n]` goes while some job of session `a` still waits, the session it belongs to
   * ends up with at most one job more in flight than `a` has.
   */
  lemma {:induction false} MaxMinFair(order: seq<Job>, waiting: set<Job>, inFlight: Counts, lastServed: Stamps, n: nat,
                                      a: Session)
    requires IsFairOrder(order, waiting, inFlight, lastServed) && DistinctIds(waiting) && n < |order|
    requires exists m :: n < m < |order| && order[m].session == a
    ensures InFlight(inFlight, order[n].session) + Taken(order, n + 1, order[n].session)
            <= InFlight(inFlight, a) + Taken(order, n, a) + 1
  {
    var s := order[n].session;
    var m := NextOfSession(order, n, a);
    RankIsPlace(order, waiting, inFlight, lastServed, n);
    RankIsPlace(order, waiting, inFlight, lastServed, m);
    assert GoesBefore(waiting, inFlight, lastServed, order[n], order[m]);
    FairDistinct(order, waiting, inFlight, lastServed);
    TakenStep(order, n, s);
    TakenStep(order, n, a);
    NoneBetween(order, n + 1, m, a);
  }

  /** The first of session `a`'s jobs behind place n. */
  lemma {:induction false} NextOfSession(order: seq<Job>, n: nat, a: Session) returns (m: nat)
    requires exists k :: n < k < |order| && order[k].session == a
    ensures n < m < |order| && order[m].session == a
    ensures forall i | n < i < m :: order[i].session != a
  {
    m := n + 1;
    while order[m].session != a
      invariant n < m < |order|
      invariant forall i | n < i < m :: order[i].session != a
      invariant exists k :: m <= k < |order| && order[k].session == a
      decreases |order| - m
    {
      m := m + 1;
    }
  }

  lemma {:induction false} NoneBetween(order: seq<Job>, n: nat, m: nat, a: Session)
    requires n <= m <= |order|
    requires forall i | n <= i < m :: order[i].session != a
    ensures OfSession(order[..m], a) == OfSession(order[..n], a)
  {
    assert order[..m] == order[..n] + order[n..m];
    assert OfSession(order[n..m], a) == {};
  }

  /** The most jobs other sessions can have ahead of a job whose turn is `t`: their unused turns up to `t`. */
  function TurnsAhead(sessions: seq<Session>, inFlight: Counts, t: nat): nat {
    if sessions == [] then 0
    else
      var used := InFlight(inFlight, sessions[0]);
      (if used < t then t - used else 0) + TurnsAhead(sessions[1..], inFlight, t)
  }

  ghost function AheadOf(order: seq<Job>, n: nat, sessions: seq<Session>): set<Job>
    requires n <= |order|
  {
    set x | x in order[..n] && x.session in sessions
  }

  /** The last of session `s`'s jobs in front of place n, when there is one. */
  lemma {:induction false} LastOfSession(order: seq<Job>, n: nat, s: Session) returns (m: nat)
    requires n <= |order|
    requires exists i :: 0 <= i < n && order[i].session == s
    ensures m < n && order[m].session == s
    ensures forall i | m < i < n :: order[i].session != s
  {
    m := n - 1;
    while order[m].session != s
      invariant m < n
      invariant forall i | m < i < n :: order[i].session != s
      invariant exists i :: 0 <= i <= m && order[i].session == s
      decreases m
    {
      m := m - 1;
    }
  }

  lemma {:induction false} OneSessionAhead(order: seq<Job>, waiting: set<Job>, inFlight: Counts, lastServed: Stamps,
                                           n: nat, s: Session)
    requires IsFairOrder(order, waiting, inFlight, lastServed) && DistinctIds(waiting) && n < |order|
    ensures var t := Turn(waiting, inFlight, order[n]);
            |AheadOf(order, n, [s])| <= if InFlight(inFlight, s) < t then t - InFlight(inFlight, s) else 0
  {
    var ahead := AheadOf(order, n, [s]);
    if i :| 0 <= i < n && order[i].session == s {
      var m := LastOfSession(order, n, s);
      RankIsPlace(order, waiting, inFlight, lastServed, m);
      assert GoesBefore(waiting, inFlight, lastServed, order[m], order[n]);
      var own := OfSession(order[..m], s) + {order[m]};
      forall x | x in ahead ensures x in own {
        var i :| 0 <= i < n && order[i] == x;
        if i < m { assert order[..m][i] == x; }
      }
      SubsetSize(ahead, own);
    } else {
      assert ahead == {};
    }
  }

  lemma {:induction false} SessionsAhead(order: seq<Job>, waiting: set<Job>, inFlight: Counts, lastServed: Stamps,
                                         n: nat, sessions: seq<Session>)
    requires IsFairOrder(order, waiting, inFlight, lastServed) && DistinctIds(waiting) && n < |order|
    ensures |AheadOf(order, n, sessions)| <= TurnsAhead(sessions, inFlight, Turn(waiting, inFlight, order[n]))
    decreases sessions
  {
    if sessions == [] {
      assert AheadOf(order, n, sessions) == {};
    } else {
      SessionsAhead(order, waiting, inFlight, lastServed, n, sessions[1..]);
      OneSessionAhead(order, waiting, inFlight, lastServed, n, sessions[0]);
      AheadSplits(order, n, sessions);
    }
  }

  lemma {:induction false} AheadSplits(order: seq<Job>, n: nat, sessions: seq<Session>)
    requires n <= |order| && sessions != []
    ensures |AheadOf(order, n, sessions)| <= |AheadOf(order, n, sessions[1..])| + |AheadOf(order, n, [sessions[0]])|
  {
    assert sessions == [sessions[0]] + sessions[1..];
    assert AheadOf(order, n, sessions) == AheadOf(order, n, sessions[1..]) + AheadOf(order, n, [sessions[0]]);
  }

  lemma {:induction false} PrefixSize(order: seq<Job>, n: nat)
    requires Distinct(order) && n <= |order|
    ensures |Elements(order[..n])| == n
  {
    if n > 0 {
      PrefixSize(order, n - 1);
      assert order[..n] == order[..n - 1] + [order[n - 1]];
      assert Elements(order[..n]) == Elements(order[..n - 1]) + {order[n - 1]};
    } else {
      assert Elements(order[..0]) == {};
    }
  }

  /**
   * Bounded waiting. However many jobs the other sessions queued, a job with turn t has ahead of it at most its
   * own session's earlier jobs and, for each other session, the turns up to t that session has not used.
   */
  lemma {:induction false} BoundedWaiting(order: seq<Job>, waiting: set<Job>, inFlight: Counts, lastServed: Stamps,
                                          n: nat, others: seq<Session>)
    requires IsFairOrder(order, waiting, inFlight, lastServed) && DistinctIds(waiting) && n < |order|
    requires forall x | x in waiting && x.session != order[n].session :: x.session in others
    ensures n <= TurnsAhead(others, inFlight, Turn(waiting, inFlight, order[n])) + (Nth(waiting, order[n]) - 1)
  {
    var own := order[n].session;
    FairDistinct(order, waiting, inFlight, lastServed);
    PrefixSize(order, n);
    SessionsAhead(order, waiting, inFlight, lastServed, n, others);
    RankIsPlace(order, waiting, inFlight, lastServed, n);
    forall x | x in Elements(order[..n]) ensures x in AheadOf(order, n, others) + OfSession(order[..n], own) {
      assert x in order;
    }
    assert Elements(order[..n]) == AheadOf(order, n, others) + OfSession(order[..n], own);
  }
}
