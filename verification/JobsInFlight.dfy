/**
 * What the fair order counts as in flight (`inFlightBySession`, gateway/src/queue/dispatcher.ts), told by the run that
 * led there: the jobs marked as handed over whose last event has not passed the gate.
 */
module JobsInFlight {
  import opened Options
  import opened FairQueue
  import opened Jobs
  import opened JobPipeline
  import opened Sorting
  import opened Sequences
  import opened Dispatcher

  /** Step `i` of the run marks the job, in the dispatch then open. */
  ghost predicate MarksAt(steps: seq<JobPipeline.Step>, ahead: nat, i: nat, job: JobId)
    requires IsRun(INITIAL, steps, ahead) && i < |steps|
  {
    var d := At(steps, ahead, i).dispatch;
    steps[i].Mark? && d.Some? && d.value.todo != [] && d.value.todo[0] == job
  }

  predicate Closes(step: JobPipeline.Step) { step.Commit? || step.Rollback? }

  /** Marked among the first `k` steps, by a dispatch that is still open after them. */
  ghost predicate OpenMark(steps: seq<JobPipeline.Step>, ahead: nat, k: nat, job: JobId)
    requires IsRun(INITIAL, steps, ahead) && k <= |steps|
  {
    exists i :: 0 <= i < k && MarksAt(steps, ahead, i, job) && forall c | i < c < k :: !Closes(steps[c])
  }

  /** Marked by a dispatch that was committed. */
  ghost predicate CommittedMark(steps: seq<JobPipeline.Step>, ahead: nat, k: nat, job: JobId)
    requires IsRun(INITIAL, steps, ahead) && k <= |steps|
  {
    exists c :: 0 <= c < k && steps[c].Commit? && OpenMark(steps, ahead, c, job)
  }

  /** Marked by a dispatch that is still open, or that was committed. */
  ghost predicate HandedOver(steps: seq<JobPipeline.Step>, ahead: nat, k: nat, job: JobId)
    requires IsRun(INITIAL, steps, ahead) && k <= |steps|
  {
    OpenMark(steps, ahead, k, job) || CommittedMark(steps, ahead, k, job)
  }

  /** A last event of the job has come to the gate. */
  ghost predicate HasEnded(steps: seq<JobPipeline.Step>, ahead: nat, k: nat, job: JobId)
    requires IsRun(INITIAL, steps, ahead) && k <= |steps|
  {
    exists i :: 0 <= i < k && job in At(steps, ahead, i).rows
                && steps[i].Gate? && steps[i].event.job == job && Terminal(steps[i].event.status)
  }

  // ---- marks ---------------------------------------------------------------------------------------

  function OpenMarks(s: State): set<JobId> { if s.dispatch.Some? then s.dispatch.value.marks.Keys else {} }

  predicate Dispatched(s: State, job: JobId) { job in s.rows && s.rows[job].dispatchedAt.Some? }

  lemma {:induction false} MarksStep(s: State, step: JobPipeline.Step, ahead: nat, job: JobId)
    requires Inv(s, ahead) && Enabled(s, step, ahead)
    ensures var t := Next(s, step, ahead);
            && (job in OpenMarks(t) <==>
                  !Closes(step) && (job in OpenMarks(s) || (step.Mark? && s.dispatch.value.todo[0] == job)))
            && (Dispatched(t, job) <==> Dispatched(s, job) || (step.Commit? && job in OpenMarks(s)))
  {
  }

  lemma {:induction false} OpenMarksAre(steps: seq<JobPipeline.Step>, ahead: nat, k: nat, job: JobId)
    requires IsRun(INITIAL, steps, ahead) && k <= |steps|
    ensures job in OpenMarks(At(steps, ahead, k)) <==> OpenMark(steps, ahead, k, job)
    decreases k
  {
    if k > 0 {
      OpenMarksAre(steps, ahead, k - 1, job);
      RunNext(steps, ahead, k - 1);
      RunInv(steps, ahead, k - 1);
      MarksStep(At(steps, ahead, k - 1), steps[k - 1], ahead, job);
      OpenMarkMore(steps, ahead, k, job);
    }
  }

  lemma {:induction false} DispatchedAre(steps: seq<JobPipeline.Step>, ahead: nat, k: nat, job: JobId)
    requires IsRun(INITIAL, steps, ahead) && k <= |steps|
    ensures Dispatched(At(steps, ahead, k), job) <==> CommittedMark(steps, ahead, k, job)
    decreases k
  {
    if k > 0 {
      DispatchedAre(steps, ahead, k - 1, job);
      OpenMarksAre(steps, ahead, k - 1, job);
      RunNext(steps, ahead, k - 1);
      RunInv(steps, ahead, k - 1);
      MarksStep(At(steps, ahead, k - 1), steps[k - 1], ahead, job);
      CommittedMarkMore(steps, ahead, k, job);
    }
  }

  lemma {:induction false} MarkedIs(steps: seq<JobPipeline.Step>, ahead: nat, k: nat, job: JobId)
    requires IsRun(INITIAL, steps, ahead) && k <= |steps| && job in At(steps, ahead, k).rows
    ensures Marked(At(steps, ahead, k), job) <==> HandedOver(steps, ahead, k, job)
  {
    OpenMarksAre(steps, ahead, k, job);
    DispatchedAre(steps, ahead, k, job);
  }

  lemma {:induction false} CommittedMarkMore(steps: seq<JobPipeline.Step>, ahead: nat, k: nat, job: JobId)
    requires IsRun(INITIAL, steps, ahead) && 0 < k <= |steps|
    ensures CommittedMark(steps, ahead, k, job) <==>
              || CommittedMark(steps, ahead, k - 1, job)
              || (steps[k - 1].Commit? && OpenMark(steps, ahead, k - 1, job))
  {
  }

  lemma {:induction false} OpenMarkMore(steps: seq<JobPipeline.Step>, ahead: nat, k: nat, job: JobId)
    requires IsRun(INITIAL, steps, ahead) && 0 < k <= |steps|
    ensures OpenMark(steps, ahead, k, job) <==>
              || MarksAt(steps, ahead, k - 1, job)
              || (!Closes(steps[k - 1]) && OpenMark(steps, ahead, k - 1, job))
  {
    if !Closes(steps[k - 1]) && OpenMark(steps, ahead, k - 1, job) {
      var i :| 0 <= i < k - 1 && MarksAt(steps, ahead, i, job) && forall c | i < c < k - 1 :: !Closes(steps[c]);
      assert forall c | i < c < k :: !Closes(steps[c]);
    }
  }

  // ---- ends ----------------------------------------------------------------------------------------

  lemma {:induction false} EndsAre(steps: seq<JobPipeline.Step>, ahead: nat, k: nat, job: JobId)
    requires IsRun(INITIAL, steps, ahead) && k <= |steps|
    ensures Ended(At(steps, ahead, k), job) <==> HasEnded(steps, ahead, k, job)
  {
    if Ended(At(steps, ahead, k), job) {
      var j := WasEnded(steps, ahead, k, job);
    }
    if HasEnded(steps, ahead, k, job) {
      var i :| 0 <= i < k && job in At(steps, ahead, i).rows && steps[i].Gate? && steps[i].event.job == job
               && Terminal(steps[i].event.status);
      RunNext(steps, ahead, i);
      GateEnds(At(steps, ahead, i), steps[i].event, ahead);
      StaysEnded(steps, ahead, i + 1, k, job);
    }
  }

  lemma {:induction false} GateEnds(s: State, event: JobEvent, ahead: nat)
    requires Enabled(s, Gate(event), ahead) && event.job in s.rows && Terminal(event.status)
    ensures Ended(Next(s, Gate(event), ahead), event.job)
  {
  }

  // ---- the count -----------------------------------------------------------------------------------

  /**
   * After every run, what counts as in flight for a session on a queue are its jobs on that queue that were marked,
   * by a dispatch that committed or is still open, and no last event of which has come to the gate.
   */
  lemma {:induction false} InFlightIs(steps: seq<JobPipeline.Step>, ahead: nat, k: nat, queue: Queue, x: Session)
    requires IsRun(INITIAL, steps, ahead) && k <= |steps|
    ensures var s := At(steps, ahead, k);
            InFlight(InFlightOf(s, queue), x) ==
              |set j | j in s.rows && s.rows[j].session == x && s.rows[j].queue == Some(queue)
                       && HandedOver(steps, ahead, k, j) && !HasEnded(steps, ahead, k, j)|
  {
    var s := At(steps, ahead, k);
    var counted := set j | j in s.rows && s.rows[j].session == x && s.rows[j].queue == Some(queue)
                           && HandedOver(steps, ahead, k, j) && !HasEnded(steps, ahead, k, j);
    forall j ensures j in counted <==> j in HeldBy(s, queue, x) {
      if j in s.rows {
        MarkedIs(steps, ahead, k, j);
      }
      EndsAre(steps, ahead, k, j);
    }
    assert counted == HeldBy(s, queue, x);
    if j :| j in s.rows && s.rows[j].session == x {
      assert SessionOf(s, j) == x;
    } else {
      assert counted == {};
    }
  }

  // ---- handed over once ----------------------------------------------------------------------------

  /** What the open dispatch is about to send has no mark yet, and comes once. */
  ghost predicate TodoInv(s: State) {
    s.dispatch.Some? ==>
      var todo := s.dispatch.value.todo;
      && (forall i | 0 <= i < |todo| :: todo[i] in s.rows && !Marked(s, todo[i]))
      && (forall i, j | 0 <= i < j < |todo| :: todo[i] != todo[j])
  }

  lemma {:induction false} TodoStep(s: State, step: JobPipeline.Step, ahead: nat)
    requires TodoInv(s) && Enabled(s, step, ahead)
    ensures TodoInv(Next(s, step, ahead))
  {
    if step.Choose? {
      TodoChosen(s, step, ahead);
    }
  }

  lemma {:induction false} TodoChosen(s: State, step: JobPipeline.Step, ahead: nat)
    requires Enabled(s, step, ahead) && step.Choose?
    ensures TodoInv(Next(s, step, ahead))
  {
    var window :| OldestOf(window, Candidates(s, step.queue, step.skipped))
      && IsFairOrder(step.order, window, InFlightOf(s, step.queue), step.lastServed);
    FairDistinct(step.order, window, InFlightOf(s, step.queue), step.lastServed);
    ChosenUnmarked(s, step.queue, step.order, step.skipped, window);
  }

  lemma {:induction false} ChosenUnmarked(s: State, queue: Queue, order: seq<Job>, skipped: set<JobId>,
                                          window: set<Job>)
    requires window <= Candidates(s, queue, skipped) && Distinct(order) && forall x :: x in order <==> x in window
    ensures forall i | 0 <= i < |order| :: order[i].id in s.rows && !Marked(s, order[i].id)
    ensures forall i, j | 0 <= i < j < |order| :: order[i].id != order[j].id
  {
    forall i | 0 <= i < |order|
      ensures order[i].id in s.rows && !Marked(s, order[i].id) && order[i] == AsJob(s, order[i].id) {
      assert order[i] in window;
    }
  }

  lemma {:induction false} RunTodo(steps: seq<JobPipeline.Step>, ahead: nat, k: nat)
    requires IsRun(INITIAL, steps, ahead) && k <= |steps|
    ensures TodoInv(At(steps, ahead, k))
    decreases k
  {
    if k > 0 {
      RunTodo(steps, ahead, k - 1);
      RunNext(steps, ahead, k - 1);
      TodoStep(At(steps, ahead, k - 1), steps[k - 1], ahead);
    }
  }

  /**
   * A job is sent again only after a dispatch that was rolled back: whenever one is put on its queue, no dispatch that
   * committed has marked it, nor has the open one.
   */
  lemma {:induction false} SentOnceCommitted(steps: seq<JobPipeline.Step>, ahead: nat, k: nat)
    requires IsRun(INITIAL, steps, ahead) && k < |steps| && steps[k].Push?
    ensures var d := At(steps, ahead, k).dispatch;
            d.Some? && d.value.todo != [] && !HandedOver(steps, ahead, k, d.value.todo[0])
  {
    RunNext(steps, ahead, k);
    RunTodo(steps, ahead, k);
    var todo := At(steps, ahead, k).dispatch.value.todo;
    MarkedIs(steps, ahead, k, todo[0]);
  }

  /** What a dispatch chooses for a queue waits for it, unmarked and unclaimed, and there is room for it there. */
  lemma {:induction false} ChosenWait(s: State, queue: Queue, order: seq<Job>, skipped: set<JobId>, lastServed: Stamps,
                                      ahead: nat)
    requires Enabled(s, Choose(queue, order, skipped, lastServed), ahead)
    ensures var t := Next(s, Choose(queue, order, skipped, lastServed), ahead);
            var todo := t.dispatch.value.todo;
            && todo <= Ids(order) && t.broker == s.broker && |On(t.broker, queue)| + |todo| <= ahead
            && forall j | j in todo || j in Ids(order) :: WaitsFor(s, queue, skipped, j)
  {
    var window :| OldestOf(window, Candidates(s, queue, skipped))
      && IsFairOrder(order, window, InFlightOf(s, queue), lastServed);
    forall i | 0 <= i < |order| ensures WaitsFor(s, queue, skipped, order[i].id) {
      assert order[i] in window;
    }
  }

  /** The job waits for this queue, and no one has marked or claimed it. */
  predicate WaitsFor(s: State, queue: Queue, skipped: set<JobId>, job: JobId) {
    && job in s.rows && s.rows[job].queue == Some(queue) && s.rows[job].status.Queued?
    && !Marked(s, job) && job !in skipped
  }

  /**
   * A dispatch fills its queue: it leaves no place free unless nothing else waits. What waits and is not looked at is
   * no older than anything that is.
   */
  lemma {:induction false} ChooseFills(s: State, queue: Queue, order: seq<Job>, skipped: set<JobId>, lastServed: Stamps,
                                       ahead: nat)
    requires Enabled(s, Choose(queue, order, skipped, lastServed), ahead)
    ensures var todo := Next(s, Choose(queue, order, skipped, lastServed), ahead).dispatch.value.todo;
            && (forall x, j | x in order && WaitsFor(s, queue, skipped, j) && j !in Ids(order) ::
                  x.createdAt <= s.rows[j].createdAt)
            && (|On(s.broker, queue)| + |todo| < ahead && |todo| < WINDOW ==>
                  forall j | WaitsFor(s, queue, skipped, j) :: j in todo)
  {
    var todo := Next(s, Choose(queue, order, skipped, lastServed), ahead).dispatch.value.todo;
    var window :| OldestOf(window, Candidates(s, queue, skipped))
      && IsFairOrder(order, window, InFlightOf(s, queue), lastServed);
    FairDistinct(order, window, InFlightOf(s, queue), lastServed);
    AllThere(order, window);
    forall j | WaitsFor(s, queue, skipped, j)
      ensures AsJob(s, j) in Candidates(s, queue, skipped) && (AsJob(s, j) in window ==> j in Ids(order)) {
      assert j in CandidateIds(s, queue, skipped);
      if i :| 0 <= i < |order| && order[i] == AsJob(s, j) {
        assert Ids(order)[i] == j;
      }
    }
    if |On(s.broker, queue)| + |todo| < ahead && |todo| < WINDOW {
      assert todo == Ids(order);
    }
  }

  /** A set listed by a short list is small. */
  lemma {:induction false} AllThere(order: seq<Job>, window: set<Job>)
    requires Distinct(order) && forall x :: x in order <==> x in window
    ensures |window| == |order|
    decreases order
  {
    if order == [] {
      assert window == {};
    } else {
      var rest := order[1..];
      forall x ensures x in rest <==> x in window - {order[0]} {
        if x in rest {
          var i :| 0 <= i < |rest| && rest[i] == x;
          assert order[i + 1] == x;
        }
        if x in window - {order[0]} {
          var i :| 0 <= i < |order| && order[i] == x;
          assert rest[i - 1] == x;
        }
      }
      AllThere(rest, window - {order[0]});
    }
  }

  // ---- first in, first out -------------------------------------------------------------------------

  /** What a step puts on a queue, and what a worker takes from it. */
  ghost function PutOn(s: State, step: JobPipeline.Step, queue: Queue): seq<JobId> {
    if step.Push? && s.dispatch.Some? && s.dispatch.value.queue == queue && s.dispatch.value.todo != [] then
      [s.dispatch.value.todo[0]]
    else []
  }

  ghost function TakenOff(s: State, step: JobPipeline.Step, queue: Queue): seq<JobId> {
    if step == Take(queue) && On(s.broker, queue) != [] then [On(s.broker, queue)[0]] else []
  }

  /** The jobs put on a queue by the first `k` steps, in order. */
  ghost function PushedTo(steps: seq<JobPipeline.Step>, ahead: nat, k: nat, queue: Queue): seq<JobId>
    requires IsRun(INITIAL, steps, ahead) && k <= |steps|
  {
    if k == 0 then []
    else PushedTo(steps, ahead, k - 1, queue) + PutOn(At(steps, ahead, k - 1), steps[k - 1], queue)
  }

  /** The jobs workers took from it, in order. */
  ghost function TakenFrom(steps: seq<JobPipeline.Step>, ahead: nat, k: nat, queue: Queue): seq<JobId>
    requires IsRun(INITIAL, steps, ahead) && k <= |steps|
  {
    if k == 0 then []
    else TakenFrom(steps, ahead, k - 1, queue) + TakenOff(At(steps, ahead, k - 1), steps[k - 1], queue)
  }

  /** Workers take the jobs of a queue in the order in which they were put on it. */
  lemma {:induction false} FirstInFirstOut(steps: seq<JobPipeline.Step>, ahead: nat, k: nat, queue: Queue)
    requires IsRun(INITIAL, steps, ahead) && k <= |steps|
    ensures PushedTo(steps, ahead, k, queue)
         == TakenFrom(steps, ahead, k, queue) + On(At(steps, ahead, k).broker, queue)
    decreases k
  {
    if k > 0 {
      FirstInFirstOut(steps, ahead, k - 1, queue);
      RunNext(steps, ahead, k - 1);
      var s, step := At(steps, ahead, k - 1), steps[k - 1];
      QueueStep(s, step, ahead, queue);
      InAndOut(TakenFrom(steps, ahead, k - 1, queue), On(s.broker, queue), PutOn(s, step, queue),
               TakenOff(s, step, queue), On(At(steps, ahead, k).broker, queue));
    }
  }

  lemma {:induction false} InAndOut<T>(before: seq<T>, on: seq<T>, more: seq<T>, off: seq<T>, after: seq<T>)
    requires on + more == off + after
    ensures (before + on) + more == (before + off) + after
  {
    Assoc(before, on, more);
    Assoc(before, off, after);
  }

  lemma {:induction false} QueueStep(s: State, step: JobPipeline.Step, ahead: nat, queue: Queue)
    requires Enabled(s, step, ahead)
    ensures On(s.broker, queue) + PutOn(s, step, queue)
         == TakenOff(s, step, queue) + On(Next(s, step, ahead).broker, queue)
    ensures step == Take(queue) ==> Next(s, step, ahead).taken == s.taken + {TakenOff(s, step, queue)[0]}
  {
    var on := On(s.broker, queue);
    if step == Take(queue) {
      assert on == [on[0]] + on[1..];
    }
  }
}
