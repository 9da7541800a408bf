/**
 * A job from submission to completion: dispatched to a worker pool under "push, then mark" transactions
 * (gateway/src/queue/dispatcher.ts), and completed through the gate that absorbs repeated events
 * (`updateJobFromEvent` in gateway/src/db/repositories.ts, `handleEntry` in gateway/src/jobs/eventConsumer.ts), to the
 * notes it fills: which artifacts they show, and when the results miss them.
 *
 * Every stretch between two awaits is one step. Any number of steps of any kind may come between the steps of one
 * dispatch or of one event's handling, and either may stop for good after any of its steps.
 */
module JobPipeline {
  import opened Options
  import opened Sequences
  import opened Dispatcher
  import opened FairQueue
  import opened Jobs

  /** A row of the jobs table; `queue` is set, with the payload, when the job is submitted. */
  datatype Row = Row(session: Session, createdAt: int, queue: Option<Queue>, status: Status, dispatchedAt: Option<int>)

  /** An open dispatch: the marks not yet committed, and what is left to send to the queue being filled. */
  datatype Dispatch = Dispatch(marks: map<JobId, int>, queue: Queue, todo: seq<JobId>, headPushed: bool)

  /**
   * How far one event's handling has come: past the gate, artifacts stored, row read back, room told, and, if the row
   * read back had ended, the job's artifacts read for the notes and the notes filled.
   */
  datatype Stage = Gated | Stored | ReadBack(seen: Status) | Published(seen: Status)
      | WithTexts(texts: seq<seq<string>>) | Filled
  datatype Handler = Handler(event: JobEvent, stage: Stage, stopped: bool)

  /** `stored` has each job's artifacts, set by set; `handlers` all that have passed the gate, in the order they did. */
  datatype State = State(
    rows: map<JobId, Row>, broker: map<Queue, seq<JobId>>, dispatch: Option<Dispatch>,
    handlers: seq<Handler>, stored: map<JobId, seq<seq<string>>>,
    // the artifacts a job's section was filled with: the first fill decides (`NotesWriter.FinishedAgain`)
    shown: map<JobId, seq<seq<string>>>,
    // what has happened so far
    pushed: set<JobId>, taken: set<JobId>,
    completions: multiset<JobId>, ownFills: multiset<JobId>, lateFills: multiset<JobId>)

  datatype Step =
    | Create(job: JobId, session: Session, createdAt: int)
    | Submit(job: JobId, queue: Queue)
    | Begin
    | Choose(queue: Queue, order: seq<Job>, skipped: set<JobId>, lastServed: Stamps)
    | Push
    | Mark(stamp: int)
    | Commit
    | Rollback
    | Take(queue: Queue)
    | Gate(event: JobEvent)
    | Store(handler: nat)
    | Read(handler: nat)
    | Publish(handler: nat)
    | ReadTexts(handler: nat)
    | Fill(handler: nat)
    | Stop(handler: nat)

  /** Not yet handed over: what the dispatcher selects, and what it counts as waiting. */
  predicate Undispatched(row: Row) { row.status.Queued? && row.dispatchedAt.None? }

  /** The dispatcher sees its own marks. */
  function Marked(s: State, job: JobId): bool
    requires job in s.rows
  {
    s.rows[job].dispatchedAt.Some? || (s.dispatch.Some? && job in s.dispatch.value.marks)
  }

  function AsJob(s: State, job: JobId): Job
    requires job in s.rows
  {
    Job(job, s.rows[job].session, s.rows[job].createdAt)
  }

  /** The jobs a queue has waiting, but for rows another transaction holds. */
  function CandidateIds(s: State, queue: Queue, skipped: set<JobId>): set<JobId> {
    set j | j in s.rows && s.rows[j].queue == Some(queue) && s.rows[j].status.Queued? && !Marked(s, j) && j !in skipped
  }

  function Candidates(s: State, queue: Queue, skipped: set<JobId>): set<Job> {
    set j | j in CandidateIds(s, queue, skipped) :: AsJob(s, j)
  }

  /** What a pool has of one session: handed over, and not finished. */
  function HeldBy(s: State, queue: Queue, session: Session): set<JobId> {
    set j | j in s.rows && s.rows[j].session == session && s.rows[j].queue == Some(queue) && Marked(s, j)
        && !Terminal(s.rows[j].status)
  }

  function SessionOf(s: State, job: JobId): Session
    requires job in s.rows
  {
    s.rows[job].session
  }

  /** Per session: the jobs its pool already has. */
  function InFlightOf(s: State, queue: Queue): Counts {
    map x | x in (set j | j in s.rows :: SessionOf(s, j)) :: |HeldBy(s, queue, x)|
  }

  /** Only the WINDOW oldest waiting jobs are looked at. */
  const WINDOW := 2000

  ghost predicate OldestOf(window: set<Job>, all: set<Job>) {
    && window <= all && (|all| > WINDOW ==> |window| == WINDOW)
    && (forall x, y | x in window && y in all && y !in window :: x.createdAt <= y.createdAt)
    && (|all| <= WINDOW ==> window == all)
  }

  predicate Active(s: State, h: nat) { h < |s.handlers| && !s.handlers[h].stopped }

  ghost predicate Enabled(s: State, step: Step, ahead: nat) {
    match step
    case Create(job, _, _) => job !in s.rows
    case Submit(job, _) => job in s.rows && s.rows[job].queue.None? && s.rows[job].status.Queued?
    case Begin => s.dispatch.None?
    case Choose(queue, order, skipped, lastServed) =>
      && s.dispatch.Some? && s.dispatch.value.todo == [] && |On(s.broker, queue)| < ahead
      && exists window :: OldestOf(window, Candidates(s, queue, skipped))
           && IsFairOrder(order, window, InFlightOf(s, queue), lastServed)
    case Push => s.dispatch.Some? && s.dispatch.value.todo != [] && !s.dispatch.value.headPushed
    case Mark(_) => s.dispatch.Some? && s.dispatch.value.todo != [] && s.dispatch.value.headPushed
    case Commit => s.dispatch.Some? && s.dispatch.value.todo == []
    case Rollback => s.dispatch.Some?
    case Take(queue) => On(s.broker, queue) != []
    case Gate(event) => event.job in s.taken
    case Store(h) => Active(s, h) && s.handlers[h].stage.Gated?
    case Read(h) => Active(s, h) && s.handlers[h].stage.Stored? && s.handlers[h].event.job in s.rows
    case Publish(h) => Active(s, h) && s.handlers[h].stage.ReadBack?
    case ReadTexts(h) => Active(s, h) && s.handlers[h].stage.Published? && Terminal(s.handlers[h].stage.seen)
    case Fill(h) => Active(s, h) && s.handlers[h].stage.WithTexts?
    case Stop(h) => Active(s, h)
  }

  /** The artifacts stored for a job. */
  function StoredOf(s: State, job: JobId): seq<seq<string>> { if job in s.stored then s.stored[job] else [] }

  /** The row says that the job is over: the gate lets nothing more of it through. */
  predicate Ended(s: State, job: JobId) { job in s.rows && Terminal(s.rows[job].status) }

  /** The gate lets the event through. */
  predicate Passes(s: State, event: JobEvent) { event.job in s.rows && !Terminal(s.rows[event.job].status) }

  function Moved(s: State, h: nat, stage: Stage): seq<Handler>
    requires h < |s.handlers|
  {
    s.handlers[h := s.handlers[h].(stage := stage)]
  }

  function Next(s: State, step: Step, ahead: nat): State
    requires Enabled(s, step, ahead)
  {
    match step
    case Create(job, session, createdAt) => s.(rows := s.rows[job := Row(session, createdAt, None, Queued, None)])
    case Submit(job, queue) => s.(rows := s.rows[job := s.rows[job].(queue := Some(queue))])
    case Begin => s.(dispatch := Some(Dispatch(map[], "", [], false)))
    case Choose(queue, order, _, _) =>
      var free := ahead - |On(s.broker, queue)|;
      s.(dispatch := Some(s.dispatch.value.(
        queue := queue, todo := Ids(if free < |order| then order[..free] else order), headPushed := false)))
    case Push =>
      var d := s.dispatch.value;
      s.(broker := s.broker[d.queue := On(s.broker, d.queue) + [d.todo[0]]],
         pushed := s.pushed + {d.todo[0]},
         dispatch := Some(d.(headPushed := true)))
    case Mark(stamp) =>
      var d := s.dispatch.value;
      s.(dispatch := Some(d.(marks := d.marks[d.todo[0] := stamp], todo := d.todo[1..], headPushed := false)))
    case Commit =>
      var marks := s.dispatch.value.marks;
      s.(rows := map j | j in s.rows ::
                   if j in marks then s.rows[j].(dispatchedAt := Some(marks[j])) else s.rows[j],
         dispatch := None)
    case Rollback => s.(dispatch := None)
    case Take(queue) =>
      var q := On(s.broker, queue);
      s.(broker := s.broker[queue := q[1..]], taken := s.taken + {q[0]})
    case Gate(event) =>
      if Passes(s, event) then
        s.(rows := s.rows[event.job := s.rows[event.job].(status := event.status)],
           handlers := s.handlers + [Handler(event, Gated, false)])
      else s
    case Store(h) =>
      var event := s.handlers[h].event;
      s.(stored := if event.artifacts == [] then s.stored
         else s.stored[event.job := StoredOf(s, event.job) + [event.artifacts]],
         handlers := Moved(s, h, Stored))
    case Read(h) => s.(handlers := Moved(s, h, ReadBack(s.rows[s.handlers[h].event.job].status)))
    case Publish(h) =>
      var handler := s.handlers[h];
      s.(completions := if Terminal(handler.event.status) then s.completions + multiset{handler.event.job}
         else s.completions,
         handlers := Moved(s, h, Published(handler.stage.seen)))
    case ReadTexts(h) => s.(handlers := Moved(s, h, WithTexts(StoredOf(s, s.handlers[h].event.job))))
    case Fill(h) =>
      var event := s.handlers[h].event;
      s.(ownFills := if Terminal(event.status) then s.ownFills + multiset{event.job} else s.ownFills,
         lateFills := if Terminal(event.status) then s.lateFills else s.lateFills + multiset{event.job},
         shown := if event.job in s.shown then s.shown else s.shown[event.job := s.handlers[h].stage.texts],
         handlers := Moved(s, h, Filled))
    case Stop(h) => s.(handlers := s.handlers[h := s.handlers[h].(stopped := true)])
  }

  const INITIAL := State(map[], map[], None, [], map[], map[], {}, {}, multiset{}, multiset{}, multiset{})

  ghost predicate IsRun(s: State, steps: seq<Step>, ahead: nat)
    decreases steps
  {
    steps == [] || (Enabled(s, steps[0], ahead) && IsRun(Next(s, steps[0], ahead), steps[1..], ahead))
  }

  function After(s: State, steps: seq<Step>, ahead: nat): State
    requires IsRun(s, steps, ahead)
    decreases steps
  {
    if steps == [] then s else After(Next(s, steps[0], ahead), steps[1..], ahead)
  }

  // ---- dispatch: never lost ------------------------------------------------------------------

  /** What the open dispatch still has to put on queue `q`. */
  function StillToPush(d: Option<Dispatch>, q: Queue): nat {
    if d.Some? && d.value.queue == q && d.value.todo != [] then |d.value.todo| - (if d.value.headPushed then 1 else 0)
    else 0
  }

  /** A submitted job is waiting in the table, in its own pool's queue, or taken by a worker. */
  predicate Accounted(s: State, job: JobId)
    requires job in s.rows && s.rows[job].queue.Some?
  {
    Undispatched(s.rows[job]) || job in On(s.broker, s.rows[job].queue.value) || job in s.taken
  }

  ghost predicate ShortQueues(s: State, ahead: nat) {
    forall q :: |On(s.broker, q)| + StillToPush(s.dispatch, q) <= ahead
  }

  /** A pushed job is in its own pool's queue or taken from it; a mark, and a worker's news, come after the push. */
  ghost predicate PushedFirst(s: State) {
    && (forall j | j in s.pushed :: j in s.rows && s.rows[j].queue.Some?
          && (j in s.taken || j in On(s.broker, s.rows[j].queue.value)))
    && (forall j | j in s.rows && s.rows[j].dispatchedAt.Some? :: j in s.pushed)
    && (forall j | j in s.rows && !s.rows[j].status.Queued? :: j in s.taken)
  }

  /** The open dispatch marks what it has pushed, and sends jobs of the queue it is filling. */
  ghost predicate OpenDispatch(s: State) {
    s.dispatch.Some? ==>
      var d := s.dispatch.value;
      && (forall j | j in d.marks :: j in s.pushed)
      && (forall i | 0 <= i < |d.todo| :: d.todo[i] in s.rows && s.rows[d.todo[i]].queue == Some(d.queue))
      && (d.headPushed && d.todo != [] ==> d.todo[0] in s.pushed)
  }

  ghost predicate DispatchInv(s: State, ahead: nat) {
    ShortQueues(s, ahead) && PushedFirst(s) && OpenDispatch(s)
  }

  lemma {:induction false} ChosenAreWaiting(s: State, queue: Queue, order: seq<Job>, skipped: set<JobId>,
                                            window: set<Job>, lastServed: Stamps)
    requires window <= Candidates(s, queue, skipped) && IsFairOrder(order, window, InFlightOf(s, queue), lastServed)
    ensures forall i | 0 <= i < |order| :: order[i].id in s.rows && s.rows[order[i].id].queue == Some(queue)
  {
    forall i | 0 <= i < |order| ensures order[i].id in s.rows && s.rows[order[i].id].queue == Some(queue) {
      assert order[i] in window;
    }
  }

  /** No step lets a queue, with what is about to be put on it, grow past `ahead`. */
  lemma {:induction false} QueuesStayShort(s: State, step: Step, ahead: nat, q: Queue)
    requires Enabled(s, step, ahead)
    requires |On(s.broker, q)| + StillToPush(s.dispatch, q) <= ahead
    ensures |On(Next(s, step, ahead).broker, q)| + StillToPush(Next(s, step, ahead).dispatch, q) <= ahead
  {
  }

  lemma {:induction false} PushedFirstStep(s: State, step: Step, ahead: nat)
    requires PushedFirst(s) && OpenDispatch(s) && Enabled(s, step, ahead)
    ensures PushedFirst(Next(s, step, ahead))
  {
    if step.Take? {
      var q := On(s.broker, step.queue);
      assert q == [q[0]] + q[1..];
    }
  }

  lemma {:induction false} OpenDispatchStep(s: State, step: Step, ahead: nat)
    requires OpenDispatch(s) && Enabled(s, step, ahead)
    ensures OpenDispatch(Next(s, step, ahead))
  {
    if step.Choose? {
      var window :| OldestOf(window, Candidates(s, step.queue, step.skipped))
        && IsFairOrder(step.order, window, InFlightOf(s, step.queue), step.lastServed);
      ChosenAreWaiting(s, step.queue, step.order, step.skipped, window, step.lastServed);
    }
  }

  lemma {:induction false} DispatchStep(s: State, step: Step, ahead: nat)
    requires DispatchInv(s, ahead) && Enabled(s, step, ahead)
    ensures DispatchInv(Next(s, step, ahead), ahead)
  {
    forall q ensures |On(Next(s, step, ahead).broker, q)| + StillToPush(Next(s, step, ahead).dispatch, q) <= ahead {
      QueuesStayShort(s, step, ahead, q);
    }
    PushedFirstStep(s, step, ahead);
    OpenDispatchStep(s, step, ahead);
  }

  // ---- completion: effectively once -----------------------------------------------------------

  /** Handling a job's one terminal event. */
  predicate Completing(s: State, h: nat, job: JobId) {
    h < |s.handlers| && s.handlers[h].event.job == job && Terminal(s.handlers[h].event.status)
  }

  predicate HasTold(stage: Stage) { stage.Published? || stage.WithTexts? || stage.Filled? }

  /** What a handler of a terminal event has done shows in the row and in what has happened. */
  predicate Accounts(s: State, handler: Handler) {
    var job := handler.event.job;
    && job in s.rows
    && (Terminal(handler.event.status) ==>
          && s.rows[job].status == handler.event.status
          && s.completions[job] == (if HasTold(handler.stage) then 1 else 0)
          && s.ownFills[job] == (if handler.stage.Filled? then 1 else 0))
  }

  ghost predicate CompletionInv(s: State) {
    && (forall h | 0 <= h < |s.handlers| :: Accounts(s, s.handlers[h]))
    && (forall h, k | 0 <= h < |s.handlers| && 0 <= k < |s.handlers| && Terminal(s.handlers[h].event.status)
                      && Terminal(s.handlers[k].event.status)
                           && s.handlers[h].event.job == s.handlers[k].event.job :: h == k)
    && (forall j | !Ended(s, j) :: s.completions[j] == 0 && s.ownFills[j] == 0)
    && (forall j | Ended(s, j) :: exists h: nat :: Completing(s, h, j))
  }

  /** The steps that handle no event. */
  predicate Dispatches(step: Step) {
    !step.Gate? && !step.Store? && !step.Read? && !step.Publish? && !step.ReadTexts? && !step.Fill? && !step.Stop?
  }

  /** They leave all outcomes as they are. */
  ghost predicate SameOutcomes(s: State, t: State) {
    && t.completions == s.completions && t.ownFills == s.ownFills && t.lateFills == s.lateFills
    && t.handlers == s.handlers && t.stored == s.stored && t.shown == s.shown
    && (forall j | j in s.rows :: j in t.rows && t.rows[j].status == s.rows[j].status)
    && (forall j | Ended(t, j) :: Ended(s, j))
  }

  lemma {:induction false} DispatchingSettlesNothing(s: State, step: Step, ahead: nat)
    requires Enabled(s, step, ahead) && Dispatches(step)
    ensures SameOutcomes(s, Next(s, step, ahead))
  {
  }

  lemma {:induction false} CompletionFrame(s: State, t: State)
    requires CompletionInv(s) && SameOutcomes(s, t)
    ensures CompletionInv(t)
  {
    forall j | Ended(t, j) ensures exists h: nat :: Completing(t, h, j) {
      var h: nat :| Completing(s, h, j);
      assert Completing(t, h, j);
    }
  }

  /** Handler `h` moves on. */
  lemma {:induction false} CompletionMoves(s: State, t: State, h: nat)
    requires CompletionInv(s) && h < |s.handlers| && t.rows == s.rows
    requires |t.handlers| == |s.handlers| && t.handlers[h].event == s.handlers[h].event
    requires forall k | 0 <= k < |s.handlers| && k != h :: t.handlers[k] == s.handlers[k]
    requires forall j | j != s.handlers[h].event.job || !Terminal(s.handlers[h].event.status) ::
               t.completions[j] == s.completions[j] && t.ownFills[j] == s.ownFills[j]
    requires Accounts(t, t.handlers[h])
    ensures CompletionInv(t)
  {
    var event := s.handlers[h].event;
    forall k | 0 <= k < |t.handlers| ensures Accounts(t, t.handlers[k]) {
      if k != h {
        assert Accounts(s, s.handlers[k]);
      }
    }
    assert Accounts(s, s.handlers[h]);
    forall j | Ended(t, j) ensures exists x: nat :: Completing(t, x, j) {
      assert Ended(s, j);
      var x: nat :| Completing(s, x, j);
      assert Completing(t, x, j);
    }
  }

  lemma {:induction false} CompletionGate(s: State, event: JobEvent, ahead: nat)
    requires CompletionInv(s) && Enabled(s, Gate(event), ahead) && Passes(s, event)
    ensures CompletionInv(Next(s, Gate(event), ahead))
  {
    var t, job := Next(s, Gate(event), ahead), event.job;
    forall k | 0 <= k < |t.handlers| ensures Accounts(t, t.handlers[k]) {
      if k < |s.handlers| {
        assert Accounts(s, s.handlers[k]) && t.handlers[k] == s.handlers[k];
      }
    }
    forall h, k | 0 <= h < |t.handlers| && 0 <= k < |t.handlers| && Terminal(t.handlers[h].event.status)
                  && Terminal(t.handlers[k].event.status) && t.handlers[h].event.job == t.handlers[k].event.job
      ensures h == k
    {
      OneEnds(s, event, h, k);
    }
    forall j | Ended(t, j) ensures exists x: nat :: Completing(t, x, j) {
      if j == job {
        assert Completing(t, |s.handlers|, j);
      } else {
        assert Ended(s, j);
        var x: nat :| Completing(s, x, j);
        assert Completing(t, x, j);
      }
    }
  }

  /** No handler of a last event is there yet when the gate lets one through. */
  lemma {:induction false} OneEnds(s: State, event: JobEvent, h: nat, k: nat)
    requires CompletionInv(s) && Passes(s, event)
    requires var handlers := s.handlers + [Handler(event, Gated, false)];
             && h < |handlers| && k < |handlers| && handlers[h].event.job == handlers[k].event.job
             && Terminal(handlers[h].event.status) && Terminal(handlers[k].event.status)
    ensures h == k
  {
    if h < |s.handlers| {
      assert Accounts(s, s.handlers[h]);
    }
    if k < |s.handlers| {
      assert Accounts(s, s.handlers[k]);
    }
  }

  lemma {:induction false} CompletionStep(s: State, step: Step, ahead: nat)
    requires CompletionInv(s) && Enabled(s, step, ahead)
    ensures CompletionInv(Next(s, step, ahead))
  {
    match step
    case Gate(event) => if Passes(s, event) { CompletionGate(s, event, ahead); }
    case Store(h) => CompletionByHandler(s, step, h, ahead);
    case Read(h) => CompletionByHandler(s, step, h, ahead);
    case Publish(h) => CompletionByHandler(s, step, h, ahead);
    case ReadTexts(h) => CompletionByHandler(s, step, h, ahead);
    case Fill(h) => CompletionByHandler(s, step, h, ahead);
    case Stop(h) => CompletionByHandler(s, step, h, ahead);
    case _ =>
      DispatchingSettlesNothing(s, step, ahead);
      CompletionFrame(s, Next(s, step, ahead));
  }

  /** A step of handler `h`. */
  predicate Handles(step: Step, h: nat) {
    step == Store(h) || step == Read(h) || step == Publish(h) || step == ReadTexts(h) || step == Fill(h)
        || step == Stop(h)
  }

  lemma {:induction false} CompletionByHandler(s: State, step: Step, h: nat, ahead: nat)
    requires CompletionInv(s) && Enabled(s, step, ahead) && Handles(step, h)
    ensures CompletionInv(Next(s, step, ahead))
  {
    assert Accounts(s, s.handlers[h]);
    CompletionMoves(s, Next(s, step, ahead), h);
  }

  /** Whoever goes to fill the notes has seen the job ended, and it has. */
  ghost predicate SeenInv(s: State) {
    forall h | 0 <= h < |s.handlers| :: SeenEnded(s.handlers[h].stage) ==> Ended(s, s.handlers[h].event.job)
  }

  predicate SeenEnded(stage: Stage) {
    ((stage.ReadBack? || stage.Published?) && Terminal(stage.seen)) || stage.WithTexts? || stage.Filled?
  }

  lemma {:induction false} SeenStep(s: State, step: Step, ahead: nat)
    requires SeenInv(s) && Enabled(s, step, ahead)
    ensures SeenInv(Next(s, step, ahead))
  {
    var t := Next(s, step, ahead);
    forall j | Ended(s, j) ensures Ended(t, j) {
      EndedStays(s, step, ahead, j);
    }
    forall h | 0 <= h < |t.handlers| && SeenEnded(t.handlers[h].stage) ensures Ended(t, t.handlers[h].event.job) {
      SeenOnlySo(s, step, ahead, h);
    }
  }

  lemma {:induction false} EndedStays(s: State, step: Step, ahead: nat, job: JobId)
    requires Enabled(s, step, ahead) && Ended(s, job)
    ensures Ended(Next(s, step, ahead), job)
  {
    if Dispatches(step) {
      DispatchingSettlesNothing(s, step, ahead);
    }
  }

  lemma {:induction false} SeenOnlySo(s: State, step: Step, ahead: nat, h: nat)
    requires Enabled(s, step, ahead) && h < |Next(s, step, ahead).handlers|
    requires SeenEnded(Next(s, step, ahead).handlers[h].stage)
    ensures h < |s.handlers| && Next(s, step, ahead).handlers[h].event == s.handlers[h].event
    ensures SeenEnded(s.handlers[h].stage) || (step == Read(h) && Ended(s, s.handlers[h].event.job))
  {
    if Dispatches(step) {
      DispatchingSettlesNothing(s, step, ahead);
    }
  }

  /** Workers attach artifacts to their last event only. */
  predicate ArtifactsAtTheEnd(event: JobEvent) { |event.artifacts| > 0 ==> Terminal(event.status) }

  /** What the handler of a last event has stored is all that is stored of its job. */
  predicate StoresOwn(s: State, handler: Handler) {
    && ArtifactsAtTheEnd(handler.event)
    && (Terminal(handler.event.status) ==>
          StoredOf(s, handler.event.job) == if handler.stage.Gated? || handler.event.artifacts == [] then []
              else [handler.event.artifacts])
  }

  ghost predicate ArtifactInv(s: State) {
    && (forall j | !Ended(s, j) :: StoredOf(s, j) == [])
    && (forall h | 0 <= h < |s.handlers| :: StoresOwn(s, s.handlers[h]))
  }

  /** What is stored and which jobs have ended is as it was. */
  lemma {:induction false} ArtifactFrame(s: State, t: State)
    requires ArtifactInv(s) && t.stored == s.stored && (forall j | Ended(s, j) :: Ended(t, j))
    requires forall h | 0 <= h < |t.handlers| :: StoresOwn(t, t.handlers[h])
    ensures ArtifactInv(t)
  {
    forall j | !Ended(t, j) ensures StoredOf(t, j) == [] {
      assert !Ended(s, j) && StoredOf(t, j) == StoredOf(s, j);
    }
  }

  lemma {:induction false} ArtifactGate(s: State, event: JobEvent, ahead: nat)
    requires CompletionInv(s) && ArtifactInv(s) && Enabled(s, Gate(event), ahead) && ArtifactsAtTheEnd(event)
    requires Passes(s, event)
    ensures ArtifactInv(Next(s, Gate(event), ahead))
  {
    var t := Next(s, Gate(event), ahead);
    assert !Ended(s, event.job) && StoredOf(t, event.job) == StoredOf(s, event.job);
    forall h | 0 <= h < |t.handlers| ensures StoresOwn(t, t.handlers[h]) {
      if h < |s.handlers| {
        assert StoresOwn(s, s.handlers[h]) && t.handlers[h] == s.handlers[h];
        assert StoredOf(t, s.handlers[h].event.job) == StoredOf(s, s.handlers[h].event.job);
      }
    }
    ArtifactFrame(s, t);
  }

  lemma {:induction false} ArtifactStore(s: State, h: nat, ahead: nat)
    requires CompletionInv(s) && ArtifactInv(s) && Enabled(s, Store(h), ahead)
    ensures ArtifactInv(Next(s, Store(h), ahead))
  {
    var t, event := Next(s, Store(h), ahead), s.handlers[h].event;
    assert StoresOwn(s, s.handlers[h]) && Accounts(s, s.handlers[h]);
    forall k | 0 <= k < |t.handlers| ensures StoresOwn(t, t.handlers[k]) {
      if k != h {
        assert StoresOwn(s, s.handlers[k]) && t.handlers[k] == s.handlers[k];
      }
      assert t.handlers[k].event.job != event.job ==>
               StoredOf(t, t.handlers[k].event.job) == StoredOf(s, t.handlers[k].event.job);
    }
    forall j | !Ended(t, j) ensures StoredOf(t, j) == [] {
      assert !Ended(s, j) && StoredOf(s, j) == [];
    }
  }

  /** A step that stores nothing. */
  lemma {:induction false} ArtifactOthers(s: State, step: Step, ahead: nat)
    requires ArtifactInv(s) && Enabled(s, step, ahead) && !step.Store? && !step.Gate?
    ensures ArtifactInv(Next(s, step, ahead))
  {
    if Dispatches(step) {
      DispatchingSettlesNothing(s, step, ahead);
    } else {
      HandlerMovesOn(s, step, ahead);
    }
    StoresAsBefore(s, Next(s, step, ahead));
  }

  lemma {:induction false} HandlerMovesOn(s: State, step: Step, ahead: nat)
    requires Enabled(s, step, ahead) && !Dispatches(step) && !step.Store? && !step.Gate?
    ensures var t := Next(s, step, ahead);
            && t.rows == s.rows && t.stored == s.stored && |t.handlers| == |s.handlers|
            && (forall k | 0 <= k < |s.handlers| ::
                  t.handlers[k].event == s.handlers[k].event
                      && (t.handlers[k].stage.Gated? <==> s.handlers[k].stage.Gated?))
  {
  }

  lemma {:induction false} StoresAsBefore(s: State, t: State)
    requires ArtifactInv(s) && t.stored == s.stored && (forall j | Ended(s, j) :: Ended(t, j))
               && |t.handlers| == |s.handlers|
    requires forall k | 0 <= k < |s.handlers| ::
               t.handlers[k].event == s.handlers[k].event
                   && (t.handlers[k].stage.Gated? <==> s.handlers[k].stage.Gated?)
    ensures ArtifactInv(t)
  {
    forall k | 0 <= k < |t.handlers| ensures StoresOwn(t, t.handlers[k]) {
      assert StoresOwn(s, s.handlers[k]);
      assert StoredOf(t, t.handlers[k].event.job) == StoredOf(s, t.handlers[k].event.job);
    }
    ArtifactFrame(s, t);
  }

  lemma {:induction false} ArtifactStep(s: State, step: Step, ahead: nat)
    requires CompletionInv(s) && ArtifactInv(s) && Enabled(s, step, ahead)
    requires step.Gate? ==> ArtifactsAtTheEnd(step.event)
    ensures ArtifactInv(Next(s, step, ahead))
  {
    if step.Gate? {
      if Passes(s, step.event) {
        ArtifactGate(s, step.event, ahead);
      }
    } else if step.Store? {
      ArtifactStore(s, step.handler, ahead);
    } else {
      ArtifactOthers(s, step, ahead);
    }
  }

  // ---- over every run ------------------------------------------------------------------------

  ghost predicate Inv(s: State, ahead: nat) {
    DispatchInv(s, ahead) && CompletionInv(s) && SeenInv(s)
  }

  lemma {:induction false} InvStep(s: State, step: Step, ahead: nat)
    requires Inv(s, ahead) && Enabled(s, step, ahead)
    ensures Inv(Next(s, step, ahead), ahead)
  {
    DispatchStep(s, step, ahead);
    CompletionStep(s, step, ahead);
    SeenStep(s, step, ahead);
  }

  lemma {:induction false} InvAlways(s: State, steps: seq<Step>, ahead: nat)
    requires Inv(s, ahead) && IsRun(s, steps, ahead)
    ensures Inv(After(s, steps, ahead), ahead)
    decreases steps
  {
    if steps != [] {
      InvStep(s, steps[0], ahead);
      InvAlways(Next(s, steps[0], ahead), steps[1..], ahead);
    }
  }

  /** Every submitted job is somewhere, no queue is too long, and what is marked as dispatched was pushed. */
  ghost predicate NothingLost(s: State, ahead: nat) {
    && (forall j | j in s.rows && s.rows[j].queue.Some? :: Accounted(s, j))
    && (forall q :: |On(s.broker, q)| <= ahead)
    && (forall j | j in s.rows && s.rows[j].dispatchedAt.Some? :: j in s.pushed)
  }

  /**
   * Never lost. After any run, with any crashes: a submitted job is waiting, in its own pool's queue, or taken by a
   * worker; no queue holds more than `ahead`; and a job marked as dispatched really was put on its queue.
   */
  lemma {:induction false} NeverLost(steps: seq<Step>, ahead: nat)
    requires IsRun(INITIAL, steps, ahead)
    ensures NothingLost(After(INITIAL, steps, ahead), ahead)
  {
    InvAlways(INITIAL, steps, ahead);
    AllAccounted(After(INITIAL, steps, ahead), ahead);
  }

  lemma {:induction false} AllAccounted(s: State, ahead: nat)
    requires DispatchInv(s, ahead)
    ensures NothingLost(s, ahead)
  {
    forall q ensures |On(s.broker, q)| <= ahead {
      assert |On(s.broker, q)| + StillToPush(s.dispatch, q) <= ahead;
    }
  }

  /** One completion and one fill of its own at most, with the outcome on record. */
  ghost predicate CompletedOnce(s: State, job: JobId) {
    && s.completions[job] <= 1
    && s.ownFills[job] <= 1
    && (forall h: nat | Completing(s, h, job) :: job in s.rows && s.rows[job].status == s.handlers[h].event.status)
  }

  /**
   * Effectively once. However often a job's events are repeated, reordered or overlap, at most one completion is
   * published, with the outcome on record, and its handler fills the notes at most once. `LateFillIff` says exactly
   * when another handler fills them too.
   */
  lemma {:induction false} EffectivelyOnce(steps: seq<Step>, ahead: nat, job: JobId)
    requires IsRun(INITIAL, steps, ahead)
    ensures CompletedOnce(After(INITIAL, steps, ahead), job)
  {
    InvAlways(INITIAL, steps, ahead);
    OnceFor(After(INITIAL, steps, ahead), job);
  }

  lemma {:induction false} OnceFor(s: State, job: JobId)
    requires CompletionInv(s)
    ensures CompletedOnce(s, job)
  {
    forall h: nat | Completing(s, h, job) ensures Accounts(s, s.handlers[h]) {}
    if Ended(s, job) {
      var h: nat :| Completing(s, h, job);
    }
  }

  /** And when artifacts come with the last event only, one set of them is stored. */
  lemma {:induction false} ArtifactsOnce(steps: seq<Step>, ahead: nat, job: JobId)
    requires IsRun(INITIAL, steps, ahead) && EndsCarryArtifacts(steps)
    ensures |StoredOf(After(INITIAL, steps, ahead), job)| <= 1
  {
    RunInv(steps, ahead, |steps|);
    RunArtifacts(steps, ahead, |steps|);
    EndAt(INITIAL, steps, ahead);
    var s := After(INITIAL, steps, ahead);
    if Ended(s, job) {
      var h: nat :| Completing(s, h, job);
      assert StoresOwn(s, s.handlers[h]);
    }
  }

  ghost predicate EndsCarryArtifacts(steps: seq<Step>) {
    forall i | 0 <= i < |steps| && steps[i].Gate? :: ArtifactsAtTheEnd(steps[i].event)
  }

  // ---- the steps of one run ------------------------------------------------------------------

  ghost function StateAt(s: State, steps: seq<Step>, ahead: nat, i: nat): State
    requires IsRun(s, steps, ahead) && i <= |steps|
    decreases i
  {
    if i == 0 then s else StateAt(Next(s, steps[0], ahead), steps[1..], ahead, i - 1)
  }

  lemma {:induction false} StepAt(s: State, steps: seq<Step>, ahead: nat, i: nat)
    requires IsRun(s, steps, ahead) && i < |steps|
    ensures Enabled(StateAt(s, steps, ahead, i), steps[i], ahead)
    ensures StateAt(s, steps, ahead, i + 1) == Next(StateAt(s, steps, ahead, i), steps[i], ahead)
    decreases i
  {
    if i > 0 {
      StepAt(Next(s, steps[0], ahead), steps[1..], ahead, i - 1);
    }
  }

  lemma {:induction false} EndAt(s: State, steps: seq<Step>, ahead: nat)
    requires IsRun(s, steps, ahead)
    ensures StateAt(s, steps, ahead, |steps|) == After(s, steps, ahead)
    decreases steps
  {
    if steps != [] {
      EndAt(Next(s, steps[0], ahead), steps[1..], ahead);
    }
  }

  /** The state of a run after its first `i` steps. */
  ghost function At(steps: seq<Step>, ahead: nat, i: nat): State
    requires IsRun(INITIAL, steps, ahead) && i <= |steps|
  {
    StateAt(INITIAL, steps, ahead, i)
  }

  lemma {:induction false} RunNext(steps: seq<Step>, ahead: nat, i: nat)
    requires IsRun(INITIAL, steps, ahead) && i < |steps|
    ensures Enabled(At(steps, ahead, i), steps[i], ahead)
    ensures At(steps, ahead, i + 1) == Next(At(steps, ahead, i), steps[i], ahead)
  {
    StepAt(INITIAL, steps, ahead, i);
  }

  lemma {:induction false} RunInv(steps: seq<Step>, ahead: nat, i: nat)
    requires IsRun(INITIAL, steps, ahead) && i <= |steps|
    ensures Inv(At(steps, ahead, i), ahead)
    decreases i
  {
    if i > 0 {
      RunInv(steps, ahead, i - 1);
      RunNext(steps, ahead, i - 1);
      InvStep(At(steps, ahead, i - 1), steps[i - 1], ahead);
    }
  }

  lemma {:induction false} RunArtifacts(steps: seq<Step>, ahead: nat, i: nat)
    requires IsRun(INITIAL, steps, ahead) && EndsCarryArtifacts(steps) && i <= |steps|
    ensures ArtifactInv(At(steps, ahead, i))
    decreases i
  {
    if i > 0 {
      RunArtifacts(steps, ahead, i - 1);
      RunInv(steps, ahead, i - 1);
      RunNext(steps, ahead, i - 1);
      ArtifactStep(At(steps, ahead, i - 1), steps[i - 1], ahead);
    }
  }

  /** Handlers are never forgotten, nor an ending undone. */
  lemma {:induction false} HandlerStays(s: State, step: Step, ahead: nat, h: nat)
    requires Enabled(s, step, ahead) && h < |s.handlers|
    ensures h < |Next(s, step, ahead).handlers| && Next(s, step, ahead).handlers[h].event == s.handlers[h].event
  {
    if Dispatches(step) {
      DispatchingSettlesNothing(s, step, ahead);
    }
  }

  lemma {:induction false} HandlersStay(steps: seq<Step>, ahead: nat, i: nat, k: nat, h: nat)
    requires IsRun(INITIAL, steps, ahead) && i <= k <= |steps| && h < |At(steps, ahead, i).handlers|
    ensures h < |At(steps, ahead, k).handlers|
    ensures At(steps, ahead, k).handlers[h].event == At(steps, ahead, i).handlers[h].event
    decreases k
  {
    if i < k {
      HandlersStay(steps, ahead, i, k - 1, h);
      RunNext(steps, ahead, k - 1);
      HandlerStays(At(steps, ahead, k - 1), steps[k - 1], ahead, h);
    }
  }

  lemma {:induction false} StaysEnded(steps: seq<Step>, ahead: nat, i: nat, k: nat, job: JobId)
    requires IsRun(INITIAL, steps, ahead) && i <= k <= |steps| && Ended(At(steps, ahead, i), job)
    ensures Ended(At(steps, ahead, k), job)
    decreases k
  {
    if i < k {
      StaysEnded(steps, ahead, i, k - 1, job);
      RunNext(steps, ahead, k - 1);
      EndedStays(At(steps, ahead, k - 1), steps[k - 1], ahead, job);
    }
  }

  /** At step `i` the gate lets `event` through, to be handled by handler `h`. */
  ghost predicate PassedAt(steps: seq<Step>, ahead: nat, i: nat, event: JobEvent, h: nat)
    requires IsRun(INITIAL, steps, ahead) && i < |steps|
  {
    steps[i] == Gate(event) && Passes(At(steps, ahead, i), event) && |At(steps, ahead, i).handlers| == h
  }

  lemma {:induction false} WasPassed(steps: seq<Step>, ahead: nat, n: nat, h: nat) returns (i: nat)
    requires IsRun(INITIAL, steps, ahead) && n <= |steps| && h < |At(steps, ahead, n).handlers|
    ensures i < n && PassedAt(steps, ahead, i, At(steps, ahead, n).handlers[h].event, h)
    decreases n
  {
    RunNext(steps, ahead, n - 1);
    var s := At(steps, ahead, n - 1);
    if h < |s.handlers| {
      i := WasPassed(steps, ahead, n - 1, h);
      HandlerStays(s, steps[n - 1], ahead, h);
    } else {
      NewHandler(s, steps[n - 1], ahead, h);
      i := n - 1;
    }
  }

  lemma {:induction false} NewHandler(s: State, step: Step, ahead: nat, h: nat)
    requires Enabled(s, step, ahead) && |s.handlers| <= h < |Next(s, step, ahead).handlers|
    ensures step == Gate(Next(s, step, ahead).handlers[h].event) && Passes(s, step.event) && h == |s.handlers|
  {
    if Dispatches(step) {
      DispatchingSettlesNothing(s, step, ahead);
    }
  }

  lemma {:induction false} WasEnded(steps: seq<Step>, ahead: nat, n: nat, job: JobId) returns (j: nat)
    requires IsRun(INITIAL, steps, ahead) && n <= |steps| && Ended(At(steps, ahead, n), job)
    ensures j < n && steps[j].Gate? && Passes(At(steps, ahead, j), steps[j].event)
    ensures steps[j].event.job == job && Terminal(steps[j].event.status)
    decreases n
  {
    RunNext(steps, ahead, n - 1);
    var s := At(steps, ahead, n - 1);
    if Ended(s, job) {
      j := WasEnded(steps, ahead, n - 1, job);
    } else {
      NewlyEnded(s, steps[n - 1], ahead, job);
      j := n - 1;
    }
  }

  lemma {:induction false} NewlyEnded(s: State, step: Step, ahead: nat, job: JobId)
    requires Enabled(s, step, ahead) && !Ended(s, job) && Ended(Next(s, step, ahead), job)
    ensures step.Gate? && Passes(s, step.event) && step.event.job == job && Terminal(step.event.status)
  {
    if Dispatches(step) {
      DispatchingSettlesNothing(s, step, ahead);
    }
  }

  /** A handler that goes to fill the notes read its job back after the job had ended. */
  lemma {:induction false} WasRead(steps: seq<Step>, ahead: nat, n: nat, h: nat) returns (k: nat)
    requires IsRun(INITIAL, steps, ahead) && n <= |steps| && h < |At(steps, ahead, n).handlers|
    requires SeenEnded(At(steps, ahead, n).handlers[h].stage)
    ensures k < n && steps[k] == Read(h) && h < |At(steps, ahead, k).handlers|
    ensures Ended(At(steps, ahead, k), At(steps, ahead, n).handlers[h].event.job)
    decreases n
  {
    RunNext(steps, ahead, n - 1);
    var s := At(steps, ahead, n - 1);
    SeenOnlySo(s, steps[n - 1], ahead, h);
    if SeenEnded(s.handlers[h].stage) {
      k := WasRead(steps, ahead, n - 1, h);
    } else {
      k := n - 1;
    }
  }

  lemma {:induction false} StageAdvances(s: State, step: Step, ahead: nat, h: nat)
    requires Enabled(s, step, ahead) && h < |s.handlers|
    ensures h < |Next(s, step, ahead).handlers|
    ensures SeenEnded(s.handlers[h].stage) ==> SeenEnded(Next(s, step, ahead).handlers[h].stage)
    ensures Next(s, step, ahead).handlers[h].stage.Gated? <==> s.handlers[h].stage.Gated? && step != Store(h)
    ensures s.handlers[h].stage.WithTexts? ==>
              Next(s, step, ahead).handlers[h].stage.Filled?
                  || Next(s, step, ahead).handlers[h].stage == s.handlers[h].stage
    ensures s.handlers[h].stage.Filled? ==> Next(s, step, ahead).handlers[h].stage.Filled?
    ensures Next(s, step, ahead).handlers[h].stage.WithTexts? ==> s.handlers[h].stage.WithTexts? || step == ReadTexts(h)
  {
    if Dispatches(step) {
      DispatchingSettlesNothing(s, step, ahead);
    }
  }

  // ---- exactly how many sets of artifacts are stored ------------------------------------------

  /** One for a handler of the job past storing, if its event had artifacts. */
  function SetsOf(handler: Handler, job: JobId): nat {
    if handler.event.job == job && handler.event.artifacts != [] && !handler.stage.Gated? then 1 else 0
  }

  function Sets(handlers: seq<Handler>, job: JobId): nat
    decreases |handlers|
  {
    if handlers == [] then 0 else Sets(handlers[..|handlers| - 1], job) + SetsOf(handlers[|handlers| - 1], job)
  }

  lemma {:induction false} SetsMoved(handlers: seq<Handler>, h: nat, handler: Handler, job: JobId)
    requires h < |handlers|
    ensures Sets(handlers[h := handler], job) + SetsOf(handlers[h], job) == Sets(handlers, job) + SetsOf(handler, job)
    decreases |handlers|
  {
    var n := |handlers| - 1;
    if h < n {
      SetsMoved(handlers[..n], h, handler, job);
      assert handlers[h := handler][..n] == handlers[..n][h := handler];
    } else {
      assert handlers[h := handler][..n] == handlers[..n];
    }
  }

  lemma {:induction false} SetsStep(s: State, step: Step, ahead: nat, job: JobId)
    requires Enabled(s, step, ahead) && |StoredOf(s, job)| == Sets(s.handlers, job)
    ensures |StoredOf(Next(s, step, ahead), job)| == Sets(Next(s, step, ahead).handlers, job)
  {
    if Dispatches(step) {
      DispatchingSettlesNothing(s, step, ahead);
    } else if step.Gate? {
      SetsAtGate(s, step.event, ahead, job);
    } else if step.Store? {
      SetsStored(s, step.handler, ahead, job);
    } else {
      SetsElse(s, step, ahead, job);
    }
  }

  lemma {:induction false} SetsAtGate(s: State, event: JobEvent, ahead: nat, job: JobId)
    requires Enabled(s, Gate(event), ahead) && |StoredOf(s, job)| == Sets(s.handlers, job)
    ensures |StoredOf(Next(s, Gate(event), ahead), job)| == Sets(Next(s, Gate(event), ahead).handlers, job)
  {
    if Passes(s, event) {
      assert Next(s, Gate(event), ahead).handlers[..|s.handlers|] == s.handlers;
    }
  }

  lemma {:induction false} SetsStored(s: State, h: nat, ahead: nat, job: JobId)
    requires Enabled(s, Store(h), ahead) && |StoredOf(s, job)| == Sets(s.handlers, job)
    ensures |StoredOf(Next(s, Store(h), ahead), job)| == Sets(Next(s, Store(h), ahead).handlers, job)
  {
    SetsMoved(s.handlers, h, s.handlers[h].(stage := Stored), job);
  }

  lemma {:induction false} SetsElse(s: State, step: Step, ahead: nat, job: JobId)
    requires Enabled(s, step, ahead) && !Dispatches(step) && !step.Gate? && !step.Store?
    ensures Sets(Next(s, step, ahead).handlers, job) == Sets(s.handlers, job) && Next(s, step, ahead).stored == s.stored
  {
    var handlers := Next(s, step, ahead).handlers;
    assert handlers == s.handlers[step.handler := handlers[step.handler]];
    SetsMoved(s.handlers, step.handler, handlers[step.handler], job);
  }

  /** In every run a job has one set stored for each handler past storing whose event had artifacts, and no other. */
  lemma {:induction false} OneSetPerHandler(steps: seq<Step>, ahead: nat, job: JobId)
    requires IsRun(INITIAL, steps, ahead)
    ensures |StoredOf(After(INITIAL, steps, ahead), job)| == Sets(After(INITIAL, steps, ahead).handlers, job)
  {
    SetsAt(steps, ahead, |steps|, job);
    EndAt(INITIAL, steps, ahead);
  }

  lemma {:induction false} SetsAt(steps: seq<Step>, ahead: nat, i: nat, job: JobId)
    requires IsRun(INITIAL, steps, ahead) && i <= |steps|
    ensures |StoredOf(At(steps, ahead, i), job)| == Sets(At(steps, ahead, i).handlers, job)
    decreases i
  {
    if i > 0 {
      SetsAt(steps, ahead, i - 1, job);
      RunNext(steps, ahead, i - 1);
      SetsStep(At(steps, ahead, i - 1), steps[i - 1], ahead, job);
    }
  }

  // ---- exactly when another handler fills the notes too ---------------------------------------

  /**
   * Handler `h`, of an event that is not the job's last, passes the gate at `i`; the last event passes at `j`; `h`
   * reads its job back at `k`, only then, and goes on to fill the notes at `l`.
   */
  ghost predicate Overtaken(steps: seq<Step>, ahead: nat, job: JobId, i: nat, j: nat, k: nat, l: nat)
    requires IsRun(INITIAL, steps, ahead)
  {
    && i < j < k < l < |steps|
    && steps[i].Gate? && steps[i].event.job == job && !Terminal(steps[i].event.status)
         && Passes(At(steps, ahead, i), steps[i].event)
    && steps[j].Gate? && steps[j].event.job == job && Terminal(steps[j].event.status)
         && Passes(At(steps, ahead, j), steps[j].event)
    && steps[k] == Read(|At(steps, ahead, i).handlers|)
    && steps[l] == Fill(|At(steps, ahead, i).handlers|)
  }

  /** Step `l` is a fill by the handler of an event that is not the job's last. */
  ghost predicate LateAt(steps: seq<Step>, ahead: nat, l: nat, job: JobId)
    requires IsRun(INITIAL, steps, ahead) && l < |steps|
  {
    var s := At(steps, ahead, l);
    && steps[l].Fill? && steps[l].handler < |s.handlers|
    && s.handlers[steps[l].handler].event.job == job && !Terminal(s.handlers[steps[l].handler].event.status)
  }

  lemma {:induction false} LateStep(s: State, step: Step, ahead: nat, job: JobId)
    requires Enabled(s, step, ahead)
    ensures s.lateFills[job] <= Next(s, step, ahead).lateFills[job]
    ensures s.lateFills[job] < Next(s, step, ahead).lateFills[job] <==>
              step.Fill? && s.handlers[step.handler].event.job == job
                  && !Terminal(s.handlers[step.handler].event.status)
  {
    if Dispatches(step) {
      DispatchingSettlesNothing(s, step, ahead);
    }
  }

  lemma {:induction false} LateIffAt(steps: seq<Step>, ahead: nat, n: nat, job: JobId)
    requires IsRun(INITIAL, steps, ahead) && n <= |steps|
    ensures At(steps, ahead, n).lateFills[job] > 0 <==> exists l :: 0 <= l < n && LateAt(steps, ahead, l, job)
    decreases n
  {
    if n > 0 {
      LateIffAt(steps, ahead, n - 1, job);
      RunNext(steps, ahead, n - 1);
      LateStep(At(steps, ahead, n - 1), steps[n - 1], ahead, job);
      assert LateAt(steps, ahead, n - 1, job) <==>
        At(steps, ahead, n - 1).lateFills[job] < At(steps, ahead, n).lateFills[job];
    }
  }

  lemma {:induction false} LateIsOvertaken(steps: seq<Step>, ahead: nat, l: nat, job: JobId) returns (i: nat, j: nat,
                                                                                                      k: nat)
    requires IsRun(INITIAL, steps, ahead) && l < |steps| && LateAt(steps, ahead, l, job)
    ensures Overtaken(steps, ahead, job, i, j, k, l)
  {
    var h := steps[l].handler;
    RunNext(steps, ahead, l);
    i := WasPassed(steps, ahead, l, h);
    k := WasRead(steps, ahead, l, h);
    j := WasEnded(steps, ahead, k, job);
    if j <= i {
      RunNext(steps, ahead, j);
      if j < i {
        StaysEnded(steps, ahead, j + 1, i, job);
      }
    }
  }

  lemma {:induction false} OvertakenIsLate(steps: seq<Step>, ahead: nat, job: JobId, i: nat, j: nat, k: nat, l: nat)
    requires IsRun(INITIAL, steps, ahead) && Overtaken(steps, ahead, job, i, j, k, l)
    ensures LateAt(steps, ahead, l, job)
  {
    RunNext(steps, ahead, i);
    HandlersStay(steps, ahead, i + 1, l, |At(steps, ahead, i).handlers|);
  }

  /**
   * A job's notes are filled by a handler of an event that is not its last if and only if one passed the gate before
   * the last event did, read its job back after, and went on to fill.
   */
  lemma {:induction false} LateFillIff(steps: seq<Step>, ahead: nat, job: JobId)
    requires IsRun(INITIAL, steps, ahead)
    ensures After(INITIAL, steps, ahead).lateFills[job] > 0 <==>
              exists i, j, k, l :: Overtaken(steps, ahead, job, i, j, k, l)
  {
    EndAt(INITIAL, steps, ahead);
    LateIffAt(steps, ahead, |steps|, job);
    if After(INITIAL, steps, ahead).lateFills[job] > 0 {
      var l: nat :| l < |steps| && LateAt(steps, ahead, l, job);
      var i, j, k := LateIsOvertaken(steps, ahead, l, job);
    }
    if i, j, k, l :| Overtaken(steps, ahead, job, i, j, k, l) {
      OvertakenIsLate(steps, ahead, job, i, j, k, l);
    }
  }

  // ---- exactly when the notes show the results --------------------------------------------------

  /** Step `l` is a fill of the job's notes by handler `h`, and the first. */
  ghost predicate FirstFill(steps: seq<Step>, ahead: nat, job: JobId, l: nat, h: nat)
    requires IsRun(INITIAL, steps, ahead) && l < |steps|
  {
    var s := At(steps, ahead, l);
    steps[l] == Fill(h) && h < |s.handlers| && s.handlers[h].event.job == job && job !in s.shown
  }

  lemma {:induction false} ShownStays(s: State, step: Step, ahead: nat, job: JobId)
    requires Enabled(s, step, ahead)
    ensures job in s.shown ==> job in Next(s, step, ahead).shown && Next(s, step, ahead).shown[job] == s.shown[job]
    ensures job !in s.shown && job in Next(s, step, ahead).shown ==>
              step.Fill? && s.handlers[step.handler].event.job == job
              && Next(s, step, ahead).shown[job] == s.handlers[step.handler].stage.texts
  {
    if Dispatches(step) {
      DispatchingSettlesNothing(s, step, ahead);
    }
  }

  lemma {:induction false} WasShown(steps: seq<Step>, ahead: nat, n: nat, job: JobId) returns (l: nat, h: nat)
    requires IsRun(INITIAL, steps, ahead) && n <= |steps| && job in At(steps, ahead, n).shown
    ensures l < n && FirstFill(steps, ahead, job, l, h) && At(steps, ahead, l).handlers[h].stage.WithTexts?
    ensures At(steps, ahead, n).shown[job] == At(steps, ahead, l).handlers[h].stage.texts
    decreases n
  {
    RunNext(steps, ahead, n - 1);
    var s := At(steps, ahead, n - 1);
    ShownStays(s, steps[n - 1], ahead, job);
    if job in s.shown {
      l, h := WasShown(steps, ahead, n - 1, job);
    } else {
      l, h := n - 1, steps[n - 1].handler;
    }
  }

  lemma {:induction false} KeepsShowing(steps: seq<Step>, ahead: nat, l: nat, n: nat, job: JobId)
    requires IsRun(INITIAL, steps, ahead) && l <= n <= |steps| && job in At(steps, ahead, l).shown
    ensures job in At(steps, ahead, n).shown && At(steps, ahead, n).shown[job] == At(steps, ahead, l).shown[job]
    decreases n
  {
    if l < n {
      KeepsShowing(steps, ahead, l, n - 1, job);
      RunNext(steps, ahead, n - 1);
      ShownStays(At(steps, ahead, n - 1), steps[n - 1], ahead, job);
    }
  }

  /** The texts a handler holds are those stored when it read them. */
  lemma {:induction false} WasWithTexts(steps: seq<Step>, ahead: nat, n: nat, h: nat) returns (m: nat)
    requires IsRun(INITIAL, steps, ahead) && n <= |steps| && h < |At(steps, ahead, n).handlers|
    requires At(steps, ahead, n).handlers[h].stage.WithTexts?
    ensures m < n && steps[m] == ReadTexts(h)
    ensures At(steps, ahead, n).handlers[h].stage.texts
              == StoredOf(At(steps, ahead, m), At(steps, ahead, n).handlers[h].event.job)
    decreases n
  {
    RunNext(steps, ahead, n - 1);
    var s := At(steps, ahead, n - 1);
    if h >= |s.handlers| {
      NewHandler(s, steps[n - 1], ahead, h);
    }
    HandlerStays(s, steps[n - 1], ahead, h);
    StageAdvances(s, steps[n - 1], ahead, h);
    if s.handlers[h].stage.WithTexts? {
      m := WasWithTexts(steps, ahead, n - 1, h);
    } else {
      m := n - 1;
    }
  }

  lemma {:induction false} HoldsTexts(steps: seq<Step>, ahead: nat, m: nat, n: nat, h: nat)
    requires IsRun(INITIAL, steps, ahead) && m < n <= |steps| && steps[m] == ReadTexts(h)
               && h < |At(steps, ahead, m).handlers|
    ensures h < |At(steps, ahead, n).handlers|
    ensures At(steps, ahead, n).handlers[h].stage.Filled?
            || At(steps, ahead, n).handlers[h].stage
                 == WithTexts(StoredOf(At(steps, ahead, m), At(steps, ahead, m).handlers[h].event.job))
    decreases n
  {
    RunNext(steps, ahead, n - 1);
    if m < n - 1 {
      HoldsTexts(steps, ahead, m, n - 1, h);
      StageAdvances(At(steps, ahead, n - 1), steps[n - 1], ahead, h);
    }
  }

  lemma {:induction false} WasStored(steps: seq<Step>, ahead: nat, n: nat, h: nat) returns (i: nat)
    requires IsRun(INITIAL, steps, ahead) && n <= |steps| && h < |At(steps, ahead, n).handlers|
    requires !At(steps, ahead, n).handlers[h].stage.Gated?
    ensures i < n && steps[i] == Store(h)
    decreases n
  {
    RunNext(steps, ahead, n - 1);
    var s := At(steps, ahead, n - 1);
    if h >= |s.handlers| {
      NewHandler(s, steps[n - 1], ahead, h);
    }
    StageAdvances(s, steps[n - 1], ahead, h);
    if s.handlers[h].stage.Gated? {
      i := n - 1;
    } else {
      i := WasStored(steps, ahead, n - 1, h);
    }
  }

  lemma {:induction false} StaysStored(steps: seq<Step>, ahead: nat, i: nat, n: nat, h: nat)
    requires IsRun(INITIAL, steps, ahead) && i < n <= |steps| && steps[i] == Store(h)
    ensures h < |At(steps, ahead, n).handlers| && !At(steps, ahead, n).handlers[h].stage.Gated?
    decreases n
  {
    RunNext(steps, ahead, n - 1);
    if i < n - 1 {
      StaysStored(steps, ahead, i, n - 1, h);
    }
    StageAdvances(At(steps, ahead, n - 1), steps[n - 1], ahead, h);
  }

  /**
   * The first fill, at `l` by `h`, is with texts read at `m`, after `ending`, the last event's handler, stored its
   * artifacts at `i`.
   */
  ghost predicate FilledAfterStore(steps: seq<Step>, ahead: nat, job: JobId, ending: nat, i: nat, m: nat, l: nat,
                                   h: nat)
    requires IsRun(INITIAL, steps, ahead)
  {
    i < m < l < |steps| && steps[i] == Store(ending) && steps[m] == ReadTexts(h) && FirstFill(steps, ahead, job, l, h)
  }

  /**
   * Once a finished job's section is filled it shows the artifacts of the job's last event if and only if the first
   * handler to fill it read them after the last event's handler had stored them; otherwise it never shows any.
   */
  lemma {:induction false} ShowsResultsIff(steps: seq<Step>, ahead: nat, job: JobId, ending: nat)
    requires IsRun(INITIAL, steps, ahead) && EndsCarryArtifacts(steps)
    requires var s := After(INITIAL, steps, ahead);
             job in s.shown && Completing(s, ending, job) && s.handlers[ending].event.artifacts != []
    ensures var s := After(INITIAL, steps, ahead);
            && (s.shown[job] == [s.handlers[ending].event.artifacts] <==>
                  exists i, m, l, h :: FilledAfterStore(steps, ahead, job, ending, i, m, l, h))
            && (s.shown[job] == [s.handlers[ending].event.artifacts] || s.shown[job] == [])
  {
    EndAt(INITIAL, steps, ahead);
    var s := After(INITIAL, steps, ahead);
    var l, h := WasShown(steps, ahead, |steps|, job);
    var m := WasWithTexts(steps, ahead, l, h);
    var there := TextsThere(steps, ahead, m, job, ending);
    if there {
      var i := WasStored(steps, ahead, m, ending);
      assert FilledAfterStore(steps, ahead, job, ending, i, m, l, h);
    }
    if i, m', l', h' :| FilledAfterStore(steps, ahead, job, ending, i, m', l', h') {
      FilledThenShown(steps, ahead, job, ending, i, m', l', h');
    }
  }

  /** What is stored of an ended job at step `m` is its last event's artifacts, if their handler has stored them. */
  lemma {:induction false} TextsThere(steps: seq<Step>, ahead: nat, m: nat, job: JobId,
                                      ending: nat) returns (there: bool)
    requires IsRun(INITIAL, steps, ahead) && EndsCarryArtifacts(steps) && m <= |steps|
    requires var s := At(steps, ahead, |steps|); Completing(s, ending, job) && s.handlers[ending].event.artifacts != []
    ensures there <==> ending < |At(steps, ahead, m).handlers| && !At(steps, ahead, m).handlers[ending].stage.Gated?
    ensures StoredOf(At(steps, ahead, m), job) == if there
              then [At(steps, ahead, |steps|).handlers[ending].event.artifacts] else []
  {
    var s := At(steps, ahead, m);
    RunInv(steps, ahead, m);
    RunInv(steps, ahead, |steps|);
    RunArtifacts(steps, ahead, m);
    there := ending < |s.handlers| && !s.handlers[ending].stage.Gated?;
    if ending < |s.handlers| {
      HandlersStay(steps, ahead, m, |steps|, ending);
      assert Accounts(s, s.handlers[ending]);
    }
    if Ended(s, job) {
      var h: nat :| Completing(s, h, job);
      HandlersStay(steps, ahead, m, |steps|, h);
      assert StoresOwn(s, s.handlers[h]);
    }
  }

  lemma {:induction false} FilledThenShown(steps: seq<Step>, ahead: nat, job: JobId, ending: nat, i: nat, m: nat,
                                           l: nat, h: nat)
    requires IsRun(INITIAL, steps, ahead) && EndsCarryArtifacts(steps)
    requires var s := At(steps, ahead, |steps|); Completing(s, ending, job) && s.handlers[ending].event.artifacts != []
    requires FilledAfterStore(steps, ahead, job, ending, i, m, l, h)
    ensures var s := At(steps, ahead, |steps|); job in s.shown && s.shown[job] == [s.handlers[ending].event.artifacts]
  {
    RunNext(steps, ahead, m);
    StaysStored(steps, ahead, i, m, ending);
    var there := TextsThere(steps, ahead, m, job, ending);
    HandlersStay(steps, ahead, m, l, h);
    HoldsTexts(steps, ahead, m, l, h);
    RunNext(steps, ahead, l);
    KeepsShowing(steps, ahead, l + 1, |steps|, job);
  }

  // ---- where the claims stop -------------------------------------------------------------------

  /** A job a worker has taken and nothing has been heard of yet. */
  ghost predicate Running(s: State, job: JobId) {
    && job in s.rows && s.rows[job].status.Queued? && job in s.taken && job !in s.shown
    && s.handlers == [] && s.stored == map[]
    && s.completions == multiset{} && s.ownFills == multiset{} && s.lateFills == multiset{}
  }

  /** A job is created, submitted, chosen, pushed and taken. */
  function Starting(): seq<Step> {
    [Create(1, "s", 0), Submit(1, "q")] + [Begin, Choose("q", [Job(1, "s", 0)], {}, map[])] + [Push, Take("q")]
  }

  lemma {:induction false} RunningIsReached(ahead: nat)
    requires ahead > 0
    ensures IsRun(INITIAL, Starting(), ahead) && Running(After(INITIAL, Starting(), ahead), 1)
  {
    var created := Next(Next(INITIAL, Create(1, "s", 0), ahead), Submit(1, "q"), ahead);
    TwoSteps(INITIAL, Create(1, "s", 0), Submit(1, "q"), ahead);
    assert created.rows == map[1 := Row("s", 0, Some("q"), Queued, None)];
    var begun := Next(created, Begin, ahead);
    OneIsChosen(begun, ahead);
    TwoSteps(created, Begin, Choose("q", [Job(1, "s", 0)], {}, map[]), ahead);
    var chosen := Next(begun, Choose("q", [Job(1, "s", 0)], {}, map[]), ahead);
    PushedAndTaken(chosen, ahead);
    RunOn(INITIAL, [Create(1, "s", 0), Submit(1, "q")], [Begin, Choose("q", [Job(1, "s", 0)], {}, map[])], ahead);
    RunOn(INITIAL, [Create(1, "s", 0), Submit(1, "q")] + [Begin, Choose("q", [Job(1, "s", 0)], {}, map[])],
          [Push, Take("q")], ahead);
  }

  lemma {:induction false} OneIsChosen(s: State, ahead: nat)
    requires ahead > 0 && s.rows == map[1 := Row("s", 0, Some("q"), Queued, None)] && s.broker == map[]
    requires s.dispatch == Some(Dispatch(map[], "", [], false))
    ensures var step := Choose("q", [Job(1, "s", 0)], {}, map[]);
            && Enabled(s, step, ahead)
            && Next(s, step, ahead) == s.(dispatch := Some(Dispatch(map[], "q", [1], false)))
  {
    var job := Job(1, "s", 0);
    assert CandidateIds(s, "q", {}) == {1};
    assert Candidates(s, "q", {}) == {AsJob(s, 1)} && AsJob(s, 1) == job;
    assert OldestOf({job}, Candidates(s, "q", {}));
    assert IsFairOrder([job], {job}, InFlightOf(s, "q"), map[]);
    assert Ids([job]) == [1];
  }

  lemma {:induction false} PushedAndTaken(s: State, ahead: nat)
    requires s.rows == map[1 := Row("s", 0, Some("q"), Queued, None)] && s.broker == map[]
    requires s.dispatch == Some(Dispatch(map[], "q", [1], false))
    requires s == INITIAL.(rows := s.rows, dispatch := s.dispatch)
    ensures IsRun(s, [Push, Take("q")], ahead) && Running(After(s, [Push, Take("q")], ahead), 1)
  {
    var t := Next(s, Push, ahead);
    assert On(t.broker, "q") == [] + [1] == [1];
    TwoSteps(s, Push, Take("q"), ahead);
  }

  lemma {:induction false} TwoSteps(s: State, a: Step, b: Step, ahead: nat)
    requires Enabled(s, a, ahead) && Enabled(Next(s, a, ahead), b, ahead)
    ensures IsRun(s, [a, b], ahead) && After(s, [a, b], ahead) == Next(Next(s, a, ahead), b, ahead)
  {
    OneStep(Next(s, a, ahead), b, [], ahead);
    assert [b] + [] == [b];
    OneStep(s, a, [b], ahead);
    assert [a] + [b] == [a, b];
  }

  lemma {:induction false} FourSteps(s: State, a: Step, b: Step, c: Step, d: Step, ahead: nat)
    requires Enabled(s, a, ahead) && Enabled(Next(s, a, ahead), b, ahead)
    requires var s2 := Next(Next(s, a, ahead), b, ahead); Enabled(s2, c, ahead) && Enabled(Next(s2, c, ahead), d, ahead)
    ensures IsRun(s, [a, b, c, d], ahead)
    ensures After(s, [a, b, c, d], ahead) == Next(Next(Next(Next(s, a, ahead), b, ahead), c, ahead), d, ahead)
  {
    TwoSteps(s, a, b, ahead);
    TwoSteps(Next(Next(s, a, ahead), b, ahead), c, d, ahead);
    RunOn(s, [a, b], [c, d], ahead);
    assert [a, b] + [c, d] == [a, b, c, d];
  }

  lemma {:induction false} OneStep(s: State, a: Step, rest: seq<Step>, ahead: nat)
    requires Enabled(s, a, ahead) && IsRun(Next(s, a, ahead), rest, ahead)
    ensures IsRun(s, [a] + rest, ahead) && After(s, [a] + rest, ahead) == After(Next(s, a, ahead), rest, ahead)
  {
    assert ([a] + rest)[1..] == rest;
  }

  lemma {:induction false} RunOn(s: State, xs: seq<Step>, ys: seq<Step>, ahead: nat)
    requires IsRun(s, xs, ahead) && IsRun(After(s, xs, ahead), ys, ahead)
    ensures IsRun(s, xs + ys, ahead) && After(s, xs + ys, ahead) == After(After(s, xs, ahead), ys, ahead)
    decreases xs
  {
    if xs == [] {
      assert xs + ys == ys;
    } else {
      TailOfAppend(xs, ys);
      RunOn(Next(s, xs[0], ahead), xs[1..], ys, ahead);
    }
  }


  const NO_NEWS := News("", "", 0.0, None, None, None, 0)

  function Update(job: JobId): JobEvent { JobEvent(job, Processing, [], NO_NEWS) }
  function Ending(job: JobId): JobEvent { JobEvent(job, Done, ["notes"], NO_NEWS) }

  /** An update passes the gate, the job's last event overtakes it, and only then is the job read back. */
  function Overtaking(job: JobId): seq<Step> { [Gate(Update(job)), Gate(Ending(job)), Store(0), Read(0)] }
  /** It fills the notes while the artifacts of the last event are still to be stored. */
  function FillingEarly(): seq<Step> { [Publish(0), ReadTexts(0), Fill(0), Store(1)] }
  function Finishing(): seq<Step> { [Read(1), Publish(1), ReadTexts(1), Fill(1)] }
  function Losing(job: JobId): seq<Step> { Overtaking(job) + FillingEarly() + Finishing() }

  /**
   * Two fills, and no results. The overtaken handler of an update finds the job done and fills its notes with what is
   * stored, which is nothing yet; the last event's own handler then has the artifacts, but finds the section done.
   */
  lemma {:induction false} ResultsAreLost(s: State, job: JobId, ahead: nat)
    requires Running(s, job)
    ensures IsRun(s, Losing(job), ahead)
    ensures var t := After(s, Losing(job), ahead);
            && t.ownFills[job] == 1 && t.lateFills[job] == 1
            && StoredOf(t, job) == [Ending(job).artifacts] && job in t.shown && t.shown[job] == []
  {
    var t := Overtakes(s, job, ahead);
    var u := FillsEarly(t, job, ahead);
    Finishes(u, job, ahead);
    RunOn(s, Overtaking(job), FillingEarly(), ahead);
    RunOn(s, Overtaking(job) + FillingEarly(), Finishing(), ahead);
  }

  /** The very run from nothing. */
  lemma {:induction false} OvertakenHandlerFillsToo(ahead: nat)
    requires ahead > 0
    ensures IsRun(INITIAL, Starting() + Losing(1), ahead)
    ensures var t := After(INITIAL, Starting() + Losing(1), ahead);
            && t.ownFills[1] == 1 && t.lateFills[1] == 1
            && StoredOf(t, 1) == [Ending(1).artifacts] && 1 in t.shown && t.shown[1] == []
  {
    RunningIsReached(ahead);
    ResultsAreLost(After(INITIAL, Starting(), ahead), 1, ahead);
    RunOn(INITIAL, Starting(), Losing(1), ahead);
  }

  lemma {:induction false} Overtakes(s: State, job: JobId, ahead: nat) returns (t: State)
    requires Running(s, job)
    ensures IsRun(s, Overtaking(job), ahead) && t == After(s, Overtaking(job), ahead)
    ensures job in t.rows && t.rows[job].status.Done? && job !in t.shown && t.stored == map[]
    ensures t.ownFills == multiset{} && t.lateFills == multiset{}
    ensures t.handlers == [Handler(Update(job), ReadBack(Done), false), Handler(Ending(job), Gated, false)]
  {
    var s2 := BothGated(s, job, ahead);
    var s3 := Next(s2, Store(0), ahead);
    assert s3.handlers == [Handler(Update(job), Stored, false), Handler(Ending(job), Gated, false)];
    t := Next(s3, Read(0), ahead);
    FourSteps(s, Gate(Update(job)), Gate(Ending(job)), Store(0), Read(0), ahead);
  }

  lemma {:induction false} BothGated(s: State, job: JobId, ahead: nat) returns (t: State)
    requires Running(s, job)
    ensures Enabled(s, Gate(Update(job)), ahead) && Enabled(Next(s, Gate(Update(job)), ahead), Gate(Ending(job)), ahead)
    ensures t == Next(Next(s, Gate(Update(job)), ahead), Gate(Ending(job)), ahead)
    ensures job in t.rows && t.rows[job].status.Done? && job !in t.shown && t.stored == map[]
    ensures t.ownFills == multiset{} && t.lateFills == multiset{}
    ensures t.handlers == [Handler(Update(job), Gated, false), Handler(Ending(job), Gated, false)]
  {
    t := Next(Next(s, Gate(Update(job)), ahead), Gate(Ending(job)), ahead);
  }

  lemma {:induction false} FillsEarly(s: State, job: JobId, ahead: nat) returns (t: State)
    requires job in s.rows && s.rows[job].status.Done? && job !in s.shown && s.stored == map[]
    requires s.ownFills == multiset{} && s.lateFills == multiset{}
    requires s.handlers == [Handler(Update(job), ReadBack(Done), false), Handler(Ending(job), Gated, false)]
    ensures IsRun(s, FillingEarly(), ahead) && t == After(s, FillingEarly(), ahead)
    ensures job in t.rows && t.rows[job].status.Done? && job in t.shown && t.shown[job] == []
    ensures StoredOf(t, job) == [Ending(job).artifacts] && t.ownFills == multiset{} && t.lateFills == multiset{job}
    ensures t.handlers == [Handler(Update(job), Filled, false), Handler(Ending(job), Stored, false)]
  {
    var u := ReadsNothing(s, job, ahead);
    t := FillsNothing(u, job, ahead);
    FourSteps(s, Publish(0), ReadTexts(0), Fill(0), Store(1), ahead);
  }

  lemma {:induction false} FillsNothing(s: State, job: JobId, ahead: nat) returns (t: State)
    requires job !in s.shown && s.stored == map[] && s.ownFills == multiset{} && s.lateFills == multiset{}
    requires s.handlers == [Handler(Update(job), WithTexts([]), false), Handler(Ending(job), Gated, false)]
    ensures Enabled(s, Fill(0), ahead) && Enabled(Next(s, Fill(0), ahead), Store(1), ahead)
    ensures t == Next(Next(s, Fill(0), ahead), Store(1), ahead)
    ensures t.rows == s.rows && job in t.shown && t.shown[job] == []
    ensures StoredOf(t, job) == [Ending(job).artifacts] && t.ownFills == multiset{} && t.lateFills == multiset{job}
    ensures t.handlers == [Handler(Update(job), Filled, false), Handler(Ending(job), Stored, false)]
  {
    var u := Next(s, Fill(0), ahead);
    assert u.handlers == [Handler(Update(job), Filled, false), Handler(Ending(job), Gated, false)];
    t := Next(u, Store(1), ahead);
  }

  lemma {:induction false} ReadsNothing(s: State, job: JobId, ahead: nat) returns (t: State)
    requires s.stored == map[]
    requires s.handlers == [Handler(Update(job), ReadBack(Done), false), Handler(Ending(job), Gated, false)]
    ensures Enabled(s, Publish(0), ahead) && Enabled(Next(s, Publish(0), ahead), ReadTexts(0), ahead)
    ensures t == Next(Next(s, Publish(0), ahead), ReadTexts(0), ahead)
    ensures t == s.(handlers := [Handler(Update(job), WithTexts([]), false), Handler(Ending(job), Gated, false)])
  {
    var s1 := Next(s, Publish(0), ahead);
    assert s1 == s.(handlers := [Handler(Update(job), Published(Done), false), Handler(Ending(job), Gated, false)]);
    t := Next(s1, ReadTexts(0), ahead);
  }

  lemma {:induction false} Finishes(s: State, job: JobId, ahead: nat)
    requires job in s.rows && s.rows[job].status.Done? && job in s.shown && s.shown[job] == []
    requires StoredOf(s, job) == [Ending(job).artifacts] && s.ownFills == multiset{} && s.lateFills == multiset{job}
    requires s.handlers == [Handler(Update(job), Filled, false), Handler(Ending(job), Stored, false)]
    ensures IsRun(s, Finishing(), ahead)
    ensures var t := After(s, Finishing(), ahead);
            && t.ownFills[job] == 1 && t.lateFills[job] == 1
            && StoredOf(t, job) == [Ending(job).artifacts] && job in t.shown && t.shown[job] == []
  {
    var u := ReadsResults(s, job, ahead);
    FourSteps(s, Read(1), Publish(1), ReadTexts(1), Fill(1), ahead);
  }

  lemma {:induction false} ReadsResults(s: State, job: JobId, ahead: nat) returns (t: State)
    requires job in s.rows && s.rows[job].status.Done? && StoredOf(s, job) == [Ending(job).artifacts]
    requires s.handlers == [Handler(Update(job), Filled, false), Handler(Ending(job), Stored, false)]
    ensures Enabled(s, Read(1), ahead) && Enabled(Next(s, Read(1), ahead), Publish(1), ahead)
    ensures var u := Next(Next(s, Read(1), ahead), Publish(1), ahead);
            Enabled(u, ReadTexts(1), ahead) && t == Next(u, ReadTexts(1), ahead)
    ensures t.shown == s.shown && t.stored == s.stored && t.ownFills == s.ownFills && t.lateFills == s.lateFills
    ensures t.handlers == [Handler(Update(job), Filled, false),
                           Handler(Ending(job), WithTexts([Ending(job).artifacts]), false)]
  {
    var s1 := Next(s, Read(1), ahead);
    assert s1.handlers == [Handler(Update(job), Filled, false), Handler(Ending(job), ReadBack(Done), false)];
    var s2 := Next(s1, Publish(1), ahead);
    assert s2.handlers == [Handler(Update(job), Filled, false), Handler(Ending(job), Published(Done), false)];
    t := Next(s2, ReadTexts(1), ahead);
  }

  function Draft(job: JobId): JobEvent { JobEvent(job, Processing, ["draft"], NO_NEWS) }

  /** Artifacts sent with an update, delivered twice, each handler stopping once they are stored. */
  function Redelivered(job: JobId): seq<Step> { [Gate(Draft(job)), Store(0)] + [Gate(Draft(job)), Store(1)] }

  /** Artifacts sent with an update are stored again when the update is repeated. */
  lemma {:induction false} EarlyArtifactsRepeat(ahead: nat)
    requires ahead > 0
    ensures IsRun(INITIAL, Starting() + Redelivered(1), ahead)
    ensures StoredOf(After(INITIAL, Starting() + Redelivered(1), ahead), 1) == [Draft(1).artifacts, Draft(1).artifacts]
  {
    RunningIsReached(ahead);
    var s := After(INITIAL, Starting(), ahead);
    var t := DraftStored(s, 1, [], ahead);
    var u := DraftStored(t, 1, [Handler(Draft(1), Stored, false)], ahead);
    RunOn(s, [Gate(Draft(1)), Store(0)], [Gate(Draft(1)), Store(1)], ahead);
    RunOn(INITIAL, Starting(), Redelivered(1), ahead);
  }

  lemma {:induction false} DraftStored(s: State, job: JobId, before: seq<Handler>, ahead: nat) returns (t: State)
    requires job in s.rows && !Terminal(s.rows[job].status) && job in s.taken && s.handlers == before
    ensures IsRun(s, [Gate(Draft(job)), Store(|before|)], ahead)
    ensures t == After(s, [Gate(Draft(job)), Store(|before|)], ahead)
    ensures StoredOf(t, job) == StoredOf(s, job) + [Draft(job).artifacts]
    ensures job in t.rows && !Terminal(t.rows[job].status) && job in t.taken
    ensures t.handlers == before + [Handler(Draft(job), Stored, false)]
  {
    var s1 := Next(s, Gate(Draft(job)), ahead);
    t := Next(s1, Store(|before|), ahead);
    TwoSteps(s, Gate(Draft(job)), Store(|before|), ahead);
  }
}
