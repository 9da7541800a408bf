/**
 * Where a job stands, its run, status and progress, under any events at all (`isStale` and the job cases of
 * client/src/state/roomReducer.ts): what an event leaves depends on nothing else of the job.
 */
module JobStanding {
  import opened Jobs
  import opened Options
  import opened Sequences
  import opened RoomReducer
  import opened JobReplay
  import opened EntryReplay

  /** A finished job's progress no longer counts. */
  datatype Standing = Standing(id: string, status: Status, progress: real)

  function StandingOf(job: EnhancementJob): Standing {
    Standing(job.id, job.status, if Terminal(job.status) then 0.0 else job.progress)
  }

  /** Where an event says that the job of item `x` stands. */
  function Mark(event: ServerEvent, x: string): Option<Standing> {
    if NewJob(event, x) then Some(StandingOf(event.job.value))
    else if !ForJob(event, x) then None
    else if event.JobStatusUpdate? then Some(Standing(event.jobId, event.running, Clamp01(event.reported)))
    else Some(Standing(event.jobId, event.outcome, 0.0))
  }

  /** Further along than `b`, in the same run. */
  predicate Further(a: Standing, b: Standing) {
    a.id == b.id && (Terminal(a.status) || Stage(b.status) < Stage(a.status)
                     || (Stage(b.status) == Stage(a.status) && b.progress < a.progress))
  }

  function StandStep(st: Standing, event: ServerEvent, x: string): Standing {
    match Mark(event, x)
    case None => st
    case Some(mark) => if event.JobStatusUpdate? && Further(st, mark) then st else mark
  }

  function StandRun(st: Standing, events: seq<ServerEvent>, x: string): Standing
    decreases events
  {
    if events == [] then st else StandRun(StandStep(st, events[0], x), events[1..], x)
  }

  lemma {:induction false} StandingFollows(job: EnhancementJob, events: seq<ServerEvent>, x: string)
    ensures JobOptRun(Some(job), events, x).Some?
    ensures StandingOf(JobOptRun(Some(job), events, x).value) == StandRun(StandingOf(job), events, x)
    decreases events
  {
    if events != [] {
      StandingFollows(JobOptStep(Some(job), events[0], x).value, events[1..], x);
    }
  }

  /** The event is not stale for a job that stands at `st`. */
  predicate Takes(st: Standing, event: ServerEvent, x: string) {
    Mark(event, x).Some? && !(event.JobStatusUpdate? && Further(st, Mark(event, x).value))
  }

  /** One of the events is not stale for a job that stands at `st`. */
  predicate TakenIn(st: Standing, events: seq<ServerEvent>, x: string) {
    exists i :: 0 <= i < |events| && Takes(st, events[i], x)
  }

  /** The last mark among the events. */
  function LastMark(events: seq<ServerEvent>, x: string): Option<Standing>
    decreases events
  {
    if events == [] then None
    else if LastMark(events[1..], x).Some? then LastMark(events[1..], x)
    else Mark(events[0], x)
  }

  lemma {:induction false} LastMarkIs(events: seq<ServerEvent>, x: string) returns (p: nat)
    requires LastMark(events, x).Some?
    ensures p < |events| && Mark(events[p], x) == LastMark(events, x)
    ensures forall i | p < i < |events| :: Mark(events[i], x).None?
    decreases events
  {
    if LastMark(events[1..], x).Some? {
      p := LastMarkIs(events[1..], x);
      forall i | p + 1 < i < |events| ensures Mark(events[i], x).None? {
        assert events[i] == events[1..][i - 1];
      }
      p := p + 1;
    } else {
      forall i | 0 < i < |events| ensures Mark(events[i], x).None? {
        NoLastMark(events[1..], x);
        assert events[i] == events[1..][i - 1];
      }
      p := 0;
    }
  }

  lemma {:induction false} NoLastMark(events: seq<ServerEvent>, x: string)
    ensures LastMark(events, x).None? <==> forall i | 0 <= i < |events| :: Mark(events[i], x).None?
    decreases events
  {
    if events != [] {
      NoLastMark(events[1..], x);
      forall i | 0 <= i < |events[1..]| ensures events[1..][i] == events[i + 1] {}
      if LastMark(events, x).None? {
        forall i | 0 <= i < |events| ensures Mark(events[i], x).None? {
          assert i > 0 ==> events[i] == events[1..][i - 1];
        }
      }
    }
  }

  /** The event may follow a job that stands at `a`: of the same run it is no retry, and nothing older. */
  predicate Comes(a: Standing, event: ServerEvent, x: string) {
    Mark(event, x).Some? && Mark(event, x).value.id == a.id ==>
      !NewJob(event, x) && !Terminal(a.status) && (event.JobStatusUpdate? ==> !Further(a, Mark(event, x).value))
  }

  /** The marks come in the order in which a room announces them. */
  predicate InOrder(events: seq<ServerEvent>, x: string) {
    forall i, j | 0 <= i < j < |events| && Mark(events[i], x).Some? :: Comes(Mark(events[i], x).value, events[j], x)
  }

  /** A job behind all of the events follows them to the last. */
  lemma {:induction false} Behind(st: Standing, events: seq<ServerEvent>, x: string)
    requires InOrder(events, x) && forall i | 0 <= i < |events| :: Comes(st, events[i], x)
    ensures StandRun(st, events, x) == if LastMark(events, x).Some? then LastMark(events, x).value else st
    decreases events
  {
    if events != [] {
      var rest := events[1..];
      forall i | 0 <= i < |rest| ensures Comes(StandStep(st, events[0], x), rest[i], x) {
        assert events[i + 1] == rest[i];
      }
      RestInOrder(events, x);
      Behind(StandStep(st, events[0], x), rest, x);
    }
  }

  lemma {:induction false} RestInOrder(events: seq<ServerEvent>, x: string)
    requires events != [] && InOrder(events, x)
    ensures InOrder(events[1..], x)
  {
    var rest := events[1..];
    forall i, j | 0 <= i < j < |rest| && Mark(rest[i], x).Some? ensures Comes(Mark(rest[i], x).value, rest[j], x) {
      assert events[i + 1] == rest[i] && events[j + 1] == rest[j];
    }
  }

  /**
   * A job that stands at one of the events follows them to the last too: those before it are old to it, or switch its
   * run.
   */
  lemma {:induction false} Within(events: seq<ServerEvent>, x: string, p: nat)
    requires InOrder(events, x) && p < |events| && Mark(events[p], x).Some?
    ensures LastMark(events, x) == Some(StandRun(Mark(events[p], x).value, events, x))
    decreases events
  {
    var st, rest := Mark(events[p], x).value, events[1..];
    NoLastMark(events, x);
    NoLastMark(rest, x);
    RestInOrder(events, x);
    var next := StandStep(st, events[0], x);
    if p == 0 {
      assert next == st;
    }
    if p > 0 && next == st {
      assert rest[p - 1] == events[p];
      Within(rest, x, p - 1);
    } else {
      assert Mark(events[0], x) == Some(next) by {
        assert p > 0 ==> Mark(events[0], x).Some?;
      }
      forall i | 0 <= i < |rest| ensures Comes(next, rest[i], x) {
        assert events[i + 1] == rest[i];
      }
      Behind(next, rest, x);
    }
  }

  // ---- what a room announces comes in order ----------------------------------------------------

  /** A retry is announced before anything else of its job. */
  ghost predicate RetriesFirst(h: seq<ServerEvent>, x: string) {
    forall i, j | 0 <= i < j < |h| && NewJob(h[j], x) && HasJobId(h[i], x) :: JobIdOf(h[i], x) != h[j].job.value.id
  }

  predicate HasJobId(event: ServerEvent, x: string) {
    Mark(event, x).Some? || (event.MediaUploaded? && event.mediaItem.id == x)
  }

  function JobIdOf(event: ServerEvent, x: string): string
    requires HasJobId(event, x)
  {
    if Mark(event, x).Some? then Mark(event, x).value.id else event.newJob.id
  }

  lemma {:induction false} RetriesFirstLater(h: seq<ServerEvent>, x: string)
    requires h != [] && RetriesFirst(h, x)
    ensures RetriesFirst(h[1..], x)
  {
    var rest := h[1..];
    forall i, j | 0 <= i < j < |rest| && NewJob(rest[j], x) && HasJobId(rest[i], x)
      ensures JobIdOf(rest[i], x) != rest[j].job.value.id {
      assert h[i + 1] == rest[i] && h[j + 1] == rest[j];
    }
  }

  /** Nothing announced from here on is of a run replaced, and all of it may follow the job. */
  lemma {:induction false} AnnouncedInOrder(entry: Entry, retired: set<string>, events: seq<ServerEvent>, x: string)
    requires Orderly(Here(entry, retired), events, x) && entry.job.Some? && RetriesFirst(events, x)
    requires forall i | 0 <= i < |events| :: !Deletes(events[i], x)
    requires forall i | 0 <= i < |events| && NewJob(events[i], x) :: events[i].job.value.id != entry.job.value.id
    ensures InOrder(events, x)
    ensures forall i | 0 <= i < |events| :: Comes(StandingOf(entry.job.value), events[i], x)
    ensures forall i | 0 <= i < |events| && Mark(events[i], x).Some? :: Mark(events[i], x).value.id !in retired
    decreases events
  {
    if events != [] {
      var event, rest := events[0], events[1..];
      assert !Deletes(event, x);
      var next := LifeStep(Here(entry, retired), event, x);
      NextJob(entry, retired, event, x);
      RetriesFirstLater(events, x);
      forall i | 0 <= i < |rest| && NewJob(rest[i], x) ensures rest[i].job.value.id != next.entry.job.value.id {
        assert events[i + 1] == rest[i];
        assert next.entry.job == entry.job || HasJobId(events[0], x);
      }
      AnnouncedInOrder(next.entry, next.retired, rest, x);
      var st := StandingOf(entry.job.value);
      forall i | 0 < i < |events| ensures Comes(st, events[i], x) {
        assert events[i] == rest[i - 1];
        ComesLater(entry, retired, event, events[i], x);
      }
      forall i, j | 0 <= i < j < |events| && Mark(events[i], x).Some?
        ensures Comes(Mark(events[i], x).value, events[j], x) {
        assert events[j] == rest[j - 1];
        assert i > 0 ==> events[i] == rest[i - 1];
      }
      forall i | 0 <= i < |events| && Mark(events[i], x).Some? ensures Mark(events[i], x).value.id !in retired {
        assert i > 0 ==> events[i] == rest[i - 1];
      }
    }
  }

  /** One step of an item that is there: its job moves to the mark, and an older run is retired. */
  lemma {:induction false} NextJob(entry: Entry, retired: set<string>, event: ServerEvent, x: string)
    requires Legal(Here(entry, retired), event, x) && entry.job.Some? && !Deletes(event, x)
    requires NewJob(event, x) ==> event.job.value.id != entry.job.value.id
    ensures var next, mark := LifeStep(Here(entry, retired), event, x), Mark(event, x);
            && next.Here? && next.entry.job.Some? && retired <= next.retired
            && (mark.None? ==> next.entry.job == entry.job)
            && (mark.Some? ==>
                  && StandingOf(next.entry.job.value) == mark.value && mark.value.id !in retired
                  && next.entry.job.value.id == mark.value.id
                  && (mark.value.id != entry.job.value.id ==> entry.job.value.id in next.retired))
    ensures Comes(StandingOf(entry.job.value), event, x)
  {
  }

  /** What may follow the job after `event` may follow it before. */
  lemma {:induction false} ComesLater(entry: Entry, retired: set<string>, event: ServerEvent, later: ServerEvent,
                                      x: string)
    requires Legal(Here(entry, retired), event, x) && entry.job.Some? && !Deletes(event, x)
    requires NewJob(event, x) ==> event.job.value.id != entry.job.value.id
    requires var next := LifeStep(Here(entry, retired), event, x);
             && next.Here? && next.entry.job.Some? && Comes(StandingOf(next.entry.job.value), later, x)
             && (Mark(later, x).Some? ==> Mark(later, x).value.id !in next.retired)
    ensures Comes(StandingOf(entry.job.value), later, x)
  {
    NextJob(entry, retired, event, x);
  }

  /** Of an item that is never deleted, all marks of its history are in order; and each comes after its upload. */
  lemma {:induction false} HistoryInOrder(h: seq<ServerEvent>, x: string)
    requires Orderly(NotYet, h, x) && RetriesFirst(h, x) && forall i | 0 <= i < |h| :: !Deletes(h[i], x)
    ensures InOrder(h, x)
    decreases h
  {
    if h != [] {
      var rest := h[1..];
      assert !Deletes(h[0], x);
      RetriesFirstLater(h, x);
      if About(h[0], x) {
        FromUpload(h, x);
      } else {
        HistoryInOrder(rest, x);
      }
      forall i, j | 0 <= i < j < |h| && Mark(h[i], x).Some? ensures Comes(Mark(h[i], x).value, h[j], x) {
        assert h[i] == rest[i - 1] && h[j] == rest[j - 1];
      }
    }
  }

  lemma {:induction false} FromUpload(h: seq<ServerEvent>, x: string)
    requires h != [] && Orderly(NotYet, h, x) && About(h[0], x) && RetriesFirst(h, x)
    requires forall i | 0 <= i < |h| :: !Deletes(h[i], x)
    ensures h[0].MediaUploaded? && InOrder(h[1..], x)
    ensures forall i | 0 < i < |h| :: Comes(StandingOf(h[0].newJob), h[i], x)
  {
    var entry, rest := Entry(h[0].mediaItem, Some(h[0].newJob)), h[1..];
    RetriesFirstLater(h, x);
    forall i | 0 <= i < |rest| ensures !Deletes(rest[i], x) {
      assert h[i + 1] == rest[i];
    }
    forall i | 0 <= i < |rest| && NewJob(rest[i], x) ensures rest[i].job.value.id != entry.job.value.id {
      assert h[i + 1] == rest[i] && HasJobId(h[0], x);
    }
    AnnouncedInOrder(entry, {}, rest, x);
    forall i | 0 < i < |h| ensures Comes(StandingOf(h[0].newJob), h[i], x) {
      assert h[i] == rest[i - 1];
    }
  }

  /**
   * `f` is where the last of the first `k` events has the job stand; or they say nothing, and all later ones may follow
   * `f`.
   */
  predicate StandsAt(h: seq<ServerEvent>, k: nat, x: string, f: Standing)
    requires k <= |h|
  {
    LastMark(h[..k], x) == Some(f)
    || (LastMark(h[..k], x).None? && forall j | k <= j < |h| :: Comes(f, h[j], x))
  }

  lemma {:induction false} JobStandsAt(h: seq<ServerEvent>, k: nat, x: string)
    requires Orderly(NotYet, h, x) && RetriesFirst(h, x) && (forall i | 0 <= i < |h| :: !Deletes(h[i], x)) && k <= |h|
    requires EntryRun(None, h[..k], x).Some?
    ensures EntryRun(None, h[..k], x).value.job.Some?
    ensures StandsAt(h, k, x, StandingOf(EntryRun(None, h[..k], x).value.job.value))
    decreases h
  {
    if k > 0 {
      var rest, first := h[1..], h[..k];
      assert first[0] == h[0] && first[1..] == rest[..k - 1];
      RetriesFirstLater(h, x);
      assert !Deletes(h[0], x);
      if About(h[0], x) {
        FromUpload(h, x);
        forall i | 0 <= i < |rest| ensures Comes(StandingOf(h[0].newJob), rest[i], x) {
          assert rest[i] == h[i + 1];
        }
        UploadedStandsAt(Entry(h[0].mediaItem, Some(h[0].newJob)), rest, k - 1, x);
        forall j | k <= j < |h| ensures h[j] == rest[j - 1] {}
      } else {
        JobStandsAt(rest, k - 1, x);
        forall j | k <= j < |h| ensures h[j] == rest[j - 1] {}
      }
    }
  }

  lemma {:induction false} UploadedStandsAt(entry: Entry, events: seq<ServerEvent>, k: nat, x: string)
    requires InOrder(events, x) && entry.job.Some? && k <= |events|
    requires (forall i | 0 <= i < |events| :: !Deletes(events[i], x))
    requires forall i | 0 <= i < |events| :: Comes(StandingOf(entry.job.value), events[i], x)
    ensures var now := EntryRun(Some(entry), events[..k], x);
            now.Some? && now.value.job.Some? && StandsAt(events, k, x, StandingOf(now.value.job.value))
  {
    RunSplits(entry, events[..k], x);
    StandingFollows(entry.job.value, events[..k], x);
    Behind(StandingOf(entry.job.value), events[..k], x);
  }

  // ---- events from before, on a job that has moved on --------------------------------------------

  /** All that the events say of the job is of run `id`, and none of it starts the run. */
  predicate OnlyUpdatesOf(events: seq<ServerEvent>, x: string, id: string) {
    forall i | 0 <= i < |events| && Mark(events[i], x).Some? :: !NewJob(events[i], x)
             && Mark(events[i], x).value.id == id
  }

  /** Updates of the same run are old to it. */
  predicate OldTo(f: Standing, event: ServerEvent, x: string) {
    Mark(event, x).Some? && Mark(event, x).value.id == f.id && !NewJob(event, x) ==>
      Mark(event, x).value == f || (event.JobStatusUpdate? && Further(f, Mark(event, x).value))
  }

  /**
   * Where events from before leave the job: where it was, if they are all updates of its run; else at the last of them.
   */
  lemma {:induction false} AfterOldEvents(f: Standing, events: seq<ServerEvent>, x: string)
    requires InOrder(events, x) && forall i | 0 <= i < |events| :: OldTo(f, events[i], x)
    ensures OnlyUpdatesOf(events, x, f.id) ==> StandRun(f, events, x) == f
    ensures !OnlyUpdatesOf(events, x, f.id) ==> LastMark(events, x) == Some(StandRun(f, events, x))
    decreases events
  {
    if events != [] {
      var rest := events[1..];
      RestInOrder(events, x);
      forall i | 0 <= i < |rest| ensures rest[i] == events[i + 1] {}
      if Mark(events[0], x).Some? && (NewJob(events[0], x) || Mark(events[0], x).value.id != f.id) {
        Behind(Mark(events[0], x).value, rest, x);
      } else {
        assert StandStep(f, events[0], x) == f;
        OnlyUpdatesLater(events, x, f.id);
        AfterOldEvents(f, rest, x);
      }
    }
  }

  lemma {:induction false} OnlyUpdatesLater(events: seq<ServerEvent>, x: string, id: string)
    requires events != []
    requires Mark(events[0], x).Some? ==> !NewJob(events[0], x) && Mark(events[0], x).value.id == id
    ensures OnlyUpdatesOf(events, x, id) <==> OnlyUpdatesOf(events[1..], x, id)
    ensures !OnlyUpdatesOf(events[1..], x, id) ==> LastMark(events[1..], x).Some?
  {
    var rest := events[1..];
    NoLastMark(rest, x);
    forall i | 0 <= i < |rest| ensures rest[i] == events[i + 1] {}
    if OnlyUpdatesOf(rest, x, id) {
      forall i | 0 <= i < |events| && Mark(events[i], x).Some?
        ensures !NewJob(events[i], x) && Mark(events[i], x).value.id == id {
        assert i > 0 ==> events[i] == rest[i - 1];
      }
    }
  }

  // ---- events that a job follows one by one ------------------------------------------------------

  /** A job that stands at `st` takes every one of the events, in turn. */
  predicate Chained(st: Standing, events: seq<ServerEvent>, x: string)
    decreases events
  {
    events == [] ||
    match Mark(events[0], x)
    case None => Chained(st, events[1..], x)
    case Some(mark) => Takes(st, events[0], x) && Chained(mark, events[1..], x)
  }

  /** And so does any that takes one of them, from there on. */
  predicate Chain(events: seq<ServerEvent>, x: string)
    decreases events
  {
    events == [] ||
    match Mark(events[0], x)
    case None => Chain(events[1..], x)
    case Some(mark) => Chained(mark, events[1..], x)
  }

  lemma {:induction false} ChainedIsChain(st: Standing, events: seq<ServerEvent>, x: string)
    requires Chained(st, events, x)
    ensures Chain(events, x)
    decreases events
  {
    if events != [] && Mark(events[0], x).None? {
      ChainedIsChain(st, events[1..], x);
    }
  }

  /** The message an event puts on the job of `x`, if it is taken. */
  function Put(event: ServerEvent, x: string): Option<Option<string>> {
    if NewJob(event, x) then Some(event.job.value.message)
    else if ForJob(event, x) && event.note.Some? then Some(event.note)
    else None
  }

  function LastPut(events: seq<ServerEvent>, x: string): Option<Option<string>>
    decreases events
  {
    if events == [] then None
    else if LastPut(events[1..], x).Some? then LastPut(events[1..], x)
    else Put(events[0], x)
  }

  /** The last message put from the first event on that a job standing at `st` takes. */
  function PutTaken(st: Standing, events: seq<ServerEvent>, x: string): Option<Option<string>>
    decreases events
  {
    if events == [] then None
    else if Takes(st, events[0], x) then LastPut(events, x)
    else PutTaken(st, events[1..], x)
  }

  function OrElse<T>(one: Option<T>, other: T): T { if one.Some? then one.value else other }

  /** The progress an event puts there, if it is taken: a finished run is all the way, a failed one where it was. */
  function Report(event: ServerEvent, x: string): Option<real> {
    if NewJob(event, x) then Some(event.job.value.progress)
    else if !ForJob(event, x) then None
    else if event.JobStatusUpdate? then Some(Clamp01(event.reported))
    else if event.outcome.Done? then Some(1.0)
    else None
  }

  function LastReport(events: seq<ServerEvent>, x: string): Option<real>
    decreases events
  {
    if events == [] then None
    else if LastReport(events[1..], x).Some? then LastReport(events[1..], x)
    else Report(events[0], x)
  }

  /** The progress put by the last of the events that a job takes and that puts one; the job stands at `st` at first. */
  function ReportTaken(st: Standing, events: seq<ServerEvent>, x: string): Option<real>
    decreases events
  {
    if events == [] then None
    else
      var later := ReportTaken(StandStep(st, events[0], x), events[1..], x);
      if later.Some? then later else if Takes(st, events[0], x) then Report(events[0], x) else None
  }

  /** A job shows the progress that the last event it took put there, whatever events come. */
  lemma {:induction false} ProgressIsLast(job: EnhancementJob, events: seq<ServerEvent>, x: string)
    ensures var after := JobOptRun(Some(job), events, x);
            after.Some? && after.value.progress == OrElse(ReportTaken(StandingOf(job), events, x), job.progress)
    decreases events
  {
    if events != [] {
      ProgressIsLast(JobOptStep(Some(job), events[0], x).value, events[1..], x);
    }
  }

  /**
   * What a completion leaves, after any events: progress 1 if done, and otherwise the progress there was before; until
   * an event is taken, which no update of its own run is.
   */
  lemma {:induction false} CompletionShows(job: EnhancementJob, before: seq<ServerEvent>, last: ServerEvent,
                                           after: seq<ServerEvent>, x: string)
    requires ForJob(last, x) && last.JobComplete?
    requires forall i | 0 <= i < |after| && Mark(after[i], x).Some? ::
               after[i].JobStatusUpdate? && after[i].jobId == last.jobId
    ensures var was, now := JobOptRun(Some(job), before, x), JobOptRun(Some(job), before + [last] + after, x);
            && was.Some? && now.Some?
            && now.value.id == last.jobId && now.value.status == last.outcome
            && now.value.progress == if last.outcome.Done? then 1.0 else was.value.progress
  {
    ProgressIsLast(job, before, x);
    var was := JobOptRun(Some(job), before, x).value;
    JobOptRunAppend(Some(job), before + [last], after, x);
    JobOptRunAppend(Some(job), before, [last], x);
    var done := JobOptStep(Some(was), last, x);
    assert [last][1..] == [] && JobOptRun(Some(was), [last], x) == done;
    NoneTaken(StandingOf(done.value), after, x);
    StandingFollows(done.value, after, x);
    ProgressIsLast(done.value, after, x);
    ProgressIsLast(was, [last], x);
  }

  lemma {:induction false} NoneTaken(st: Standing, events: seq<ServerEvent>, x: string)
    requires Terminal(st.status)
    requires forall i | 0 <= i < |events| && Mark(events[i], x).Some? ::
               events[i].JobStatusUpdate? && events[i].jobId == st.id
    ensures ReportTaken(st, events, x) == None && StandRun(st, events, x) == st
    decreases events
  {
    if events != [] {
      NoneTaken(st, events[1..], x);
    }
  }

  lemma {:induction false} JobOptRunAppend(job: Option<EnhancementJob>, p: seq<ServerEvent>, q: seq<ServerEvent>,
                                           x: string)
    ensures JobOptRun(job, p + q, x) == JobOptRun(JobOptRun(job, p, x), q, x)
    decreases p
  {
    if p == [] {
      assert p + q == q;
    } else {
      TailOfAppend(p, q);
      JobOptRunAppend(JobOptStep(job, p[0], x), p[1..], q, x);
    }
  }

  /** Of events that a job follows one by one, the last report taken is the last report. */
  lemma {:induction false} TakenReportIsLast(st: Standing, events: seq<ServerEvent>, x: string)
    requires Chain(events, x)
    ensures ReportTaken(st, events, x).Some? ==> ReportTaken(st, events, x) == LastReport(events, x)
    ensures Chained(st, events, x) ==> ReportTaken(st, events, x) == LastReport(events, x)
    decreases events
  {
    if events != [] {
      var next := StandStep(st, events[0], x);
      if Mark(events[0], x).Some? {
        ChainedIsChain(Mark(events[0], x).value, events[1..], x);
      }
      TakenReportIsLast(next, events[1..], x);
    }
  }

  /** A job that takes all events ends where the last of them has it, with the last message and progress they put. */
  lemma {:induction false} TakesAll(job: EnhancementJob, events: seq<ServerEvent>, x: string)
    requires Chained(StandingOf(job), events, x)
    ensures var after := JobOptRun(Some(job), events, x);
            && after.Some?
            && StandingOf(after.value) == OrElse(LastMark(events, x), StandingOf(job))
            && after.value.message == OrElse(LastPut(events, x), job.message)
            && after.value.progress == OrElse(LastReport(events, x), job.progress)
    decreases events
  {
    if events != [] {
      var next := JobOptStep(Some(job), events[0], x).value;
      TakesAll(next, events[1..], x);
    }
  }

  /** A job that stands anywhere stays as it is until it takes one of the events, and follows them from there on. */
  lemma {:induction false} TakesSome(job: EnhancementJob, events: seq<ServerEvent>, x: string)
    requires Chain(events, x)
    ensures var after := JobOptRun(Some(job), events, x);
            && after.Some?
            && StandingOf(after.value)
                 == (if TakenIn(StandingOf(job), events, x) then OrElse(LastMark(events, x), StandingOf(job))
                     else StandingOf(job))
            && after.value.message == OrElse(PutTaken(StandingOf(job), events, x), job.message)
    decreases events
  {
    if events != [] {
      var rest, next := events[1..], JobOptStep(Some(job), events[0], x).value;
      forall i | 0 <= i < |rest| ensures rest[i] == events[i + 1] {}
      if Takes(StandingOf(job), events[0], x) {
        TakesAll(next, rest, x);
      } else {
        assert next == job;
        if Mark(events[0], x).Some? {
          ChainedIsChain(Mark(events[0], x).value, rest, x);
        }
        TakesSome(job, rest, x);
        TakenLater(StandingOf(job), events, x);
        MarkStays(events, x, StandingOf(job));
      }
    }
  }

  lemma {:induction false} TakenLater(st: Standing, events: seq<ServerEvent>, x: string)
    requires events != [] && !Takes(st, events[0], x)
    ensures TakenIn(st, events, x) <==> TakenIn(st, events[1..], x)
  {
    var rest := events[1..];
    if i :| 0 <= i < |events| && Takes(st, events[i], x) {
      assert rest[i - 1] == events[i];
    }
    if i :| 0 <= i < |rest| && Takes(st, rest[i], x) {
      assert events[i + 1] == rest[i];
    }
  }

  /** If a later event is taken, the last mark is a later one. */
  lemma {:induction false} MarkStays(events: seq<ServerEvent>, x: string, st: Standing)
    requires events != []
    ensures TakenIn(st, events[1..], x) ==> LastMark(events, x) == LastMark(events[1..], x)
  {
    if i :| 0 <= i < |events[1..]| && Takes(st, events[1..][i], x) {
      NoLastMark(events[1..], x);
    }
  }

  /** What is not taken leaves the job somewhere else than the last mark. */
  lemma {:induction false} NotTakenDiffers(st: Standing, events: seq<ServerEvent>, x: string)
    requires LastMark(events, x).Some? && !TakenIn(st, events, x)
    ensures LastMark(events, x) != Some(st)
  {
    var p := LastMarkIs(events, x);
    assert !Takes(st, events[p], x);
  }

  lemma {:induction false} TakenPutIsLast(st: Standing, events: seq<ServerEvent>, x: string)
    ensures PutTaken(st, events, x).Some? ==> PutTaken(st, events, x) == LastPut(events, x)
    decreases events
  {
    if events != [] && !Takes(st, events[0], x) {
      TakenPutIsLast(st, events[1..], x);
    }
  }

  // ---- someone there throughout takes all of them ------------------------------------------------

  lemma {:induction false} LiveChained(entry: Entry, retired: set<string>, events: seq<ServerEvent>, x: string)
    requires Orderly(Here(entry, retired), events, x) && entry.job.Some?
    requires forall i | 0 <= i < |events| :: !Deletes(events[i], x)
    ensures Chained(StandingOf(entry.job.value), events, x)
    decreases events
  {
    if events != [] {
      var rest := events[1..];
      assert !Deletes(events[0], x);
      forall i | 0 <= i < |rest| ensures !Deletes(rest[i], x) {
        assert rest[i] == events[i + 1];
      }
      var next := LifeStep(Here(entry, retired), events[0], x);
      LiveChained(next.entry, next.retired, rest, x);
    }
  }

  /** Where the job of an item that is there after `k` of the events stands in the end, its message and progress. */
  ghost predicate EndsAs(was: EnhancementJob, end: EnhancementJob, events: seq<ServerEvent>, x: string) {
    && StandingOf(end) == OrElse(LastMark(events, x), StandingOf(was))
    && end.message == OrElse(LastPut(events, x), was.message)
    && end.progress == OrElse(LastReport(events, x), was.progress)
  }

  lemma {:induction false} LiveEnds(life: Life, events: seq<ServerEvent>, k: nat, x: string)
    requires Orderly(life, events, x) && !life.Gone? && (life.Here? ==> life.entry.job.Some?) && k <= |events|
    requires forall i | 0 <= i < |events| :: !Deletes(events[i], x)
    requires EntryRun(Shown(life), events[..k], x).Some?
    ensures Chain(events, x)
    ensures var was, end := EntryRun(Shown(life), events[..k], x), EntryRun(Shown(life), events, x);
            && was.value.job.Some? && end.Some? && end.value.job.Some?
            && EndsAs(was.value.job.value, end.value.job.value, events, x)
    decreases events
  {
    match life
    case Here(entry, retired) => HereEnds(entry, retired, events, k, x);
    case NotYet =>
      if k > 0 {
        var rest, first := events[1..], events[..k];
        assert first[0] == events[0] && first[1..] == rest[..k - 1] && !Deletes(events[0], x);
        forall i | 0 <= i < |rest| ensures !Deletes(rest[i], x) {
          assert rest[i] == events[i + 1];
        }
        LiveEnds(LifeStep(life, events[0], x), rest, k - 1, x);
      }
  }

  lemma {:induction false} HereEnds(entry: Entry, retired: set<string>, events: seq<ServerEvent>, k: nat, x: string)
    requires Orderly(Here(entry, retired), events, x) && entry.job.Some? && k <= |events|
    requires forall i | 0 <= i < |events| :: !Deletes(events[i], x)
    ensures Chain(events, x)
    ensures var was, end := EntryRun(Some(entry), events[..k], x), EntryRun(Some(entry), events, x);
            && was.Some? && was.value.job.Some? && end.Some? && end.value.job.Some?
            && EndsAs(was.value.job.value, end.value.job.value, events, x)
  {
    LiveChained(entry, retired, events, x);
    ChainedIsChain(StandingOf(entry.job.value), events, x);
    RunSplits(entry, events, x);
    RunSplits(entry, events[..k], x);
    ChainedPart(StandingOf(entry.job.value), events, k, x);
    TakesAll(entry.job.value, events, x);
    TakesAll(entry.job.value, events[..k], x);
    LastOfParts(events, k, x);
  }

  lemma {:induction false} ChainedPart(st: Standing, events: seq<ServerEvent>, k: nat, x: string)
    requires Chained(st, events, x) && k <= |events|
    ensures Chained(st, events[..k], x)
    decreases events
  {
    if k > 0 {
      assert events[..k][0] == events[0] && events[..k][1..] == events[1..][..k - 1];
      ChainedPart(if Mark(events[0], x).Some? then Mark(events[0], x).value else st, events[1..], k - 1, x);
    }
  }

  /** Nothing last in all means nothing last in a part. */
  lemma {:induction false} LastOfParts(events: seq<ServerEvent>, k: nat, x: string)
    requires k <= |events|
    ensures LastMark(events, x).None? ==> LastMark(events[..k], x).None?
    ensures LastPut(events, x).None? ==> LastPut(events[..k], x).None?
    ensures LastReport(events, x).None? ==> LastReport(events[..k], x).None?
    decreases events
  {
    if k > 0 {
      assert events[..k][0] == events[0] && events[..k][1..] == events[1..][..k - 1];
      LastOfParts(events[1..], k - 1, x);
    }
  }
}
