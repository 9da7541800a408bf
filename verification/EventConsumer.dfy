/**
 * What one replica makes of a stream of worker events, one entry at a time: `updateJobFromEvent`
 * (gateway/src/db/repositories.ts), `handleEntry` and `toServerEvent` (gateway/src/jobs/eventConsumer.ts).
 * `JobPipeline` lets handlers overlap and stop half-way; here each entry is handled to its end.
 */
module EventConsumer {
  import opened Jobs
  import opened Options
  import opened Sequences

  /** A job's row, with the media item it belongs to. */
  datatype Row = Row(item: string, status: Status, progress: real, message: Option<string>, error: Option<string>,
                     strategy: string, attempts: nat, startedAt: Option<int>, completedAt: Option<int>)

  /** What a room is told. */
  datatype Told =
    | StatusUpdate(room: string, job: JobId, item: string, status: Status, progress: real, message: Option<string>)
    | JobComplete(room: string, job: JobId, item: string, status: Status, artifacts: seq<string>,
                  message: Option<string>, error: Option<string>)

  /** The notes are given a finished job's outcome. */
  datatype Fill = Fill(item: string, job: JobId, status: Status, artifacts: seq<string>)

  /** Job rows and artifacts, the items there are, what rooms were told, which notes were filled, which jobs indexed. */
  datatype World = World(rows: map<JobId, Row>, artifacts: map<JobId, seq<string>>, items: set<string>,
                         told: seq<Told>, fills: seq<Fill>, indexed: seq<JobId>)

  function ArtifactsOf(w: World, job: JobId): seq<string> { if job in w.artifacts then w.artifacts[job] else [] }

  /** The columns that the update sets. */
  function Updated(row: Row, event: JobEvent): Row {
    var news := event.news;
    Row(row.item, event.status, news.progress, Or(news.message, row.message), Or(news.error, row.error),
        if news.strategy.Some? then news.strategy.value else row.strategy,
        if event.status.Processing? && !row.status.Processing? then row.attempts + 1 else row.attempts,
        if row.startedAt.None? && !event.status.Queued? then Some(news.at) else row.startedAt,
        if Terminal(event.status) then Some(news.at) else row.completedAt)
  }

  /** An empty text is left out of what is sent. */
  function Sent(text: Option<string>): Option<string> { if text == Some("") then None else text }

  function ToServerEvent(event: JobEvent, artifacts: seq<string>): Told {
    var news := event.news;
    if event.status.Done? || event.status.Failed? then
      JobComplete(news.room, event.job, news.item, event.status, artifacts, Sent(news.message), Sent(news.error))
    else StatusUpdate(news.room, event.job, news.item, event.status, news.progress, Sent(news.message))
  }

  /** Unknown to the gate, or past it: the entry is absorbed. */
  predicate Absorbed(w: World, event: JobEvent) { event.job !in w.rows || Terminal(w.rows[event.job].status) }

  function Handled(w: World, event: JobEvent): World {
    if Absorbed(w, event) then w
    else
      var row, artifacts := Updated(w.rows[event.job], event), ArtifactsOf(w, event.job) + event.artifacts;
      World(w.rows[event.job := row],
            if event.artifacts == [] then w.artifacts else w.artifacts[event.job := artifacts],
            w.items,
            w.told + [ToServerEvent(event, artifacts)],
            if Terminal(row.status) && row.item in w.items
            then w.fills + [Fill(row.item, event.job, row.status, artifacts)] else w.fills,
            if row.status.Done? then w.indexed + [event.job] else w.indexed)
  }

  function HandledAll(w: World, events: seq<JobEvent>): World
    decreases |events|
  {
    if events == [] then w else Handled(HandledAll(w, events[..|events| - 1]), events[|events| - 1])
  }

  class JobEventConsumer {
    var rows: map<JobId, Row>
    var artifacts: map<JobId, seq<string>>
    var items: set<string>
    var told: seq<Told>
    var fills: seq<Fill>
    var indexed: seq<JobId>

    function AsWorld(): World
      reads this
    {
      World(rows, artifacts, items, told, fills, indexed)
    }

    /** The conditional update, the artifacts' insert, and the row read back; none when the gate absorbs the event. */
    method UpdateJobFromEvent(event: JobEvent) returns (job: Option<(Row, seq<string>)>)
      modifies `rows, `artifacts
      ensures job.None? <==> Absorbed(old(AsWorld()), event)
      ensures job.None? ==> AsWorld() == old(AsWorld())
      ensures job.Some? ==>
                job.value == (Updated(old(rows)[event.job], event),
                              ArtifactsOf(old(AsWorld()), event.job) + event.artifacts)
      ensures job.Some? ==> rows == old(rows)[event.job := job.value.0]
      ensures job.Some? ==> artifacts == if event.artifacts == [] then old(artifacts)
                                         else old(artifacts)[event.job := job.value.1]
    {
      if event.job !in rows || Terminal(rows[event.job].status) {
        return None;
      }
      rows := rows[event.job := Updated(rows[event.job], event)];
      var own := if event.job in artifacts then artifacts[event.job] else [];
      if event.artifacts != [] {
        artifacts := artifacts[event.job := own + event.artifacts];
      } else {
        assert own + [] == own;
      }
      job := Some((rows[event.job], if event.job in artifacts then artifacts[event.job] else []));
    }

    method HandleEntry(event: JobEvent)
      modifies this
      ensures AsWorld() == Handled(old(AsWorld()), event)
    {
      var job := UpdateJobFromEvent(event);
      if job.None? { return; }
      var row, all := job.value.0, job.value.1;
      told := told + [ToServerEvent(event, all)];
      if row.status.Done? || row.status.Failed? {
        if row.item in items {
          fills := fills + [Fill(row.item, event.job, row.status, all)];
        }
        if row.status.Done? {
          indexed := indexed + [event.job];
        }
      }
    }

    /** The loop over a batch of stream entries. */
    method HandleEntries(events: seq<JobEvent>)
      modifies this
      ensures AsWorld() == HandledAll(old(AsWorld()), events)
    {
      ghost var before := AsWorld();
      for i := 0 to |events|
        invariant AsWorld() == HandledAll(before, events[..i])
      {
        TakeOneMore(events, i);
        HandleEntry(events[i]);
        OneMoreHandled(before, events[..i], events[i]);
      }
      TakeAll(events);
    }
  }

  lemma {:induction false} OneMoreHandled(w: World, events: seq<JobEvent>, event: JobEvent)
    ensures HandledAll(w, events + [event]) == Handled(HandledAll(w, events), event)
  {
    assert (events + [event])[..|events|] == events;
  }

  // ---- what becomes of one job ---------------------------------------------------------------------

  predicate Ended(events: seq<JobEvent>) { events != [] && Terminal(events[|events| - 1].status) }

  /** A job's events up to its first last one: those that count. */
  function Counting(events: seq<JobEvent>, job: JobId): seq<JobEvent>
    decreases |events|
  {
    if events == [] then []
    else
      var before, last := Counting(events[..|events| - 1], job), events[|events| - 1];
      if last.job == job && !Ended(before) then before + [last] else before
  }

  function AllArtifacts(events: seq<JobEvent>): seq<string>
    decreases |events|
  {
    if events == [] then [] else AllArtifacts(events[..|events| - 1]) + events[|events| - 1].artifacts
  }

  /** What rooms were told of a job. */
  function ToldOf(told: seq<Told>, job: JobId): seq<Told>
    decreases |told|
  {
    if told == [] then []
    else ToldOf(told[..|told| - 1], job) + if told[|told| - 1].job == job then [told[|told| - 1]] else []
  }

  function FillsOf(fills: seq<Fill>, job: JobId): seq<Fill>
    decreases |fills|
  {
    if fills == [] then []
    else FillsOf(fills[..|fills| - 1], job) + if fills[|fills| - 1].job == job then [fills[|fills| - 1]] else []
  }

  function Times(jobs: seq<JobId>, job: JobId): nat
    decreases |jobs|
  {
    if jobs == [] then 0 else Times(jobs[..|jobs| - 1], job) + if jobs[|jobs| - 1] == job then 1 else 0
  }

  /** The room is told just what the event says: of a last one with all artifacts so far, of any other its progress. */
  predicate Tells(told: Told, event: JobEvent, artifacts: seq<string>) {
    && told.room == event.news.room && told.job == event.job && told.item == event.news.item
    && told.status == event.status
    && (event.news.message != Some("") ==> told.message == event.news.message)
    && (event.news.message == Some("") ==> told.message == None)
    && (told.JobComplete? <==> Terminal(event.status))
    && (told.JobComplete? ==>
          && told.artifacts == artifacts
          && told.error == if event.news.error == Some("") then None else event.news.error)
    && (told.StatusUpdate? ==> told.progress == event.news.progress)
  }

  /** Event `i` starts an attempt: the job was not processing before it. */
  predicate Attempts(events: seq<JobEvent>, i: nat, start: Status)
    requires i < |events|
  {
    events[i].status.Processing? && !(if i == 0 then start else events[i - 1].status).Processing?
  }

  ghost function AttemptCount(events: seq<JobEvent>, start: Status): nat {
    |set i: nat | i < |events| && Attempts(events, i, start)|
  }

  ghost predicate StartedIs(now: Option<int>, was: Option<int>, events: seq<JobEvent>) {
    if was.Some? || (forall i | 0 <= i < |events| :: events[i].status.Queued?) then now == was
    else exists i :: 0 <= i < |events| && !events[i].status.Queued? && now == Some(events[i].news.at)
                     && forall k | 0 <= k < i :: events[k].status.Queued?
  }

  function Messages(events: seq<JobEvent>): seq<Option<string>> {
    seq(|events|, i requires 0 <= i < |events| => events[i].news.message)
  }

  function Errors(events: seq<JobEvent>): seq<Option<string>> {
    seq(|events|, i requires 0 <= i < |events| => events[i].news.error)
  }

  function Strategies(events: seq<JobEvent>): seq<Option<string>> {
    seq(|events|, i requires 0 <= i < |events| => events[i].news.strategy)
  }

  /** The row as these events left it. */
  ghost predicate RowIs(now: Row, was: Row, events: seq<JobEvent>) {
    && now.item == was.item
    && now.status == (if events == [] then was.status else events[|events| - 1].status)
    && now.progress == (if events == [] then was.progress else events[|events| - 1].news.progress)
    && LastNamed(now.message, was.message, Messages(events))
    && LastNamed(now.error, was.error, Errors(events))
    && LastNamed(Some(now.strategy), Some(was.strategy), Strategies(events))
    && now.attempts == was.attempts + AttemptCount(events, was.status)
    && StartedIs(now.startedAt, was.startedAt, events)
    && now.completedAt == (if Ended(events) then Some(events[|events| - 1].news.at) else was.completedAt)
  }

  /** `w` has heard nothing of a job yet but that it exists. */
  ghost predicate Waiting(w: World, job: JobId) {
    job in w.rows && !Terminal(w.rows[job].status) && ArtifactsOf(w, job) == [] && ToldOf(w.told, job) == []
        && FillsOf(w.fills, job) == [] && Times(w.indexed, job) == 0
  }

  /** The job as these events, and no others, left it. */
  ghost predicate Settled(w: World, start: Row, counting: seq<JobEvent>, job: JobId) {
    && job in w.rows && RowIs(w.rows[job], start, counting)
    && ArtifactsOf(w, job) == AllArtifacts(counting)
    && |ToldOf(w.told, job)| == |counting|
    && (forall i | 0 <= i < |counting| ::
          Tells(ToldOf(w.told, job)[i], counting[i], AllArtifacts(counting[..i + 1])))
    && FillsOf(w.fills, job) == (if Ended(counting) && start.item in w.items
                                 then [Fill(start.item, job, w.rows[job].status, AllArtifacts(counting))] else [])
    && Times(w.indexed, job) == (if Ended(counting) && w.rows[job].status.Done? then 1 else 0)
  }

  /**
   * A job's first last event decides. Whatever else is in the stream, before or after, again or out of order: its row
   * and its artifacts are what its events up to that one leave; its room is told each of these, in order, just as it
   * says, the last as its completion with all artifacts; its notes are filled once, if its item is still there, and
   * it is indexed once, if done; and until that event comes, no end is told and nothing filled.
   */
  lemma {:induction false} FirstEndingDecides(w: World, events: seq<JobEvent>, job: JobId)
    requires Waiting(w, job)
    ensures Settled(HandledAll(w, events), w.rows[job], Counting(events, job), job)
    ensures HandledAll(w, events).items == w.items
    decreases |events|
  {
    if events == [] {
      NothingSettles(w, job);
    } else {
      var before, last := events[..|events| - 1], events[|events| - 1];
      FirstEndingDecides(w, before, job);
      var was, counting := HandledAll(w, before), Counting(before, job);
      if last.job != job {
        OtherJob(was, last, job);
      } else if Ended(counting) {
        assert Absorbed(was, last);
      } else {
        OneMoreCounts(was, w.rows[job], counting, last);
      }
    }
  }

  /** Of a job the gateway has no row of, nothing is made, told or filled. */
  lemma {:induction false} UnknownIsIgnored(w: World, events: seq<JobEvent>, job: JobId)
    requires job !in w.rows
    ensures var t := HandledAll(w, events);
            && job !in t.rows && ArtifactsOf(t, job) == ArtifactsOf(w, job)
            && ToldOf(t.told, job) == ToldOf(w.told, job)
            && FillsOf(t.fills, job) == FillsOf(w.fills, job) && Times(t.indexed, job) == Times(w.indexed, job)
    decreases |events|
  {
    if events != [] {
      var before, last := events[..|events| - 1], events[|events| - 1];
      UnknownIsIgnored(w, before, job);
      if last.job != job {
        OtherJob(HandledAll(w, before), last, job);
      }
    }
  }

  lemma {:induction false} NothingSettles(w: World, job: JobId)
    requires Waiting(w, job)
    ensures Settled(w, w.rows[job], [], job)
  {
    var none: set<nat> := {};
    assert AttemptCount([], w.rows[job].status) == |none|;
  }

  lemma {:induction false} OtherJob(w: World, event: JobEvent, job: JobId)
    requires event.job != job
    ensures var t := Handled(w, event);
            && (job in t.rows <==> job in w.rows) && (job in w.rows ==> t.rows[job] == w.rows[job])
            && ArtifactsOf(t, job) == ArtifactsOf(w, job) && ToldOf(t.told, job) == ToldOf(w.told, job)
            && FillsOf(t.fills, job) == FillsOf(w.fills, job) && Times(t.indexed, job) == Times(w.indexed, job)
            && t.items == w.items
  {
    if !Absorbed(w, event) {
      var row, artifacts := Updated(w.rows[event.job], event), ArtifactsOf(w, event.job) + event.artifacts;
      ToldMore(w.told, ToServerEvent(event, artifacts), job);
      FillsMore(w.fills, Fill(row.item, event.job, row.status, artifacts), job);
      TimesMore(w.indexed, event.job, job);
    }
  }

  lemma {:induction false} OneMoreCounts(w: World, start: Row, counting: seq<JobEvent>, event: JobEvent)
    requires Settled(w, start, counting, event.job) && !Ended(counting) && !Terminal(w.rows[event.job].status)
    ensures Settled(Handled(w, event), start, counting + [event], event.job)
    ensures Handled(w, event).items == w.items
  {
    var job, t := event.job, Handled(w, event);
    var row, artifacts := Updated(w.rows[job], event), ArtifactsOf(w, job) + event.artifacts;
    RowMore(w.rows[job], start, counting, event);
    AllArtifactsMore(counting, event);
    OwnArtifacts(w, event);
    ToldMore(w.told, ToServerEvent(event, artifacts), job);
    FillsMore(w.fills, Fill(row.item, job, row.status, artifacts), job);
    TimesMore(w.indexed, job, job);
    TellsMore(ToldOf(w.told, job), ToServerEvent(event, artifacts), counting, event);
  }

  lemma {:induction false} TellsMore(told: seq<Told>, last: Told, counting: seq<JobEvent>, event: JobEvent)
    requires |told| == |counting| && Tells(last, event, AllArtifacts(counting + [event]))
    requires forall i | 0 <= i < |counting| :: Tells(told[i], counting[i], AllArtifacts(counting[..i + 1]))
    ensures var all := counting + [event];
            forall i | 0 <= i < |all| :: Tells((told + [last])[i], all[i], AllArtifacts(all[..i + 1]))
  {
    var all := counting + [event];
    assert all[..|all|] == all;
    forall i | 0 <= i < |all| ensures Tells((told + [last])[i], all[i], AllArtifacts(all[..i + 1])) {
      assert i < |counting| ==> all[..i + 1] == counting[..i + 1];
    }
  }

  lemma {:induction false} RowMore(row: Row, start: Row, counting: seq<JobEvent>, event: JobEvent)
    requires RowIs(row, start, counting) && !Ended(counting) && !Terminal(row.status)
    ensures RowIs(Updated(row, event), start, counting + [event])
  {
    NamesMore(row, start, counting, event);
    OneMoreAttempt(counting, event, start.status);
    StartedMore(row.startedAt, start.startedAt, counting, event);
  }

  lemma {:induction false} NamesMore(row: Row, start: Row, counting: seq<JobEvent>, event: JobEvent)
    requires RowIs(row, start, counting)
    ensures var all, now := counting + [event], Updated(row, event);
            && LastNamed(now.message, start.message, Messages(all))
            && LastNamed(now.error, start.error, Errors(all))
            && LastNamed(Some(now.strategy), Some(start.strategy), Strategies(all))
  {
    NamedMore(row.message, start.message, Messages(counting), event.news.message);
    NamedMore(row.error, start.error, Errors(counting), event.news.error);
    NamedMore(Some(row.strategy), Some(start.strategy), Strategies(counting), event.news.strategy);
    NamedLast(counting, event);
  }

  lemma {:induction false} NamedLast(counting: seq<JobEvent>, event: JobEvent)
    ensures Messages(counting + [event]) == Messages(counting) + [event.news.message]
    ensures Errors(counting + [event]) == Errors(counting) + [event.news.error]
    ensures Strategies(counting + [event]) == Strategies(counting) + [event.news.strategy]
  {
  }

  lemma {:induction false} StartedMore(now: Option<int>, was: Option<int>, events: seq<JobEvent>, event: JobEvent)
    requires StartedIs(now, was, events)
    ensures StartedIs(if now.None? && !event.status.Queued? then Some(event.news.at) else now, was, events + [event])
  {
    var all := events + [event];
    if was.None? {
      if forall i | 0 <= i < |events| :: events[i].status.Queued? {
        assert all[|events|] == event && forall k | 0 <= k < |events| :: all[k].status.Queued?;
      } else {
        var i :| 0 <= i < |events| && !events[i].status.Queued? && now == Some(events[i].news.at)
                 && forall k | 0 <= k < i :: events[k].status.Queued?;
        assert all[i] == events[i] && forall k | 0 <= k < i :: all[k].status.Queued?;
      }
    }
  }

  lemma {:induction false} OneMoreAttempt(events: seq<JobEvent>, event: JobEvent, start: Status)
    ensures var was := if events == [] then start else events[|events| - 1].status;
            AttemptCount(events + [event], start) == AttemptCount(events, start) +
              if event.status.Processing? && !was.Processing? then 1 else 0
  {
    var all := events + [event];
    var before, after := set i: nat | i < |events| && Attempts(events, i, start),
                         set i: nat | i < |all| && Attempts(all, i, start);
    assert forall i: nat | i < |events| :: Attempts(all, i, start) <==> Attempts(events, i, start);
    assert after == before + if Attempts(all, |events|, start) then {|events|} else {};
  }

  lemma {:induction false} OwnArtifacts(w: World, event: JobEvent)
    requires !Absorbed(w, event)
    ensures ArtifactsOf(Handled(w, event), event.job) == ArtifactsOf(w, event.job) + event.artifacts
  {
    assert ArtifactsOf(w, event.job) + [] == ArtifactsOf(w, event.job);
  }

  lemma {:induction false} AllArtifactsMore(events: seq<JobEvent>, event: JobEvent)
    ensures AllArtifacts(events + [event]) == AllArtifacts(events) + event.artifacts
  {
    assert (events + [event])[..|events|] == events;
  }

  lemma {:induction false} ToldMore(told: seq<Told>, last: Told, job: JobId)
    ensures ToldOf(told + [last], job) == ToldOf(told, job) + if last.job == job then [last] else []
  {
    assert (told + [last])[..|told|] == told;
  }

  lemma {:induction false} FillsMore(fills: seq<Fill>, last: Fill, job: JobId)
    ensures FillsOf(fills + [last], job) == FillsOf(fills, job) + if last.job == job then [last] else []
  {
    assert (fills + [last])[..|fills|] == fills;
  }

  lemma {:induction false} TimesMore(jobs: seq<JobId>, last: JobId, job: JobId)
    ensures Times(jobs + [last], job) == Times(jobs, job) + if last == job then 1 else 0
  {
    assert (jobs + [last])[..|jobs|] == jobs;
  }

  /** Entries delivered again, of jobs already ended, change nothing at all. */
  lemma {:induction false} RedeliveryIsAbsorbed(w: World, events: seq<JobEvent>, again: seq<JobEvent>)
    requires forall i | 0 <= i < |again| :: Absorbed(HandledAll(w, events), again[i])
    ensures HandledAll(HandledAll(w, events), again) == HandledAll(w, events)
    decreases |again|
  {
    if again != [] {
      RedeliveryIsAbsorbed(w, events, again[..|again| - 1]);
    }
  }
}
