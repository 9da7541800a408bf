/**
 * Why replaying a job's events on a job that has already seen them changes nothing
 * (`isStale`, `patchJob` and the job cases of client/src/state/roomReducer.ts).
 */
module JobReplay {
  import opened Jobs
  import opened Options
  import opened RoomReducer

  /** A status update or completion addressed to media item `x`. */
  predicate ForJob(event: ServerEvent, x: string) {
    (event.JobStatusUpdate? || event.JobComplete?) && event.mediaItemId == x
  }

  function JobStep(job: EnhancementJob, event: ServerEvent, x: string): EnhancementJob {
    if ForJob(event, x) then PatchedJob(job, event) else job
  }

  function JobRun(job: EnhancementJob, events: seq<ServerEvent>, x: string): EnhancementJob
    decreases events
  {
    if events == [] then job else JobRun(JobStep(job, events[0], x), events[1..], x)
  }

  /** The ids of earlier runs, once `event` has been seen. */
  function Retired(job: EnhancementJob, retired: set<string>, id: string): set<string> {
    if id == job.id then retired else retired + {job.id}
  }

  /** An update that arrives in order: not from a run that was replaced, not older than what was announced before. */
  predicate JobLegal(job: EnhancementJob, retired: set<string>, event: ServerEvent)
    requires event.JobStatusUpdate? || event.JobComplete?
  {
    && event.jobId !in retired
    && (event.JobStatusUpdate? ==> !IsStale(job, event.jobId, event.running, event.reported))
    && (event.JobComplete? ==> !(job.id == event.jobId && Terminal(job.status)))
  }

  predicate JobOrderly(job: EnhancementJob, retired: set<string>, events: seq<ServerEvent>, x: string)
    decreases events
  {
    events == [] ||
    if ForJob(events[0], x) then
      && JobLegal(job, retired, events[0])
      && JobOrderly(PatchedJob(job, events[0]), Retired(job, retired, events[0].jobId), events[1..], x)
    else JobOrderly(job, retired, events[1..], x)
  }

  /** Once replaced, a run never comes back. */
  lemma {:induction false} RetiredStays(job: EnhancementJob, retired: set<string>, events: seq<ServerEvent>, x: string,
                                        id: string)
    requires JobOrderly(job, retired, events, x) && id in retired && job.id != id
    ensures JobRun(job, events, x).id != id
    decreases events
  {
    if events != [] {
      if ForJob(events[0], x) {
        RetiredStays(PatchedJob(job, events[0]), Retired(job, retired, events[0].jobId), events[1..], x, id);
      } else {
        RetiredStays(job, retired, events[1..], x, id);
      }
    }
  }

  /** Every update in `events` is from run `id`. */
  predicate OneRun(events: seq<ServerEvent>, x: string, id: string) {
    forall i | 0 <= i < |events| && ForJob(events[i], x) :: events[i].jobId == id
  }

  /** When the run at the start is the run at the end, no other came in between. */
  lemma {:induction false} SameRunThroughout(job: EnhancementJob, retired: set<string>, events: seq<ServerEvent>,
                                             x: string)
    requires JobOrderly(job, retired, events, x) && JobRun(job, events, x).id == job.id
    ensures OneRun(events, x, job.id)
    decreases events
  {
    if events != [] {
      if ForJob(events[0], x) {
        var next, retired' := PatchedJob(job, events[0]), Retired(job, retired, events[0].jobId);
        if events[0].jobId != job.id {
          RetiredStays(next, retired', events[1..], x, job.id);
        }
        SameRunThroughout(next, retired', events[1..], x);
      } else {
        SameRunThroughout(job, retired, events[1..], x);
      }
    }
  }

  /** How far along a job is. */
  predicate NoFurther(a: EnhancementJob, b: EnhancementJob) {
    && (a.status.Processing? ==> !b.status.Queued?)
    && (a.status.Done? || a.status.Failed? ==> b.status.Done? || b.status.Failed?)
    && (a.status == b.status && !a.status.Done? && !a.status.Failed? ==> a.progress <= b.progress)
  }

  /**
   * Nothing goes backwards. Whatever updates and completions of one run arrive, late, repeated or out of order, a
   * finished job does not go back to running, nor a running one to queued, nor progress down within a stage.
   */
  lemma {:induction false} NeverBackwards(job: EnhancementJob, events: seq<ServerEvent>, x: string)
    requires OneRun(events, x, job.id)
    ensures NoFurther(job, JobRun(job, events, x)) && JobRun(job, events, x).id == job.id
    decreases events
  {
    if events != [] {
      assert ForJob(events[0], x) ==> events[0].jobId == job.id;
      NeverBackwards(JobStep(job, events[0], x), events[1..], x);
    }
  }

  /** Updates of a finished run change nothing at all, in any order. */
  lemma {:induction false} FinishedIgnoresUpdates(job: EnhancementJob, events: seq<ServerEvent>, x: string)
    requires Terminal(job.status) && OneRun(events, x, job.id)
    requires forall i | 0 <= i < |events| :: !events[i].JobComplete?
    ensures JobRun(job, events, x) == job
    decreases events
  {
    if events != [] {
      assert ForJob(events[0], x) ==> events[0].jobId == job.id;
      FinishedIgnoresUpdates(job, events[1..], x);
    }
  }

  /** A retry is a new job id, and always applies, however far the run before it came. */
  lemma {:induction false} RetryAlwaysApplies(job: EnhancementJob, first: ServerEvent, events: seq<ServerEvent>,
                                              x: string)
    requires ForJob(first, x) && first.JobStatusUpdate? && first.jobId != job.id && OneRun(events, x, first.jobId)
    ensures var after := JobRun(job, [first] + events, x);
            && after.id == first.jobId && Stage(after.status) >= Stage(first.running)
            && (after.status == first.running ==> after.progress >= Clamp01(first.reported))
  {
    var started := PatchedJob(job, first);
    assert ([first] + events)[1..] == events;
    NeverBackwards(started, events, x);
  }

  /** After its completion a run is heard of no more. */
  lemma {:induction false} NothingAfterCompletion(job: EnhancementJob, retired: set<string>, events: seq<ServerEvent>,
                                                  x: string)
    requires JobOrderly(job, retired, events, x) && OneRun(events, x, job.id) && Terminal(job.status)
    ensures forall i | 0 <= i < |events| :: !ForJob(events[i], x)
    ensures JobRun(job, events, x) == job
    decreases events
  {
    if events != [] {
      NothingAfterCompletion(job, retired, events[1..], x);
    }
  }

  // ---- two replays of the same events -----------------------------------------------------

  /** Each field either already agrees with the job seen live, or still holds its final value. */
  predicate FieldsFrom(a: EnhancementJob, b: EnhancementJob, final: EnhancementJob) {
    && (b.progress == a.progress || b.progress == final.progress)
    && (b.message == a.message || b.message == final.message)
    && (b.artifacts == a.artifacts || b.artifacts == final.artifacts)
    && (b.error == a.error || b.error == final.error)
    && b.strategy == a.strategy == final.strategy
  }

  /** The replayed job shows the same run at the same point as the job seen live. */
  predicate InStep(a: EnhancementJob, b: EnhancementJob, final: EnhancementJob) {
    && a.id == b.id && a.status == b.status && (Terminal(a.status) || a.progress == b.progress)
    && FieldsFrom(a, b, final)
  }

  lemma {:induction false} InStepToTheEnd(a: EnhancementJob, b: EnhancementJob, retired: set<string>,
                                          events: seq<ServerEvent>, x: string)
    requires JobOrderly(a, retired, events, x) && InStep(a, b, JobRun(a, events, x))
    ensures JobRun(b, events, x) == JobRun(a, events, x)
    decreases events
  {
    if events != [] {
      var rest := events[1..];
      if ForJob(events[0], x) {
        InStepToTheEnd(PatchedJob(a, events[0]), PatchedJob(b, events[0]), Retired(a, retired, events[0].jobId), rest,
                       x);
      } else {
        InStepToTheEnd(a, b, retired, rest, x);
      }
    }
  }

  /** An update in `events` as far along as `final` that carries a message. */
  predicate NoteToCome(events: seq<ServerEvent>, x: string, final: EnhancementJob) {
    exists i | 0 <= i < |events| :: ForJob(events[i], x) && events[i].JobStatusUpdate? && events[i].note.Some?
      && events[i].running == final.status && Clamp01(events[i].reported) == final.progress
  }

  /** The replayed job already shows the final run at its final point; updates on the way there are stale. */
  predicate Ahead(b: EnhancementJob, final: EnhancementJob, events: seq<ServerEvent>, x: string) {
    && b == final.(message := b.message)
    && (b.message == final.message || (!Terminal(final.status) && NoteToCome(events, x, final)))
  }

  lemma {:induction false} AheadToTheEnd(a: EnhancementJob, b: EnhancementJob, retired: set<string>,
                                         events: seq<ServerEvent>, x: string)
    requires JobOrderly(a, retired, events, x) && a.strategy == JobRun(a, events, x).strategy
    requires OneRun(events, x, JobRun(a, events, x).id)
    requires Ahead(b, JobRun(a, events, x), events, x)
    ensures JobRun(b, events, x) == JobRun(a, events, x)
    decreases events
  {
    if events != [] {
      var final := JobRun(a, events, x);
      var event, rest := events[0], events[1..];
      if ForJob(event, x) {
        var a', b', retired' := PatchedJob(a, event), PatchedJob(b, event), Retired(a, retired, event.jobId);
        NeverBackwards(a', rest, x);
        if event.JobComplete? {
          NothingAfterCompletion(a', retired', rest, x);
          assert b' == final;
        } else {
          assert [event] + rest == events;
          AheadStep(a', b, event, retired', rest, x);
        }
        AheadToTheEnd(a', b', retired', rest, x);
      } else {
        assert NoteToCome(events, x, final) ==> NoteToCome(rest, x, final) by {
          if i :| 0 <= i < |events| && ForJob(events[i], x) && events[i].JobStatusUpdate? && events[i].note.Some?
                  && events[i].running == final.status && Clamp01(events[i].reported) == final.progress {
            assert rest[i - 1] == events[i];
          }
        }
        AheadToTheEnd(a, b, retired, rest, x);
      }
    }
  }

  /** With no note as far along as the end still to come, the message is the final one. */
  lemma {:induction false} MessageSettled(a: EnhancementJob, retired: set<string>, events: seq<ServerEvent>, x: string)
    requires JobOrderly(a, retired, events, x) && OneRun(events, x, a.id)
    requires !Terminal(JobRun(a, events, x).status)
    requires a.status == JobRun(a, events, x).status && a.progress == JobRun(a, events, x).progress
    ensures !NoteToCome(events, x, JobRun(a, events, x)) ==> JobRun(a, events, x).message == a.message
    decreases events
  {
    if events != [] {
      var final, rest := JobRun(a, events, x), events[1..];
      if ForJob(events[0], x) {
        var a' := PatchedJob(a, events[0]);
        assert events[0].jobId == a.id;
        if events[0].JobComplete? {
          NothingAfterCompletion(a', retired, rest, x);
          assert false;
        }
        NeverBackwards(a', rest, x);
        MessageSettled(a', retired, rest, x);
        if NoteToCome(rest, x, final) {
          NoteLater(events, x, final);
        } else if events[0].note.Some? {
          assert NoteToCome(events, x, final);
        }
      } else {
        MessageSettled(a, retired, rest, x);
        if NoteToCome(rest, x, final) {
          NoteLater(events, x, final);
        }
      }
    }
  }

  lemma {:induction false} NoteLater(events: seq<ServerEvent>, x: string, final: EnhancementJob)
    requires events != [] && NoteToCome(events[1..], x, final)
    ensures NoteToCome(events, x, final)
  {
    var rest := events[1..];
    var i :| 0 <= i < |rest| && ForJob(rest[i], x) && rest[i].JobStatusUpdate? && rest[i].note.Some?
             && rest[i].running == final.status && Clamp01(rest[i].reported) == final.progress;
    assert events[i + 1] == rest[i];
  }

  lemma {:induction false} AheadStep(a': EnhancementJob, b: EnhancementJob, event: ServerEvent, retired': set<string>,
                                     rest: seq<ServerEvent>, x: string)
    requires event.JobStatusUpdate? && ForJob(event, x)
    requires JobOrderly(a', retired', rest, x) && OneRun([event] + rest, x, a'.id)
    requires a'.id == event.jobId && a'.status == event.running && a'.progress == Clamp01(event.reported)
    requires event.note.Some? ==> a'.message == event.note
    requires Ahead(b, JobRun(a', rest, x), [event] + rest, x)
    ensures Ahead(PatchedJob(b, event), JobRun(a', rest, x), rest, x)
  {
    var final := JobRun(a', rest, x);
    assert OneRun(rest, x, a'.id) by {
      forall i | 0 <= i < |rest| && ForJob(rest[i], x) ensures rest[i].jobId == a'.id {
        assert ([event] + rest)[i + 1] == rest[i];
      }
    }
    NeverBackwards(a', rest, x);
    var stale := IsStale(b, event.jobId, event.running, event.reported);
    if !stale && event.note.Some? {
      MessageSettled(a', retired', rest, x);
    } else if NoteToCome([event] + rest, x, final) {
      var es := [event] + rest;
      var i :| 0 <= i < |es| && ForJob(es[i], x) && es[i].JobStatusUpdate? && es[i].note.Some?
               && es[i].running == final.status && Clamp01(es[i].reported) == final.progress;
      if i > 0 {
        assert rest[i - 1] == es[i];
      }
    }
  }

  lemma {:induction false} StrategyStays(job: EnhancementJob, events: seq<ServerEvent>, x: string)
    ensures JobRun(job, events, x).strategy == job.strategy
    decreases events
  {
    if events != [] {
      StrategyStays(JobStep(job, events[0], x), events[1..], x);
    }
  }

  /** The job, having seen everything, sees the same events again: it ends where it was. */
  lemma {:induction false} ReplayedJob(a: EnhancementJob, retired: set<string>, events: seq<ServerEvent>, x: string)
    requires JobOrderly(a, retired, events, x)
    ensures JobRun(JobRun(a, events, x), events, x) == JobRun(a, events, x)
  {
    ReplayFrom(a, JobRun(a, events, x), retired, events, x);
  }

  lemma {:induction false} ReplayFrom(a: EnhancementJob, final: EnhancementJob, retired: set<string>,
                                      events: seq<ServerEvent>, x: string)
    requires JobOrderly(a, retired, events, x) && final == JobRun(a, events, x)
    ensures JobRun(final, events, x) == final
    decreases events
  {
    if events != [] {
      var event, rest := events[0], events[1..];
      StrategyStays(a, events, x);
      if !ForJob(event, x) {
        ReplayFrom(a, final, retired, rest, x);
      } else {
        var a', retired' := PatchedJob(a, event), Retired(a, retired, event.jobId);
        if event.jobId == final.id {
          SameRunThroughout(a', retired', rest, x);
          assert OneRun(events, x, final.id);
          AheadToTheEnd(a, final, retired, events, x);
        } else {
          InStepToTheEnd(a', PatchedJob(final, event), retired', rest, x);
        }
      }
    }
  }

  // ---- where the claim stops -------------------------------------------------------------------

  /**
   * An update that comes after a later one of its run changes nothing when it comes. But replayed on the job of a retry
   * it does, until the retry's own updates come again: and with no word of their own they keep its old message.
   */
  lemma {:induction false} StaleNoteReturns(x: string, running: string, said: string)
    ensures var job := EnhancementJob("1", Processing, 0.5, Some(running), [], None, "");
            var late := JobStatusUpdate("r", "1", x, Processing, Finite(0.3), Some(said));
            var retry := JobStatusUpdate("r", "2", x, Queued, Finite(0.0), None);
            && IsStale(job, "1", Processing, Finite(0.3))
            && JobRun(job, [late, retry], x).message == Some(running)
            && JobRun(JobRun(job, [late, retry], x), [late, retry], x).message == Some(said)
  {
    var job := EnhancementJob("1", Processing, 0.5, Some(running), [], None, "");
    var late := JobStatusUpdate("r", "1", x, Processing, Finite(0.3), Some(said));
    var retry := JobStatusUpdate("r", "2", x, Queued, Finite(0.0), None);
    assert "1"[0] != "2"[0];
    TwoUpdates(job, late, retry, x);
    TwoUpdates(JobRun(job, [late, retry], x), late, retry, x);
  }

  lemma {:induction false} TwoUpdates(job: EnhancementJob, first: ServerEvent, second: ServerEvent, x: string)
    ensures JobRun(job, [first, second], x) == JobStep(JobStep(job, first, x), second, x)
  {
    assert [first, second][1..] == [second] && [second][1..] == [];
    assert JobRun(JobStep(job, first, x), [second], x) == JobRun(JobStep(JobStep(job, first, x), second, x), [], x);
  }
}
