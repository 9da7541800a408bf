/** One media item through a history, and the same events applied to it a second time. */
module EntryReplay {
  import opened Jobs
  import opened Options
  import opened RoomReducer
  import opened JobReplay

  function EntryStep(v: Option<Entry>, event: ServerEvent, x: string): Option<Entry> {
    match event
    case MediaUploaded(_, item, job) => if item.id == x && v.None? then Some(Entry(item, Some(job))) else v
    case MediaUpdated(_, item, job) => if item.id == x && v.Some? then Some(Entry(item, Or(job, v.value.job))) else v
    case MediaDeleted(_, id) => if id == x then None else v
    case _ => if ForJob(event, x) && v.Some? then Some(v.value.(job := JobOptStep(v.value.job, event, x))) else v
  }

  function EntryRun(v: Option<Entry>, events: seq<ServerEvent>, x: string): Option<Entry>
    decreases events
  {
    if events == [] then v else EntryRun(EntryStep(v, events[0], x), events[1..], x)
  }

  function ItemStep(item: MediaItem, event: ServerEvent, x: string): MediaItem {
    if event.MediaUpdated? && event.mediaItem.id == x then event.mediaItem else item
  }

  function ItemRun(item: MediaItem, events: seq<ServerEvent>, x: string): MediaItem
    decreases events
  {
    if events == [] then item else ItemRun(ItemStep(item, events[0], x), events[1..], x)
  }

  /** A new job (a retry) replaces the old one whole. */
  predicate NewJob(event: ServerEvent, x: string) {
    event.MediaUpdated? && event.mediaItem.id == x && event.job.Some?
  }

  function JobOptStep(job: Option<EnhancementJob>, event: ServerEvent, x: string): Option<EnhancementJob> {
    if NewJob(event, x) then event.job
    else if job.Some? then Some(JobStep(job.value, event, x))
    else None
  }

  function JobOptRun(job: Option<EnhancementJob>, events: seq<ServerEvent>, x: string): Option<EnhancementJob>
    decreases events
  {
    if events == [] then job else JobOptRun(JobOptStep(job, events[0], x), events[1..], x)
  }

  // ---- what a server may announce about one item ---------------------------------------------

  /** Where an item stands; `retired` are the ids of its earlier jobs. */
  datatype Life = NotYet | Here(entry: Entry, retired: set<string>) | Gone

  predicate About(event: ServerEvent, x: string) {
    || ((event.MediaUploaded? || event.MediaUpdated?) && event.mediaItem.id == x)
    || (event.MediaDeleted? && event.mediaItemId == x)
    || ForJob(event, x)
  }

  function RetiredWith(job: Option<EnhancementJob>, retired: set<string>, id: string): set<string> {
    if job.Some? then Retired(job.value, retired, id) else retired
  }

  function LifeStep(life: Life, event: ServerEvent, x: string): Life {
    if !About(event, x) then life
    else match life
      case Gone => Gone
      case NotYet => if event.MediaUploaded? then Here(Entry(event.mediaItem, Some(event.newJob)), {}) else NotYet
      case Here(entry, retired) =>
        if event.MediaDeleted? then Gone
        else if event.MediaUpdated? then
          Here(Entry(event.mediaItem, Or(event.job, entry.job)),
               if event.job.Some? then RetiredWith(entry.job, retired, event.job.value.id) else retired)
        else if ForJob(event, x) && entry.job.Some? then
          Here(entry.(job := Some(PatchedJob(entry.job.value, event))), Retired(entry.job.value, retired, event.jobId))
        else life
  }

  /**
   * Ids are not reused: an item is uploaded once, and is not heard of before. Its updates come in order, and a
   * retry has a job id of its own, after which the old job is not heard of.
   */
  predicate Legal(life: Life, event: ServerEvent, x: string) {
    About(event, x) ==>
      match life
      case NotYet => event.MediaUploaded?
      case Gone => !event.MediaUploaded?
      case Here(entry, retired) =>
        && !event.MediaUploaded?
        && (event.MediaUpdated? && event.job.Some? ==> event.job.value.id !in retired)
        && (ForJob(event, x) && entry.job.Some? ==> JobLegal(entry.job.value, retired, event))
  }

  predicate Orderly(life: Life, events: seq<ServerEvent>, x: string)
    decreases events
  {
    events == [] || (Legal(life, events[0], x) && Orderly(LifeStep(life, events[0], x), events[1..], x))
  }

  function Shown(life: Life): Option<Entry> { if life.Here? then Some(life.entry) else None }

  lemma {:induction false} LifeIsShown(life: Life, event: ServerEvent, x: string)
    requires Legal(life, event, x)
    ensures Shown(LifeStep(life, event, x)) == EntryStep(Shown(life), event, x)
  {
  }

  // ---- replay -----------------------------------------------------------------------------

  predicate Deletes(event: ServerEvent, x: string) { event.MediaDeleted? && event.mediaItemId == x }

  lemma {:induction false} GoneForGood(events: seq<ServerEvent>, x: string)
    requires Orderly(Gone, events, x)
    ensures EntryRun(None, events, x) == None
    decreases events
  {
    if events != [] {
      GoneForGood(events[1..], x);
    }
  }

  /** Deleted within the events, an item is gone at their end, whatever it was at their start. */
  lemma {:induction false} DeletedIsGone(life: Life, v: Option<Entry>, events: seq<ServerEvent>, x: string, i: nat)
    requires Orderly(life, events, x) && i < |events| && Deletes(events[i], x)
    ensures EntryRun(v, events, x) == None
    decreases events
  {
    if i == 0 {
      GoneForGood(events[1..], x);
    } else {
      DeletedIsGone(LifeStep(life, events[0], x), EntryStep(v, events[0], x), events[1..], x, i - 1);
    }
  }

  /** While nobody deletes it, an item's own fields and its job each go their own way. */
  lemma {:induction false} RunSplits(entry: Entry, events: seq<ServerEvent>, x: string)
    requires forall i | 0 <= i < |events| :: !Deletes(events[i], x)
    ensures EntryRun(Some(entry), events, x)
         == Some(Entry(ItemRun(entry.mediaItem, events, x), JobOptRun(entry.job, events, x)))
    decreases events
  {
    if events != [] {
      var next := EntryStep(Some(entry), events[0], x);
      assert !Deletes(events[0], x);
      assert next == Some(Entry(ItemStep(entry.mediaItem, events[0], x), JobOptStep(entry.job, events[0], x)));
      RunSplits(next.value, events[1..], x);
    }
  }

  predicate Renamed(events: seq<ServerEvent>, x: string) {
    exists i | 0 <= i < |events| :: events[i].MediaUpdated? && events[i].mediaItem.id == x
  }

  lemma {:induction false} ReplayedItem(a: MediaItem, b: MediaItem, events: seq<ServerEvent>, x: string)
    ensures ItemRun(a, events, x) == if Renamed(events, x) then ItemRun(b, events, x) else a
    decreases events
  {
    if events != [] {
      ReplayedItem(ItemStep(a, events[0], x), ItemStep(b, events[0], x), events[1..], x);
      if i :| 0 <= i < |events| && events[i].MediaUpdated? && events[i].mediaItem.id == x {
        if i > 0 { assert events[1..][i - 1] == events[i]; }
      }
      if i :| 0 <= i < |events[1..]| && events[1..][i].MediaUpdated? && events[1..][i].mediaItem.id == x {
        assert events[i + 1] == events[1..][i];
      }
    }
  }

  lemma {:induction false} AfterNewJob(a: Option<EnhancementJob>, b: Option<EnhancementJob>, events: seq<ServerEvent>,
                                       x: string, i: nat)
    requires i < |events| && NewJob(events[i], x)
    ensures JobOptRun(a, events, x) == JobOptRun(b, events, x)
    decreases events
  {
    if i > 0 {
      AfterNewJob(JobOptStep(a, events[0], x), JobOptStep(b, events[0], x), events[1..], x, i - 1);
    }
  }

  lemma {:induction false} NoNewJob(job: Option<EnhancementJob>, events: seq<ServerEvent>, x: string)
    requires forall i | 0 <= i < |events| :: !NewJob(events[i], x)
    ensures JobOptRun(job, events, x) == if job.Some? then Some(JobRun(job.value, events, x)) else None
    decreases events
  {
    if events != [] {
      assert !NewJob(events[0], x);
      NoNewJob(JobOptStep(job, events[0], x), events[1..], x);
    }
  }

  lemma {:induction false} JobPartOrderly(entry: Entry, retired: set<string>, events: seq<ServerEvent>, x: string)
    requires Orderly(Here(entry, retired), events, x) && entry.job.Some?
    requires forall i | 0 <= i < |events| :: !NewJob(events[i], x) && !Deletes(events[i], x)
    ensures JobOrderly(entry.job.value, retired, events, x)
    decreases events
  {
    if events != [] {
      assert !NewJob(events[0], x) && !Deletes(events[0], x);
      var next := LifeStep(Here(entry, retired), events[0], x);
      JobPartOrderly(next.entry, next.retired, events[1..], x);
    }
  }

  lemma {:induction false} ReplayedJobPart(entry: Entry, retired: set<string>, events: seq<ServerEvent>, x: string)
    requires Orderly(Here(entry, retired), events, x)
    requires forall i | 0 <= i < |events| :: !Deletes(events[i], x)
    ensures JobOptRun(JobOptRun(entry.job, events, x), events, x) == JobOptRun(entry.job, events, x)
  {
    var once := JobOptRun(entry.job, events, x);
    if i :| 0 <= i < |events| && NewJob(events[i], x) {
      AfterNewJob(once, entry.job, events, x, i);
    } else {
      NoNewJob(entry.job, events, x);
      NoNewJob(once, events, x);
      if entry.job.Some? {
        JobPartOrderly(entry, retired, events, x);
        ReplayedJob(entry.job.value, retired, events, x);
      }
    }
  }

  lemma {:induction false} ReplayedHere(entry: Entry, retired: set<string>, events: seq<ServerEvent>, x: string)
    requires Orderly(Here(entry, retired), events, x)
    requires forall i | 0 <= i < |events| :: !Deletes(events[i], x)
    ensures EntryRun(EntryRun(Some(entry), events, x), events, x) == EntryRun(Some(entry), events, x)
  {
    RunSplits(entry, events, x);
    var once := EntryRun(Some(entry), events, x).value;
    RunSplits(once, events, x);
    ReplayedItem(once.mediaItem, entry.mediaItem, events, x);
    ReplayedItem(entry.mediaItem, once.mediaItem, events, x);
    ReplayedJobPart(entry, retired, events, x);
  }

  lemma {:induction false} ReplayedArrival(events: seq<ServerEvent>, x: string)
    requires Orderly(NotYet, events, x)
    requires forall i | 0 <= i < |events| :: !Deletes(events[i], x)
    ensures EntryRun(EntryRun(None, events, x), events, x) == EntryRun(None, events, x)
    decreases events
  {
    if events != [] {
      var rest := events[1..];
      assert !Deletes(events[0], x);
      var once := EntryRun(None, events, x);
      if About(events[0], x) {
        var entry := Entry(events[0].mediaItem, Some(events[0].newJob));
        ReplayedHere(entry, {}, rest, x);
        RunSplits(entry, rest, x);
        assert EntryStep(once, events[0], x) == once;
      } else {
        ReplayedArrival(rest, x);
      }
    }
  }

  /** An item that has seen all the events sees them once more and stays as it is. */
  lemma {:induction false} ReplayedEntry(life: Life, events: seq<ServerEvent>, x: string)
    requires Orderly(life, events, x)
    ensures EntryRun(EntryRun(Shown(life), events, x), events, x) == EntryRun(Shown(life), events, x)
  {
    if i :| 0 <= i < |events| && Deletes(events[i], x) {
      DeletedIsGone(life, Shown(life), events, x, i);
      DeletedIsGone(life, None, events, x, i);
    } else {
      match life
      case Gone => GoneForGood(events, x);
      case NotYet => ReplayedArrival(events, x);
      case Here(entry, retired) => ReplayedHere(entry, retired, events, x);
    }
  }
}
