/**
 * The feed a client is given, newest first by the time of upload, with events applied to it that are announced in
 * another order than the uploads were made (gateway/src/http/routes/media.ts, lines 333-401, awaits other work between
 * the two): which entries does it show, and when in the order in which someone there throughout sees them?
 */
module FeedOrder {
  import opened Options
  import opened Sequences
  import opened Sorting
  import opened RoomReducer
  import opened ReplayLists
  import opened ListOrder
  import opened EntryReplay
  import opened RoomLists
  import opened ChatWindow

  /** Each item's life is in order. */
  ghost predicate FeedOrderly(h: seq<ServerEvent>) { forall x :: Orderly(NotYet, h, x) }

  predicate Uploads(event: ServerEvent, x: string) { event.MediaUploaded? && event.mediaItem.id == x }

  predicate UploadedIn(events: seq<ServerEvent>, x: string) { exists i :: 0 <= i < |events| && Uploads(events[i], x) }
  predicate DeletedFrom(events: seq<ServerEvent>, x: string) { exists i :: 0 <= i < |events| && Deletes(events[i], x) }

  /** In the list given or uploaded in what is heard, and not deleted in it. */
  predicate EntryShown(given: seq<Entry>, heard: seq<ServerEvent>, x: string) {
    (HasEntry(given, x) || UploadedIn(heard, x)) && !DeletedFrom(heard, x)
  }

  lemma {:induction false} IdEventsTell(events: seq<ServerEvent>, x: string)
    ensures UploadedIn(events, x) <==> Add(x) in MediaIdEvents(events)
    ensures DeletedFrom(events, x) <==> Remove(x) in MediaIdEvents(events)
  {
    forall i | 0 <= i < |events|
      ensures MediaIdEvents(events)[i] == Add(x) <==> Uploads(events[i], x)
      ensures MediaIdEvents(events)[i] == Remove(x) <==> Deletes(events[i], x)
    {
    }
  }

  lemma {:induction false} NoMoreUploads(life: Life, events: seq<ServerEvent>, x: string)
    requires Orderly(life, events, x) && !life.NotYet?
    ensures !UploadedIn(events, x)
    decreases events
  {
    if events != [] {
      NoMoreUploads(LifeStep(life, events[0], x), events[1..], x);
      forall i | 0 <= i < |events| ensures !Uploads(events[i], x) {
        assert i > 0 ==> events[i] == events[1..][i - 1];
      }
    }
  }

  lemma {:induction false} UploadedOnce(events: seq<ServerEvent>, x: string, i: nat, j: nat)
    requires Orderly(NotYet, events, x) && i < j < |events| && Uploads(events[i], x)
    ensures !Uploads(events[j], x)
    decreases events
  {
    if About(events[0], x) {
      NoMoreUploads(LifeStep(NotYet, events[0], x), events[1..], x);
      assert events[j] == events[1..][j - 1];
    } else {
      UploadedOnce(events[1..], x, i - 1, j - 1);
    }
  }

  lemma {:induction false} FeedIds(h: seq<ServerEvent>)
    requires FeedOrderly(h)
    ensures NoReuse(MediaIdEvents(h)) && AddedOnce(MediaIdEvents(h))
  {
    var ids := MediaIdEvents(h);
    forall i, j | 0 <= i < j < |ids| && ids[i].Remove? && ids[j].Add? ensures ids[i].id != ids[j].id {
      assert Orderly(NotYet, h, ids[i].id);
      OrderlyNoReuse(NotYet, h, ids[i].id, i, j);
    }
    forall i, j | 0 <= i < j < |ids| && ids[i].Add? && ids[j].Add? ensures ids[i].id != ids[j].id {
      assert Orderly(NotYet, h, ids[i].id);
      UploadedOnce(h, ids[i].id, i, j);
    }
  }

  lemma {:induction false} FeedPart(heard: seq<ServerEvent>, h: seq<ServerEvent>, idx: seq<nat>)
    requires FeedOrderly(h) && Picks(heard, h, idx)
    ensures PartOf(MediaIdEvents(heard), MediaIdEvents(h), idx) && NoReuse(MediaIdEvents(heard))
  {
    forall i | 0 <= i < |heard| ensures idx[i] < |h| && MediaIdEvents(heard)[i] == MediaIdEvents(h)[idx[i]] {
      assert heard[i] == h[idx[i]];
    }
    FeedIds(h);
    PartFacts(MediaIdEvents(heard), MediaIdEvents(h), idx);
  }

  /** An entry is shown if and only if it was given or is uploaded in what is heard, and is not deleted in it. */
  lemma {:induction false} EntryShownIff(h: seq<ServerEvent>, given: seq<Entry>, heard: seq<ServerEvent>, idx: seq<nat>,
                                         x: string)
    requires FeedOrderly(h) && Picks(heard, h, idx)
    ensures x in MediaIds(MediaRun(given, heard)) <==> EntryShown(given, heard, x)
  {
    FeedPart(heard, h, idx);
    MediaRunFacts(given, heard, "");
    EntryFound(given, x);
    AddedLives(true, MediaIds(given), MediaIdEvents(heard), x);
    IdEventsTell(heard, x);
  }

  lemma {:induction false} PicksAll(h: seq<ServerEvent>, k: nat) returns (idx: seq<nat>)
    requires k <= |h|
    ensures Picks(h[..k], h, idx)
  {
    idx := seq(k, i requires 0 <= i < k => i);
  }

  /** What is in the feed at `k` was uploaded before and not deleted. */
  lemma {:induction false} InFeed(h: seq<ServerEvent>, k: nat, x: string)
    requires FeedOrderly(h) && k <= |h|
    ensures x in MediaIds(MediaRun([], h[..k])) <==> UploadedIn(h[..k], x) && !DeletedFrom(h[..k], x)
  {
    var idx := PicksAll(h, k);
    EntryShownIff(h, [], h[..k], idx, x);
  }

  // ---- in which order ----------------------------------------------------------------------------

  ghost predicate NewestFirst(media: seq<Entry>) {
    forall i, j | 0 <= i < j < |media| :: media[i].mediaItem.createdAt >= media[j].mediaItem.createdAt
  }

  /** Entries of items uploaded in the history, each once, with the time of their upload. */
  ghost predicate OfFeed(media: seq<Entry>, h: seq<ServerEvent>) {
    && Distinct(MediaIds(media))
    && (forall e, i | e in media && 0 <= i < |h| && Uploads(h[i], e.mediaItem.id) ::
          h[i].mediaItem.createdAt == e.mediaItem.createdAt)
  }

  /** Of two entries given, the one uploaded later; of two uploaded at once, the one given first. */
  predicate Above(given: seq<Entry>, later: MediaItem, earlier: MediaItem) {
    later.createdAt > earlier.createdAt
    || (later.createdAt == earlier.createdAt && Precedes(MediaIds(given), later.id, earlier.id))
  }

  /**
   * Of the entries shown, whatever was announced before one that was given was given too, and uploaded before it: what
   * was given was announced in the order of its times, and ahead of all else.
   */
  ghost predicate UploadedInOrder(h: seq<ServerEvent>, given: seq<Entry>, heard: seq<ServerEvent>) {
    forall i, j | 0 <= i < j < |h| && h[i].MediaUploaded? && h[j].MediaUploaded?
                  && EntryShown(given, heard, h[i].mediaItem.id) && EntryShown(given, heard, h[j].mediaItem.id)
                  && HasEntry(given, h[j].mediaItem.id) ::
      HasEntry(given, h[i].mediaItem.id) && Above(given, h[j].mediaItem, h[i].mediaItem)
  }

  lemma {:induction false} EntryPlace(media: seq<Entry>, x: string) returns (p: nat)
    requires HasEntry(media, x)
    ensures p < |media| && media[p].mediaItem.id == x && MediaIds(media)[p] == x
  {
    p :| p < |media| && media[p].mediaItem.id == x;
  }

  /** The order of times is the order of the list given. */
  lemma {:induction false} GivenNewestFirst(h: seq<ServerEvent>, given: seq<Entry>, i: nat, j: nat)
    requires FeedOrderly(h) && OfFeed(given, h) && NewestFirst(given)
    requires i < j < |h| && h[i].MediaUploaded? && h[j].MediaUploaded?
    requires HasEntry(given, h[i].mediaItem.id) && HasEntry(given, h[j].mediaItem.id)
    ensures Above(given, h[j].mediaItem, h[i].mediaItem)
       <==> Precedes(MediaIds(given), h[j].mediaItem.id, h[i].mediaItem.id)
  {
    var p := EntryPlace(given, h[i].mediaItem.id);
    var q := EntryPlace(given, h[j].mediaItem.id);
    assert Uploads(h[i], h[i].mediaItem.id) && Uploads(h[j], h[j].mediaItem.id);
    assert given[p] in given && given[q] in given;
    assert Orderly(NotYet, h, h[i].mediaItem.id);
    UploadedOnce(h, h[i].mediaItem.id, i, j);
    PrecedesAt(MediaIds(given), q, p);
  }

  lemma {:induction false} FeedFits(h: seq<ServerEvent>, given: seq<Entry>, heard: seq<ServerEvent>, idx: seq<nat>)
    requires FeedOrderly(h) && Distinct(MediaIds(given)) && Picks(heard, h, idx)
    requires forall x | EntryShown(given, heard, x) :: x in MediaIds(MediaRun([], h))
    ensures Fits(true, MediaIds(given), MediaIdEvents(heard), MediaIdEvents(h), idx)
    ensures MediaIds(MediaRun(given, heard)) == IdRun(true, MediaIds(given), MediaIdEvents(heard))
    ensures MediaIds(MediaRun([], h)) == IdRun(true, [], MediaIdEvents(h))
    ensures forall x :: x in MediaIds(MediaRun(given, heard)) <==> EntryShown(given, heard, x)
  {
    MediaRunFacts(given, heard, "");
    MediaRunFacts([], h, "");
    assert MediaIds([]) == [];
    IdsStayDistinct(true, MediaIds(given), MediaIdEvents(heard));
    IdsStayDistinct(true, [], MediaIdEvents(h));
    forall x ensures x in MediaIds(MediaRun(given, heard)) <==> EntryShown(given, heard, x) {
      EntryShownIff(h, given, heard, idx, x);
    }
    FeedIds(h);
    FeedPart(heard, h, idx);
  }

  /**
   * A feed given newest first, and any events of the history in order: what is shown stands in the order in which
   * someone there throughout sees it if and only if what was given was announced in the order of its times, and ahead
   * of the rest.
   */
  lemma {:induction false} FeedOrderIff(h: seq<ServerEvent>, given: seq<Entry>, heard: seq<ServerEvent>, idx: seq<nat>)
    requires FeedOrderly(h) && OfFeed(given, h) && NewestFirst(given) && Picks(heard, h, idx)
    requires forall x | EntryShown(given, heard, x) :: x in MediaIds(MediaRun([], h))
    ensures SameOrder(MediaIds(MediaRun(given, heard)), MediaIds(MediaRun([], h))) <==> UploadedInOrder(h, given, heard)
  {
    FeedFits(h, given, heard, idx);
    OrderIff(true, MediaIds(given), MediaIdEvents(heard), MediaIdEvents(h), idx);
    TimesAreFeedOrder(h, given, heard, MediaIds(MediaRun(given, heard)));
  }

  lemma {:induction false} TimesAreFeedOrder(h: seq<ServerEvent>, given: seq<Entry>, heard: seq<ServerEvent>,
                                             shown: seq<string>)
    requires FeedOrderly(h) && OfFeed(given, h) && NewestFirst(given)
    requires forall x :: x in shown <==> EntryShown(given, heard, x)
    ensures GivenInOrder(true, MediaIds(given), shown, MediaIdEvents(h)) <==> UploadedInOrder(h, given, heard)
  {
    var ids, given' := MediaIdEvents(h), MediaIds(given);
    if GivenInOrder(true, given', shown, ids) {
      forall i, j | 0 <= i < j < |h| && h[i].MediaUploaded? && h[j].MediaUploaded?
                    && EntryShown(given, heard, h[i].mediaItem.id) && EntryShown(given, heard, h[j].mediaItem.id)
                    && HasEntry(given, h[j].mediaItem.id)
        ensures HasEntry(given, h[i].mediaItem.id) && Above(given, h[j].mediaItem, h[i].mediaItem)
      {
        EntryFound(given, h[i].mediaItem.id);
        EntryFound(given, h[j].mediaItem.id);
        assert ids[i] == Add(h[i].mediaItem.id) && ids[j] == Add(h[j].mediaItem.id);
        GivenNewestFirst(h, given, i, j);
      }
    }
    if UploadedInOrder(h, given, heard) {
      forall i, j | 0 <= i < j < |ids| && ids[i].Add? && ids[j].Add? && ids[i].id in shown && ids[j].id in shown
                    && ids[j].id in given'
        ensures ids[i].id in given' && Precedes(given', ids[j].id, ids[i].id)
      {
        assert ids[i].id == h[i].mediaItem.id && ids[j].id == h[j].mediaItem.id;
        EntryFound(given, h[i].mediaItem.id);
        EntryFound(given, h[j].mediaItem.id);
        GivenNewestFirst(h, given, i, j);
      }
    }
  }

  // ---- where the order breaks ----------------------------------------------------------------------

  /**
   * Two uploads made one after the other and announced the other way round: someone there sees the first on top. The
   * snapshot's feed has the second on top, and replaying both leaves it so.
   */
  lemma {:induction false} CrossingUploads(roomId: string, first: MediaItem, second: MediaItem, job: EnhancementJob)
    requires first.id != second.id && first.createdAt < second.createdAt
    ensures var h := [MediaUploaded(roomId, second, job), MediaUploaded(roomId, first, job)];
            var one, two := Entry(first, Some(job)), Entry(second, Some(job));
            && MediaRun([], h) == [one, two] && NewestFirst([two, one]) && MediaRun([two, one], h) == [two, one]
  {
    var h := [MediaUploaded(roomId, second, job), MediaUploaded(roomId, first, job)];
    var one, two := Entry(first, Some(job)), Entry(second, Some(job));
    assert h[1..] == [h[1]] && [h[1]][1..] == [];
    TwoUploads([], h);
    TwoUploads([two, one], h);
    assert [two, one][0].mediaItem.id == second.id && [two, one][1].mediaItem.id == first.id;
    assert MediaAfter([], h[0]) == [two] && MediaAfter([two], h[1]) == [one, two];
    assert MediaAfter([two, one], h[0]) == [two, one] && MediaAfter([two, one], h[1]) == [two, one];
  }

  lemma {:induction false} TwoUploads(media: seq<Entry>, h: seq<ServerEvent>)
    requires |h| == 2
    ensures MediaRun(media, h) == MediaAfter(MediaAfter(media, h[0]), h[1])
  {
    var next := MediaAfter(media, h[0]);
    assert MediaRun(next, h[1..]) == MediaRun(MediaAfter(next, h[1..][0]), h[1..][1..]);
  }
}
