/**
 * More comes while a client waits for its snapshot than it holds (`MAX_HELD` in client/src/state/roomReducer.ts): what
 * no longer finds room is dropped. When is it missed?
 *
 * Throughout, the client has been told everything from `a` on; it holds what it was told up to `d`, drops the rest that
 * comes before the snapshot, at `m`, and hears what comes after.
 */
module Overflow {
  import opened Options
  import opened Sequences
  import opened Sorting
  import opened RoomReducer
  import opened ReplayLists
  import opened JobReplay
  import opened EntryReplay
  import opened JobStanding
  import opened RoomLists
  import opened PeopleOrder
  import opened ChatWindow
  import opened FeedOrder
  import opened Resync
  import opened OldEvents

  /** What is held of h[a..m] is what comes up to `d`. */
  predicate FullAt(h: seq<ServerEvent>, a: nat, d: nat, m: nat)
    requires a <= d <= m <= |h|
  {
    Held(h[a..d]) == Taken(Held(h[a..m]))
  }

  /** There is such a point, and without overflow it is the end. */
  lemma {:induction false} HoldsUpTo(h: seq<ServerEvent>, a: nat, m: nat) returns (d: nat)
    requires a <= m <= |h|
    ensures a <= d <= m && FullAt(h, a, d, m) && (|Held(h[a..m])| <= MAX_HELD ==> d == m)
    decreases m
  {
    if |Held(h[a..m])| <= MAX_HELD {
      d := m;
    } else {
      var n := m - 1;
      d := HoldsUpTo(h, a, n);
      assert h[a..m] == h[a..n] + [h[n]];
      HeldAppend(h[a..n], [h[n]]);
      OneHeld(h[n]);
      if |Held(h[a..n])| <= MAX_HELD {
        TakenFull(Held(h[a..n]), Held([h[n]]));
      } else {
        assert (Held(h[a..n]) + Held([h[n]]))[..MAX_HELD] == Held(h[a..n])[..MAX_HELD];
      }
    }
  }

  lemma {:induction false} OneHeld(event: ServerEvent)
    ensures |Held([event])| <= 1
  {
    assert [event][1..] == [];
  }

  ghost predicate Overflows(state: RoomState, roomId: string, h: seq<ServerEvent>, a: nat, s: nat, d: nat, m: nat,
                            at: Positions,
                            limit: nat, snapshot: ServerEvent)
  {
    ToldAll(state, roomId, h, a, s, m, at, limit, snapshot) && a <= d <= m && FullAt(h, a, d, m)
  }

  lemma {:induction false} OverflowLists(state: RoomState, roomId: string, h: seq<ServerEvent>, a: nat, s: nat, d: nat,
                                         m: nat,
                                         at: Positions, limit: nat, snapshot: ServerEvent)
    requires Overflows(state, roomId, h, a, s, d, m, at, limit, snapshot)
    ensures var t := Back(state, snapshot, h[s..m], h[m..]);
            && IsCurrentRoom(t, roomId)
            && t.participants == PeopleRun(snapshot.participants, Held(h[a..d]) + h[m..])
            && t.chat == ChatRun(snapshot.chatHistory, h[a..d] + h[m..])
            && t.media == MediaRun(Sort(NewerEntry(), snapshot.media), h[a..d] + h[m..])
  {
    var chat, media := snapshot.chatHistory, Sort(NewerEntry(), snapshot.media);
    ToldLists(state, roomId, h, a, s, m, at, limit, snapshot);
    PartAnnounced(h, roomId, a, d);
    RunsWithHeld(chat, media, [], h[a..d], h[m..], roomId);
    assert [] + Held(h[a..d]) == Held(h[a..d]) && [] + (h[a..d] + h[m..]) == h[a..d] + h[m..];
  }

  lemma {:induction false} PartAnnounced(h: seq<ServerEvent>, roomId: string, a: nat, d: nat)
    requires AllAnnounced(h, roomId) && a <= d <= |h|
    ensures AllAnnounced(h[a..d], roomId)
  {
  }

  // ---- people ----------------------------------------------------------------------------------

  lemma {:induction false} PersonMissed(h: seq<ServerEvent>, roomId: string, a: nat, d: nat, m: nat, k: nat,
                                        roster: Roster, id: string)
    requires AllAnnounced(h, roomId) && RemovalsFollowed(h) && a <= d <= m <= |h| && a <= k <= |h|
    requires At(roster, id) == At(RosterRun(map[], h[..k]), id)
    ensures At(RosterRun(roster, Held(h[a..d]) + h[m..]), id) == At(RosterRun(map[], h), id) <==>
              (Mentioned(Held(h[d..m]), id) && !Mentioned(h[m..], id) ==>
                 LastWord(Held(h[d..m]), id).value == OrElse(LastWord(Held(h[a..d]), id), At(roster, id)))
  {
    var heard := [] + Held(h[a..m]) + h[m..];
    UndoneRosterIff(h, roomId, a, m, k, id);
    NoneUndone(h, roomId, a, m, k, id);
    HeldInTwo(h, roomId, a, d, m);
    LastDecides(RosterRun(map[], h[..k]), heard, id);
    HeardOf(h, roomId, [], a, m, id);
    LastWordAppend(Held(h[a..d]), Held(h[d..m]), id);
    LastDecides(roster, Held(h[a..d]) + h[m..], id);
    LastWordAppend(Held(h[a..d]), h[m..], id);
  }

  /**
   * The right people are shown if and only if everyone spoken of in what was dropped, and not since, is by the last
   * that was held of them, or else by the snapshot, as the last that was dropped has them.
   */
  lemma {:induction false} PeopleMissedIff(state: RoomState, roomId: string, h: seq<ServerEvent>, a: nat, s: nat,
                                           d: nat, m: nat,
                                           at: Positions, limit: nat, snapshot: ServerEvent)
    requires Overflows(state, roomId, h, a, s, d, m, at, limit, snapshot) && RemovalsFollowed(h)
    ensures ShowsPeople(Back(state, snapshot, h[s..m], h[m..]), roomId, h) <==>
              forall id | Mentioned(Held(h[d..m]), id) && !Mentioned(h[m..], id) ::
                LastWord(Held(h[d..m]), id).value == OrElse(LastWord(Held(h[a..d]), id),
                                                            At(RosterOf(snapshot.participants), id))
  {
    var t, heard, roster := Back(state, snapshot, h[s..m], h[m..]), Held(h[a..d])
                              + h[m..], RosterOf(snapshot.participants);
    OverflowLists(state, roomId, h, a, s, d, m, at, limit, snapshot);
    PeopleRunFacts(snapshot.participants, heard);
    forall id ensures At(RosterOf(t.participants), id) == At(RosterRun(map[], h), id) <==>
        (Mentioned(Held(h[d..m]), id) && !Mentioned(h[m..], id) ==>
           LastWord(Held(h[d..m]), id).value == OrElse(LastWord(Held(h[a..d]), id), At(roster, id))) {
      PersonMissed(h, roomId, a, d, m, at.people(id), roster, id);
    }
    if forall id :: At(RosterOf(t.participants), id) == At(RosterRun(map[], h), id) {
      SameRosters(RosterOf(t.participants), RosterRun(map[], h));
    }
  }

  // ---- messages ----------------------------------------------------------------------------------

  lemma {:induction false} PicksAround(h: seq<ServerEvent>, a: nat, d: nat, m: nat) returns (idx: seq<nat>)
    requires a <= d <= m <= |h|
    ensures Picks(h[a..d] + h[m..], h, idx)
  {
    idx := seq(d - a, i requires 0 <= i < d - a => a + i) + seq(|h| - m, i requires 0 <= i < |h| - m => m + i);
  }

  lemma {:induction false} InThree(h: seq<ServerEvent>, a: nat, d: nat, m: nat)
    requires a <= d <= m <= |h|
    ensures h[a..] == h[a..d] + (h[d..m] + h[m..]) && h[d..] == h[d..m] + h[m..]
  {
  }

  /** Posted in what was dropped, it is not also posted in what was heard; nor deleted before. */
  lemma {:induction false} PostedThere(h: seq<ServerEvent>, a: nat, d: nat, m: nat, id: string)
    requires ChatOrderly(h) && a <= d <= m <= |h| && PostedIn(h[d..m], id)
    ensures !PostedIn(h[a..d], id) && !PostedIn(h[m..], id) && !DeletedIn(h[a..d], id)
  {
    var i :| 0 <= i < |h[d..m]| && h[d..m][i].ChatPosted? && h[d..m][i].message.id == id;
    assert h[d + i] == h[d..m][i] && ChatIdEvents(h)[d + i] == Add(id);
    forall j | 0 <= j < |h[a..d]|
      ensures !(h[a..d][j].ChatPosted? && h[a..d][j].message.id == id)
      ensures !(h[a..d][j].ChatDeleted? && h[a..d][j].messageId == id)
    {
      assert h[a..d][j] == h[a + j] && ChatIdEvents(h)[a + j] == ChatIdEvent(h[a + j]);
    }
    forall j | 0 <= j < |h[m..]| ensures !(h[m..][j].ChatPosted? && h[m..][j].message.id == id) {
      assert h[m..][j] == h[m + j];
    }
  }

  /** Deleted in what was dropped, it is not posted after that. */
  lemma {:induction false} DeletedThere(h: seq<ServerEvent>, d: nat, m: nat, id: string)
    requires ChatOrderly(h) && d <= m <= |h| && DeletedIn(h[d..m], id)
    ensures !PostedIn(h[m..], id)
  {
    var i :| 0 <= i < |h[d..m]| && h[d..m][i].ChatDeleted? && h[d..m][i].messageId == id;
    assert h[d + i] == h[d..m][i] && ChatIdEvents(h)[d + i] == Remove(id);
    forall j | 0 <= j < |h[m..]| ensures !(h[m..][j].ChatPosted? && h[m..][j].message.id == id) {
      assert h[m..][j] == h[m + j] && ChatIdEvents(h)[m + j] == ChatIdEvent(h[m + j]);
    }
  }

  /** What was dropped makes no difference to a message: it was brought, and what was taken away had not been. */
  predicate NotMissed(given: seq<ChatMessage>, held: seq<ServerEvent>, dropped: seq<ServerEvent>,
                      since: seq<ServerEvent>, id: string) {
    && (PostedIn(dropped, id) && !DeletedIn(dropped, id) && !DeletedIn(since, id) ==> HasMessage(given, id))
    && (DeletedIn(dropped, id) && !DeletedIn(held, id) && !DeletedIn(since, id) ==>
        !HasMessage(given, id) && !PostedIn(held, id))
  }

  lemma {:induction false} MessageMissed(h: seq<ServerEvent>, given: seq<ChatMessage>, at: string -> nat, a: nat,
                                         d: nat, m: nat, id: string)
    requires ChatOrderly(h) && OfHistory(given, h) && a <= d <= m <= |h| && (forall id :: a <= at(id) <= |h|)
    requires forall m | m in given :: Visible(h, at, m.id) == Some(m)
    ensures FindMessage(ChatRun(given, h[a..d] + h[m..]), id)
         == (if id in Brought(given, h[a..]) then FindMessage(ChatRun([], h), id) else None)
       <==> NotMissed(given, h[a..d], h[d..m], h[m..], id)
  {
    var idx := PicksAround(h, a, d, m);
    var all := PicksFrom(h, a);
    MessageShown(h, given, h[a..d] + h[m..], idx, id);
    MessageShown(h, given, h[a..], all, id);
    MessagesReturned(h, a, given, at);
    assert FindMessage(ChatRun(given, h[a..]), id)
        == if id in Brought(given, h[a..]) then FindMessage(ChatRun([], h), id) else None;
    InThree(h, a, d, m);
    TellPosts(h[a..d], h[m..], id);
    TellPosts(h[a..d], h[d..m] + h[m..], id);
    TellPosts(h[d..m], h[m..], id);
    if PostedIn(h[d..m], id) {
      PostedThere(h, a, d, m, id);
    }
    if DeletedIn(h[d..m], id) {
      DeletedThere(h, d, m, id);
    }
  }

  /**
   * The chat shows the messages the snapshot brings and those announced since `a`, each as it is, and no other, if and
   * only if every message that was posted in what was dropped, and not deleted, is in the snapshot; and none that was
   * deleted there, and is not heard deleted, is in the snapshot or was held.
   */
  lemma {:induction false} MessagesMissedIff(state: RoomState, roomId: string, h: seq<ServerEvent>, a: nat, s: nat,
                                             d: nat, m: nat,
                                             at: Positions, limit: nat, snapshot: ServerEvent)
    requires Overflows(state, roomId, h, a, s, d, m, at, limit, snapshot)
    ensures var given := snapshot.chatHistory;
            ShowsMessages(Back(state, snapshot, h[s..m], h[m..]).chat, h, Brought(given, h[a..])) <==>
              forall id :: NotMissed(given, h[a..d], h[d..m], h[m..], id)
  {
    var given, heard := snapshot.chatHistory, h[a..d] + h[m..];
    OverflowLists(state, roomId, h, a, s, d, m, at, limit, snapshot);
    SnapshotSorted(h, roomId, at, limit, snapshot);
    ChatRunFacts(given, heard, "");
    IdsStayDistinct(false, ChatIds(given), ChatIdEvents(heard));
    forall id
      ensures FindMessage(ChatRun(given, heard), id)
           == (if id in Brought(given, h[a..]) then FindMessage(ChatRun([], h), id) else None)
         <==> NotMissed(given, h[a..d], h[d..m], h[m..], id)
    {
      MessageMissed(h, given, at.chat, a, d, m, id);
    }
  }

  // ---- entries -----------------------------------------------------------------------------------

  predicate EntryNotMissed(given: seq<Entry>, held: seq<ServerEvent>, dropped: seq<ServerEvent>,
                           since: seq<ServerEvent>, x: string) {
    && (UploadedIn(dropped, x) && !DeletedFrom(dropped, x) && !DeletedFrom(since, x) ==> HasEntry(given, x))
    && (DeletedFrom(dropped, x) && !DeletedFrom(held, x) && !DeletedFrom(since, x) ==>
        !HasEntry(given, x) && !UploadedIn(held, x))
  }

  lemma {:induction false} UploadedThere(h: seq<ServerEvent>, a: nat, d: nat, m: nat, x: string)
    requires FeedOrderly(h) && a <= d <= m <= |h| && UploadedIn(h[d..m], x)
    ensures !UploadedIn(h[a..d], x) && !UploadedIn(h[m..], x) && !DeletedFrom(h[a..d], x)
  {
    var i :| 0 <= i < |h[d..m]| && Uploads(h[d..m][i], x);
    assert h[d + i] == h[d..m][i] && MediaIdEvents(h)[d + i] == Add(x);
    FeedIds(h);
    forall j | 0 <= j < |h[a..d]| ensures !Uploads(h[a..d][j], x) && !Deletes(h[a..d][j], x) {
      assert h[a..d][j] == h[a + j] && MediaIdEvents(h)[a + j] == MediaIdEvent(h[a + j]);
    }
    forall j | 0 <= j < |h[m..]| ensures !Uploads(h[m..][j], x) {
      assert h[m..][j] == h[m + j] && MediaIdEvents(h)[m + j] == MediaIdEvent(h[m + j]);
    }
  }

  lemma {:induction false} GoneThere(h: seq<ServerEvent>, d: nat, m: nat, x: string)
    requires FeedOrderly(h) && d <= m <= |h| && DeletedFrom(h[d..m], x)
    ensures !UploadedIn(h[m..], x)
  {
    var i :| 0 <= i < |h[d..m]| && Deletes(h[d..m][i], x);
    assert h[d + i] == h[d..m][i] && MediaIdEvents(h)[d + i] == Remove(x);
    FeedIds(h);
    forall j | 0 <= j < |h[m..]| ensures !Uploads(h[m..][j], x) {
      assert h[m..][j] == h[m + j] && MediaIdEvents(h)[m + j] == MediaIdEvent(h[m + j]);
    }
  }

  lemma {:induction false} EntryMissed(h: seq<ServerEvent>, given: seq<Entry>, a: nat, d: nat, m: nat, x: string)
    requires FeedOrderly(h) && a <= d <= m <= |h| && ShowsFeed(MediaRun(given, h[a..]), h)
    ensures (HasEntry(MediaRun(given, h[a..d] + h[m..]), x) <==> HasEntry(MediaRun([], h), x)) <==>
            EntryNotMissed(given, h[a..d], h[d..m], h[m..], x)
  {
    var heard, all := h[a..d] + h[m..], MediaRun(given, h[a..]);
    var idx := PicksAround(h, a, d, m);
    var since := PicksFrom(h, a);
    EntryShownIff(h, given, heard, idx, x);
    EntryShownIff(h, given, h[a..], since, x);
    EntryFound(MediaRun(given, heard), x);
    EntryFound(all, x);
    EntryFound(MediaRun([], h), x);
    assert FindEntry(all, x) == FindEntry(MediaRun([], h), x);
    InThree(h, a, d, m);
    TellAppend(h[a..d], h[m..], x);
    TellAppend(h[a..d], h[d..m] + h[m..], x);
    TellAppend(h[d..m], h[m..], x);
    if UploadedIn(h[d..m], x) {
      UploadedThere(h, a, d, m, x);
    }
    if DeletedFrom(h[d..m], x) {
      GoneThere(h, d, m, x);
    }
  }

  /** The feed has the right entries if and only if the same holds of uploads and deletions. */
  lemma {:induction false} EntriesMissedIff(state: RoomState, roomId: string, h: seq<ServerEvent>, a: nat, s: nat,
                                            d: nat, m: nat,
                                            at: Positions, limit: nat, snapshot: ServerEvent)
    requires Overflows(state, roomId, h, a, s, d, m, at, limit, snapshot)
    ensures var given := Sort(NewerEntry(), snapshot.media);
            (forall x :: HasEntry(Back(state, snapshot, h[s..m], h[m..]).media, x) <==>
             HasEntry(MediaRun([], h), x)) <==>
              forall x :: EntryNotMissed(given, h[a..d], h[d..m], h[m..], x)
  {
    var given := Sort(NewerEntry(), snapshot.media);
    OverflowLists(state, roomId, h, a, s, d, m, at, limit, snapshot);
    SnapshotSorted(h, roomId, at, limit, snapshot);
    SameEntries(snapshot.media, given);
    EntriesReturned(h, roomId, a, given, at.media);
    forall x ensures (HasEntry(MediaRun(given, h[a..d] + h[m..]), x) <==> HasEntry(MediaRun([], h), x)) <==>
                     EntryNotMissed(given, h[a..d], h[d..m], h[m..], x) {
      EntryMissed(h, given, a, d, m, x);
    }
  }

  // ---- what an entry shows -------------------------------------------------------------------------

  lemma {:induction false} LastAppend(p: seq<ServerEvent>, q: seq<ServerEvent>, x: string)
    ensures LastItem(p + q, x) == if LastItem(q, x).Some? then LastItem(q, x) else LastItem(p, x)
    ensures LastMark(p + q, x) == if LastMark(q, x).Some? then LastMark(q, x) else LastMark(p, x)
    ensures LastPut(p + q, x) == if LastPut(q, x).Some? then LastPut(q, x) else LastPut(p, x)
    ensures LastArtifacts(p + q, x) == if LastArtifacts(q, x).Some? then LastArtifacts(q, x) else LastArtifacts(p, x)
    ensures LastError(p + q, x) == if LastError(q, x).Some? then LastError(q, x) else LastError(p, x)
    ensures LastReport(p + q, x) == if LastReport(q, x).Some? then LastReport(q, x) else LastReport(p, x)
    decreases p
  {
    if p == [] {
      assert p + q == q;
    } else {
      TailOfAppend(p, q);
      LastAppend(p[1..], q, x);
    }
  }

  lemma {:induction false} ChainLater(p: seq<ServerEvent>, q: seq<ServerEvent>, x: string)
    requires Chain(p + q, x)
    ensures Chain(q, x)
    decreases p
  {
    if p == [] {
      assert p + q == q;
    } else {
      TailOfAppend(p, q);
      if Mark(p[0], x).Some? {
        ChainedIsChain(Mark(p[0], x).value, p[1..] + q, x);
      }
      ChainLater(p[1..], q, x);
    }
  }

  /** Events that say nothing of a job leave it; and its message or its progress, if they put none. */
  lemma {:induction false} NothingSaid(job: EnhancementJob, events: seq<ServerEvent>, x: string)
    ensures var after := JobOptRun(Some(job), events, x);
            && after.Some?
            && (LastMark(events, x).None? ==> after.value == job)
            && (LastPut(events, x).None? ==> after.value.message == job.message)
            && (LastReport(events, x).None? ==> after.value.progress == job.progress)
    decreases events
  {
    if events != [] {
      NothingSaid(JobOptStep(Some(job), events[0], x).value, events[1..], x);
    }
  }

  /** The entry as the snapshot has it, with what was held applied. */
  function Left(snapshot: ServerEvent, held: seq<ServerEvent>, x: string): Option<Entry>
    requires snapshot.RoomSnapshot?
  {
    EntryRun(Was(snapshot, x), held, x)
  }

  /** An entry the client has, as it is shown: what was held of it, with what came since. */
  lemma {:induction false} EntryThere(state: RoomState, roomId: string, h: seq<ServerEvent>, a: nat, s: nat, d: nat,
                                      m: nat,
                                      at: Positions, limit: nat, snapshot: ServerEvent, x: string)
    requires Overflows(state, roomId, h, a, s, d, m, at, limit, snapshot)
    requires Was(snapshot, x).Some? && !DeletedFrom(h[a..], x)
    ensures forall i | 0 <= i < |h| :: !Deletes(h[i], x)
    ensures Was(snapshot, x) == EntryRun(None, h[..at.media(x)], x) && Was(snapshot, x).value.job.Some?
    ensures var was := Was(snapshot, x).value;
            && Left(snapshot, h[a..d], x)
                 == Some(Entry(ItemRun(was.mediaItem, h[a..d], x), JobOptRun(was.job, h[a..d], x)))
            && FindEntry(Back(state, snapshot, h[s..m], h[m..]).media, x)
                 == Some(Entry(ItemRun(ItemRun(was.mediaItem, h[a..d], x), h[m..], x),
                               JobOptRun(JobOptRun(was.job, h[a..d], x), h[m..], x)))
            && FindEntry(MediaRun([], h), x)
                 == Some(Entry(ItemRun(was.mediaItem, h[a..], x), JobOptRun(was.job, h[a..], x)))
  {
    var base, k := Sort(NewerEntry(), snapshot.media), at.media(x);
    OverflowLists(state, roomId, h, a, s, d, m, at, limit, snapshot);
    SnapshotSorted(h, roomId, at, limit, snapshot);
    EntryParts(h, roomId, base, a, d, m, k, x);
  }

  lemma {:induction false} EntryParts(h: seq<ServerEvent>, roomId: string, base: seq<Entry>, a: nat, d: nat, m: nat,
                                      k: nat, x: string)
    requires WellFormed(h, roomId) && a <= d <= m <= |h| && a <= k <= |h|
    requires FindEntry(base, x) == FindEntry(MediaRun([], h[..k]), x) && FindEntry(base, x).Some?
    requires !DeletedFrom(h[a..], x)
    ensures forall i | 0 <= i < |h| :: !Deletes(h[i], x)
    ensures FindEntry(base, x) == EntryRun(None, h[..k], x) && FindEntry(base, x).value.job.Some?
    ensures var was := FindEntry(base, x).value;
            && EntryRun(Some(was), h[a..d], x)
                 == Some(Entry(ItemRun(was.mediaItem, h[a..d], x), JobOptRun(was.job, h[a..d], x)))
            && FindEntry(MediaRun(base, h[a..d] + h[m..]), x)
                 == Some(Entry(ItemRun(ItemRun(was.mediaItem, h[a..d], x), h[m..], x),
                               JobOptRun(JobOptRun(was.job, h[a..d], x), h[m..], x)))
            && FindEntry(MediaRun([], h), x)
                 == Some(Entry(ItemRun(was.mediaItem, h[a..], x), JobOptRun(was.job, h[a..], x)))
  {
    EntryFound(base, x);
    EntryOver(h, roomId, base, [], [], a, k, x);
    MediaRunFacts([], h[..k], x);
    KeepsJob(None, h[..k], x);
    var was := FindEntry(base, x).value;
    RunSplits(was, h[a..d], x);
    EntryHeard(base, was, h[a..d], h[m..], x);
    assert [] + h[a..] == h[a..];
  }

  /**
   * An entry of the snapshot that is not deleted shows the right item, artifacts and error if and only if what was
   * dropped puts none there, or what came since does, or what was held left it as the last dropped has it. Its job
   * shows the right progress if and only if an event since put one, and was not stale for where what was held left the
   * job; or it was left with the last that any event put.
   */
  lemma {:induction false} ItemMissedIff(state: RoomState, roomId: string, h: seq<ServerEvent>, a: nat, s: nat, d: nat,
                                         m: nat,
                                         at: Positions, limit: nat, snapshot: ServerEvent, x: string)
    requires Overflows(state, roomId, h, a, s, d, m, at, limit, snapshot)
    requires Was(snapshot, x).Some? && !DeletedFrom(h[a..], x)
    ensures var shown, truth := FindEntry(Back(state, snapshot, h[s..m], h[m..]).media, x),
            FindEntry(MediaRun([], h), x);
            var left := Left(snapshot, h[a..d], x);
            && left.Some? && left.value.job.Some?
            && shown.Some? && shown.value.job.Some? && truth.Some? && truth.value.job.Some?
            && (shown.value.mediaItem == truth.value.mediaItem <==>
                  Heals(LastItem(h[m..], x), LastItem(h[d..m], x), left.value.mediaItem))
            && (shown.value.job.value.artifacts == truth.value.job.value.artifacts <==>
                  Heals(LastArtifacts(h[m..], x), LastArtifacts(h[d..m], x), left.value.job.value.artifacts))
            && (shown.value.job.value.error == truth.value.job.value.error <==>
                  Heals(LastError(h[m..], x), LastError(h[d..m], x), left.value.job.value.error))
            && (shown.value.job.value.progress == truth.value.job.value.progress <==>
                  || ReportTaken(StandingOf(left.value.job.value), h[m..], x).Some?
                  || left.value.job.value.progress == OrElse(LastReport(h[a..], x), left.value.job.value.progress))
  {
    EntryThere(state, roomId, h, a, s, d, m, at, limit, snapshot, x);
    MediaRunFacts([], h, x);
    ProgressMissed(h, roomId, a, d, m, at.media(x), Was(snapshot, x).value.job.value, x);
    PartsDecide(Was(snapshot, x).value.mediaItem, Was(snapshot, x).value.job.value, h, a, d, m, x);
  }

  lemma {:induction false} PartsDecide(item: MediaItem, job: EnhancementJob, h: seq<ServerEvent>, a: nat, d: nat,
                                       m: nat, x: string)
    requires a <= d <= m <= |h|
    ensures ItemRun(ItemRun(item, h[a..d], x), h[m..], x) == ItemRun(item, h[a..], x) <==>
              Heals(LastItem(h[m..], x), LastItem(h[d..m], x), ItemRun(item, h[a..d], x))
    ensures var left, truth := JobOptRun(Some(job), h[a..d], x), JobOptRun(Some(job), h[a..], x);
            && left.Some? && truth.Some? && JobOptRun(left, h[m..], x).Some?
            && (JobOptRun(left, h[m..], x).value.artifacts == truth.value.artifacts <==>
                  Heals(LastArtifacts(h[m..], x), LastArtifacts(h[d..m], x), left.value.artifacts))
            && (JobOptRun(left, h[m..], x).value.error == truth.value.error <==>
                  Heals(LastError(h[m..], x), LastError(h[d..m], x), left.value.error))
  {
    InThree(h, a, d, m);
    LastAppend(h[a..d], h[d..m] + h[m..], x);
    LastAppend(h[d..m], h[m..], x);
    ItemIsLast(item, h[a..d], x);
    ItemIsLast(ItemRun(item, h[a..d], x), h[m..], x);
    ItemIsLast(item, h[a..], x);
    OutcomeIsLast(job, h[a..d], x);
    OutcomeIsLast(JobOptRun(Some(job), h[a..d], x).value, h[m..], x);
    OutcomeIsLast(job, h[a..], x);
  }

  lemma {:induction false} ProgressMissed(h: seq<ServerEvent>, roomId: string, a: nat, d: nat, m: nat, k: nat,
                                          was: EnhancementJob, x: string)
    requires WellFormed(h, roomId) && a <= d <= m <= |h| && a <= k <= |h|
    requires (forall i | 0 <= i < |h| :: !Deletes(h[i], x))
    requires EntryRun(None, h[..k], x).Some? && EntryRun(None, h[..k], x).value.job == Some(was)
    ensures EntryRun(None, h, x).Some? && EntryRun(None, h, x).value.job.Some? && JobOptRun(Some(was), h[a..d], x).Some?
    ensures var left, end := JobOptRun(Some(was), h[a..d], x).value, EntryRun(None, h, x).value.job.value;
            var shown := JobOptRun(Some(left), h[m..], x);
            && shown.Some?
            && (shown.value.progress == end.progress <==>
                  || ReportTaken(StandingOf(left), h[m..], x).Some?
                  || left.progress == OrElse(LastReport(h[a..], x), left.progress))
  {
    JobEnds(h, roomId, a, k, x);
    ProgressOfParts(h, a, d, m, was, x);
    var left, end := JobOptRun(Some(was), h[a..d], x).value, EntryRun(None, h, x).value.job.value;
    ProgressHeard(left, end, h[m..], OrElse(LastReport(h[a..m], x), left.progress), x);
  }

  /** In terms of what was left, not of what the snapshot had. */
  lemma {:induction false} ProgressOfParts(h: seq<ServerEvent>, a: nat, d: nat, m: nat, was: EnhancementJob, x: string)
    requires a <= d <= m <= |h| && Chain(h[a..], x)
    ensures Chain(h[m..], x)
    ensures var left := JobOptRun(Some(was), h[a..d], x);
            && left.Some?
            && OrElse(LastReport(h[a..], x), was.progress)
                 == OrElse(LastReport(h[m..], x), OrElse(LastReport(h[a..m], x), left.value.progress))
            && OrElse(LastReport(h[a..], x), left.value.progress)
                 == OrElse(LastReport(h[m..], x), OrElse(LastReport(h[a..m], x), left.value.progress))
  {
    SplitFrom(h, a, m);
    SplitSlice(h, a, d, m);
    LastAppend(h[a..m], h[m..], x);
    LastAppend(h[a..d], h[d..m], x);
    ChainLater(h[a..m], h[m..], x);
    NothingSaid(was, h[a..d], x);
    var left := JobOptRun(Some(was), h[a..d], x).value;
    assert LastReport(h[a..m], x).None? ==> LastReport(h[a..d], x).None? && left.progress == was.progress;
  }

  /**
   * Its job stands where it should if and only if one of the events since the snapshot is not stale for where what
   * was held left it; or none says anything of the job, and it was left where the last before them, held or dropped,
   * has it. It has the right message if and only if an event since put one, from the first on that was not stale, or
   * it was left with the last that any event put.
   */
  lemma {:induction false} JobMissedIff(state: RoomState, roomId: string, h: seq<ServerEvent>, a: nat, s: nat, d: nat,
                                        m: nat,
                                        at: Positions, limit: nat, snapshot: ServerEvent, x: string)
    requires Overflows(state, roomId, h, a, s, d, m, at, limit, snapshot)
    requires Was(snapshot, x).Some? && !DeletedFrom(h[a..], x)
    ensures var shown, truth := FindEntry(Back(state, snapshot, h[s..m], h[m..]).media, x),
            FindEntry(MediaRun([], h), x);
            && Left(snapshot, h[a..d], x).Some? && Left(snapshot, h[a..d], x).value.job.Some?
            && shown.Some? && shown.value.job.Some? && truth.Some? && truth.value.job.Some?
            && var left := Left(snapshot, h[a..d], x).value.job.value;
               && (StandingOf(shown.value.job.value) == StandingOf(truth.value.job.value) <==>
                     if LastMark(h[m..], x).Some? then TakenIn(StandingOf(left), h[m..], x)
                     else StandingOf(left) == OrElse(LastMark(h[a..m], x), StandingOf(left)))
               && (shown.value.job.value.message == truth.value.job.value.message <==>
                     || PutTaken(StandingOf(left), h[m..], x).Some?
                     || left.message == OrElse(LastPut(h[a..], x), left.message))
  {
    EntryThere(state, roomId, h, a, s, d, m, at, limit, snapshot, x);
    MediaRunFacts([], h, x);
    JobMissed(h, roomId, a, d, m, at.media(x), Was(snapshot, x).value.job.value, x);
  }

  lemma {:induction false} JobMissed(h: seq<ServerEvent>, roomId: string, a: nat, d: nat, m: nat, k: nat,
                                     was: EnhancementJob, x: string)
    requires WellFormed(h, roomId) && a <= d <= m <= |h| && a <= k <= |h|
    requires (forall i | 0 <= i < |h| :: !Deletes(h[i], x))
    requires EntryRun(None, h[..k], x).Some? && EntryRun(None, h[..k], x).value.job == Some(was)
    ensures EntryRun(None, h, x).Some? && EntryRun(None, h, x).value.job.Some? && JobOptRun(Some(was), h[a..d], x).Some?
    ensures var left, end := JobOptRun(Some(was), h[a..d], x).value, EntryRun(None, h, x).value.job.value;
            var shown := JobOptRun(Some(left), h[m..], x);
            && shown.Some?
            && (StandingOf(shown.value) == StandingOf(end) <==>
                  if LastMark(h[m..], x).Some? then TakenIn(StandingOf(left), h[m..], x)
                  else StandingOf(left) == OrElse(LastMark(h[a..m], x), StandingOf(left)))
            && (shown.value.message == end.message <==>
                  || PutTaken(StandingOf(left), h[m..], x).Some?
                  || left.message == OrElse(LastPut(h[a..], x), left.message))
  {
    JobEnds(h, roomId, a, k, x);
    JobOfParts(h, a, d, m, was, x);
    var left, end := JobOptRun(Some(was), h[a..d], x).value, EntryRun(None, h, x).value.job.value;
    JobHeard(left, end, h[m..], OrElse(LastMark(h[a..m], x), StandingOf(left)),
             OrElse(LastPut(h[a..m], x), left.message), x);
  }

  /** In terms of what was left, not of what the snapshot had. */
  lemma {:induction false} JobOfParts(h: seq<ServerEvent>, a: nat, d: nat, m: nat, was: EnhancementJob, x: string)
    requires a <= d <= m <= |h| && Chain(h[a..], x)
    ensures Chain(h[m..], x)
    ensures var left := JobOptRun(Some(was), h[a..d], x);
            && left.Some?
            && OrElse(LastMark(h[a..], x), StandingOf(was))
                 == OrElse(LastMark(h[m..], x), OrElse(LastMark(h[a..m], x), StandingOf(left.value)))
            && OrElse(LastPut(h[a..], x), was.message)
                 == OrElse(LastPut(h[m..], x), OrElse(LastPut(h[a..m], x), left.value.message))
            && OrElse(LastPut(h[a..], x), left.value.message)
                 == OrElse(LastPut(h[m..], x), OrElse(LastPut(h[a..m], x), left.value.message))
  {
    SplitFrom(h, a, m);
    SplitSlice(h, a, d, m);
    LastAppend(h[a..m], h[m..], x);
    LastAppend(h[a..d], h[d..m], x);
    ChainLater(h[a..m], h[m..], x);
    NothingSaid(was, h[a..d], x);
    var left := JobOptRun(Some(was), h[a..d], x).value;
    assert LastMark(h[a..m], x).None? ==> LastMark(h[a..d], x).None? && left == was;
    assert LastPut(h[a..m], x).None? ==> LastPut(h[a..d], x).None? && left.message == was.message;
  }
}
