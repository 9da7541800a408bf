/**
 * Losing the connection keeps the events held for a room (`ConnectionLost` in client/src/state/roomReducer.ts), and the
 * next snapshot gets them replayed before what was held since. When events were missed between, exactly what do those
 * held from before spoil?
 */
module OldEvents {
  import opened Jobs
  import opened Options
  import opened Sequences
  import opened Sorting
  import opened RoomReducer
  import opened ReplayLists
  import opened ListOrder
  import opened JobReplay
  import opened EntryReplay
  import opened JobStanding
  import opened RoomLists
  import opened PeopleOrder
  import opened ChatWindow
  import opened FeedOrder
  import opened Resync

  /**
   * The client comes back holding any of the events before `s`, in order, hears everything from `s` on, and gets a
   * snapshot that has everyone and everything as they were at `s` or later.
   */
  ghost predicate Returns(state: RoomState, roomId: string, h: seq<ServerEvent>, idx: seq<nat>, s: nat, m: nat,
                          at: Positions,
                          limit: nat, snapshot: ServerEvent)
  {
    && WellFormed(h, roomId) && SparesMe(state.me, h) && s <= m <= |h| && Between(at, s, |h|)
    && !IsCurrentRoom(state, roomId) && |state.heldEvents| <= MAX_HELD
    && Picks(HeldFrom(state, roomId), h[..s], idx) && AllHeldFor(HeldFrom(state, roomId), roomId)
    && |HeldFrom(state, roomId)| + |Held(h[s..m])| <= MAX_HELD
    && SnapshotOf(snapshot, roomId, h, at, limit)
  }

  lemma {:induction false} ListsOver(state: RoomState, roomId: string, h: seq<ServerEvent>, idx: seq<nat>, s: nat,
                                     m: nat, at: Positions,
                                     limit: nat, snapshot: ServerEvent)
    requires Returns(state, roomId, h, idx, s, m, at, limit, snapshot)
    ensures var t, early := Back(state, snapshot, h[s..m], h[m..]), HeldFrom(state, roomId);
            && IsCurrentRoom(t, roomId)
            && t.participants == PeopleRun(snapshot.participants, early + Held(h[s..m]) + h[m..])
            && t.chat == ChatRun(snapshot.chatHistory, early + h[s..])
            && t.media == MediaRun(Sort(NewerEntry(), snapshot.media), early + h[s..])
  {
    HeldInTwo(h, roomId, s, s, m);
    PartsSpareMe(state.me, h, s, m);
    BackIs(state, snapshot, h[s..m], h[m..]);
    SnapshotSorted(h, roomId, at, limit, snapshot);
    SplitFrom(h, s, m);
    RunsWithHeld(snapshot.chatHistory, Sort(NewerEntry(), snapshot.media), HeldFrom(state, roomId), h[s..m], h[m..],
                 roomId);
  }

  // ---- people ----------------------------------------------------------------------------------

  lemma {:induction false} PersonOver(h: seq<ServerEvent>, roomId: string, early: seq<ServerEvent>, s: nat, m: nat,
                                      k: nat, id: string)
    requires AllAnnounced(h, roomId) && RemovalsFollowed(h) && s <= m <= |h| && s <= k <= |h|
    ensures At(Returned(h, early, s, m, k), id) == At(RosterRun(map[], h), id) <==>
              (Mentioned(early, id) && !Mentioned(Held(h[s..m]) + h[m..], id) ==>
                 LastWord(early, id).value == At(RosterRun(map[], h[..k]), id))
  {
    var heard := Held(h[s..m]) + h[m..];
    UndoneRosterIff(h, roomId, s, m, k, id);
    NoneUndone(h, roomId, s, m, k, id);
    Assoc(early, Held(h[s..m]), h[m..]);
    Assoc([], Held(h[s..m]), h[m..]);
    LastDecides(RosterRun(map[], h[..k]), early + heard, id);
    LastDecides(RosterRun(map[], h[..k]), [] + heard, id);
    LastWordAppend(early, heard, id);
    LastWordAppend([], heard, id);
  }

  /**
   * The right people are shown if and only if everyone spoken of in the events from before, and not in those heard
   * since, is in the snapshot as the last of those events has them.
   */
  lemma {:induction false} PeopleOverIff(state: RoomState, roomId: string, h: seq<ServerEvent>, idx: seq<nat>, s: nat,
                                         m: nat,
                                         at: Positions, limit: nat, snapshot: ServerEvent)
    requires Returns(state, roomId, h, idx, s, m, at, limit, snapshot) && RemovalsFollowed(h)
    ensures var early := HeldFrom(state, roomId);
            ShowsPeople(Back(state, snapshot, h[s..m], h[m..]), roomId, h) <==>
              forall id | Mentioned(early, id) && !Mentioned(Held(h[s..m]) + h[m..], id) ::
                LastWord(early, id).value == At(RosterOf(snapshot.participants), id)
  {
    var t, early := Back(state, snapshot, h[s..m], h[m..]), HeldFrom(state, roomId);
    var heard, roster := early + Held(h[s..m]) + h[m..], RosterOf(snapshot.participants);
    ListsOver(state, roomId, h, idx, s, m, at, limit, snapshot);
    PeopleRunFacts(snapshot.participants, heard);
    forall id ensures At(RosterOf(t.participants), id) == At(RosterRun(map[], h), id) <==>
        (Mentioned(early, id) && !Mentioned(Held(h[s..m]) + h[m..], id) ==>
         LastWord(early, id).value == At(roster, id)) {
      SameFrom(roster, RosterRun(map[], h[..at.people(id)]), heard, id);
      PersonOver(h, roomId, early, s, m, at.people(id), id);
    }
    if forall id :: At(RosterOf(t.participants), id) == At(RosterRun(map[], h), id) {
      SameRosters(RosterOf(t.participants), RosterRun(map[], h));
    }
  }

  // ---- chat ------------------------------------------------------------------------------------

  /** The events from before, and those from `s` on, are events of the history in order. */
  lemma {:induction false} PicksOn(h: seq<ServerEvent>, early: seq<ServerEvent>, idx: seq<nat>,
                                   s: nat) returns (more: seq<nat>)
    requires s <= |h| && Picks(early, h[..s], idx)
    ensures Picks(early + h[s..], h, more)
  {
    more := idx + seq(|h| - s, i requires 0 <= i < |h| - s => s + i);
    forall i | 0 <= i < |early| ensures early[i] == h[idx[i]] {
      assert early[i] == h[..s][idx[i]];
    }
  }

  lemma {:induction false} TellPosts(p: seq<ServerEvent>, q: seq<ServerEvent>, id: string)
    ensures PostedIn(p + q, id) <==> PostedIn(p, id) || PostedIn(q, id)
    ensures DeletedIn(p + q, id) <==> DeletedIn(p, id) || DeletedIn(q, id)
  {
    PostedIsAdd(p, id);
    PostedIsAdd(q, id);
    PostedIsAdd(p + q, id);
    DeletedIsRemove(p, id);
    DeletedIsRemove(q, id);
    DeletedIsRemove(p + q, id);
    assert ChatIdEvents(p + q) == ChatIdEvents(p) + ChatIdEvents(q);
  }

  /** A message deleted before `s` is neither seen after that nor posted. */
  lemma {:induction false} DeletedEarlier(h: seq<ServerEvent>, s: nat, k: nat, id: string)
    requires ChatOrderly(h) && s <= k <= |h| && DeletedIn(h[..s], id)
    ensures FindMessage(ChatRun([], h[..k]), id).None? && !PostedIn(h[s..], id)
  {
    var i :| 0 <= i < |h[..s]| && h[..s][i].ChatDeleted? && h[..s][i].messageId == id;
    assert h[..k][i] == h[i] == h[..s][i];
    assert ChatIdEvents(h)[i] == Remove(id);
    NoReuseBefore(h, k);
    PostedLives(h[..k], id);
    MessageFound(ChatRun([], h[..k]), id);
    forall j | 0 <= j < |h[s..]| ensures !(h[s..][j].ChatPosted? && h[s..][j].message.id == id) {
      assert h[s..][j] == h[s + j] && ChatIdEvents(h)[s + j] == ChatIdEvent(h[s + j]);
    }
  }

  lemma {:induction false} PickedTells(early: seq<ServerEvent>, h: seq<ServerEvent>, s: nat, idx: seq<nat>, id: string)
    requires s <= |h| && Picks(early, h[..s], idx)
    ensures PostedIn(early, id) ==> PostedIn(h[..s], id)
    ensures DeletedIn(early, id) ==> DeletedIn(h[..s], id)
  {
    if i :| 0 <= i < |early| && early[i].ChatPosted? && early[i].message.id == id {
      assert h[..s][idx[i]] == early[i];
    }
    if i :| 0 <= i < |early| && early[i].ChatDeleted? && early[i].messageId == id {
      assert h[..s][idx[i]] == early[i];
    }
  }

  lemma {:induction false} PostedBeforeOnly(h: seq<ServerEvent>, s: nat, id: string)
    requires ChatOrderly(h) && s <= |h| && PostedIn(h[..s], id)
    ensures !PostedIn(h[s..], id)
  {
    var i :| 0 <= i < |h[..s]| && h[..s][i].ChatPosted? && h[..s][i].message.id == id;
    forall j | 0 <= j < |h[s..]| ensures !(h[s..][j].ChatPosted? && h[s..][j].message.id == id) {
      assert h[i].ChatPosted? && h[s..][j] == h[s + j];
    }
  }

  /** The message of an id, with the events from before and without them. */
  lemma {:induction false} MessageOver(h: seq<ServerEvent>, given: seq<ChatMessage>, at: string -> nat,
                                       early: seq<ServerEvent>,
                                       idx: seq<nat>, s: nat, id: string)
    requires ChatOrderly(h) && OfHistory(given, h) && s <= |h| && (forall id :: s <= at(id) <= |h|)
    requires (forall m | m in given :: Visible(h, at, m.id) == Some(m)) && Picks(early, h[..s], idx)
    ensures FindMessage(ChatRun(given, early + h[s..]), id)
         == (if id in Brought(given, h[s..]) then FindMessage(ChatRun([], h), id) else None)
       <==> (PostedIn(early, id) && !DeletedIn(early, id) && !DeletedIn(h[s..], id) ==> HasMessage(given, id))
    ensures (PostedIn(early, id) && !DeletedIn(early, id) && !DeletedIn(h[s..], id) ==> HasMessage(given, id)) ==>
              (ChatShown(given, early + h[s..], id) <==> ChatShown(given, h[s..], id))
  {
    var more := PicksOn(h, early, idx, s);
    MessageShown(h, given, early + h[s..], more, id);
    var since := PicksFrom(h, s);
    MessageShown(h, given, h[s..], since, id);
    MessagesReturned(h, s, given, at);
    assert FindMessage(ChatRun(given, h[s..]), id)
        == if id in Brought(given, h[s..]) then FindMessage(ChatRun([], h), id) else None;
    TellPosts(early, h[s..], id);
    PickedTells(early, h, s, idx, id);
    if PostedIn(early, id) {
      PostedBeforeOnly(h, s, id);
    }
    GivenIsSeen(h, given, at, id);
    if DeletedIn(early, id) {
      DeletedEarlier(h, s, at(id), id);
    }
  }

  lemma {:induction false} GivenIsSeen(h: seq<ServerEvent>, given: seq<ChatMessage>, at: string -> nat, id: string)
    requires (forall id :: at(id) <= |h|) && forall m | m in given :: Visible(h, at, m.id) == Some(m)
    ensures HasMessage(given, id) ==> Visible(h, at, id).Some?
  {
    if i :| 0 <= i < |given| && given[i].id == id {
      assert given[i] in given;
    }
  }

  /**
   * The chat shows the messages the snapshot brings and those announced since, each as it is, and no other, if and only
   * if every message posted in the events from before, and deleted in nothing that was heard, is in the snapshot. They
   * then stand in the order in which they were announced exactly as they would without those events.
   */
  lemma {:induction false} ChatOverIff(state: RoomState, roomId: string, h: seq<ServerEvent>, idx: seq<nat>, s: nat,
                                       m: nat,
                                       at: Positions, limit: nat, snapshot: ServerEvent)
    requires Returns(state, roomId, h, idx, s, m, at, limit, snapshot)
    ensures var given, shown := snapshot.chatHistory, Back(state, snapshot, h[s..m], h[m..]).chat;
            && (ShowsMessages(shown, h, Brought(given, h[s..])) <==> AllIn(HeldFrom(state, roomId), h[s..], given))
            && (AllIn(HeldFrom(state, roomId), h[s..], given) ==>
                  (SameOrder(ChatIds(shown), ChatIds(ChatRun([], h))) <==> AnnouncedByTime(h, given, h[s..])))
  {
    var given, early := snapshot.chatHistory, HeldFrom(state, roomId);
    ListsOver(state, roomId, h, idx, s, m, at, limit, snapshot);
    SnapshotSorted(h, roomId, at, limit, snapshot);
    MessagesOver(h, given, at.chat, early, idx, s);
  }

  lemma {:induction false} MessagesOver(h: seq<ServerEvent>, given: seq<ChatMessage>, at: string -> nat,
                                        early: seq<ServerEvent>,
                                        idx: seq<nat>, s: nat)
    requires ChatOrderly(h) && OfHistory(given, h) && ByTime(given) && s <= |h| && (forall id :: s <= at(id) <= |h|)
    requires (forall m | m in given :: Visible(h, at, m.id) == Some(m)) && Picks(early, h[..s], idx)
    ensures ShowsMessages(ChatRun(given, early + h[s..]), h, Brought(given, h[s..])) <==> AllIn(early, h[s..], given)
    ensures AllIn(early, h[s..], given) ==>
              (SameOrder(ChatIds(ChatRun(given, early + h[s..])), ChatIds(ChatRun([], h))) <==>
               AnnouncedByTime(h, given, h[s..]))
  {
    var heard, shown := early + h[s..], ChatRun(given, early + h[s..]);
    ChatRunFacts(given, heard, "");
    IdsStayDistinct(false, ChatIds(given), ChatIdEvents(heard));
    forall id
      ensures FindMessage(shown, id) == (if id in Brought(given, h[s..]) then FindMessage(ChatRun([], h), id) else None)
         <==> (PostedIn(early, id) && !DeletedIn(early, id) && !DeletedIn(h[s..], id) ==> HasMessage(given, id))
      ensures (PostedIn(early, id) && !DeletedIn(early, id) && !DeletedIn(h[s..], id) ==> HasMessage(given, id)) ==>
                (ChatShown(given, heard, id) <==> ChatShown(given, h[s..], id))
    {
      MessageOver(h, given, at, early, idx, s, id);
    }
    if AllIn(early, h[s..], given) {
      ShownIsThere(h, s, given, at);
      var more := PicksOn(h, early, idx, s);
      ChatOrderIff(h, given, heard, more);
      assert AnnouncedByTime(h, given, heard) <==> AnnouncedByTime(h, given, h[s..]);
    }
  }

  lemma {:induction false} PicksUpTo(h: seq<ServerEvent>, early: seq<ServerEvent>, idx: seq<nat>, s: nat,
                                     k: nat) returns (more: seq<nat>)
    requires s <= k <= |h| && Picks(early, h[..s], idx)
    ensures Picks(early + h[s..k], h[..k], more)
  {
    more := idx + seq(k - s, i requires 0 <= i < k - s => s + i);
  }

  /**
   * If the chat's query saw the room at one position `k`, the chat is what the snapshot brings and what came after `k`,
   * in that order, if and only if every message posted before that in what was held, and deleted in nothing that was
   * heard, is one of those it brings.
   */
  lemma {:induction false} WindowOverIff(state: RoomState, roomId: string, h: seq<ServerEvent>, idx: seq<nat>, s: nat,
                                         m: nat,
                                         at: Positions, limit: nat, snapshot: ServerEvent, k: nat)
    requires Returns(state, roomId, h, idx, s, m, at, limit, snapshot) && forall id :: at.chat(id) == k
    ensures Back(state, snapshot, h[s..m], h[m..]).chat == ChatRun(snapshot.chatHistory, h[k..])
       <==> AllIn(HeldFrom(state, roomId) + h[s..k], h[k..], snapshot.chatHistory)
  {
    var given, early := snapshot.chatHistory, HeldFrom(state, roomId);
    ListsOver(state, roomId, h, idx, s, m, at, limit, snapshot);
    assert at.chat("") == k;
    OneWindow(h, at.chat, k, limit, given);
    SplitFrom(h, s, k);
    Assoc(early, h[s..k], h[k..]);
    RunsAppend(map[], given, [], early + h[s..k], h[k..]);
    var more := PicksUpTo(h, early, idx, s, k);
    WindowKeptIff(h, k, given, early + h[s..k], more);
  }

  // ---- the feed: which entries, in which order ---------------------------------------------------

  lemma {:induction false} TellAppend(p: seq<ServerEvent>, q: seq<ServerEvent>, x: string)
    ensures UploadedIn(p + q, x) <==> UploadedIn(p, x) || UploadedIn(q, x)
    ensures DeletedFrom(p + q, x) <==> DeletedFrom(p, x) || DeletedFrom(q, x)
  {
    IdEventsTell(p, x);
    IdEventsTell(q, x);
    IdEventsTell(p + q, x);
    assert MediaIdEvents(p + q) == MediaIdEvents(p) + MediaIdEvents(q);
  }

  /** An item deleted before `s` is neither in the feed after that nor uploaded. */
  lemma {:induction false} GoneEarlier(h: seq<ServerEvent>, s: nat, k: nat, x: string)
    requires FeedOrderly(h) && s <= k <= |h| && DeletedFrom(h[..s], x)
    ensures x !in MediaIds(MediaRun([], h[..k])) && !UploadedIn(h[s..], x)
  {
    var i :| 0 <= i < |h[..s]| && Deletes(h[..s][i], x);
    assert Deletes(h[..k][i], x);
    InFeed(h, k, x);
    FeedIds(h);
    assert MediaIdEvents(h)[i] == Remove(x);
    forall j | 0 <= j < |h[s..]| ensures !Uploads(h[s..][j], x) {
      assert h[s..][j] == h[s + j] && MediaIdEvents(h)[s + j] == MediaIdEvent(h[s + j]);
    }
  }

  lemma {:induction false} PickedFrom(early: seq<ServerEvent>, h: seq<ServerEvent>, s: nat, idx: seq<nat>, x: string)
    requires s <= |h| && Picks(early, h[..s], idx)
    ensures DeletedFrom(early, x) ==> DeletedFrom(h[..s], x)
  {
    if i :| 0 <= i < |early| && Deletes(early[i], x) {
      assert Deletes(h[..s][idx[i]], x);
    }
  }

  /** Every upload in the events from before, that nothing heard deletes, is in the list. */
  ghost predicate NoStrays(early: seq<ServerEvent>, since: seq<ServerEvent>, media: seq<Entry>) {
    forall x | UploadedIn(early, x) && !DeletedFrom(early, x) && !DeletedFrom(since, x) :: HasEntry(media, x)
  }

  /** Whether an entry is shown, with the events from before and without them. */
  lemma {:induction false} EntryStrays(h: seq<ServerEvent>, base: seq<Entry>, at: string -> nat,
                                       early: seq<ServerEvent>,
                                       idx: seq<nat>, s: nat, x: string)
    requires FeedOrderly(h) && s <= |h| && (forall x :: s <= at(x) <= |h|) && Picks(early, h[..s], idx)
    requires forall x :: FindEntry(base, x) == FindEntry(MediaRun([], h[..at(x)]), x)
    ensures (EntryShown(base, early + h[s..], x) <==> EntryShown(base, h[s..], x)) <==>
            (UploadedIn(early, x) && !DeletedFrom(early, x) && !DeletedFrom(h[s..], x) ==>
               HasEntry(base, x) || UploadedIn(h[s..], x))
  {
    TellAppend(early, h[s..], x);
    PickedFrom(early, h, s, idx, x);
    if DeletedFrom(early, x) {
      GoneEarlier(h, s, at(x), x);
      EntryFound(base, x);
      EntryFound(MediaRun([], h[..at(x)]), x);
    }
  }

  /** What was uploaded before `s` is not uploaded again. */
  lemma {:induction false} UploadedBeforeOnly(h: seq<ServerEvent>, early: seq<ServerEvent>, idx: seq<nat>, s: nat,
                                              x: string)
    requires FeedOrderly(h) && s <= |h| && Picks(early, h[..s], idx) && UploadedIn(early, x)
    ensures !UploadedIn(h[s..], x)
  {
    var i :| 0 <= i < |early| && Uploads(early[i], x);
    assert early[i] == h[..s][idx[i]] && Uploads(h[idx[i]], x) && Orderly(NotYet, h, x);
    forall j | 0 <= j < |h[s..]| ensures !Uploads(h[s..][j], x) {
      assert h[s..][j] == h[s + j];
      UploadedOnce(h, x, idx[i], s + j);
    }
  }

  /**
   * The feed has the right entries if and only if every upload in the events from before, that none of the events heard
   * deletes, is in the snapshot; and has them in the right order exactly if it then would without those events.
   */
  lemma {:induction false} FeedOverIff(state: RoomState, roomId: string, h: seq<ServerEvent>, idx: seq<nat>, s: nat,
                                       m: nat,
                                       at: Positions, limit: nat, snapshot: ServerEvent)
    requires Returns(state, roomId, h, idx, s, m, at, limit, snapshot)
    ensures var base, shown := Sort(NewerEntry(), snapshot.media), Back(state, snapshot, h[s..m], h[m..]).media;
            && ((forall x :: HasEntry(shown, x) <==> HasEntry(MediaRun([], h), x)) <==>
                  NoStrays(HeldFrom(state, roomId), h[s..], base))
            && (MediaIds(shown) == MediaIds(MediaRun([], h)) <==>
                  NoStrays(HeldFrom(state, roomId), h[s..], base) && UploadedInOrder(h, base, h[s..]))
  {
    var base, early := Sort(NewerEntry(), snapshot.media), HeldFrom(state, roomId);
    ListsOver(state, roomId, h, idx, s, m, at, limit, snapshot);
    SnapshotSorted(h, roomId, at, limit, snapshot);
    SameEntries(snapshot.media, base);
    EntriesReturned(h, roomId, s, base, at.media);
    EntriesOver(h, base, at.media, early, idx, s);
  }

  lemma {:induction false} EntriesOver(h: seq<ServerEvent>, base: seq<Entry>, at: string -> nat,
                                       early: seq<ServerEvent>,
                                       idx: seq<nat>, s: nat)
    requires FeedOrderly(h) && OfFeed(base, h) && NewestFirst(base) && s <= |h| && (forall x :: s <= at(x) <= |h|)
    requires Picks(early, h[..s], idx) && ShowsFeed(MediaRun(base, h[s..]), h)
    requires forall x :: FindEntry(base, x) == FindEntry(MediaRun([], h[..at(x)]), x)
    ensures var shown, all := MediaRun(base, early + h[s..]), MediaRun([], h);
            && ((forall x :: HasEntry(shown, x) <==> HasEntry(all, x)) <==> NoStrays(early, h[s..], base))
            && (MediaIds(shown) == MediaIds(all) <==> NoStrays(early, h[s..], base) && UploadedInOrder(h, base, h[s..]))
  {
    var shown, all := MediaRun(base, early + h[s..]), MediaRun([], h);
    var more := PicksOn(h, early, idx, s);
    var since := PicksFrom(h, s);
    forall x
      ensures (HasEntry(shown, x) <==> HasEntry(all, x)) <==>
              (UploadedIn(early, x) && !DeletedFrom(early, x) && !DeletedFrom(h[s..], x) ==> HasEntry(base, x))
      ensures HasEntry(shown, x) <==> EntryShown(base, early + h[s..], x)
      ensures HasEntry(all, x) <==> EntryShown(base, h[s..], x)
      ensures x in MediaIds(shown) <==> HasEntry(shown, x)
      ensures x in MediaIds(all) <==> HasEntry(all, x)
    {
      EntryShownIff(h, base, early + h[s..], more, x);
      EntryShownIff(h, base, h[s..], since, x);
      EntryFound(shown, x);
      EntryFound(all, x);
      EntryFound(MediaRun(base, h[s..]), x);
      assert FindEntry(MediaRun(base, h[s..]), x) == FindEntry(all, x);
      EntryStrays(h, base, at, early, idx, s, x);
      if UploadedIn(early, x) {
        UploadedBeforeOnly(h, early, idx, s, x);
      }
    }
    if NoStrays(early, h[s..], base) {
      FeedOrderIff(h, base, early + h[s..], more);
      assert UploadedInOrder(h, base, early + h[s..]) <==> UploadedInOrder(h, base, h[s..]);
      FeedFits(h, base, early + h[s..], more);
      if SameOrder(MediaIds(shown), MediaIds(all)) {
        SameList(MediaIds(shown), MediaIds(all));
      }
    }
  }

  // ---- each entry --------------------------------------------------------------------------------

  /** The item as the last rename among the events has it. */
  function LastItem(events: seq<ServerEvent>, x: string): Option<MediaItem>
    decreases events
  {
    if events == [] then None
    else if LastItem(events[1..], x).Some? then LastItem(events[1..], x)
    else if events[0].MediaUpdated? && events[0].mediaItem.id == x then Some(events[0].mediaItem)
    else None
  }

  lemma {:induction false} ItemIsLast(item: MediaItem, events: seq<ServerEvent>, x: string)
    ensures ItemRun(item, events, x) == if LastItem(events, x).Some? then LastItem(events, x).value else item
    decreases events
  {
    if events != [] {
      ItemIsLast(ItemStep(item, events[0], x), events[1..], x);
    }
  }

  lemma {:induction false} EntryRunAppend(v: Option<Entry>, p: seq<ServerEvent>, q: seq<ServerEvent>, x: string)
    ensures EntryRun(v, p + q, x) == EntryRun(EntryRun(v, p, x), q, x)
    decreases p
  {
    if p == [] {
      assert p + q == q;
    } else {
      TailOfAppend(p, q);
      EntryRunAppend(EntryStep(v, p[0], x), p[1..], q, x);
    }
  }

  /** An item in the feed at `k >= s`, and not deleted from `s` on, is never deleted. */
  lemma {:induction false} NeverDeleted(h: seq<ServerEvent>, s: nat, k: nat, x: string)
    requires FeedOrderly(h) && s <= k <= |h|
    requires x in MediaIds(MediaRun([], h[..k])) && !DeletedFrom(h[s..], x)
    ensures forall i | 0 <= i < |h| :: !Deletes(h[i], x)
  {
    InFeed(h, k, x);
    forall i | 0 <= i < |h| ensures !Deletes(h[i], x) {
      if i < k {
        assert h[..k][i] == h[i];
      } else {
        assert h[s..][i - s] == h[i];
      }
    }
  }

  /** An entry, and two runs of events none of which deletes it. */
  lemma {:induction false} EntryHeard(base: seq<Entry>, was: Entry, first: seq<ServerEvent>, later: seq<ServerEvent>,
                                      x: string)
    requires FindEntry(base, x) == Some(was)
    requires (forall i | 0 <= i < |first| :: !Deletes(first[i], x))
    requires (forall i | 0 <= i < |later| :: !Deletes(later[i], x))
    ensures FindEntry(MediaRun(base, first + later), x)
         == Some(Entry(ItemRun(ItemRun(was.mediaItem, first, x), later, x),
                       JobOptRun(JobOptRun(was.job, first, x), later, x)))
  {
    MediaRunFacts(base, first + later, x);
    EntryRunAppend(Some(was), first, later, x);
    RunSplits(was, first, x);
    RunSplits(EntryRun(Some(was), first, x).value, later, x);
  }

  /** Such an entry as it is shown, and as it is: both are what the snapshot has, with the same events applied last. */
  lemma {:induction false} EntryOver(h: seq<ServerEvent>, roomId: string, base: seq<Entry>, early: seq<ServerEvent>,
                                     idx: seq<nat>,
                                     s: nat, k: nat, x: string)
    requires WellFormed(h, roomId) && s <= k <= |h| && Picks(early, h[..s], idx)
    requires FindEntry(base, x) == FindEntry(MediaRun([], h[..k]), x) && HasEntry(base, x) && !DeletedFrom(h[s..], x)
    ensures forall i | 0 <= i < |h| :: !Deletes(h[i], x)
    ensures FindEntry(base, x).Some?
    ensures var was := FindEntry(base, x).value;
            && FindEntry(MediaRun(base, early + h[s..]), x)
                 == Some(Entry(ItemRun(ItemRun(was.mediaItem, early, x), h[s..], x),
                               JobOptRun(JobOptRun(was.job, early, x), h[s..], x)))
            && FindEntry(MediaRun([], h), x)
                 == Some(Entry(ItemRun(was.mediaItem, h[s..], x), JobOptRun(was.job, h[s..], x)))
  {
    EntryFound(base, x);
    EntryFound(MediaRun([], h[..k]), x);
    NeverDeleted(h, s, k, x);
    var was := FindEntry(base, x).value;
    forall i | 0 <= i < |early| ensures !Deletes(early[i], x) {
      assert early[i] == h[..s][idx[i]] == h[idx[i]];
    }
    EntryHeard(base, was, early, h[s..], x);
    FeedReturned(h, roomId, s, k);
    MediaRunFacts(MediaRun([], h[..k]), h[s..], x);
    RunSplits(was, h[s..], x);
  }

  /** What the snapshot has of `x`, what is shown of it, and what it is. */
  function Was(snapshot: ServerEvent, x: string): Option<Entry>
    requires snapshot.RoomSnapshot?
  {
    FindEntry(Sort(NewerEntry(), snapshot.media), x)
  }

  /** The same, with `shown` and `truth` the entry as it is shown and as it is. */
  lemma {:induction false} EntryBack(state: RoomState, roomId: string, h: seq<ServerEvent>, idx: seq<nat>, s: nat,
                                     m: nat,
                                     at: Positions, limit: nat, snapshot: ServerEvent, x: string)
    requires Returns(state, roomId, h, idx, s, m, at, limit, snapshot)
    requires Was(snapshot, x).Some? && !DeletedFrom(h[s..], x)
    ensures forall i | 0 <= i < |h| :: !Deletes(h[i], x)
    ensures Was(snapshot, x) == EntryRun(None, h[..at.media(x)], x) && Was(snapshot, x).value.job.Some?
    ensures var was, early := Was(snapshot, x).value, HeldFrom(state, roomId);
            && FindEntry(Back(state, snapshot, h[s..m], h[m..]).media, x)
                 == Some(Entry(ItemRun(ItemRun(was.mediaItem, early, x), h[s..], x),
                               JobOptRun(JobOptRun(was.job, early, x), h[s..], x)))
            && FindEntry(MediaRun([], h), x)
                 == Some(Entry(ItemRun(was.mediaItem, h[s..], x), JobOptRun(was.job, h[s..], x)))
  {
    var base, k := Sort(NewerEntry(), snapshot.media), at.media(x);
    ListsOver(state, roomId, h, idx, s, m, at, limit, snapshot);
    SnapshotSorted(h, roomId, at, limit, snapshot);
    EntryFound(base, x);
    EntryOver(h, roomId, base, HeldFrom(state, roomId), idx, s, k, x);
    MediaRunFacts([], h[..k], x);
    KeepsJob(None, h[..k], x);
  }

  /** An entry has had a job since its upload. */
  lemma {:induction false} KeepsJob(v: Option<Entry>, events: seq<ServerEvent>, x: string)
    requires v.Some? ==> v.value.job.Some?
    ensures EntryRun(v, events, x).Some? ==> EntryRun(v, events, x).value.job.Some?
    decreases events
  {
    if events != [] {
      KeepsJob(EntryStep(v, events[0], x), events[1..], x);
    }
  }

  /**
   * An entry of the snapshot that is not deleted shows the right item if and only if it was renamed since, or not in
   * the events from before, or the last of those has it as the snapshot does.
   */
  lemma {:induction false} ItemOverIff(state: RoomState, roomId: string, h: seq<ServerEvent>, idx: seq<nat>, s: nat,
                                       m: nat,
                                       at: Positions, limit: nat, snapshot: ServerEvent, x: string)
    requires Returns(state, roomId, h, idx, s, m, at, limit, snapshot)
    requires Was(snapshot, x).Some? && !DeletedFrom(h[s..], x)
    ensures var shown, truth := FindEntry(Back(state, snapshot, h[s..m], h[m..]).media, x),
            FindEntry(MediaRun([], h), x);
            && shown.Some? && truth.Some?
            && (shown.value.mediaItem == truth.value.mediaItem <==>
                  Heals(LastItem(h[s..], x), LastItem(HeldFrom(state, roomId), x), Was(snapshot, x).value.mediaItem))
  {
    var early, was := HeldFrom(state, roomId), Was(snapshot, x).value;
    EntryBack(state, roomId, h, idx, s, m, at, limit, snapshot, x);
    ItemIsLast(was.mediaItem, early, x);
    ItemIsLast(ItemRun(was.mediaItem, early, x), h[s..], x);
    ItemIsLast(was.mediaItem, h[s..], x);
  }

  /** `now` is right, unless events from before put something else and nothing since did. */
  predicate Heals<T(==)>(since: Option<T>, early: Option<T>, now: T) {
    since.Some? || early.None? || early == Some(now)
  }

  // ---- each job ----------------------------------------------------------------------------------

  /** A job somewhere, and one that is right, after the same events: `stood` and `said` are the latter's before them. */
  lemma {:induction false} JobHeard(left: EnhancementJob, end: EnhancementJob, since: seq<ServerEvent>, stood: Standing,
                                    said: Option<string>, x: string)
    requires Chain(since, x)
    requires StandingOf(end) == OrElse(LastMark(since, x), stood) && end.message == OrElse(LastPut(since, x), said)
    ensures var shown := JobOptRun(Some(left), since, x);
            && shown.Some?
            && (StandingOf(shown.value) == StandingOf(end) <==>
                  if LastMark(since, x).Some? then TakenIn(StandingOf(left), since, x) else StandingOf(left) == stood)
            && (shown.value.message == end.message <==>
                  PutTaken(StandingOf(left), since, x).Some? || left.message == OrElse(LastPut(since, x), said))
  {
    TakesSome(left, since, x);
    TakenPutIsLast(StandingOf(left), since, x);
    if LastMark(since, x).Some? && !TakenIn(StandingOf(left), since, x) {
      NotTakenDiffers(StandingOf(left), since, x);
    }
    if LastMark(since, x).None? {
      NoLastMark(since, x);
    }
  }

  /** What someone there throughout sees of a job, from any position on. */
  lemma {:induction false} JobEnds(h: seq<ServerEvent>, roomId: string, s: nat, k: nat, x: string)
    requires WellFormed(h, roomId) && s <= k <= |h| && (forall i | 0 <= i < |h| :: !Deletes(h[i], x))
    requires EntryRun(None, h[..k], x).Some?
    ensures Chain(h[s..], x)
    ensures var was, end := EntryRun(None, h[..k], x), EntryRun(None, h, x);
            && was.value.job.Some? && end.Some? && end.value.job.Some?
            && EndsAs(was.value.job.value, end.value.job.value, h[s..], x)
  {
    var life := LifeRun(NotYet, h[..s], x);
    CutAt(h, s, k);
    assert Orderly(NotYet, h, x);
    OrderlySplit(NotYet, h[..s], h[s..], x);
    LifeIs(NotYet, h[..s], x);
    EntryRunAppend(None, h[..s], h[s..][..k - s], x);
    EntryRunAppend(None, h[..s], h[s..], x);
    LiveEnds(life, h[s..], k - s, x);
  }

  lemma {:induction false} CutAt(h: seq<ServerEvent>, s: nat, k: nat)
    requires s <= k <= |h|
    ensures h == h[..s] + h[s..] && h[..k] == h[..s] + h[s..][..k - s]
  {
  }

  /** Without a deletion an item is not gone, and it has a job. */
  lemma {:induction false} LifeIs(life: Life, events: seq<ServerEvent>, x: string)
    requires !life.Gone? && (life.Here? ==> life.entry.job.Some?)
    requires (forall i | 0 <= i < |events| :: !Deletes(events[i], x))
    requires Orderly(life, events, x)
    ensures !LifeRun(life, events, x).Gone?
    ensures (LifeRun(life, events, x).Here? ==> LifeRun(life, events, x).entry.job.Some?)
    decreases events
  {
    if events != [] {
      assert !Deletes(events[0], x);
      LifeIs(LifeStep(life, events[0], x), events[1..], x);
    }
  }

  lemma {:induction false} InOrderPicked(h: seq<ServerEvent>, events: seq<ServerEvent>, idx: seq<nat>, x: string)
    requires InOrder(h, x) && Picks(events, h, idx)
    ensures InOrder(events, x)
  {
    forall i, j | 0 <= i < j < |events| && Mark(events[i], x).Some?
      ensures Comes(Mark(events[i], x).value, events[j], x) {
      assert events[i] == h[idx[i]] && events[j] == h[idx[j]];
    }
  }

  lemma {:induction false} InOrderFrom(h: seq<ServerEvent>, s: nat, x: string)
    requires InOrder(h, x) && s <= |h|
    ensures InOrder(h[s..], x)
  {
    InOrderPicked(h, h[s..], seq(|h| - s, i requires 0 <= i < |h| - s => s + i), x);
  }

  /** An event before `s <= k` is old to where the job stands at `k`. */
  lemma {:induction false} EarlierIsOld(h: seq<ServerEvent>, k: nat, f: Standing, q: nat, x: string)
    requires InOrder(h, x) && k <= |h| && StandsAt(h, k, x, f) && q < k
    ensures OldTo(f, h[q], x)
  {
    NoLastMark(h[..k], x);
    assert h[..k][q] == h[q];
    if Mark(h[q], x).Some? {
      var p := LastMarkIs(h[..k], x);
      assert h[..k][p] == h[p];
      assert q < p ==> Comes(Mark(h[q], x).value, h[p], x);
    }
  }

  /** Where the job stands at `k` follows the events from `s <= k` on to the last. */
  lemma {:induction false} FollowsOn(h: seq<ServerEvent>, s: nat, k: nat, f: Standing, x: string)
    requires InOrder(h, x) && s <= k <= |h| && StandsAt(h, k, x, f)
    ensures StandRun(f, h[s..], x) == if LastMark(h[s..], x).Some? then LastMark(h[s..], x).value else f
  {
    InOrderFrom(h, s, x);
    NoLastMark(h[..k], x);
    if LastMark(h[..k], x).Some? {
      var p := LastMarkIs(h[..k], x);
      assert h[..k][p] == h[p];
      if p < s {
        forall i | 0 <= i < |h[s..]| ensures Comes(f, h[s..][i], x) {
          assert h[s..][i] == h[s + i];
        }
        Behind(f, h[s..], x);
      } else {
        assert h[s..][p - s] == h[p];
        Within(h[s..], x, p - s);
      }
    } else {
      forall i | 0 <= i < |h[s..]| ensures Comes(f, h[s..][i], x) {
        assert h[s..][i] == h[s + i];
        assert s + i < k ==> h[..k][s + i] == h[s + i];
      }
      Behind(f, h[s..], x);
    }
  }

  /** An event from before, too. */
  lemma {:induction false} EarlierFollows(h: seq<ServerEvent>, s: nat, q: nat, x: string)
    requires InOrder(h, x) && q < s <= |h| && Mark(h[q], x).Some?
    ensures StandRun(Mark(h[q], x).value, h[s..], x) == if LastMark(h[s..], x).Some? then LastMark(h[s..], x).value
              else Mark(h[q], x).value
  {
    InOrderFrom(h, s, x);
    forall i | 0 <= i < |h[s..]| ensures Comes(Mark(h[q], x).value, h[s..][i], x) {
      assert h[s..][i] == h[s + i];
    }
    Behind(Mark(h[q], x).value, h[s..], x);
  }

  lemma {:induction false} StandingOver(h: seq<ServerEvent>, early: seq<ServerEvent>, idx: seq<nat>, s: nat, k: nat,
                                        f: Standing, x: string)
    requires InOrder(h, x) && s <= k <= |h| && StandsAt(h, k, x, f) && Picks(early, h[..s], idx)
    ensures StandRun(StandRun(f, early, x), h[s..], x) == StandRun(f, h[s..], x) <==>
              LastMark(h[s..], x).Some? || OnlyUpdatesOf(early, x, f.id) || LastMark(early, x) == Some(f)
  {
    InOrderPicked(h, early, idx, x);
    forall i | 0 <= i < |early| ensures OldTo(f, early[i], x) {
      EarlierIsOld(h, k, f, idx[i], x);
    }
    AfterOldEvents(f, early, x);
    FollowsOn(h, s, k, f, x);
    if !OnlyUpdatesOf(early, x, f.id) {
      var p := LastMarkIs(early, x);
      EarlierFollows(h, s, idx[p], x);
    }
  }

  /**
   * Where old events leave the job is right exactly as said, if retries are announced before all else of their jobs.
   */
  lemma {:induction false} RetriesFirstStand(h: seq<ServerEvent>, early: seq<ServerEvent>, idx: seq<nat>, s: nat,
                                             k: nat,
                                             was: EnhancementJob, x: string)
    requires Orderly(NotYet, h, x) && RetriesFirst(h, x) && (forall i | 0 <= i < |h| :: !Deletes(h[i], x))
    requires s <= k <= |h| && Picks(early, h[..s], idx)
    requires EntryRun(None, h[..k], x).Some? && EntryRun(None, h[..k], x).value.job == Some(was)
    ensures var left := JobOptRun(Some(was), early, x);
            && left.Some?
            && var shown, truth := JobOptRun(left, h[s..], x), JobOptRun(Some(was), h[s..], x);
               && shown.Some? && truth.Some?
               && (StandingOf(shown.value) == StandingOf(truth.value) <==>
                     || LastMark(h[s..], x).Some?
                     || OnlyUpdatesOf(early, x, was.id)
                     || LastMark(early, x) == Some(StandingOf(was)))
  {
    HistoryInOrder(h, x);
    JobStandsAt(h, k, x);
    StandingFollows(was, early, x);
    StandingFollows(JobOptRun(Some(was), early, x).value, h[s..], x);
    StandingFollows(was, h[s..], x);
    StandingOver(h, early, idx, s, k, StandingOf(was), x);
  }

  /**
   * Let `left` be the snapshot's job with the events from before applied. The job stands where it should, by run,
   * status and progress, if and only if one of the events since is not stale for `left`; or none says anything of the
   * job, and `left` stands where the snapshot's job does. It has the right message if and only if an event since put
   * one, from the first on that was not stale for `left`, or `left` has it already. If retries are announced before
   * anything else of their jobs, `left` stands right, without further news, exactly if all that the events from
   * before say is updates of the run the snapshot has, or the last of them is where it stands; and any news of the
   * job sets it right.
   */
  lemma {:induction false} JobOverIff(state: RoomState, roomId: string, h: seq<ServerEvent>, idx: seq<nat>, s: nat,
                                      m: nat,
                                      at: Positions, limit: nat, snapshot: ServerEvent, x: string)
    requires Returns(state, roomId, h, idx, s, m, at, limit, snapshot)
    requires Was(snapshot, x).Some? && !DeletedFrom(h[s..], x)
    ensures var early, shown := HeldFrom(state, roomId), FindEntry(Back(state, snapshot, h[s..m], h[m..]).media, x);
            var truth, was := FindEntry(MediaRun([], h), x), Was(snapshot, x).value.job;
            && was.Some? && shown.Some? && shown.value.job.Some? && truth.Some? && truth.value.job.Some?
            && var left := JobOptRun(was, early, x);
               && left.Some?
               && (StandingOf(shown.value.job.value) == StandingOf(truth.value.job.value) <==>
                     if LastMark(h[s..], x).Some? then TakenIn(StandingOf(left.value), h[s..], x)
                     else StandingOf(left.value) == StandingOf(was.value))
               && (shown.value.job.value.message == truth.value.job.value.message <==>
                     || PutTaken(StandingOf(left.value), h[s..], x).Some?
                     || left.value.message == OrElse(LastPut(h[s..], x), was.value.message))
               && (RetriesFirst(h, x) ==>
                     (StandingOf(shown.value.job.value) == StandingOf(truth.value.job.value) <==>
                        || LastMark(h[s..], x).Some?
                        || OnlyUpdatesOf(early, x, was.value.id)
                        || LastMark(early, x) == Some(StandingOf(was.value))))
  {
    var early, k := HeldFrom(state, roomId), at.media(x);
    EntryBack(state, roomId, h, idx, s, m, at, limit, snapshot, x);
    var was := Was(snapshot, x).value.job.value;
    MediaRunFacts([], h, x);
    JobEnds(h, roomId, s, k, x);
    StandingFollows(was, early, x);
    var left, end := JobOptRun(Some(was), early, x).value, EntryRun(None, h, x).value.job.value;
    JobHeard(left, end, h[s..], StandingOf(was), was.message, x);
    if RetriesFirst(h, x) {
      assert Orderly(NotYet, h, x);
      RetriesFirstStand(h, early, idx, s, k, was, x);
    }
  }

  // ---- each job's outcome --------------------------------------------------------------------------

  /** The artifacts an event puts on the job of `x`, whatever was there. */
  function PutArtifacts(event: ServerEvent, x: string): Option<seq<string>> {
    if NewJob(event, x) then Some(event.job.value.artifacts)
    else if ForJob(event, x) && event.JobComplete? && |event.artifacts| > 0 then Some(event.artifacts)
    else None
  }

  function LastArtifacts(events: seq<ServerEvent>, x: string): Option<seq<string>>
    decreases events
  {
    if events == [] then None
    else if LastArtifacts(events[1..], x).Some? then LastArtifacts(events[1..], x)
    else PutArtifacts(events[0], x)
  }

  /** The error it leaves there: a failure that names none leaves the one before. */
  function PutError(event: ServerEvent, x: string): Option<Option<string>> {
    if NewJob(event, x) then Some(event.job.value.error)
    else if ForJob(event, x) && event.JobComplete? && (event.outcome.Done? || event.error.Some?) then Some(event.error)
    else None
  }

  function LastError(events: seq<ServerEvent>, x: string): Option<Option<string>>
    decreases events
  {
    if events == [] then None
    else if LastError(events[1..], x).Some? then LastError(events[1..], x)
    else PutError(events[0], x)
  }

  lemma {:induction false} OutcomeIsLast(job: EnhancementJob, events: seq<ServerEvent>, x: string)
    ensures var after := JobOptRun(Some(job), events, x);
            && after.Some?
            && after.value.artifacts == (if LastArtifacts(events, x).Some? then LastArtifacts(events, x).value
                                         else job.artifacts)
            && after.value.error == (if LastError(events, x).Some? then LastError(events, x).value else job.error)
            && after.value.progress == OrElse(ReportTaken(StandingOf(job), events, x), job.progress)
    decreases events
  {
    if events != [] {
      OutcomeIsLast(JobOptStep(Some(job), events[0], x).value, events[1..], x);
    }
  }

  /** The progress of a job somewhere, and of one that is right: it had `reached` before the same events. */
  lemma {:induction false} ProgressHeard(left: EnhancementJob, end: EnhancementJob, since: seq<ServerEvent>,
                                         reached: real, x: string)
    requires Chain(since, x) && end.progress == OrElse(LastReport(since, x), reached)
    ensures var shown := JobOptRun(Some(left), since, x);
            && shown.Some?
            && (shown.value.progress == end.progress <==>
                  || ReportTaken(StandingOf(left), since, x).Some?
                  || left.progress == OrElse(LastReport(since, x), reached))
  {
    ProgressIsLast(left, since, x);
    TakenReportIsLast(StandingOf(left), since, x);
  }

  /**
   * Its artifacts are right if and only if some were put since, or none in the events from before, or in the last of
   * those the same that the snapshot has; and so with its error. Its progress is, if and only if an event since put
   * one, and was not stale for where the events from before left the job; or they left it with the right one.
   */
  lemma {:induction false} OutcomeOverIff(state: RoomState, roomId: string, h: seq<ServerEvent>, idx: seq<nat>, s: nat,
                                          m: nat,
                                          at: Positions, limit: nat, snapshot: ServerEvent, x: string)
    requires Returns(state, roomId, h, idx, s, m, at, limit, snapshot)
    requires Was(snapshot, x).Some? && !DeletedFrom(h[s..], x)
    ensures var early, shown := HeldFrom(state, roomId), FindEntry(Back(state, snapshot, h[s..m], h[m..]).media, x);
            var truth, was := FindEntry(MediaRun([], h), x), Was(snapshot, x).value.job;
            && was.Some? && shown.Some? && shown.value.job.Some? && truth.Some? && truth.value.job.Some?
            && (shown.value.job.value.artifacts == truth.value.job.value.artifacts <==>
                  Heals(LastArtifacts(h[s..], x), LastArtifacts(early, x), was.value.artifacts))
            && (shown.value.job.value.error == truth.value.job.value.error <==>
                  Heals(LastError(h[s..], x), LastError(early, x), was.value.error))
            && var left := JobOptRun(was, early, x);
               && left.Some?
               && (shown.value.job.value.progress == truth.value.job.value.progress <==>
                     || ReportTaken(StandingOf(left.value), h[s..], x).Some?
                     || left.value.progress == OrElse(LastReport(h[s..], x), was.value.progress))
  {
    var early := HeldFrom(state, roomId);
    EntryBack(state, roomId, h, idx, s, m, at, limit, snapshot, x);
    var job := Was(snapshot, x).value.job.value;
    OutcomeIsLast(job, early, x);
    MediaRunFacts([], h, x);
    JobEnds(h, roomId, s, at.media(x), x);
    ProgressHeard(JobOptRun(Some(job), early, x).value, EntryRun(None, h, x).value.job.value, h[s..], job.progress, x);
    OutcomeIsLast(JobOptRun(Some(job), early, x).value, h[s..], x);
    OutcomeIsLast(job, h[s..], x);
  }
}
